/** The error-carrying return type shared by the shader pipeline and the renderer
    (the repository returns `anyhow::Result` from every fallible operation). */
module Results {

  datatype Result<+T, +E> = Ok(value: T) | Err(error: E)
}
