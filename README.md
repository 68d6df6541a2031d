# ComEngine renderer, modelled in Dafny

This project models the renderer of ComEngine, a small Rust game engine on OpenGL. It has three parts:

- **Batching** (`src/renderer/batch.rs`, module `Batches` in `batch.dfy`).
  - `BatchManager` keeps a per-frame list of batches. `add_polygon` and `add_quad` append a triangle or a quad to the last batch. They open a new batch when there is none, or when the last one already holds at least `vertex_per_batch` vertices.
  - `draw` issues one indexed draw per batch in insertion order, then empties the list.
  - The class keeps the list in a `seq<Batch>` field. Its methods are proved against the functions `Add` / `AppendTo` on batch lists, and the lemmas are stated about those functions.
- **Shaders** (`src/renderer/shader.rs`, module `Shaders` in `shader.dfy`).
  - `parse` splits a combined source on `"\n"`. It skips empty lines, switches stage on lines that contain `#stage vertex` or `#stage fragment`, and appends every other line, preceded by a newline, to the current stage's text. A content line before any directive is an error.
  - The loop is the method `ParseSource`, proved equal to the recursive `Parse`. `Parse` is characterised by which lines reach each stage, and a re-serialising round trip is proved.
  - `check_for_errors` and `from_string_unchecked` / `from_file_unchecked` are functions returning the result together with the trace of driver calls they make. The driver's compile verdicts, its program name and the file read are inputs.
- **Renderer** (`src/renderer/mod.rs`, module `Render` in `renderer.dfy`).
  - `Renderer` holds a clear colour (initially 0.3, 0.3, 0.3, 1.0), the base shader and a `BatchManager` with a threshold of 100.
  - `present` clears the screen, batches one fixed triangle and draws. The invariant kept between frames is that the manager holds no batches, so every frame issues the same single draw: three vertices, indices 0, 1, 2.

`results.dfy` holds the shared `Result` type.

## Model

| member | source | states |
|---|---|---|
| `Batches.BatchManager.constructor` | src/renderer/batch.rs:33-38 | the manager keeps the given threshold and starts with no batches |
| `Batches.BatchManager.AddPolygon` | src/renderer/batch.rs:41-67 | with no batch, or a last batch already at or over the threshold, a batch `(the 3 vertices, [0,1,2])` is appended; otherwise only the last batch changes, gaining the vertices and `start, start+1, start+2` with `start` its index count before the call; the list stays well formed |
| `Batches.BatchManager.AddQuad` | src/renderer/batch.rs:70-101 | the same with 4 vertices and the pattern `[0,1,3,1,2,3]` offset by the last batch's index count |
| `Batches.BatchManager.Draw` | src/renderer/batch.rs:106-167 | returns one draw per batch in insertion order, each uploading that batch's vertices and indices and drawing all of its indices; the list is empty afterwards |
| `Batches.DrawTwice` | src/renderer/batch.rs:165-166 | a second draw right after a first issues nothing: batches are consumed once |
| `Batches.AddCases` | src/renderer/batch.rs:41-101 | an append opens a batch exactly when the list grows; an opened batch holds exactly the primitive; otherwise earlier batches are untouched and the last one is extended with the pattern offset by its index count |
| `Batches.AddTotals` | src/renderer/batch.rs:41-101 | each append adds 3 or 4 vertices and 3 or 6 indices to the totals, and at most one batch |
| `Batches.AppendPreservesWellFormed` | src/renderer/batch.rs:43-58 | appending keeps every batch non-empty and at most `max(threshold, 1) + 3` vertices, and every batch but the last at or over the threshold |
| `Batches.AddPolygonKeepsSequential` | src/renderer/batch.rs:59-66 | a polygon appended to batches whose indices are `0..n-1` over `n` vertices keeps them so |
| `Batches.PolygonBatchesSequential` | src/renderer/batch.rs:41-67 | a list built from polygons alone has, in each batch, one index per vertex numbered in order (`[0,1,2,3,4,5,6,7,8]` for three), so every index names a vertex |
| `Batches.TwoQuadsIndexPastEnd` | src/renderer/batch.rs:88-100 | as written, two quads in one batch get indices `[0,1,3,1,2,3,6,7,9,7,8,9]` over 8 vertices, so some index is out of range |
| `Batches.QuadThenPolygonIndexPastEnd` | src/renderer/batch.rs:59-66 | as written, a polygon after a quad gets `[6,7,8]` over 7 vertices |
| `Batches.CorrectedIndicesInRange` | src/renderer/batch.rs:92-100 | with the vertex count as offset, every index of every batch is in range for any mix of polygons and quads |
| `Batches.TwoQuadsCorrected` | src/renderer/batch.rs:88-100 | with the vertex count as offset, two quads give `[0,1,3,1,2,3,4,5,7,5,6,7]` |
| `Batches.CorrectionAgreesOnPolygons` | src/renderer/batch.rs:59-66 | for polygons alone the as-written and the corrected offsets build the same batches |
| `Batches.PolygonsShareFirstBatch` | src/renderer/batch.rs:50-58 | while `3(n-1)` is below the threshold, `n` polygons share one batch of `3n` vertices, because the test runs before the append |
| `Batches.ThresholdOvershoot` | src/renderer/batch.rs:50-58 | with threshold 100, 34 polygons make one batch of 102 vertices, and a 35th opens a second batch of 3 |
| `Batches.NinePerBatch` | src/renderer/batch.rs:50-58 | with threshold 9, three polygons fill one batch to 9 vertices and a fourth opens a second batch |
| `Batches.DrawTraceAt` | src/renderer/batch.rs:108-162 | the `i`-th draw uploads the `i`-th batch and draws all of its indices; there are as many draws as batches |
| `Batches.DrawnIndicesTotal` | src/renderer/batch.rs:159-162 | over a frame, the index counts drawn add up to the indices batched |
| `Batches.DrawCallsNonEmpty` | src/renderer/batch.rs:121-157 | on a well-formed list every draw has a vertex to take the address of and a non-zero index count |
| `Shaders.SplitLines` | src/renderer/shader.rs:107 | splitting always gives at least one piece |
| `Shaders.SplitThenJoin` | src/renderer/shader.rs:107 | the pieces hold no newline and join back with newlines to the source |
| `Shaders.SplitAround` | src/renderer/shader.rs:107 | splitting `x + "\n" + y` gives the pieces of `x` followed by those of `y` |
| `Shaders.JoinThenSplit` | src/renderer/shader.rs:107 | joining newline-free pieces and splitting gives the pieces back |
| `Shaders.SplitPrefixed` | src/renderer/shader.rs:107 | a newline-free head followed by `"\n" + line` for each line splits into the head and those lines |
| `Shaders.ParseSource` | src/renderer/shader.rs:98-130 | the loop over the lines returns exactly `Parse(source)` |
| `Shaders.ParseFromMeaning` | src/renderer/shader.rs:105-127 | from any marker and texts, the parser's result is the reference `Attributed`: the no-stage error exactly when a content line comes while no stage is set, otherwise each text followed by `"\n" + line` for each of its stage's lines, in order |
| `Shaders.ParseMeaning` | src/renderer/shader.rs:98-130 | `parse` fails with the no-stage message exactly when a content line precedes every directive; otherwise the two texts are the newline-prefixed vertex lines and fragment lines |
| `Shaders.StageLinesAreContent` | src/renderer/shader.rs:108-126 | every line a stage receives is a non-empty, directive-free line of the input |
| `Shaders.ParseContentRun` | src/renderer/shader.rs:121-126 | under a set stage, a run of content lines is appended to that stage's text only |
| `Shaders.NoVertexInFragment` | src/renderer/shader.rs:113-120 | the fragment directive does not contain the vertex directive |
| `Shaders.DirectivesAreDistinct` | src/renderer/shader.rs:113-120 | each directive contains itself and not the other, and neither contains a newline, so each directive line sets its own stage |
| `Shaders.ParseVertexDirective` | src/renderer/shader.rs:113-116 | a vertex directive line sets the marker to the vertex stage and adds nothing |
| `Shaders.ParseFragmentDirective` | src/renderer/shader.rs:117-120 | a fragment directive line sets the marker to the fragment stage and adds nothing |
| `Shaders.SerialisedLines` | src/renderer/shader.rs:107 | the re-serialised text splits into the vertex directive, the vertex lines, the fragment directive and the fragment lines |
| `Shaders.ParseSerialised` | src/renderer/shader.rs:112-129 | parsing those lines gives back the two newline-prefixed texts |
| `Shaders.RoundTrip` | src/renderer/shader.rs:98-130 | for any source that parses to `(v, f)`, the text `"#stage vertex" + v + "\n" + "#stage fragment" + f` parses to `(v, f)` again |
| `Shaders.EmptyAndBlankLines` | src/renderer/shader.rs:107-126 | empty input and input of only newlines give two empty texts; a lone space or carriage return before any directive is content and fails |
| `Shaders.Shader.Program` | src/renderer/shader.rs:92-94 | `program()` returns the shader's program name |
| `Shaders.Shader.Bind` | src/renderer/shader.rs:87-89 | `bind_unchecked` makes exactly this shader's program current |
| `Shaders.LoadedProgram` | src/renderer/shader.rs:60-70 | a successful load's shader carries the program name the driver created, and binding it uses that program |
| `Shaders.CheckForErrors` | src/renderer/shader.rs:133-156 | success exactly when both stages compiled; a failed vertex stage gives its log and the fragment status is never queried; otherwise a failed fragment stage gives its log |
| `Shaders.FromStringUnchecked` | src/renderer/shader.rs:37-71 | a parse error makes no driver call; the shader objects are created exactly when parsing succeeds; the load succeeds exactly when parsing succeeds, no text holds a NUL and both stages compile, and then it ends with create, attach, attach, link, delete, delete and returns the program; a program is created and the objects deleted only on success; with both stages failing the vertex log is reported |
| `Shaders.FromFileUnchecked` | src/renderer/shader.rs:77-84 | a failed read is an I/O error with no driver call; otherwise it is loading from the text read |
| `Render.DemoTriangle` | src/renderer/mod.rs:52-65 | the frame's triangle has three opaque vertices at distinct positions in the z = 0 plane |
| `Render.FrameDrawsOneTriangle` | src/renderer/mod.rs:40-69 | a frame that starts with no batches sets the clear colour, clears, and issues exactly one draw of the triangle's three vertices with indices `[0,1,2]` |
| `Render.Renderer.constructor` | src/renderer/mod.rs:21-25 | the clear colour is (0.3, 0.3, 0.3, 1.0), the shader is the given one, and a fresh manager with threshold 100 holds no batches |
| `Render.Renderer.New` | src/renderer/mod.rs:20-26 | a failed base-shader load is returned as the error; otherwise a fresh renderer in its initial state; the driver calls are those of the load |
| `Render.Renderer.SetClearColor` | src/renderer/mod.rs:29-31 | the clear colour becomes exactly `(r, g, b, a)` and nothing else changes |
| `Render.Renderer.BindBaseShader` | src/renderer/mod.rs:34-37 | makes the base shader's program current |
| `Render.Renderer.Present` | src/renderer/mod.rs:40-69 | the events are the clear with the current colour, then the draws of the pending batches with the triangle added; that is one draw of 3 vertices with indices `[0,1,2]`, and the manager is empty again |
| `Render.RecolourAndPresent` | src/renderer/mod.rs:29-50 | after `set_clear_color`, the next frame clears with exactly that colour |

## Left out

- OpenGL itself is not called. Driver calls are returned as traces (`GlCall`, `DrawCall`, `FrameEvent`). Buffer and vertex-array objects, attribute layouts and byte sizes in `draw` are not modelled, and neither is the fact that `draw` never deletes the buffers it generates.
- Floating point: positions and colours are `real`. Only vertex identity and the exact colour literals matter here.
- Integer widths: indices (`u32`), the threshold (`u32`) and GL names are `nat`. The `indices.len() as u32` casts and the `u32` sums `start + k` (batch.rs:63-66, 92-100) overflow only from 2^32 indices in one batch, and `indices.len() as GLint` (batch.rs:162) turns negative from 2^31; none of this is modelled. The `vertex_per_batch as usize` widenings (batch.rs:52, 81) lose nothing.
- Shaders.CheckForErrors: the info log is the driver's log string. The 512-byte buffer, its truncation and `from_utf8_unchecked` on bytes that may not be UTF-8 are not modelled.
- Shaders.FromStringUnchecked: the program name, the compile verdicts and the compile logs are inputs (`Driver`). A link failure is not checked by the source and is not modelled. The shader objects leaked when a NUL or compile error returns early are visible only as the missing `DeleteShader` calls.
- `Shader::from_string` and `Shader::from_file` (shader.rs:23-32) only pass through to the unchecked versions once a context exists. They are modelled by `FromStringUnchecked` and `FromFileUnchecked`.
- Render.Renderer.New: `src/renderer/shaders/basic.glsl`, the embedded base shader source, is not part of this model, so the source text is a parameter.
- Reading the file in `from_file_unchecked` is the input `Result<string, string>`. Path handling and UTF-8 decoding are not modelled.
- The window, context, prelude and examples (`src/window.rs`, `src/context.rs`, `src/lib.rs`, `examples/`) are not part of this model.
- The offset of an appended primitive's indices is the last batch's index count, not its vertex count (batch.rs:63, 92). The model keeps this as written; see Findings.
- The threshold is tested before the append (batch.rs:52, 81), so every batch but the last holds at least `vertex_per_batch` vertices. A batch holds at most `max(vertex_per_batch, 1) + 3` vertices: with a threshold of 0 every primitive opens its own batch (`AppendPreservesWellFormed`, `ThresholdOvershoot`).

## Findings

| source | as written | input that shows it | evidently intended | confidence | as-written member | corrected member |
|---|---|---|---|---|---|---|
| src/renderer/batch.rs:92 | a quad appended to an existing batch is offset by the batch's index count (`start = batch.indices.len()`, also at line 63 for polygons) | two quads into one batch (threshold above 4): indices `[0,1,3,1,2,3,6,7,9,7,8,9]` over 8 vertices, naming vertices 8 and 9 that do not exist | offset by the vertex count: `[0,1,3,1,2,3,4,5,7,5,6,7]` | not executed | `Batches.TwoQuadsIndexPastEnd` | `Batches.CorrectedIndicesInRange` |

`BatchManager` keeps the offset as written, since that is what the engine does. The corrected append is `AppendTo(…, VertexCount)`. `TwoQuadsCorrected` shows the intended quad indices, and `CorrectedIndicesInRange` proves every index in range for any mix of primitives. The renderer only ever adds polygons, and for polygons the two offsets agree (`CorrectionAgreesOnPolygons`), so every frame the renderer draws is in range (`PolygonBatchesSequential`).
