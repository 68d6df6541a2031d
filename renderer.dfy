/** The renderer (src/renderer/mod.rs): a clear colour, the base shader and a batch
    manager with a threshold of 100 vertices. Each `Present` clears the screen, batches
    one fixed triangle and draws the frame, which leaves the manager empty again.

    Driver calls are returned as events rather than performed. */
module Render {
  import opened Results
  import opened Batches
  import Shaders

  /** An RGBA colour (`[f32; 4]` in the source). */
  type Color = (real, real, real, real)

  const DefaultClearColor: Color := (0.3, 0.3, 0.3, 1.0)

  /** The threshold the renderer gives its batch manager. */
  const VertexPerBatch: nat := 100

  /** The triangle every frame draws: red, green and blue corners, all opaque, at three
      distinct positions in the z = 0 plane. */
  function DemoTriangle(): (vertices: seq<Vertex>)
    ensures |vertices| == 3
    ensures forall i :: 0 <= i < |vertices| ==> vertices[i].color.3 == 1.0 && vertices[i].position.2 == 0.0
    ensures forall i, j :: 0 <= i < j < |vertices| ==> vertices[i].position != vertices[j].position
  {
    [Vertex((0.5, -0.5, 0.0), (1.0, 0.0, 0.0, 1.0)),
     Vertex((-0.5, -0.5, 0.0), (0.0, 1.0, 0.0, 1.0)),
     Vertex((0.0, 0.5, 0.0), (0.0, 0.0, 1.0, 1.0))]
  }

  function DemoPolygon(): Primitive
  {
    Polygon(DemoTriangle()[0], DemoTriangle()[1], DemoTriangle()[2])
  }

  /** What a frame sends to the driver: set the clear colour, clear the colour buffer,
      and one indexed draw per batch. */
  datatype FrameEvent =
    | ClearColor(color: Color)
    | Clear
    | DrawBatch(call: DrawCall)

  function Draws(calls: seq<DrawCall>): seq<FrameEvent>
  {
    seq(|calls|, i requires 0 <= i < |calls| => DrawBatch(calls[i]))
  }

  /** The events of a frame that starts with the given batches: the clear, then the draws
      of those batches with the triangle added. */
  function Frame(clearColor: Color, pending: seq<Batch>): seq<FrameEvent>
  {
    [ClearColor(clearColor), Clear] + Draws(DrawTrace(Add(pending, VertexPerBatch, DemoPolygon())))
  }

  /** A frame that starts with no batches clears and then draws the triangle once, from a
      batch of exactly its three vertices with indices 0, 1, 2. */
  lemma FrameDrawsOneTriangle(clearColor: Color)
    ensures Frame(clearColor, [])
         == [ClearColor(clearColor), Clear, DrawBatch(DrawCall(DemoTriangle(), [0, 1, 2], 3))]
  {
    var batch := Batch(DemoTriangle(), [0, 1, 2]);
    assert Corners(DemoPolygon()) == DemoTriangle();
    assert Add([], VertexPerBatch, DemoPolygon()) == [batch];
    DrawTraceAt([batch]);
    var call := DrawCall(DemoTriangle(), [0, 1, 2], 3);
    assert DrawTrace([batch]) == [call];
    assert Draws([call]) == [DrawBatch(call)];
  }

  /** `Renderer`: the clear colour changes; the shader and the manager are fixed, while
      the manager's batch list changes during `Present`. */
  class Renderer {
    var clearColor: Color
    const baseShader: Shaders.Shader
    const batchManager: BatchManager

    /** Between frames the manager holds no batches. */
    ghost predicate Valid()
      reads batchManager
    {
      batchManager.Valid() && batchManager.vertexPerBatch == VertexPerBatch && batchManager.batches == []
    }

    /** The struct literal of `Renderer::new` once the base shader is loaded. */
    constructor (baseShader: Shaders.Shader)
      ensures clearColor == DefaultClearColor && this.baseShader == baseShader
      ensures fresh(batchManager) && Valid()
    {
      clearColor := DefaultClearColor;
      this.baseShader := baseShader;
      batchManager := new BatchManager(VertexPerBatch);
    }

    /** `Renderer::new`: load the base shader from its source, failing as the loader
        fails; on success a fresh renderer with the default clear colour and no batches. */
    static method New(baseSource: string, driver: Shaders.Driver)
      returns (r: Result<Renderer, Shaders.ShaderError>, calls: seq<Shaders.GlCall>)
      ensures calls == Shaders.FromStringUnchecked(baseSource, driver).calls
      ensures r.Ok? <==> Shaders.FromStringUnchecked(baseSource, driver).result.Ok?
      ensures r.Err? ==> r.error == Shaders.FromStringUnchecked(baseSource, driver).result.error
      ensures r.Ok? ==>
        fresh(r.value) && fresh(r.value.batchManager) && r.value.Valid() &&
        r.value.clearColor == DefaultClearColor &&
        r.value.baseShader == Shaders.FromStringUnchecked(baseSource, driver).result.value
    {
      var loaded := Shaders.FromStringUnchecked(baseSource, driver);
      calls := loaded.calls;
      match loaded.result
      case Err(e) =>
        r := Err(e);
      case Ok(shader) =>
        var renderer := new Renderer(shader);
        r := Ok(renderer);
    }

    /** `set_clear_color`: the colour becomes exactly the four given components. */
    method SetClearColor(red: real, green: real, blue: real, alpha: real)
      modifies this`clearColor
      ensures clearColor == (red, green, blue, alpha)
    {
      clearColor := (red, green, blue, alpha);
    }

    /** `bind_base_shader`: make the base shader's program current. */
    method BindBaseShader() returns (call: Shaders.GlCall)
      ensures call == Shaders.UseProgram(baseShader.Program())
    {
      call := baseShader.Bind();
    }

    /** `present`: clear with the current colour, batch the triangle, draw. The frame is
      the same every time, and the manager is empty afterwards. */
    method Present() returns (events: seq<FrameEvent>)
      requires Valid()
      modifies batchManager`batches
      ensures events == Frame(clearColor, old(batchManager.batches))
      ensures events == [ClearColor(clearColor), Clear, DrawBatch(DrawCall(DemoTriangle(), [0, 1, 2], 3))]
      ensures Valid()
    {
      events := [ClearColor(clearColor), Clear];
      batchManager.AddPolygon(DemoTriangle());
      var calls := batchManager.Draw();
      events := events + Draws(calls);
      FrameDrawsOneTriangle(clearColor);
    }
  }

  /** A client: after setting a colour, the next frame clears with exactly that colour. */
  method RecolourAndPresent(renderer: Renderer, red: real, green: real, blue: real, alpha: real)
    returns (events: seq<FrameEvent>)
    requires renderer.Valid()
    modifies renderer`clearColor, renderer.batchManager`batches
    ensures |events| == 3 && events[0] == ClearColor((red, green, blue, alpha))
    ensures renderer.Valid()
  {
    renderer.SetClearColor(red, green, blue, alpha);
    events := renderer.Present();
  }
}
