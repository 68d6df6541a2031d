/** Geometry batching (src/renderer/batch.rs): primitives are appended to the last
    batch of a per-frame list, or open a new batch once the last one has reached the
    configured vertex count; `Draw` issues one indexed draw per batch, in order, and
    empties the list.

    The specification is a set of functions on `seq<Batch>`; the `BatchManager` class
    keeps the list in a field and its methods are proved against those functions. */
module Batches {

  type Vec3 = (real, real, real)
  type Vec4 = (real, real, real, real)

  /** A vertex: position and colour (f32 in the source; only vertex identity matters here). */
  datatype Vertex = Vertex(position: Vec3, color: Vec4)

  /** A batch: its vertices, and triangle indices relative to the batch's first vertex
      (u32 in the source). */
  datatype Batch = Batch(vertices: seq<Vertex>, indices: seq<nat>)

  /** The two primitives the manager accepts: `[Vertex; 3]` and `[Vertex; 4]`. */
  datatype Primitive =
    | Polygon(a: Vertex, b: Vertex, c: Vertex)
    | Quad(a: Vertex, b: Vertex, c: Vertex, d: Vertex)

  function Corners(p: Primitive): seq<Vertex>
  {
    match p
    case Polygon(a, b, c) => [a, b, c]
    case Quad(a, b, c, d) => [a, b, c, d]
  }

  /** A primitive's indices relative to its first vertex: one triangle, or two
      triangles sharing the diagonal from corner 1 to corner 3. */
  function Pattern(p: Primitive): seq<nat>
  {
    if p.Polygon? then [0, 1, 2] else [0, 1, 3, 1, 2, 3]
  }

  function Shift(pattern: seq<nat>, start: nat): seq<nat>
  {
    seq(|pattern|, k requires 0 <= k < |pattern| => start + pattern[k])
  }

  function Last(bs: seq<Batch>): Batch
    requires |bs| > 0
  {
    bs[|bs| - 1]
  }

  /** The threshold test, made before anything is appended: there is no batch yet,
      or the last batch already holds at least `m` vertices. */
  predicate OpensBatch(bs: seq<Batch>, m: nat)
  {
    |bs| == 0 || |Last(bs).vertices| >= m
  }

  /** Which count of the last batch an appended primitive's indices are offset by. */
  datatype OffsetBase = IndexCount | VertexCount

  /** Appending one primitive to the batch list with vertex threshold `m`. */
  function AppendTo(bs: seq<Batch>, m: nat, p: Primitive, base: OffsetBase): seq<Batch>
  {
    if OpensBatch(bs, m) then
      bs + [Batch(Corners(p), Pattern(p))]
    else
      var last := Last(bs);
      var start := if base == IndexCount then |last.indices| else |last.vertices|;
      bs[..|bs| - 1] + [Batch(last.vertices + Corners(p), last.indices + Shift(Pattern(p), start))]
  }

  /** `add_polygon` / `add_quad` as written: the offset is the last batch's index count. */
  function Add(bs: seq<Batch>, m: nat, p: Primitive): seq<Batch>
  {
    AppendTo(bs, m, p, IndexCount)
  }

  /** The batch list built from nothing by appending `ps` in order. */
  function ReplayWith(m: nat, ps: seq<Primitive>, base: OffsetBase): seq<Batch>
  {
    if |ps| == 0 then [] else AppendTo(ReplayWith(m, ps[..|ps| - 1], base), m, ps[|ps| - 1], base)
  }

  function Replay(m: nat, ps: seq<Primitive>): seq<Batch>
  {
    ReplayWith(m, ps, IndexCount)
  }

  /** Replaying one more primitive is one more append. */
  lemma ReplayStep(m: nat, ps: seq<Primitive>, p: Primitive, base: OffsetBase)
    ensures ReplayWith(m, ps + [p], base) == AppendTo(ReplayWith(m, ps, base), m, p, base)
  {
    assert (ps + [p])[..|ps|] == ps;
  }

  predicate AllPolygons(ps: seq<Primitive>)
  {
    forall i :: 0 <= i < |ps| ==> ps[i].Polygon?
  }

  function TotalVertices(bs: seq<Batch>): nat
  {
    if |bs| == 0 then 0 else TotalVertices(bs[..|bs| - 1]) + |Last(bs).vertices|
  }

  function TotalIndices(bs: seq<Batch>): nat
  {
    if |bs| == 0 then 0 else TotalIndices(bs[..|bs| - 1]) + |Last(bs).indices|
  }

  /** The most vertices a batch can reach: the test runs before the append, so a batch
      just under the threshold still takes a whole quad. */
  function MaxBatchVertices(m: nat): nat
  {
    (if m < 1 then 1 else m) + 3
  }

  /** The invariant of the batch list: every batch holds vertices and indices (the draw
      takes the address of element 0 of both), none exceeds `MaxBatchVertices(m)`, and
      every batch but the last had reached the threshold when the next one was opened. */
  predicate WellFormed(bs: seq<Batch>, m: nat)
  {
    forall i :: 0 <= i < |bs| ==>
      0 < |bs[i].vertices| <= MaxBatchVertices(m) && 0 < |bs[i].indices| &&
      (i < |bs| - 1 ==> m <= |bs[i].vertices|)
  }

  /** Every index of the batch names one of its vertices. */
  predicate InRange(b: Batch)
  {
    forall k :: 0 <= k < |b.indices| ==> b.indices[k] < |b.vertices|
  }

  /** One index per vertex, in order: what a batch of polygons holds. */
  predicate Sequential(b: Batch)
  {
    |b.indices| == |b.vertices| && forall k :: 0 <= k < |b.indices| ==> b.indices[k] == k
  }

  // ---------------------------------------------------------------------------
  // One append

  /** An append either opens a batch holding exactly the primitive, or extends the
      last batch only; earlier batches are untouched and the offset is the last
      batch's index count before the append. */
  lemma AddCases(bs: seq<Batch>, m: nat, p: Primitive)
    ensures OpensBatch(bs, m) <==> |Add(bs, m, p)| == |bs| + 1
    ensures OpensBatch(bs, m) ==> Add(bs, m, p) == bs + [Batch(Corners(p), Pattern(p))]
    ensures !OpensBatch(bs, m) ==>
      var r, last := Add(bs, m, p), Last(bs);
      |r| == |bs| && r[..|bs| - 1] == bs[..|bs| - 1] &&
      Last(r).vertices == last.vertices + Corners(p) &&
      Last(r).indices == last.indices + Shift(Pattern(p), |last.indices|)
  {
  }

  /** Each append adds the primitive's 3 or 4 vertices and 3 or 6 indices to the
      totals, and at most one batch. */
  lemma AddTotals(bs: seq<Batch>, m: nat, p: Primitive)
    ensures TotalVertices(Add(bs, m, p)) == TotalVertices(bs) + |Corners(p)|
    ensures TotalIndices(Add(bs, m, p)) == TotalIndices(bs) + |Pattern(p)|
    ensures |bs| <= |Add(bs, m, p)| <= |bs| + 1
    ensures |Corners(p)| == (if p.Polygon? then 3 else 4) && |Pattern(p)| == (if p.Polygon? then 3 else 6)
  {
    var r := Add(bs, m, p);
    if !OpensBatch(bs, m) {
      assert r[..|r| - 1] == bs[..|bs| - 1];
    } else {
      assert r[..|r| - 1] == bs;
    }
  }

  /** Appending, with either offset, keeps the batch list well formed. */
  lemma AppendPreservesWellFormed(bs: seq<Batch>, m: nat, p: Primitive, base: OffsetBase)
    requires WellFormed(bs, m)
    ensures WellFormed(AppendTo(bs, m, p, base), m)
  {
    var r := AppendTo(bs, m, p, base);
    forall i | 0 <= i < |r|
      ensures 0 < |r[i].vertices| <= MaxBatchVertices(m) && 0 < |r[i].indices|
      ensures i < |r| - 1 ==> m <= |r[i].vertices|
    {
      if i < |bs| - 1 || (i == |bs| - 1 && OpensBatch(bs, m)) {
        assert r[i] == bs[i];
      }
    }
  }

  // ---------------------------------------------------------------------------
  // Index ranges

  /** Appending a polygon to a list of sequential batches keeps every batch sequential. */
  lemma AddPolygonKeepsSequential(bs: seq<Batch>, m: nat, p: Primitive)
    requires p.Polygon?
    requires forall i :: 0 <= i < |bs| ==> Sequential(bs[i])
    ensures forall i :: 0 <= i < |Add(bs, m, p)| ==> Sequential(Add(bs, m, p)[i])
  {
    var r := Add(bs, m, p);
    if !OpensBatch(bs, m) {
      var last := Last(bs);
      var b := Last(r);
      assert Sequential(last);
      assert b.indices == last.indices + [|last.indices|, |last.indices| + 1, |last.indices| + 2];
      forall k | 0 <= k < |b.indices| ensures b.indices[k] == k {
        if k >= |last.indices| {
          assert b.indices[k] == |last.indices| + (k - |last.indices|);
        }
      }
      forall i | 0 <= i < |r| ensures Sequential(r[i]) {
        if i < |r| - 1 { assert r[i] == bs[i]; }
      }
    } else {
      forall i | 0 <= i < |r| ensures Sequential(r[i]) {
        if i < |bs| { assert r[i] == bs[i]; }
      }
    }
  }

  /** A batch list built from polygons only has one index per vertex, numbered in
      order, so every index is in range. */
  lemma {:induction false} PolygonBatchesSequential(m: nat, ps: seq<Primitive>)
    requires AllPolygons(ps)
    ensures forall i :: 0 <= i < |Replay(m, ps)| ==> Sequential(Replay(m, ps)[i]) && InRange(Replay(m, ps)[i])
  {
    if |ps| > 0 {
      PolygonBatchesSequential(m, ps[..|ps| - 1]);
      AddPolygonKeepsSequential(Replay(m, ps[..|ps| - 1]), m, ps[|ps| - 1]);
    }
  }

  /** As written, a second quad in a batch is offset by the index count 6 rather than
      the vertex count 4: its indices reach vertex 9 of a batch that has 8. */
  lemma TwoQuadsIndexPastEnd(m: nat, q1: Primitive, q2: Primitive)
    requires m > 4 && q1.Quad? && q2.Quad?
    ensures Replay(m, [q1, q2]) == [Batch(Corners(q1) + Corners(q2), [0, 1, 3, 1, 2, 3, 6, 7, 9, 7, 8, 9])]
    ensures !InRange(Replay(m, [q1, q2])[0])
  {
    ReplayStep(m, [], q1, IndexCount);
    ReplayStep(m, [q1], q2, IndexCount);
    var first := Replay(m, [q1]);
    assert first == [Batch(Corners(q1), [0, 1, 3, 1, 2, 3])];
    assert [q1] + [q2] == [q1, q2] && !OpensBatch(first, m);
    assert Shift(Pattern(q2), 6) == [6, 7, 9, 7, 8, 9];
    assert Replay(m, [q1, q2]) == [Batch(Corners(q1) + Corners(q2), [0, 1, 3, 1, 2, 3] + [6, 7, 9, 7, 8, 9])];
    assert Replay(m, [q1, q2])[0].indices[11] == 9;
    assert [0, 1, 3, 1, 2, 3] + [6, 7, 9, 7, 8, 9] == [0, 1, 3, 1, 2, 3, 6, 7, 9, 7, 8, 9];
  }

  /** A polygon after a quad is offset by 6 over 4 vertices: it names vertices 6..8 of 7. */
  lemma QuadThenPolygonIndexPastEnd(m: nat, q: Primitive, p: Primitive)
    requires m > 4 && q.Quad? && p.Polygon?
    ensures Replay(m, [q, p]) == [Batch(Corners(q) + Corners(p), [0, 1, 3, 1, 2, 3, 6, 7, 8])]
    ensures !InRange(Replay(m, [q, p])[0])
  {
    ReplayStep(m, [], q, IndexCount);
    ReplayStep(m, [q], p, IndexCount);
    var first := Replay(m, [q]);
    assert first == [Batch(Corners(q), [0, 1, 3, 1, 2, 3])];
    assert [q] + [p] == [q, p] && !OpensBatch(first, m);
    assert Shift(Pattern(p), 6) == [6, 7, 8];
    assert Replay(m, [q, p]) == [Batch(Corners(q) + Corners(p), [0, 1, 3, 1, 2, 3] + [6, 7, 8])];
    assert Replay(m, [q, p])[0].indices[8] == 8;
    assert [0, 1, 3, 1, 2, 3] + [6, 7, 8] == [0, 1, 3, 1, 2, 3, 6, 7, 8];
  }

  /** With the vertex count as offset, every index of every batch is in range,
      whatever mix of polygons and quads was appended. */
  lemma {:induction false} CorrectedIndicesInRange(m: nat, ps: seq<Primitive>)
    ensures forall i :: 0 <= i < |ReplayWith(m, ps, VertexCount)| ==> InRange(ReplayWith(m, ps, VertexCount)[i])
  {
    if |ps| > 0 {
      var bs := ReplayWith(m, ps[..|ps| - 1], VertexCount);
      CorrectedIndicesInRange(m, ps[..|ps| - 1]);
      var p := ps[|ps| - 1];
      var r := AppendTo(bs, m, p, VertexCount);
      forall i | 0 <= i < |r| ensures InRange(r[i]) {
        if i < |bs| - 1 || (i == |bs| - 1 && OpensBatch(bs, m)) {
          assert r[i] == bs[i];
        } else if i == |bs| && OpensBatch(bs, m) {
          assert r[i] == Batch(Corners(p), Pattern(p));
        } else {
          var last := Last(bs);
          assert InRange(last);
          forall k | 0 <= k < |r[i].indices| ensures r[i].indices[k] < |r[i].vertices| {
            if k >= |last.indices| {
              assert r[i].indices[k] == |last.vertices| + Pattern(p)[k - |last.indices|];
            }
          }
        }
      }
    }
  }

  /** For the corrected offset, two quads give the intended `[0,1,3,1,2,3, 4,5,7,5,6,7]`. */
  lemma TwoQuadsCorrected(m: nat, q1: Primitive, q2: Primitive)
    requires m > 4 && q1.Quad? && q2.Quad?
    ensures ReplayWith(m, [q1, q2], VertexCount)
         == [Batch(Corners(q1) + Corners(q2), [0, 1, 3, 1, 2, 3, 4, 5, 7, 5, 6, 7])]
  {
    ReplayStep(m, [], q1, VertexCount);
    ReplayStep(m, [q1], q2, VertexCount);
    var first := ReplayWith(m, [q1], VertexCount);
    assert first == [Batch(Corners(q1), [0, 1, 3, 1, 2, 3])];
    assert [q1] + [q2] == [q1, q2] && !OpensBatch(first, m);
    assert Shift(Pattern(q2), 4) == [4, 5, 7, 5, 6, 7];
    assert ReplayWith(m, [q1, q2], VertexCount)
        == [Batch(Corners(q1) + Corners(q2), [0, 1, 3, 1, 2, 3] + [4, 5, 7, 5, 6, 7])];
    assert [0, 1, 3, 1, 2, 3] + [4, 5, 7, 5, 6, 7] == [0, 1, 3, 1, 2, 3, 4, 5, 7, 5, 6, 7];
  }

  /** On polygons only, the two offsets agree: the correction does not change what a
      polygon-only caller (the renderer) sees. */
  lemma {:induction false} CorrectionAgreesOnPolygons(m: nat, ps: seq<Primitive>)
    requires AllPolygons(ps)
    ensures ReplayWith(m, ps, VertexCount) == Replay(m, ps)
  {
    if |ps| > 0 {
      var front := ps[..|ps| - 1];
      CorrectionAgreesOnPolygons(m, front);
      PolygonBatchesSequential(m, front);
      var bs := Replay(m, front);
      if !OpensBatch(bs, m) {
        assert Sequential(bs[|bs| - 1]);
      }
    }
  }

  // ---------------------------------------------------------------------------
  // The threshold

  /** While `3 * (n - 1) < m`, n polygons share the first batch, which then holds
      3n vertices: the threshold is tested before the append. */
  lemma {:induction false} PolygonsShareFirstBatch(m: nat, ps: seq<Primitive>)
    requires AllPolygons(ps) && 0 < |ps| && 3 * (|ps| - 1) < m
    ensures |Replay(m, ps)| == 1 && |Replay(m, ps)[0].vertices| == 3 * |ps|
  {
    if |ps| > 1 {
      PolygonsShareFirstBatch(m, ps[..|ps| - 1]);
    } else {
      ReplayStep(m, [], ps[0], IndexCount);
      assert ps == [] + [ps[0]];
    }
  }

  /** With 100 as the threshold, 34 polygons give one batch of 102 vertices, and a 35th
      opens a second batch. */
  lemma ThresholdOvershoot(ps: seq<Primitive>, p: Primitive)
    requires AllPolygons(ps) && |ps| == 34 && p.Polygon?
    ensures |Replay(100, ps)| == 1 && |Replay(100, ps)[0].vertices| == 102
    ensures |Replay(100, ps + [p])| == 2 && |Replay(100, ps + [p])[1].vertices| == 3
  {
    PolygonsShareFirstBatch(100, ps);
    assert (ps + [p])[..34] == ps;
  }

  /** With 9 as the threshold, three polygons fill one batch to 9 vertices and a fourth
      starts a second batch. */
  lemma NinePerBatch(ps: seq<Primitive>, p: Primitive)
    requires AllPolygons(ps) && |ps| == 3 && p.Polygon?
    ensures |Replay(9, ps)| == 1 && |Replay(9, ps)[0].vertices| == 9
    ensures |Replay(9, ps + [p])| == 2 && |Replay(9, ps + [p])[1].vertices| == 3
  {
    PolygonsShareFirstBatch(9, ps);
    assert (ps + [p])[..3] == ps;
  }

  // ---------------------------------------------------------------------------
  // Drawing

  /** One indexed draw: the uploaded vertex buffer, the uploaded index buffer and the
      index count passed to `DrawElements`. */
  datatype DrawCall = DrawCall(vertexData: seq<Vertex>, indexData: seq<nat>, count: nat)

  function Upload(b: Batch): DrawCall
  {
    DrawCall(b.vertices, b.indices, |b.indices|)
  }

  /** The draws issued for a batch list, in insertion order. */
  function DrawTrace(bs: seq<Batch>): seq<DrawCall>
  {
    if |bs| == 0 then [] else DrawTrace(bs[..|bs| - 1]) + [Upload(Last(bs))]
  }

  function DrawnIndices(calls: seq<DrawCall>): nat
  {
    if |calls| == 0 then 0 else DrawnIndices(calls[..|calls| - 1]) + calls[|calls| - 1].count
  }

  /** One draw per batch, the i-th draw uploading the i-th batch and drawing all of
      its indices. */
  lemma {:induction false} DrawTraceAt(bs: seq<Batch>)
    ensures |DrawTrace(bs)| == |bs|
    ensures forall i :: 0 <= i < |bs| ==> DrawTrace(bs)[i] == DrawCall(bs[i].vertices, bs[i].indices, |bs[i].indices|)
  {
    if |bs| > 0 {
      var front := bs[..|bs| - 1];
      DrawTraceAt(front);
      forall i | 0 <= i < |bs| - 1 ensures DrawTrace(bs)[i] == Upload(bs[i]) {
        assert front[i] == bs[i];
      }
    }
  }

  /** Over a frame, the draws cover exactly the indices that were batched. */
  lemma {:induction false} DrawnIndicesTotal(bs: seq<Batch>)
    ensures DrawnIndices(DrawTrace(bs)) == TotalIndices(bs)
  {
    if |bs| > 0 {
      DrawnIndicesTotal(bs[..|bs| - 1]);
      assert DrawTrace(bs)[..|DrawTrace(bs)| - 1] == DrawTrace(bs[..|bs| - 1]);
    }
  }

  /** On a well-formed list every draw uploads a non-empty vertex buffer and draws a
      non-zero number of indices. */
  lemma DrawCallsNonEmpty(bs: seq<Batch>, m: nat)
    requires WellFormed(bs, m)
    ensures forall i :: 0 <= i < |DrawTrace(bs)| ==> |DrawTrace(bs)[i].vertexData| > 0 && DrawTrace(bs)[i].count > 0
  {
    DrawTraceAt(bs);
  }

  // ---------------------------------------------------------------------------
  // The manager

  /** `BatchManager`: the threshold and the batch list of the current frame. */
  class BatchManager {
    var vertexPerBatch: nat
    var batches: seq<Batch>

    ghost predicate Valid()
      reads this
    {
      WellFormed(batches, vertexPerBatch)
    }

    /** `BatchManager::new`: the given threshold and no batches. */
    constructor (vertexPerBatch: nat)
      ensures this.vertexPerBatch == vertexPerBatch && batches == []
      ensures Valid()
    {
      this.vertexPerBatch := vertexPerBatch;
      batches := [];
    }

    /** `add_polygon`. */
    method AddPolygon(vertices: seq<Vertex>)
      requires Valid() && |vertices| == 3
      modifies this`batches
      ensures Valid()
      ensures batches == Add(old(batches), vertexPerBatch, Polygon(vertices[0], vertices[1], vertices[2]))
      ensures OpensBatch(old(batches), vertexPerBatch) ==> batches == old(batches) + [Batch(vertices, [0, 1, 2])]
      ensures !OpensBatch(old(batches), vertexPerBatch) ==>
        var last := Last(old(batches));
        var start := |last.indices|;
        batches == old(batches)[..|old(batches)| - 1]
                   + [Batch(last.vertices + vertices, last.indices + [start, start + 1, start + 2])]
    {
      var p := Polygon(vertices[0], vertices[1], vertices[2]);
      assert Corners(p) == vertices;
      AppendPreservesWellFormed(batches, vertexPerBatch, p, IndexCount);
      // A batch is opened if none exists
      if |batches| < 1 {
        batches := batches + [Batch(vertices, [0, 1, 2])];
        return;
      }
      // ... or if the last one has reached the threshold
      var batch := batches[|batches| - 1];
      if |batch.vertices| >= vertexPerBatch {
        batches := batches + [Batch(vertices, [0, 1, 2])];
        return;
      }
      // Otherwise the last batch takes the vertices, offset by its index count
      var start := |batch.indices|;
      assert Shift(Pattern(p), start) == [start + 0, start + 1, start + 2];
      batches := batches[..|batches| - 1]
                 + [Batch(batch.vertices + vertices, batch.indices + [start + 0, start + 1, start + 2])];
    }

    /** `add_quad`. */
    method AddQuad(vertices: seq<Vertex>)
      requires Valid() && |vertices| == 4
      modifies this`batches
      ensures Valid()
      ensures batches == Add(old(batches), vertexPerBatch, Quad(vertices[0], vertices[1], vertices[2], vertices[3]))
      ensures OpensBatch(old(batches), vertexPerBatch) ==> batches == old(batches) + [Batch(vertices, [0, 1, 3, 1, 2, 3])]
      ensures !OpensBatch(old(batches), vertexPerBatch) ==>
        var last := Last(old(batches));
        var start := |last.indices|;
        batches == old(batches)[..|old(batches)| - 1]
                   + [Batch(last.vertices + vertices,
                            last.indices + [start, start + 1, start + 3, start + 1, start + 2, start + 3])]
    {
      var p := Quad(vertices[0], vertices[1], vertices[2], vertices[3]);
      assert Corners(p) == vertices;
      AppendPreservesWellFormed(batches, vertexPerBatch, p, IndexCount);
      if |batches| < 1 {
        batches := batches + [Batch(vertices, [0, 1, 3, 1, 2, 3])];
        return;
      }
      var batch := batches[|batches| - 1];
      if |batch.vertices| >= vertexPerBatch {
        batches := batches + [Batch(vertices, [0, 1, 3, 1, 2, 3])];
        return;
      }
      var start := |batch.indices|;
      assert Shift(Pattern(p), start) == [start + 0, start + 1, start + 3, start + 1, start + 2, start + 3];
      batches := batches[..|batches| - 1]
                 + [Batch(batch.vertices + vertices,
                          batch.indices + [start + 0, start + 1, start + 3, start + 1, start + 2, start + 3])];
    }

    /** `draw`: one indexed draw per batch in insertion order, then the list is emptied. */
    method Draw() returns (calls: seq<DrawCall>)
      requires Valid()
      modifies this`batches
      ensures calls == DrawTrace(old(batches))
      ensures batches == [] && Valid()
    {
      calls := [];
      for i := 0 to |batches|
        invariant calls == DrawTrace(batches[..i])
      {
        var batch := batches[i];
        // The uploads take the address of the first vertex and the first index
        assert |batch.vertices| > 0 && |batch.indices| > 0;
        assert batches[..i + 1][..i] == batches[..i];
        calls := calls + [DrawCall(batch.vertices, batch.indices, |batch.indices|)];
      }
      assert batches[..|batches|] == batches;
      batches := [];
    }
  }

  /** A client: drawing twice in a row issues no draw the second time. */
  method DrawTwice(manager: BatchManager) returns (first: seq<DrawCall>, second: seq<DrawCall>)
    requires manager.Valid()
    modifies manager`batches
    ensures first == DrawTrace(old(manager.batches)) && second == []
    ensures manager.batches == []
  {
    first := manager.Draw();
    second := manager.Draw();
  }
}
