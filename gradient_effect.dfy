/** The gradient mesh effect: its settings, the clamping setters, and the
    ModifyMesh pass that rewrites the engine's vertex buffer, each method
    proved against the functions of GradientSpec and GradientSplit. */
module GradientEffect {
  import opened UIMesh
  import opened GradientMath
  import opened GradientStops
  import opened GradientSplit
  import opened GradientSpec

  const Black := Color(0.0, 0.0, 0.0, 1.0)

  /** The serialized default: a black-to-white ramp, fully opaque (the two
      alpha keys are the engine's default for a new gradient). */
  const DefaultGradient := Gradient([GradientColorKey(Black, 0.0), GradientColorKey(White, 1.0)],
                                    [GradientAlphaKey(1.0, 0.0), GradientAlphaKey(1.0, 1.0)])

  const DefaultSettings := Settings(Horizontal, Multiply, true, false, 0.0, 1.0, DefaultGradient)

  class GradientMeshEffect {
    var gradientType: GradientType
    var blendMode: Blend
    var modifyVertices: bool
    var modifyTangents: bool
    var gradientOffset: real
    var gradientZoom: real
    var gradientColor: Gradient
    /** Set once a setter has asked the graphic to rebuild its vertices. */
    ghost var verticesDirty: bool

    function Config(): Settings
      reads this
    {
      Settings(gradientType, blendMode, modifyVertices, modifyTangents, gradientOffset, gradientZoom, gradientColor)
    }

    ghost predicate Valid()
      reads this
    {
      InRange(Config())
    }

    constructor ()
      ensures Valid() && Config() == DefaultSettings && !verticesDirty
    {
      gradientType := Horizontal;
      blendMode := Multiply;
      modifyVertices := true;
      modifyTangents := false;
      gradientOffset := 0.0;
      gradientZoom := 1.0;
      gradientColor := DefaultGradient;
      verticesDirty := false;
    }

    // -------------------------------------------------------------------
    // Setters: each assigns its field and marks the vertices dirty
    // -------------------------------------------------------------------

    method SetBlendMode(value: Blend)
      requires Valid()
      modifies this
      ensures Valid() && Config() == old(Config()).(blendMode := value) && verticesDirty
    {
      blendMode := value;
      verticesDirty := true;
    }

    method SetGradientColor(value: Gradient)
      requires Valid()
      modifies this
      ensures Valid() && Config() == old(Config()).(gradient := value) && verticesDirty
    {
      gradientColor := value;
      verticesDirty := true;
    }

    method SetGradientType(value: GradientType)
      requires Valid()
      modifies this
      ensures Valid() && Config() == old(Config()).(gradientType := value) && verticesDirty
    {
      gradientType := value;
      verticesDirty := true;
    }

    method SetModifyVertices(value: bool)
      requires Valid()
      modifies this
      ensures Valid() && Config() == old(Config()).(modifyVertices := value) && verticesDirty
    {
      modifyVertices := value;
      verticesDirty := true;
    }

    /** The offset is clamped to [-1, 1]. */
    method SetGradientOffset(value: real)
      requires Valid()
      modifies this
      ensures Valid() && Config() == old(Config()).(offset := Clamp(value, -1.0, 1.0)) && verticesDirty
    {
      gradientOffset := Clamp(value, -1.0, 1.0);
      verticesDirty := true;
    }

    /** The zoom is clamped to [0.1, 10]. */
    method SetGradientZoom(value: real)
      requires Valid()
      modifies this
      ensures Valid() && Config() == old(Config()).(zoom := Clamp(value, 0.1, 10.0)) && verticesDirty
    {
      gradientZoom := Clamp(value, 0.1, 10.0);
      verticesDirty := true;
    }

    // -------------------------------------------------------------------
    // Bounds and stops
    // -------------------------------------------------------------------

    /** The min/max scan over the vertex positions, from the last vertex
        down to the second. */
    static method GetBounds(vertices: seq<Vertex>) returns (r: Rect)
      requires |vertices| > 0
      ensures r == BoundsOf(vertices)
    {
      var left := vertices[0].position.x;
      var right := left;
      var bottom := vertices[0].position.y;
      var top := bottom;
      ghost var iL, iR, iB, iT := 0, 0, 0, 0;
      var i := |vertices| - 1;
      while i >= 1
        invariant 0 <= i < |vertices|
        invariant left <= right && bottom <= top
        invariant forall k :: (k == 0 || i < k < |vertices|) ==>
          left <= vertices[k].position.x <= right && bottom <= vertices[k].position.y <= top
        invariant 0 <= iL < |vertices| && vertices[iL].position.x == left
        invariant 0 <= iR < |vertices| && vertices[iR].position.x == right
        invariant 0 <= iB < |vertices| && vertices[iB].position.y == bottom
        invariant 0 <= iT < |vertices| && vertices[iT].position.y == top
      {
        var x := vertices[i].position.x;
        var y := vertices[i].position.y;
        if x > right {
          right, iR := x, i;
        } else if x < left {
          left, iL := x, i;
        }
        if y > top {
          top, iT := y, i;
        } else if y < bottom {
          bottom, iB := y, i;
        }
        i := i - 1;
      }
      var xs, ys := Xs(vertices), Ys(vertices);
      assert xs[iL] == left && xs[iR] == right && ys[iB] == bottom && ys[iT] == top;
      LeastIsSeqMin(xs, left);
      GreatestIsSeqMax(xs, right);
      LeastIsSeqMin(ys, bottom);
      GreatestIsSeqMax(ys, top);
      r := Rect(left, bottom, right - left, top - bottom);
    }

    /** One foreach over key times: the scan ends at the first time at or
        past endBoundary, and each earlier time past startBoundary is
        appended as (time - startBoundary) * zoom. */
    static method AppendKeyStops(stops0: seq<real>, times: seq<real>, startBoundary: real, endBoundary: real,
                                 zoom: real)
      returns (stops: seq<real>)
      ensures stops == stops0 + Window(times, startBoundary, endBoundary, zoom)
    {
      stops := stops0;
      var k := 0;
      while k < |times|
        invariant 0 <= k <= |times|
        invariant stops + Window(times[k..], startBoundary, endBoundary, zoom)
               == stops0 + Window(times, startBoundary, endBoundary, zoom)
      {
        var time := times[k];
        assert times[k..][0] == time && times[k..][1..] == times[k + 1..];
        if time >= endBoundary {
          break;
        }
        assert Window(times[k..], startBoundary, endBoundary, zoom)
            == (if time > startBoundary then [KeyPosition(time, startBoundary, zoom)] else [])
             + Window(times[k + 1..], startBoundary, endBoundary, zoom);
        ghost var rest := Window(times[k + 1..], startBoundary, endBoundary, zoom);
        if time > startBoundary {
          var y := (time - startBoundary) * zoom;
          assert y == KeyPosition(time, startBoundary, zoom);
          assert Window(times[k..], startBoundary, endBoundary, zoom) == [y] + rest;
          assert (stops + [y]) + rest == stops + ([y] + rest);
          stops := stops + [y];
        } else {
          assert Window(times[k..], startBoundary, endBoundary, zoom) == rest;
        }
        k := k + 1;
      }
    }

    /** The loop that maps each sorted stop into mesh space and removes it
        (rewinding the index) when it lies within 2 of the stop kept before
        it. */
    static method MapAndMerge(sorted: seq<real>, size: real, min: real) returns (stops: seq<real>)
      ensures stops == Merge(MapStops(sorted, size, min))
    {
      ghost var mapped := MapStops(sorted, size, min);
      ghost var target := Merge(mapped);
      stops := sorted;
      ghost var j := 0;
      var i := 0;
      while i < |stops|
        invariant 0 <= i <= |stops| && 0 <= j <= |sorted|
        invariant stops[i..] == sorted[j..]
        invariant i == 0 ==> j == 0
        invariant i > 0 ==> stops[..i] + MergeFrom(stops[i - 1], mapped[j..]) == target
        decreases |stops| - i
      {
        var x := stops[i] * size + min;
        assert x == mapped[j] by {
          assert stops[i] == stops[i..][0];
        }
        ghost var rest := mapped[j + 1..];
        assert mapped[j..] == [x] + rest;
        ghost var kept := stops[..i];
        stops := stops[i := x];
        assert stops[..i] == kept && stops[i + 1..] == sorted[j + 1..];
        if i > 0 {
          MergeKeptStep(kept, x, rest, target);
        }
        if i > 0 && Abs(stops[i] - stops[i - 1]) < 2.0 {
          stops := stops[..i] + stops[i + 1..];
          assert stops[..i] == kept && stops[i..] == sorted[j + 1..];
          i := i - 1;
        } else if i == 0 {
          assert ([x] + rest)[0] == x && ([x] + rest)[1..] == rest;
        } else {
          assert stops[..i + 1] == kept + [x];
        }
        i, j := i + 1, j + 1;
      }
      assert stops[..i] == stops;
    }

    /** The key times of the visible window, sorted, mapped into mesh space
        along the gradient's axis and merged where closer than 2 units. */
    method FindStops(zoomOffset: real, bounds: Rect) returns (stops: seq<real>)
      ensures stops == StopsSpec(gradientColor, gradientOffset, gradientZoom, zoomOffset,
                                 LinearExtent(Config(), bounds), LinearMin(Config(), bounds))
    {
      var offset := gradientOffset * (1.0 - zoomOffset);
      var startBoundary := zoomOffset - offset;
      var endBoundary := 1.0 - zoomOffset - offset;
      assert startBoundary == StartBoundary(gradientOffset, zoomOffset);
      assert endBoundary == EndBoundary(gradientOffset, zoomOffset);

      stops := AppendKeyStops([], ColorTimes(gradientColor), startBoundary, endBoundary, gradientZoom);
      stops := AppendKeyStops(stops, AlphaTimes(gradientColor), startBoundary, endBoundary, gradientZoom);
      assert stops == Candidates(gradientColor, gradientOffset, gradientZoom, zoomOffset);

      var min := bounds.xMin;
      var size := bounds.width;
      if gradientType == Vertical {
        min := bounds.yMin;
        size := bounds.height;
      }

      stops := SortAscending(stops);
      stops := MapAndMerge(stops, size, min);
    }

    // -------------------------------------------------------------------
    // Splitting at the stops
    // -------------------------------------------------------------------

    /** A foreach over `vs` adding each vertex. */
    static method AddAll(helper: VertexHelper, vs: seq<Vertex>)
      modifies helper
      ensures helper.verts == old(helper.verts) + vs && helper.indices == old(helper.indices)
    {
      var k := 0;
      while k < |vs|
        invariant 0 <= k <= |vs|
        invariant helper.verts == old(helper.verts) + vs[..k] && helper.indices == old(helper.indices)
      {
        helper.AddVert(vs[k]);
        assert vs[..k + 1] == vs[..k] + [vs[k]];
        k := k + 1;
      }
      assert vs[..k] == vs;
    }

    /** The search for start vertices at one stop: each corner below the
        stop that is not yet an origin becomes one, at the front when the
        next corner lies above the stop. */
    static method CollectStarts(vertexList: seq<Vertex>, i: nat, positions: seq<real>, stop: real,
                                origin0: seq<Corner>, starts0: seq<Vertex>)
      returns (originIndices: seq<Corner>, starts: seq<Vertex>, earlyStart: bool)
      requires i + 3 <= |vertexList| && |positions| == 3
      ensures Collected(originIndices, starts, earlyStart)
           == CollectFrom(Collected(origin0, starts0, false), vertexList[i..i + 3], positions, stop, 0)
    {
      ghost var tri := vertexList[i..i + 3];
      originIndices, starts, earlyStart := origin0, starts0, false;
      var p := 0;
      while p < 3
        invariant 0 <= p <= 3
        invariant CollectFrom(Collected(originIndices, starts, earlyStart), tri, positions, stop, p)
               == CollectFrom(Collected(origin0, starts0, false), tri, positions, stop, 0)
      {
        var c: Corner := p;
        if c !in originIndices && positions[c] < stop {
          var p1 := (c + 1) % 3;
          var start := vertexList[c + i];
          assert start == tri[c];
          if positions[p1] > stop {
            originIndices := [c] + originIndices;
            starts := [start] + starts;
            earlyStart := true;
          } else {
            originIndices := originIndices + [c];
            starts := starts + [start];
          }
        }
        p := p + 1;
      }
    }

    /** The two end vertices for one stop: a split along each origin's edge
        to its opposite corner, and for a single origin a second split
        along its edge to the corner before it. */
    static method SplitEnds(h: bool, vertexList: seq<Vertex>, i: nat, positions: seq<real>, stop: real,
                            originIndices: seq<Corner>)
      returns (ends: seq<Vertex>)
      requires i + 3 <= |vertexList| && |positions| == 3
      ensures ends == MakeEnds(SplitAt(h), originIndices, vertexList[i..i + 3], positions, stop)
    {
      ghost var tri := vertexList[i..i + 3];
      ghost var target := EndsFor(SplitAt(h), originIndices, tri, positions, stop);
      ends := [];
      var k := 0;
      while k < |originIndices|
        invariant 0 <= k <= |originIndices|
        invariant ends == target[..k]
      {
        var index := originIndices[k];
        var oppositeIndex := (index + 1) % 3;
        if positions[oppositeIndex] < stop {
          oppositeIndex := (oppositeIndex + 1) % 3;
        }
        var v := CreateSplitVertex(h, vertexList[index + i], vertexList[oppositeIndex + i], stop);
        assert oppositeIndex == Opposite(positions, stop, index);
        assert vertexList[index + i] == tri[index] && vertexList[oppositeIndex + i] == tri[oppositeIndex];
        assert target[k] == SplitAt(h)(tri[index], tri[oppositeIndex], stop);
        assert v == target[k];
        assert target[..k + 1] == target[..k] + [target[k]];
        ends := ends + [v];
        k := k + 1;
      }
      assert target[..k] == target;
      if |ends| == 1 {
        var origin: int := originIndices[0];
        var oppositeIndex := (origin + 2) % 3;
        var v := CreateSplitVertex(h, vertexList[origin + i], vertexList[oppositeIndex + i], stop);
        assert v == SplitAt(h)(tri[origin], tri[oppositeIndex], stop);
        ends := ends + [v];
      }
    }

    /** The triangles over one stop's vertices. */
    static method AddStopTriangles(hadEnds: bool, earlyStart: bool, startCount: nat, initialCount: int,
                                   helper: VertexHelper)
      requires helper.Valid()
      modifies helper
      ensures helper.Valid() && helper.verts == old(helper.verts)
      ensures helper.indices
           == old(helper.indices) + StopTriangles(hadEnds, earlyStart, startCount, initialCount, |helper.verts|)
    {
      if hadEnds {
        helper.AddTriangle(initialCount - 2, initialCount, initialCount + 1);
        helper.AddTriangle(initialCount - 2, initialCount + 1, initialCount - 1);
        if startCount > 0 {
          if earlyStart {
            helper.AddTriangle(initialCount - 2, initialCount + 3, initialCount);
          } else {
            helper.AddTriangle(initialCount + 1, initialCount + 3, initialCount - 1);
          }
        }
      } else {
        var vertexCount: int := helper.CurrentVertCount();
        helper.AddTriangle(initialCount, vertexCount - 2, vertexCount - 1);
        if startCount > 1 {
          helper.AddTriangle(initialCount, vertexCount - 1, initialCount + 1);
        }
      }
    }

    /** The body of the loop over stops for one source triangle. */
    static method SplitAtStop(h: bool, vertexList: seq<Vertex>, i: nat, positions: seq<real>, stop: real,
                              origin0: seq<Corner>, starts0: seq<Vertex>, ends0: seq<Vertex>, helper: VertexHelper)
      returns (originIndices: seq<Corner>, starts: seq<Vertex>, ends: seq<Vertex>, broke: bool)
      requires i + 3 <= |vertexList| && |positions| == 3 && helper.Valid()
      modifies helper
      ensures helper.Valid()
      ensures var (st, b) := StopStep(SplitAt(h), SplitState(origin0, starts0, ends0, old(helper.Snapshot())),
                                      vertexList[i..i + 3], positions, stop);
        broke == b && st == SplitState(originIndices, starts, ends, helper.Snapshot())
    {
      var initialCount: int := helper.CurrentVertCount();
      var hadEnds := |ends0| > 0;
      var earlyStart;
      originIndices, starts, earlyStart := CollectStarts(vertexList, i, positions, stop, origin0, starts0);
      ends := ends0;

      // all before or after the stop
      if |originIndices| == 0 {
        broke := false;
        return;
      }
      if |originIndices| == 3 {
        broke := true;
        return;
      }
      broke := false;

      AddAll(helper, starts);
      ends := SplitEnds(h, vertexList, i, positions, stop, originIndices);
      AddAll(helper, ends);
      AddStopTriangles(hadEnds, earlyStart, |starts|, initialCount, helper);
      starts := [];
    }

    /** The search for the corners beyond the last stop. */
    static method FinalStarts(vertexList: seq<Vertex>, i: nat, positions: seq<real>, last: real,
                              originIndices: seq<Corner>)
      returns (starts: seq<Vertex>)
      requires i + 3 <= |vertexList| && |positions| == 3
      ensures starts == FinalFrom([], originIndices, vertexList[i..i + 3], positions, last, 0)
    {
      ghost var tri := vertexList[i..i + 3];
      starts := [];
      var p := 0;
      while p < 3
        invariant 0 <= p <= 3
        invariant FinalFrom(starts, originIndices, tri, positions, last, p)
               == FinalFrom([], originIndices, tri, positions, last, 0)
      {
        var c: Corner := p;
        if c !in originIndices && positions[c] > last {
          var p1 := (c + 1) % 3;
          var end := vertexList[c + i];
          assert end == tri[c];
          if positions[p1] > last {
            starts := [end] + starts;
          } else {
            starts := starts + [end];
          }
        }
        p := p + 1;
      }
    }

    /** The triangle(s) closing the region beyond the last stop. */
    static method AddFinalTriangles(startCount: nat, helper: VertexHelper)
      requires helper.Valid()
      modifies helper
      ensures helper.Valid() && helper.verts == old(helper.verts)
      ensures helper.indices == old(helper.indices) + FinalTriangles(startCount, |helper.verts|)
    {
      // close the split: two triangles over two start vertices, one over a single one (FinalTriangles)
      var vertexCount: int := helper.CurrentVertCount();
      if startCount > 1 {
        helper.AddTriangle(vertexCount - 4, vertexCount - 2, vertexCount - 1);
        helper.AddTriangle(vertexCount - 4, vertexCount - 1, vertexCount - 3);
      } else if startCount > 0 {
        helper.AddTriangle(vertexCount - 3, vertexCount - 1, vertexCount - 2);
      }
    }

    /** The clean-up after the loop over stops for one source triangle. */
    static method FinishTriangle(vertexList: seq<Vertex>, i: nat, positions: seq<real>, last: real,
                                 originIndices: seq<Corner>, starts0: seq<Vertex>, ends: seq<Vertex>,
                                 helper: VertexHelper)
      requires i + 3 <= |vertexList| && |positions| == 3 && helper.Valid()
      modifies helper
      ensures helper.Valid()
      ensures helper.Snapshot() == Finish(SplitState(originIndices, starts0, ends, old(helper.Snapshot())),
                                          vertexList[i..i + 3], positions, last)
    {
      ghost var tri := vertexList[i..i + 3];
      if |ends| > 0 {
        var starts := starts0;
        // no start vertices left over from the stops: take the corners above the last stop (FinalFrom)
        if |starts| == 0 {
          starts := FinalStarts(vertexList, i, positions, last, originIndices);
        }
        // emit them and close the split with FinalTriangles
        AddAll(helper, starts);
        AddFinalTriangles(|starts|, helper);
      } else {
        // no ends, so no stop cut this triangle: copy its three corners unchanged
        helper.AddVert(vertexList[i]);
        helper.AddVert(vertexList[i + 1]);
        helper.AddVert(vertexList[i + 2]);
        assert [vertexList[i], vertexList[i + 1], vertexList[i + 2]] == tri;
        var vertexCount: int := helper.CurrentVertCount();
        helper.AddTriangle(vertexCount - 3, vertexCount - 2, vertexCount - 1);
      }
    }

    /** The body of the loop over source triangles. */
    static method SplitTriangle(h: bool, vertexList: seq<Vertex>, i: nat, stops: seq<real>, helper: VertexHelper,
                                ghost t: nat)
      requires i == 3 * t && i + 3 <= |vertexList| && |stops| > 0 && helper.Valid()
      requires helper.Snapshot() == SplitUpTo(h, SplitAt(h), vertexList, stops, t)
      modifies helper
      ensures helper.Valid()
      ensures helper.Snapshot() == SplitUpTo(h, SplitAt(h), vertexList, stops, t + 1)
    {
      ghost var tri := vertexList[i..i + 3];
      ghost var m0 := helper.Snapshot();
      var positions := GetPositions(h, vertexList, i);
      var originIndices: seq<Corner> := [];
      var starts: seq<Vertex> := [];
      var ends: seq<Vertex> := [];
      ghost var target := RunStops(SplitAt(h), Fresh.(mesh := m0), tri, positions, stops);
      var s := 0;
      while s < |stops|
        invariant 0 <= s <= |stops| && helper.Valid()
        invariant RunStops(SplitAt(h), SplitState(originIndices, starts, ends, helper.Snapshot()), tri, positions, stops[s..])
               == target
      {
        assert stops[s..][0] == stops[s] && stops[s..][1..] == stops[s + 1..];
        var broke;
        originIndices, starts, ends, broke := SplitAtStop(h, vertexList, i, positions, stops[s],
                                                          originIndices, starts, ends, helper);
        if broke {
          break;
        }
        s := s + 1;
      }
      FinishTriangle(vertexList, i, positions, stops[|stops| - 1], originIndices, starts, ends, helper);
      assert target == StopsDone(h, SplitAt(h), vertexList, stops, t + 1);
      assert helper.Snapshot() == SplitThrough(h, SplitAt(h), vertexList, stops, t + 1);
    }

    /** The loop over source triangles, rebuilding the buffer from
        scratch. */
    static method SplitAll(h: bool, vertexList: seq<Vertex>, stops: seq<real>, helper: VertexHelper)
      requires |vertexList| % 3 == 0 && |stops| > 0
      modifies helper
      ensures helper.Valid()
      ensures helper.Snapshot() == SplitUpTo(h, SplitAt(h), vertexList, stops, |vertexList| / 3)
    {
      helper.Clear();
      ghost var t := 0;
      var i := 0;
      while i < |vertexList|
        invariant 0 <= i <= |vertexList| && i == 3 * t && helper.Valid()
        invariant helper.Snapshot() == SplitUpTo(h, SplitAt(h), vertexList, stops, t)
      {
        SplitTriangle(h, vertexList, i, stops, helper, t);
        i, t := i + 3, t + 1;
      }
      assert t == |vertexList| / 3;
    }

    /** Re-tessellates the stream along the stop lines, rebuilding the
        buffer from scratch; with no stop in view nothing is touched. */
    method SplitTrianglesAtGradientStops(vertexList: seq<Vertex>, bounds: Rect, zoomOffset: real, helper: VertexHelper)
      requires Valid() && helper.Valid() && |vertexList| % 3 == 0
      modifies helper
      ensures helper.Valid()
      ensures helper.Snapshot() == SplitSpec(IsHorizontal(Config()), SplitAt(IsHorizontal(Config())), vertexList,
        StopsSpec(gradientColor, gradientOffset, gradientZoom, zoomOffset,
                  LinearExtent(Config(), bounds), LinearMin(Config(), bounds)),
        old(helper.Snapshot()))
    {
      var stops := FindStops(zoomOffset, bounds);
      if |stops| <= 0 {
        return;
      }
      SplitAll(gradientType == Horizontal, vertexList, stops, helper);
    }

    // -------------------------------------------------------------------
    // ModifyMesh
    // -------------------------------------------------------------------

    /** Rewrites the buffer. An inactive component or an empty buffer leaves
        it as it is; a buffer with vertices but no triangles makes GetBounds
        index an empty stream and raise, leaving it as it is. */
    method ModifyMesh(helper: VertexHelper, active: bool, engine: Engine) returns (threw: bool)
      requires Valid() && helper.Valid() && IndicesInRange(helper.Snapshot())
      modifies helper
      ensures helper.Valid()
      ensures var r := EffectSpec(Config(), engine, active, old(helper.Snapshot()));
        (threw <==> r.IndexOutOfRange?) &&
        (threw ==> helper.Snapshot() == old(helper.Snapshot())) &&
        (!threw ==> helper.Snapshot() == r.mesh)
    {
      threw := false;
      if !active || helper.CurrentVertCount() == 0 {
        return;
      }
      var vertices := helper.GetUIVertexStream();
      if |vertices| == 0 {
        threw := true;
        return;
      }
      match gradientType
      case Horizontal => ModifyLinear(helper, vertices, engine);
      case Vertical => ModifyLinear(helper, vertices, engine);
      case Diamond => ModifyDiamond(helper, vertices, engine);
      case Radial => ModifyRadial(helper, vertices, engine);
    }

    /** The Horizontal and Vertical case of ModifyMesh. */
    method ModifyLinear(helper: VertexHelper, vertices: seq<Vertex>, engine: Engine)
      requires Valid() && helper.Valid() && gradientType in {Horizontal, Vertical}
      requires IndicesInRange(helper.Snapshot()) && vertices == Stream(helper.Snapshot()) && |vertices| > 0
      modifies helper
      ensures helper.Valid()
      ensures var rb := if modifyVertices then LinearSplit(Config(), vertices, BoundsOf(vertices), old(helper.Snapshot())) else old(helper.Snapshot());
        helper.Snapshot() == Mesh(RecolorAll(Config(), engine, BoundsOf(vertices), vertices[0].position.z, rb.verts), rb.indices)
    {
      var bounds := GetBounds(vertices);
      var min := bounds.xMin;
      var w := bounds.width;
      if gradientType == Vertical {
        min := bounds.yMin;
        w := bounds.height;
      }
      var width := if w == 0.0 then 0.0 else 1.0 / w / gradientZoom;
      var zoomOffset := (1.0 - 1.0 / gradientZoom) * 0.5;
      var offset := gradientOffset * (1.0 - zoomOffset) - zoomOffset;
      assert zoomOffset == ZoomOffset(gradientZoom);

      if modifyVertices {
        SplitTrianglesAtGradientStops(vertices, bounds, zoomOffset, helper);
      }
      RecolorLinear(helper, engine, bounds, vertices[0].position.z, min, width, offset);
    }

    /** The linear recolouring loop: the ramp coordinate of each vertex is
        its offset along the axis from `min`, scaled by `width` and shifted
        by `offset`. */
    method RecolorLinear(helper: VertexHelper, engine: Engine, bounds: Rect, z: real, min: real, width: real,
                         offset: real)
      requires Valid() && helper.Valid() && gradientType in {Horizontal, Vertical}
      requires min == LinearMin(Config(), bounds)
      requires width == RampScale(LinearExtent(Config(), bounds), gradientZoom)
      requires offset == LinearShift(gradientOffset, gradientZoom)
      modifies helper
      ensures helper.Valid()
      ensures helper.Snapshot() == Mesh(RecolorAll(Config(), engine, bounds, z, old(helper.verts)), old(helper.indices))
    {
      ghost var s := Config();
      ghost var v0 := helper.verts;
      var i := 0;
      while i < helper.CurrentVertCount()
        invariant 0 <= i <= |helper.verts| && helper.Valid()
        invariant |helper.verts| == |v0| && helper.indices == old(helper.indices)
        invariant forall k :: 0 <= k < i ==> helper.verts[k] == Recolor(s, engine, bounds, z, v0[k])
        invariant forall k :: i <= k < |v0| ==> helper.verts[k] == v0[k]
      {
        var vertex := helper.PopulateUIVertex(i);
        var position := if gradientType == Horizontal then vertex.position.x else vertex.position.y;
        var t := (position - min) * width - offset;
        assert t == LinearSample(AxisOf(IsHorizontal(s), vertex), LinearMin(s, bounds), LinearExtent(s, bounds), s.offset, s.zoom);
        var c := BlendColor(blendMode, vertex.color, engine.evaluate(gradientColor, t));
        assert c == LinearColor(s, engine, bounds, vertex);
        if modifyTangents {
          vertex := vertex.(tangent := ColorToVec4(c));
        } else {
          vertex := vertex.(color := c);
        }
        assert vertex == Recolor(s, engine, bounds, z, v0[i]);
        helper.SetUIVertex(vertex, i);
        i := i + 1;
      }
    }

    /** The triangles (i - 1, i, n) for i = 1 .. n - 1, then (0, n - 1, n):
        a closed fan over the first n vertices around vertex n. */
    static method AddFan(n: nat, helper: VertexHelper)
      requires n >= 1 && helper.Valid() && helper.indices == []
      modifies helper
      ensures helper.Valid() && helper.verts == old(helper.verts) && helper.indices == FanIndices(n, n)
    {
      var i := 1;
      while i < n
        invariant 1 <= i <= n && helper.Valid()
        invariant helper.indices == FanStrip(i, n) && helper.verts == old(helper.verts)
      {
        helper.AddTriangle(i - 1, i, n);
        i := i + 1;
      }
      helper.AddTriangle(0, n - 1, n);
    }

    /** The Diamond geometry: the stream's vertices, then the central
        vertex, with a fan around it. */
    static method DiamondGeometry(helper: VertexHelper, vertices: seq<Vertex>, center: Vec3)
      requires |vertices| > 0
      modifies helper
      ensures helper.Valid() && helper.Snapshot() == DiamondFan(vertices, center)
    {
      var vCount := |vertices|;
      helper.Clear();
      var i := 0;
      while i < vCount
        invariant 0 <= i <= vCount && helper.Valid()
        invariant helper.verts == vertices[..i] && helper.indices == []
      {
        helper.AddVert(vertices[i]);
        assert vertices[..i + 1] == vertices[..i] + [vertices[i]];
        i := i + 1;
      }
      assert vertices[..vCount] == vertices;
      var centralVertex := ZeroVertex.(position := center, normal := vertices[0].normal,
                                       uv0 := Vec2(0.5, 0.5), color := White);
      helper.AddVert(centralVertex);
      AddFan(vCount, helper);
    }

    /** The Diamond case of ModifyMesh. */
    method ModifyDiamond(helper: VertexHelper, vertices: seq<Vertex>, engine: Engine)
      requires Valid() && helper.Valid() && gradientType == Diamond
      requires IndicesInRange(helper.Snapshot()) && vertices == Stream(helper.Snapshot()) && |vertices| > 0
      modifies helper
      ensures helper.Valid()
      ensures var rb := if modifyVertices then DiamondFan(vertices, DiamondCenter(BoundsOf(vertices), vertices[0].position.z)) else old(helper.Snapshot());
        helper.Snapshot() == Mesh(RecolorAll(Config(), engine, BoundsOf(vertices), vertices[0].position.z, rb.verts), rb.indices)
    {
      var bounds := GetBounds(vertices);
      var height := if bounds.height == 0.0 then 0.0 else 1.0 / bounds.height / gradientZoom;
      var radius := bounds.CenterY() / 2.0;
      var center := Vec3(radius, radius, vertices[0].position.z);
      assert center == DiamondCenter(bounds, vertices[0].position.z);

      if modifyVertices {
        DiamondGeometry(helper, vertices, center);
      }
      RecolorDiamond(helper, engine, bounds, vertices[0].position.z, center, height);
    }

    /** The Diamond recolouring loop: the ramp coordinate is the distance
        to the centre scaled by `height`, less the offset; the colour is
        written whatever modifyTangents says. */
    method RecolorDiamond(helper: VertexHelper, engine: Engine, bounds: Rect, z: real, center: Vec3, height: real)
      requires Valid() && helper.Valid() && gradientType == Diamond
      requires center == DiamondCenter(bounds, z) && height == RampScale(bounds.height, gradientZoom)
      modifies helper
      ensures helper.Valid()
      ensures helper.Snapshot() == Mesh(RecolorAll(Config(), engine, bounds, z, old(helper.verts)), old(helper.indices))
    {
      ghost var s := Config();
      ghost var v0 := helper.verts;
      var i := 0;
      while i < helper.CurrentVertCount()
        invariant 0 <= i <= |helper.verts| && helper.Valid()
        invariant |helper.verts| == |v0| && helper.indices == old(helper.indices)
        invariant forall k :: 0 <= k < i ==> helper.verts[k] == Recolor(s, engine, bounds, z, v0[k])
        invariant forall k :: i <= k < |v0| ==> helper.verts[k] == v0[k]
      {
        var vertex := helper.PopulateUIVertex(i);
        var t := engine.sqrt(SquaredDistance(vertex.position, center)) * height - gradientOffset;
        assert t == DiamondSample(engine, s.zoom, s.offset, bounds, center, vertex.position);
        vertex := vertex.(color := BlendColor(blendMode, vertex.color, engine.evaluate(gradientColor, t)));
        assert vertex == Recolor(s, engine, bounds, z, v0[i]);
        helper.SetUIVertex(vertex, i);
        i := i + 1;
      }
    }

    /** The Radial geometry: 64 rim vertices on the ellipse of the bounds'
        half extents, then the central vertex at the bounds centre, with a
        fan around it. */
    static method RadialGeometry(helper: VertexHelper, vertices: seq<Vertex>, bounds: Rect, engine: Engine)
      requires |vertices| > 0
      modifies helper
      ensures helper.Valid() && helper.Snapshot() == RadialFan(engine, vertices, bounds)
    {
      var z := vertices[0].position.z;
      helper.Clear();
      var radiusX := bounds.width / 2.0;
      var radiusY := bounds.height / 2.0;
      var centralVertex := ZeroVertex.(position := Vec3(bounds.CenterX(), bounds.CenterY(), z),
                                       normal := vertices[0].normal, uv0 := Vec2(0.5, 0.5), color := White);
      ghost var rim := seq(RadialSteps, j requires 0 <= j < RadialSteps => RimVertex(engine, bounds, z, vertices[0].normal, j));
      var steps := 64;
      var i := 0;
      while i < steps
        invariant 0 <= i <= steps && helper.Valid()
        invariant helper.verts == rim[..i] && helper.indices == []
      {
        var angle := (i as real) * 360.0 / (steps as real);
        var cosX := engine.cosDeg(angle);
        var cosY := engine.sinDeg(angle);
        var curVertex := ZeroVertex.(position := Vec3(cosX * radiusX, cosY * radiusY, z),
                                     normal := vertices[0].normal,
                                     uv0 := Vec2((cosX + 1.0) * 0.5, (cosY + 1.0) * 0.5), color := White);
        assert curVertex == rim[i];
        helper.AddVert(curVertex);
        assert rim[..i + 1] == rim[..i] + [rim[i]];
        i := i + 1;
      }
      assert rim[..steps] == rim;
      helper.AddVert(centralVertex);
      AddFan(steps, helper);
    }

    /** The Radial case of ModifyMesh. */
    method ModifyRadial(helper: VertexHelper, vertices: seq<Vertex>, engine: Engine)
      requires Valid() && helper.Valid() && gradientType == Radial
      requires IndicesInRange(helper.Snapshot()) && vertices == Stream(helper.Snapshot()) && |vertices| > 0
      modifies helper
      ensures helper.Valid()
      ensures var rb := if modifyVertices then RadialFan(engine, vertices, BoundsOf(vertices)) else old(helper.Snapshot());
        helper.Snapshot() == Mesh(RecolorAll(Config(), engine, BoundsOf(vertices), vertices[0].position.z, rb.verts), rb.indices)
    {
      var bounds := GetBounds(vertices);
      var width := if bounds.width == 0.0 then 0.0 else 1.0 / bounds.width / gradientZoom;
      var height := if bounds.height == 0.0 then 0.0 else 1.0 / bounds.height / gradientZoom;

      if modifyVertices {
        RadialGeometry(helper, vertices, bounds, engine);
      }
      RecolorRadial(helper, engine, bounds, vertices[0].position.z, width, height);
    }

    /** The Radial recolouring loop: the ramp coordinate is twice the
        elliptical distance to the bounds centre, each axis scaled by its
        inverse extent, less the offset; the colour is written whatever
        modifyTangents says. */
    method RecolorRadial(helper: VertexHelper, engine: Engine, bounds: Rect, z: real, width: real, height: real)
      requires Valid() && helper.Valid() && gradientType == Radial
      requires width == RampScale(bounds.width, gradientZoom) && height == RampScale(bounds.height, gradientZoom)
      modifies helper
      ensures helper.Valid()
      ensures helper.Snapshot() == Mesh(RecolorAll(Config(), engine, bounds, z, old(helper.verts)), old(helper.indices))
    {
      ghost var s := Config();
      ghost var v0 := helper.verts;
      var i := 0;
      while i < helper.CurrentVertCount()
        invariant 0 <= i <= |helper.verts| && helper.Valid()
        invariant |helper.verts| == |v0| && helper.indices == old(helper.indices)
        invariant forall k :: 0 <= k < i ==> helper.verts[k] == Recolor(s, engine, bounds, z, v0[k])
        invariant forall k :: i <= k < |v0| ==> helper.verts[k] == v0[k]
      {
        var vertex := helper.PopulateUIVertex(i);
        var dx := Abs(vertex.position.x - bounds.CenterX()) * width;
        var dy := Abs(vertex.position.y - bounds.CenterY()) * height;
        var t := engine.sqrt(dx * dx + dy * dy) * 2.0 - gradientOffset;
        assert dx * dx + dy * dy == RadialDistanceSquared(bounds, width, height, vertex.position);
        assert t == RadialSample(engine, s.zoom, s.offset, bounds, vertex.position);
        vertex := vertex.(color := BlendColor(blendMode, vertex.color, engine.evaluate(gradientColor, t)));
        assert vertex == Recolor(s, engine, bounds, z, v0[i]);
        helper.SetUIVertex(vertex, i);
        i := i + 1;
      }
    }
  }
}
