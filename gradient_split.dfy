/** Re-tessellation of a non-indexed triangle stream at the gradient stops,
    as a function of the stream, mirroring SplitTrianglesAtGradientStops
    step by step (start-vertex search, end vertices, triangles, clean-up). */
module GradientSplit {
  import opened UIMesh
  import opened GradientMath

  /** How the vertex where an edge meets a stop line is made from the
      edge's two end points and the stop (CreateSplitVertex, for the
      gradient's axis). The bookkeeping below does not depend on it. */
  type Cut = (Vertex, Vertex, real) -> Vertex

  /** A corner of a source triangle. */
  type Corner = p: int | 0 <= p < 3

  /** The per-triangle working lists (originIndices, starts, ends) and the
      buffer built so far. */
  datatype SplitState = SplitState(origin: seq<Corner>, starts: seq<Vertex>, ends: seq<Vertex>, mesh: Mesh)

  /** What the start-vertex search has gathered for one stop. */
  datatype Collected = Collected(origin: seq<Corner>, starts: seq<Vertex>, early: bool)

  /** The start-vertex search at corner p: a corner below the stop that is
      not already an origin becomes one; it goes to the front when the next
      corner lies above the stop. */
  function CollectCorner(c: Collected, tri: seq<Vertex>, pos: seq<real>, stop: real, p: Corner): Collected
    requires |tri| == 3 && |pos| == 3
  {
    if p !in c.origin && pos[p] < stop then
      if pos[(p + 1) % 3] > stop then Collected([p] + c.origin, [tri[p]] + c.starts, true)
      else Collected(c.origin + [p], c.starts + [tri[p]], c.early)
    else c
  }

  /** The search over corners p..2. */
  function CollectFrom(c: Collected, tri: seq<Vertex>, pos: seq<real>, stop: real, p: nat): Collected
    requires |tri| == 3 && |pos| == 3 && p <= 3
    decreases 3 - p
  {
    if p == 3 then c else CollectFrom(CollectCorner(c, tri, pos, stop, p), tri, pos, stop, p + 1)
  }

  /** The corner an origin's edge runs to: the next corner, or the one after
      it when the next corner is also below the stop. */
  function Opposite(pos: seq<real>, stop: real, index: Corner): Corner
    requires |pos| == 3
  {
    var o := (index + 1) % 3;
    if pos[o] < stop then (o + 1) % 3 else o
  }

  /** One split vertex per origin, along its edge to the opposite corner. */
  function EndsFor(cut: Cut, origin: seq<Corner>, tri: seq<Vertex>, pos: seq<real>, stop: real): (r: seq<Vertex>)
    requires |tri| == 3 && |pos| == 3
    ensures |r| == |origin|
  {
    seq(|origin|, k requires 0 <= k < |origin| =>
      cut(tri[origin[k]], tri[Opposite(pos, stop, origin[k])], stop))
  }

  /** The two end vertices: a single origin gets a second split along its
      edge to the corner before it. */
  function MakeEnds(cut: Cut, origin: seq<Corner>, tri: seq<Vertex>, pos: seq<real>, stop: real): seq<Vertex>
    requires |tri| == 3 && |pos| == 3
  {
    var e := EndsFor(cut, origin, tri, pos, stop);
    if |e| == 1 then
      var o: Corner := origin[0];
      e + [cut(tri[o], tri[(o + 2) % 3], stop)]
    else e
  }

  /** The triangles emitted for one stop; `ic` is the vertex count before the
      stop's vertices were added and `vc` the count after. */
  function StopTriangles(hadEnds: bool, early: bool, startCount: nat, ic: int, vc: int): seq<int> {
    if hadEnds then
      [ic - 2, ic, ic + 1, ic - 2, ic + 1, ic - 1] +
      (if startCount > 0 then (if early then [ic - 2, ic + 3, ic] else [ic + 1, ic + 3, ic - 1]) else [])
    else
      [ic, vc - 2, vc - 1] + (if startCount > 1 then [ic, vc - 1, ic + 1] else [])
  }

  /** One iteration of the loop over stops; the flag says the loop breaks. */
  function StopStep(cut: Cut, st: SplitState, tri: seq<Vertex>, pos: seq<real>, stop: real): (SplitState, bool)
    requires |tri| == 3 && |pos| == 3
  {
    var ic := |st.mesh.verts|;
    var hadEnds := |st.ends| > 0;
    var c := CollectFrom(Collected(st.origin, st.starts, false), tri, pos, stop, 0);
    if |c.origin| == 0 then (SplitState(c.origin, c.starts, st.ends, st.mesh), false)
    else if |c.origin| == 3 then (SplitState(c.origin, c.starts, st.ends, st.mesh), true)
    else
      var ends := MakeEnds(cut, c.origin, tri, pos, stop);
      var verts := st.mesh.verts + c.starts + ends;
      var tris := StopTriangles(hadEnds, c.early, |c.starts|, ic, |verts|);
      (SplitState(c.origin, [], ends, Mesh(verts, st.mesh.indices + tris)), false)
  }

  /** The loop over the stops, in order, until it breaks. */
  function RunStops(cut: Cut, st: SplitState, tri: seq<Vertex>, pos: seq<real>, stops: seq<real>): SplitState
    requires |tri| == 3 && |pos| == 3
    decreases |stops|
  {
    if stops == [] then st
    else
      var (next, broke) := StopStep(cut, st, tri, pos, stops[0]);
      if broke then next else RunStops(cut, next, tri, pos, stops[1..])
  }

  /** The search for corners beyond the last stop, at corner p. */
  function FinalCorner(starts: seq<Vertex>, origin: seq<Corner>, tri: seq<Vertex>, pos: seq<real>, last: real, p: Corner): seq<Vertex>
    requires |tri| == 3 && |pos| == 3
  {
    if p !in origin && pos[p] > last then
      if pos[(p + 1) % 3] > last then [tri[p]] + starts else starts + [tri[p]]
    else starts
  }

  function FinalFrom(starts: seq<Vertex>, origin: seq<Corner>, tri: seq<Vertex>, pos: seq<real>, last: real, p: nat): seq<Vertex>
    requires |tri| == 3 && |pos| == 3 && p <= 3
    decreases 3 - p
  {
    if p == 3 then starts else FinalFrom(FinalCorner(starts, origin, tri, pos, last, p), origin, tri, pos, last, p + 1)
  }

  /** The triangles closing the region beyond the last stop. */
  function FinalTriangles(startCount: nat, vc: int): seq<int> {
    if startCount > 1 then [vc - 4, vc - 2, vc - 1, vc - 4, vc - 1, vc - 3]
    else if startCount > 0 then [vc - 3, vc - 1, vc - 2]
    else []
  }

  /** The clean-up after the loop over stops: close a split triangle, or
      re-emit an unsplit one as it was. */
  function Finish(st: SplitState, tri: seq<Vertex>, pos: seq<real>, last: real): Mesh
    requires |tri| == 3 && |pos| == 3
  {
    if |st.ends| > 0 then
      var starts := if |st.starts| == 0 then FinalFrom([], st.origin, tri, pos, last, 0) else st.starts;
      var verts := st.mesh.verts + starts;
      Mesh(verts, st.mesh.indices + FinalTriangles(|starts|, |verts|))
    else
      var verts := st.mesh.verts + tri;
      Mesh(verts, st.mesh.indices + [|verts| - 3, |verts| - 2, |verts| - 1])
  }

  const Fresh := SplitState([], [], [], Mesh([], []))

  /** The buffer after the first n source triangles. The three functions
      below follow the loop over source triangles: the buffer before
      triangle n - 1, the state after its loop over stops, and the buffer
      after its clean-up. */
  function SplitUpTo(h: bool, cut: Cut, vertexList: seq<Vertex>, stops: seq<real>, n: nat): Mesh
    requires 3 * n <= |vertexList| && |stops| > 0
    decreases n, 2
  {
    if n == 0 then Mesh([], []) else SplitThrough(h, cut, vertexList, stops, n)
  }

  /** The buffer once source triangle n - 1 has been closed. */
  function SplitThrough(h: bool, cut: Cut, vertexList: seq<Vertex>, stops: seq<real>, n: nat): Mesh
    requires 0 < n && 3 * n <= |vertexList| && |stops| > 0
    decreases n, 1
  {
    var i := 3 * (n - 1);
    Finish(StopsDone(h, cut, vertexList, stops, n), vertexList[i..i + 3], GetPositions(h, vertexList, i),
           stops[|stops| - 1])
  }

  /** The state after the loop over stops for source triangle n - 1, started
      from empty lists on the buffer the triangles before it built. */
  function StopsDone(h: bool, cut: Cut, vertexList: seq<Vertex>, stops: seq<real>, n: nat): SplitState
    requires 0 < n && 3 * n <= |vertexList| && |stops| > 0
    decreases n, 0
  {
    var i := 3 * (n - 1);
    RunStops(cut, Fresh.(mesh := SplitUpTo(h, cut, vertexList, stops, n - 1)), vertexList[i..i + 3],
             GetPositions(h, vertexList, i), stops)
  }

  /** SplitTrianglesAtGradientStops as a function of its inputs: nothing
      changes without stops; otherwise the buffer is rebuilt triangle by
      triangle. */
  function SplitSpec(h: bool, cut: Cut, vertexList: seq<Vertex>, stops: seq<real>, m: Mesh): Mesh
    requires |vertexList| % 3 == 0
  {
    if |stops| == 0 then m else SplitUpTo(h, cut, vertexList, stops, |vertexList| / 3)
  }

  // ---------------------------------------------------------------------
  // Appending only, in stream order
  // ---------------------------------------------------------------------

  /** `b` is `a` with vertices and indices appended. */
  ghost predicate Extends(a: Mesh, b: Mesh) {
    a.verts <= b.verts && a.indices <= b.indices
  }

  lemma ExtendsTransitive(a: Mesh, b: Mesh, c: Mesh)
    requires Extends(a, b) && Extends(b, c)
    ensures Extends(a, c)
  {
  }

  lemma {:induction false} RunStopsExtends(cut: Cut, st: SplitState, tri: seq<Vertex>, pos: seq<real>, stops: seq<real>)
    requires |tri| == 3 && |pos| == 3
    ensures Extends(st.mesh, RunStops(cut, st, tri, pos, stops).mesh)
    decreases |stops|
  {
    if stops != [] {
      var (next, broke) := StopStep(cut, st, tri, pos, stops[0]);
      assert Extends(st.mesh, next.mesh);
      if !broke {
        RunStopsExtends(cut, next, tri, pos, stops[1..]);
        ExtendsTransitive(st.mesh, next.mesh, RunStops(cut, next, tri, pos, stops[1..]).mesh);
      }
    }
  }

  /** Each source triangle only appends to what the earlier ones built. */
  lemma SplitThroughExtends(h: bool, cut: Cut, vertexList: seq<Vertex>, stops: seq<real>, n: nat)
    requires 0 < n && 3 * n <= |vertexList| && |stops| > 0
    ensures Extends(SplitUpTo(h, cut, vertexList, stops, n - 1), SplitUpTo(h, cut, vertexList, stops, n))
  {
    var i := 3 * (n - 1);
    var tri := vertexList[i..i + 3];
    var pos := GetPositions(h, vertexList, i);
    var m := SplitUpTo(h, cut, vertexList, stops, n - 1);
    var st := StopsDone(h, cut, vertexList, stops, n);
    RunStopsExtends(cut, Fresh.(mesh := m), tri, pos, stops);
    assert Extends(st.mesh, SplitThrough(h, cut, vertexList, stops, n));
    ExtendsTransitive(m, st.mesh, SplitThrough(h, cut, vertexList, stops, n));
  }

  /** Source triangles are processed in stream order: the output for the
      first k triangles is a prefix of the output for the first n. */
  lemma {:induction false} SplitInStreamOrder(h: bool, cut: Cut, vertexList: seq<Vertex>, stops: seq<real>, k: nat, n: nat)
    requires k <= n && 3 * n <= |vertexList| && |stops| > 0
    ensures Extends(SplitUpTo(h, cut, vertexList, stops, k), SplitUpTo(h, cut, vertexList, stops, n))
    decreases n
  {
    if k < n {
      SplitInStreamOrder(h, cut, vertexList, stops, k, n - 1);
      SplitThroughExtends(h, cut, vertexList, stops, n);
      ExtendsTransitive(SplitUpTo(h, cut, vertexList, stops, k), SplitUpTo(h, cut, vertexList, stops, n - 1),
                        SplitUpTo(h, cut, vertexList, stops, n));
    } else {
      ExtendsReflexive(SplitUpTo(h, cut, vertexList, stops, n));
    }
  }

  lemma ExtendsReflexive(a: Mesh)
    ensures Extends(a, a)
  {
  }

  // ---------------------------------------------------------------------
  // Triangles that straddle no stop
  // ---------------------------------------------------------------------

  /** The stop does not cut the triangle: all three corners lie below it,
      or none does (a corner exactly on the stop counts as not below, as
      in the `<` test that collects the corners before a stop). */
  ghost predicate OneSide(pos: seq<real>, stop: real)
    requires |pos| == 3
  {
    (pos[0] < stop && pos[1] < stop && pos[2] < stop) ||
    (pos[0] >= stop && pos[1] >= stop && pos[2] >= stop)
  }

  lemma {:induction false} RunStopsUnsplit(cut: Cut, m: Mesh, starts: seq<Vertex>, tri: seq<Vertex>, pos: seq<real>, stops: seq<real>)
    requires |tri| == 3 && |pos| == 3
    requires forall k :: 0 <= k < |stops| ==> OneSide(pos, stops[k])
    ensures RunStops(cut, SplitState([], starts, [], m), tri, pos, stops).ends == []
    ensures RunStops(cut, SplitState([], starts, [], m), tri, pos, stops).mesh == m
    decreases |stops|
  {
    if stops != [] {
      var st := SplitState([], starts, [], m);
      var c := CollectFrom(Collected([], starts, false), tri, pos, stops[0], 0);
      assert OneSide(pos, stops[0]);
      if pos[0] >= stops[0] {
        assert c.origin == [] && c.starts == starts;
        assert forall k :: 0 <= k < |stops[1..]| ==> OneSide(pos, stops[1..][k]) by {
          forall k | 0 <= k < |stops[1..]| ensures OneSide(pos, stops[1..][k]) {
            assert stops[1..][k] == stops[k + 1];
          }
        }
        RunStopsUnsplit(cut, m, starts, tri, pos, stops[1..]);
      } else {
        assert |c.origin| == 3;
      }
    }
  }

  /** A source triangle that straddles no stop is re-emitted as its three
      vertices in order plus the single triangle over them. */
  lemma UnsplitTriangle(h: bool, cut: Cut, vertexList: seq<Vertex>, stops: seq<real>, n: nat)
    requires 0 < n && 3 * n <= |vertexList| && |stops| > 0
    requires forall k :: 0 <= k < |stops| ==> OneSide(GetPositions(h, vertexList, 3 * (n - 1)), stops[k])
    ensures var m := SplitUpTo(h, cut, vertexList, stops, n - 1);
      var i := 3 * (n - 1);
      SplitUpTo(h, cut, vertexList, stops, n)
        == Mesh(m.verts + vertexList[i..i + 3], m.indices + [|m.verts|, |m.verts| + 1, |m.verts| + 2])
  {
    var i := 3 * (n - 1);
    var m := SplitUpTo(h, cut, vertexList, stops, n - 1);
    RunStopsUnsplit(cut, m, [], vertexList[i..i + 3], GetPositions(h, vertexList, i), stops);
    assert SplitUpTo(h, cut, vertexList, stops, n) == SplitThrough(h, cut, vertexList, stops, n);
  }

  /** The buffer holds the first `len` stream vertices, indexed 0, 1, 2, ... */
  ghost predicate StreamCopy(m: Mesh, vertexList: seq<Vertex>, len: nat)
    requires len <= |vertexList|
  {
    m.verts == vertexList[..len] && |m.indices| == len &&
    forall k :: 0 <= k < len ==> m.indices[k] == k
  }

  lemma StreamCopyStep(prev: Mesh, cur: Mesh, vertexList: seq<Vertex>, i: nat)
    requires i + 3 <= |vertexList| && StreamCopy(prev, vertexList, i)
    requires cur == Mesh(prev.verts + vertexList[i..i + 3],
                         prev.indices + [|prev.verts|, |prev.verts| + 1, |prev.verts| + 2])
    ensures StreamCopy(cur, vertexList, i + 3)
  {
    assert vertexList[..i + 3] == vertexList[..i] + vertexList[i..i + 3];
    forall k | 0 <= k < i + 3 ensures cur.indices[k] == k {
      if k < i {
        assert cur.indices[k] == prev.indices[k];
      }
    }
  }

  /** One more source triangle that straddles no stop extends the copy of
      the stream by its three vertices. */
  lemma UnsplitStep(h: bool, cut: Cut, vertexList: seq<Vertex>, stops: seq<real>, n: nat)
    requires 0 < n && 3 * n <= |vertexList| && |stops| > 0
    requires StreamCopy(SplitUpTo(h, cut, vertexList, stops, n - 1), vertexList, 3 * (n - 1))
    requires forall k :: 0 <= k < |stops| ==> OneSide(GetPositions(h, vertexList, 3 * (n - 1)), stops[k])
    ensures StreamCopy(SplitUpTo(h, cut, vertexList, stops, n), vertexList, 3 * n)
  {
    UnsplitTriangle(h, cut, vertexList, stops, n);
    StreamCopyStep(SplitUpTo(h, cut, vertexList, stops, n - 1), SplitUpTo(h, cut, vertexList, stops, n),
                   vertexList, 3 * (n - 1));
  }

  lemma {:induction false} UnsplitStream(h: bool, cut: Cut, vertexList: seq<Vertex>, stops: seq<real>, n: nat)
    requires 3 * n <= |vertexList| && |stops| > 0
    requires forall t, k :: 0 <= t < n && 0 <= k < |stops| ==> OneSide(GetPositions(h, vertexList, 3 * t), stops[k])
    ensures StreamCopy(SplitUpTo(h, cut, vertexList, stops, n), vertexList, 3 * n)
    decreases n
  {
    if n > 0 {
      UnsplitStream(h, cut, vertexList, stops, n - 1);
      forall k | 0 <= k < |stops| ensures OneSide(GetPositions(h, vertexList, 3 * (n - 1)), stops[k]) {
        assert 0 <= n - 1 < n;
      }
      UnsplitStep(h, cut, vertexList, stops, n);
    }
  }

  /** When no source triangle straddles a stop, the rebuilt buffer is the
      stream itself with the indices 0, 1, 2, ... */
  lemma {:induction false} UnsplitSpec(h: bool, cut: Cut, vertexList: seq<Vertex>, stops: seq<real>, m: Mesh)
    requires |vertexList| % 3 == 0 && |stops| > 0
    requires forall t, k :: 0 <= t < |vertexList| / 3 && 0 <= k < |stops| ==>
      OneSide(GetPositions(h, vertexList, 3 * t), stops[k])
    ensures SplitSpec(h, cut, vertexList, stops, m).verts == vertexList
    ensures |SplitSpec(h, cut, vertexList, stops, m).indices| == |vertexList|
    ensures forall k :: 0 <= k < |vertexList| ==> SplitSpec(h, cut, vertexList, stops, m).indices[k] == k
  {
    UnsplitStream(h, cut, vertexList, stops, |vertexList| / 3);
    assert 3 * (|vertexList| / 3) == |vertexList|;
    assert vertexList[..|vertexList|] == vertexList;
  }

  // ---------------------------------------------------------------------
  // Triangles that straddle exactly one stop
  // ---------------------------------------------------------------------

  function Ind(b: bool): nat { if b then 1 else 0 }

  /** How many corners lie strictly below the stop. */
  function NumBelow(pos: seq<real>, stop: real): nat
    requires |pos| == 3
  {
    Ind(pos[0] < stop) + Ind(pos[1] < stop) + Ind(pos[2] < stop)
  }

  ghost predicate Straddles(pos: seq<real>, stop: real)
    requires |pos| == 3
  {
    (pos[0] < stop || pos[1] < stop || pos[2] < stop) &&
    (pos[0] > stop || pos[1] > stop || pos[2] > stop)
  }

  /** From an empty search the origins are exactly the corners below the
      stop, one start vertex each. */
  lemma CollectFromEmpty(tri: seq<Vertex>, pos: seq<real>, stop: real)
    requires |tri| == 3 && |pos| == 3
    ensures var c := CollectFrom(Collected([], [], false), tri, pos, stop, 0);
      |c.origin| == |c.starts| == NumBelow(pos, stop) &&
      forall p: Corner :: p in c.origin <==> pos[p] < stop
  {
    var c0 := Collected([], [], false);
    var c1 := CollectCorner(c0, tri, pos, stop, 0);
    var c2 := CollectCorner(c1, tri, pos, stop, 1);
    var c3 := CollectCorner(c2, tri, pos, stop, 2);
    assert CollectFrom(c0, tri, pos, stop, 0) == c3;
  }

  /** The corners strictly below the stop, in corner order. */
  function CornersBelow(tri: seq<Vertex>, pos: seq<real>, stop: real): seq<Vertex>
    requires |tri| == 3 && |pos| == 3
  {
    (if pos[0] < stop then [tri[0]] else []) + (if pos[1] < stop then [tri[1]] else []) +
    (if pos[2] < stop then [tri[2]] else [])
  }

  /** The corners strictly above the stop, in corner order. */
  function CornersAbove(tri: seq<Vertex>, pos: seq<real>, stop: real): seq<Vertex>
    requires |tri| == 3 && |pos| == 3
  {
    (if pos[0] > stop then [tri[0]] else []) + (if pos[1] > stop then [tri[1]] else []) +
    (if pos[2] > stop then [tri[2]] else [])
  }

  /** The search from empty lists when exactly corner o is below the stop. */
  lemma CollectOneBelow(tri: seq<Vertex>, pos: seq<real>, s: real, o: Corner)
    requires |tri| == 3 && |pos| == 3
    requires pos[o] < s && pos[(o + 1) % 3] > s && pos[(o + 2) % 3] > s
    ensures CollectFrom(Collected([], [], false), tri, pos, s, 0).origin == [o]
    ensures CollectFrom(Collected([], [], false), tri, pos, s, 0).starts == [tri[o]]
  {
    var c0 := Collected([], [], false);
    var c1 := CollectCorner(c0, tri, pos, s, 0);
    var c2 := CollectCorner(c1, tri, pos, s, 1);
    var c3 := CollectCorner(c2, tri, pos, s, 2);
    assert CollectFrom(c0, tri, pos, s, 0) == c3;
    if o == 0 {
      assert c1.origin == [0] && c3 == c1;
    } else if o == 1 {
      assert c1 == c0 && c2.origin == [1] && c3 == c2;
    } else {
      assert c2 == c0 && c3.origin == [2];
    }
  }

  /** The search from empty lists when exactly corner a is above the stop:
      the corner before a comes first, then the one after a. */
  lemma CollectOneAbove(tri: seq<Vertex>, pos: seq<real>, s: real, a: Corner)
    requires |tri| == 3 && |pos| == 3
    requires pos[a] > s && pos[(a + 1) % 3] < s && pos[(a + 2) % 3] < s
    ensures CollectFrom(Collected([], [], false), tri, pos, s, 0).origin == [(a + 2) % 3, (a + 1) % 3]
    ensures CollectFrom(Collected([], [], false), tri, pos, s, 0).starts == [tri[(a + 2) % 3], tri[(a + 1) % 3]]
  {
    var c0 := Collected([], [], false);
    var c1 := CollectCorner(c0, tri, pos, s, 0);
    var c2 := CollectCorner(c1, tri, pos, s, 1);
    var c3 := CollectCorner(c2, tri, pos, s, 2);
    assert CollectFrom(c0, tri, pos, s, 0) == c3;
    if a == 0 {
      assert c1 == c0 && c2.origin == [1] && c3.origin == [2, 1];
    } else if a == 1 {
      assert c1.origin == [0] && c2 == c1 && c3.origin == [0, 2];
    } else {
      assert c1.origin == [0] && c2.origin == [1, 0] && c3 == c2;
    }
  }

  /** From empty lists, the start vertices are the corners below the stop. */
  lemma StartsBelow(tri: seq<Vertex>, pos: seq<real>, s: real)
    requires |tri| == 3 && |pos| == 3 && Straddles(pos, s)
    requires pos[0] != s && pos[1] != s && pos[2] != s
    ensures multiset(CollectFrom(Collected([], [], false), tri, pos, s, 0).starts) == multiset(CornersBelow(tri, pos, s))
  {
    if NumBelow(pos, s) == 1 {
      StartsOneBelow(tri, pos, s);
    } else {
      StartsTwoBelow(tri, pos, s);
      PairMultiset(CollectFrom(Collected([], [], false), tri, pos, s, 0).starts, CornersBelow(tri, pos, s));
    }
  }

  /** With one corner below the stop, the lone start vertex is that corner. */
  lemma StartsOneBelow(tri: seq<Vertex>, pos: seq<real>, s: real)
    requires |tri| == 3 && |pos| == 3 && NumBelow(pos, s) == 1
    requires pos[0] != s && pos[1] != s && pos[2] != s
    ensures CollectFrom(Collected([], [], false), tri, pos, s, 0).starts == CornersBelow(tri, pos, s)
  {
    if pos[0] < s {
      CollectOneBelow(tri, pos, s, 0);
    } else if pos[1] < s {
      CollectOneBelow(tri, pos, s, 1);
    } else {
      CollectOneBelow(tri, pos, s, 2);
    }
  }

  /** With two corners below the stop, the start vertices are those two,
      in corner order or swapped. */
  lemma StartsTwoBelow(tri: seq<Vertex>, pos: seq<real>, s: real)
    requires |tri| == 3 && |pos| == 3 && NumBelow(pos, s) == 2
    requires pos[0] != s && pos[1] != s && pos[2] != s
    ensures var starts, below := CollectFrom(Collected([], [], false), tri, pos, s, 0).starts, CornersBelow(tri, pos, s);
      |below| == 2 && (starts == below || starts == [below[1], below[0]])
  {
    if pos[0] > s {
      CollectOneAbove(tri, pos, s, 0);
    } else if pos[1] > s {
      CollectOneAbove(tri, pos, s, 1);
    } else {
      CollectOneAbove(tri, pos, s, 2);
    }
  }

  /** A two-element sequence and its swap hold the same elements. */
  lemma PairMultiset(a: seq<Vertex>, b: seq<Vertex>)
    requires |b| == 2 && (a == b || a == [b[1], b[0]])
    ensures multiset(a) == multiset(b)
  {
    assert b == [b[0]] + [b[1]];
    assert a == b || a == [b[1]] + [b[0]];
  }

  /** At a stop that cuts the triangle, with no corner on it, the two end
      vertices are cut on two different edges, each running from a corner
      below the stop to a corner above it. */
  lemma StraddleEnds(cut: Cut, tri: seq<Vertex>, pos: seq<real>, s: real) returns (x1: Corner, y1: Corner, x2: Corner, y2: Corner)
    requires |tri| == 3 && |pos| == 3 && Straddles(pos, s)
    requires pos[0] != s && pos[1] != s && pos[2] != s
    ensures var c := CollectFrom(Collected([], [], false), tri, pos, s, 0);
      MakeEnds(cut, c.origin, tri, pos, s) == [cut(tri[x1], tri[y1], s), cut(tri[x2], tri[y2], s)]
    ensures pos[x1] < s < pos[y1] && pos[x2] < s < pos[y2] && (x1 != x2 || y1 != y2)
  {
    var o: Corner;
    var below: bool;
    if pos[0] < s && pos[1] > s && pos[2] > s {
      o, below := 0, true;
    } else if pos[1] < s && pos[2] > s && pos[0] > s {
      o, below := 1, true;
    } else if pos[2] < s && pos[0] > s && pos[1] > s {
      o, below := 2, true;
    } else if pos[0] > s && pos[1] < s && pos[2] < s {
      o, below := 0, false;
    } else if pos[1] > s && pos[2] < s && pos[0] < s {
      o, below := 1, false;
    } else {
      o, below := 2, false;
    }
    if below {
      CollectOneBelow(tri, pos, s, o);
      EndsOneBelow(cut, tri, pos, s, o);
      x1, y1, x2, y2 := o, (o + 1) % 3, o, (o + 2) % 3;
    } else {
      CollectOneAbove(tri, pos, s, o);
      EndsOneAbove(cut, tri, pos, s, o);
      x1, y1, x2, y2 := (o + 2) % 3, o, (o + 1) % 3, o;
    }
  }

  /** A lone origin o is cut towards the next corner, then the one before. */
  lemma EndsOneBelow(cut: Cut, tri: seq<Vertex>, pos: seq<real>, s: real, o: Corner)
    requires |tri| == 3 && |pos| == 3
    requires pos[o] < s && pos[(o + 1) % 3] > s && pos[(o + 2) % 3] > s
    ensures MakeEnds(cut, [o], tri, pos, s) == [cut(tri[o], tri[(o + 1) % 3], s), cut(tri[o], tri[(o + 2) % 3], s)]
  {
    assert Opposite(pos, s, o) == (o + 1) % 3;
    assert EndsFor(cut, [o], tri, pos, s) == [cut(tri[o], tri[(o + 1) % 3], s)];
  }

  /** Two origins are each cut towards the corner a above the stop. */
  lemma EndsOneAbove(cut: Cut, tri: seq<Vertex>, pos: seq<real>, s: real, a: Corner)
    requires |tri| == 3 && |pos| == 3
    requires pos[a] > s && pos[(a + 1) % 3] < s && pos[(a + 2) % 3] < s
    ensures MakeEnds(cut, [(a + 2) % 3, (a + 1) % 3], tri, pos, s)
         == [cut(tri[(a + 2) % 3], tri[a], s), cut(tri[(a + 1) % 3], tri[a], s)]
  {
    var o1: Corner, o2: Corner := (a + 2) % 3, (a + 1) % 3;
    assert Opposite(pos, s, o1) == a;
    assert Opposite(pos, s, o2) == a;
    var e := EndsFor(cut, [o1, o2], tri, pos, s);
    assert e[0] == cut(tri[o1], tri[a], s) && e[1] == cut(tri[o2], tri[a], s);
  }

  /** Once every corner is below the stop, the search adds every corner not
      yet an origin, completing the origins. */
  lemma CollectRest(tri: seq<Vertex>, pos: seq<real>, low: real, stop: real, origin: seq<Corner>)
    requires |tri| == 3 && |pos| == 3
    requires |origin| == NumBelow(pos, low)
    requires forall p: Corner :: p in origin <==> pos[p] < low
    requires pos[0] < stop && pos[1] < stop && pos[2] < stop
    ensures var c := CollectFrom(Collected(origin, [], false), tri, pos, stop, 0);
      |c.origin| == 3 && |c.starts| == 3 - NumBelow(pos, low)
  {
    var c0 := Collected(origin, [], false);
    var c1 := CollectCorner(c0, tri, pos, stop, 0);
    var c2 := CollectCorner(c1, tri, pos, stop, 1);
    var c3 := CollectCorner(c2, tri, pos, stop, 2);
    assert CollectFrom(c0, tri, pos, stop, 0) == c3;
  }

  /** Beyond the last stop, the clean-up search finds every corner that is
      not an origin. */
  lemma FinalFromRest(tri: seq<Vertex>, pos: seq<real>, last: real, origin: seq<Corner>)
    requires |tri| == 3 && |pos| == 3
    requires forall p: Corner :: p in origin <==> pos[p] < last
    requires pos[0] != last && pos[1] != last && pos[2] != last
    ensures |FinalFrom([], origin, tri, pos, last, 0)| == 3 - NumBelow(pos, last)
  {
    var s1 := FinalCorner([], origin, tri, pos, last, 0);
    var s2 := FinalCorner(s1, origin, tri, pos, last, 1);
    var s3 := FinalCorner(s2, origin, tri, pos, last, 2);
    assert FinalFrom([], origin, tri, pos, last, 0) == s3;
  }

  /** Once every corner is below the next stop, the start vertices the
      search adds are the corners that were above the stop before it, in
      corner order. */
  lemma CollectRestAbove(tri: seq<Vertex>, pos: seq<real>, low: real, stop: real, origin: seq<Corner>)
    requires |tri| == 3 && |pos| == 3
    requires forall p: Corner :: p in origin <==> pos[p] < low
    requires pos[0] != low && pos[1] != low && pos[2] != low
    requires pos[0] < stop && pos[1] < stop && pos[2] < stop
    ensures CollectFrom(Collected(origin, [], false), tri, pos, stop, 0).starts == CornersAbove(tri, pos, low)
  {
    var c0 := Collected(origin, [], false);
    var c1 := CollectCorner(c0, tri, pos, stop, 0);
    var c2 := CollectCorner(c1, tri, pos, stop, 1);
    var c3 := CollectCorner(c2, tri, pos, stop, 2);
    assert CollectFrom(c0, tri, pos, stop, 0) == c3;
    assert c1.starts == (if pos[0] > low then [tri[0]] else []);
    assert c2.starts == c1.starts + (if pos[1] > low then [tri[1]] else []);
  }

  /** After the last stop, the clean-up search finds the corners above it. */
  lemma FinalFromAbove(tri: seq<Vertex>, pos: seq<real>, last: real, origin: seq<Corner>)
    requires |tri| == 3 && |pos| == 3
    requires forall p: Corner :: p in origin <==> pos[p] < last
    requires pos[0] != last && pos[1] != last && pos[2] != last
    ensures multiset(FinalFrom([], origin, tri, pos, last, 0)) == multiset(CornersAbove(tri, pos, last))
  {
    var s1 := FinalCorner([], origin, tri, pos, last, 0);
    var s2 := FinalCorner(s1, origin, tri, pos, last, 1);
    var s3 := FinalCorner(s2, origin, tri, pos, last, 2);
    assert FinalFrom([], origin, tri, pos, last, 0) == s3;
    assert multiset(s1) == multiset(if pos[0] > last then [tri[0]] else []);
    assert multiset(s2) == multiset(s1) + multiset(if pos[1] > last then [tri[1]] else []);
    assert multiset(s3) == multiset(s2) + multiset(if pos[2] > last then [tri[2]] else []);
  }

  /** Stops lying below every corner leave an empty state untouched. */
  lemma {:induction false} RunStopsSkipBelow(cut: Cut, m: Mesh, tri: seq<Vertex>, pos: seq<real>, stops: seq<real>, j: nat)
    requires |tri| == 3 && |pos| == 3 && j <= |stops|
    requires forall k :: 0 <= k < j ==> pos[0] > stops[k] && pos[1] > stops[k] && pos[2] > stops[k]
    ensures RunStops(cut, Fresh.(mesh := m), tri, pos, stops) == RunStops(cut, Fresh.(mesh := m), tri, pos, stops[j..])
    decreases j
  {
    if j > 0 {
      var st := Fresh.(mesh := m);
      var c := CollectFrom(Collected([], [], false), tri, pos, stops[0], 0);
      CollectFromEmpty(tri, pos, stops[0]);
      assert c.origin == [] && c.starts == [];
      assert StopStep(cut, st, tri, pos, stops[0]) == (st, false);
      RunStopsSkipBelow(cut, m, tri, pos, stops[1..], j - 1);
      assert stops[1..][j - 1..] == stops[j..];
    }
  }

  ghost predicate Ascending(stops: seq<real>) {
    forall a, b :: 0 <= a < b < |stops| ==> stops[a] < stops[b]
  }

  /** `r` is `m` with dv vertices and di indices appended, every appended
      index naming one of the appended vertices. */
  ghost predicate AppendedWithin(m: Mesh, r: Mesh, dv: nat, di: nat) {
    |r.verts| == |m.verts| + dv && r.verts[..|m.verts|] == m.verts &&
    |r.indices| == |m.indices| + di && r.indices[..|m.indices|] == m.indices &&
    forall k :: |m.indices| <= k < |r.indices| ==> |m.verts| <= r.indices[k] < |m.verts| + dv
  }

  /** At the straddled stop, from an empty state: the corners below it
      become origins and start vertices, two split vertices become the
      ends, and one or two triangles are emitted over them. */
  lemma StraddleStep(cut: Cut, m: Mesh, tri: seq<Vertex>, pos: seq<real>, s: real)
    requires |tri| == 3 && |pos| == 3 && Straddles(pos, s)
    ensures var (st, broke) := StopStep(cut, Fresh.(mesh := m), tri, pos, s);
      var b := NumBelow(pos, s);
      !broke && 1 <= b <= 2 && st.starts == [] && |st.ends| == 2 &&
      |st.origin| == b && (forall p: Corner :: p in st.origin <==> pos[p] < s) &&
      AppendedWithin(m, st.mesh, b + 2, 3 * b)
  {
    CollectFromEmpty(tri, pos, s);
    var c := CollectFrom(Collected([], [], false), tri, pos, s, 0);
    var b := NumBelow(pos, s);
    var n := |m.verts|;
    var ends := MakeEnds(cut, c.origin, tri, pos, s);
    assert |ends| == 2;
    var verts := m.verts + c.starts + ends;
    var tris := StopTriangles(false, c.early, |c.starts|, n, |verts|);
    assert verts[..n] == m.verts;
    assert (m.indices + tris)[..|m.indices|] == m.indices;
    assert |tris| == 3 * b;
    forall k | 0 <= k < |tris| ensures n <= tris[k] < n + b + 2 { }
  }

  /** Closing a triangle whose straddled stop left b corners below it, once
      the 3 - b corners above it are known, completes 5 vertices and 9
      indices. */
  lemma StraddleFinish(m: Mesh, st: SplitState, tri: seq<Vertex>, pos: seq<real>, last: real, b: nat)
    requires |tri| == 3 && |pos| == 3 && 1 <= b <= 2 && |st.ends| == 2
    requires AppendedWithin(m, st.mesh, b + 2, 3 * b)
    requires |st.starts| == 3 - b || (st.starts == [] && |FinalFrom([], st.origin, tri, pos, last, 0)| == 3 - b)
    ensures AppendedWithin(m, Finish(st, tri, pos, last), 5, 9)
  {
    var n := |m.verts|;
    var starts := if |st.starts| == 0 then FinalFrom([], st.origin, tri, pos, last, 0) else st.starts;
    assert |starts| == 3 - b;
    var verts := st.mesh.verts + starts;
    var tris := FinalTriangles(|starts|, |verts|);
    var r := Finish(st, tri, pos, last);
    assert r == Mesh(verts, st.mesh.indices + tris);
    assert |verts| == n + 5;
    assert verts[..n] == st.mesh.verts[..n];
    assert r.indices[..|m.indices|] == st.mesh.indices[..|m.indices|];
    forall k | |m.indices| <= k < |r.indices| ensures n <= r.indices[k] < n + 5 {
      if k >= |st.mesh.indices| {
        assert r.indices[k] == tris[k - |st.mesh.indices|];
      } else {
        assert r.indices[k] == st.mesh.indices[k];
      }
    }
  }

  /** A source triangle (corner positions `pos` along the axis) that
      strictly straddles exactly one of the ascending stops, with no corner
      lying on a stop: the loop over the stops and the clean-up append
      exactly 5 vertices and 3 triangles over them to whatever buffer they
      start from. */
  lemma {:induction false} SingleStraddle(cut: Cut, m: Mesh, tri: seq<Vertex>, pos: seq<real>, stops: seq<real>, j: nat)
    requires |tri| == 3 && |pos| == 3 && j < |stops| && Ascending(stops)
    requires Straddles(pos, stops[j])
    requires forall k :: 0 <= k < |stops| && k != j ==> OneSide(pos, stops[k])
    requires forall k :: 0 <= k < |stops| ==> pos[0] != stops[k] && pos[1] != stops[k] && pos[2] != stops[k]
    ensures AppendedWithin(m, Finish(RunStops(cut, Fresh.(mesh := m), tri, pos, stops), tri, pos, stops[|stops| - 1]), 5, 9)
  {
    var s := stops[j];
    // the stops before s lie below every corner
    forall k | 0 <= k < j ensures pos[0] > stops[k] && pos[1] > stops[k] && pos[2] > stops[k] {
      assert stops[k] < s;
      assert OneSide(pos, stops[k]);
    }
    RunStopsSkipBelow(cut, m, tri, pos, stops, j);
    // the straddled stop
    StraddleStep(cut, m, tri, pos, s);
    var st1 := StopStep(cut, Fresh.(mesh := m), tri, pos, s).0;
    var b := NumBelow(pos, s);
    assert stops[j..][0] == s && stops[j..][1..] == stops[j + 1..];
    assert RunStops(cut, Fresh.(mesh := m), tri, pos, stops[j..]) == RunStops(cut, st1, tri, pos, stops[j + 1..]);
    var fin := RunStops(cut, st1, tri, pos, stops[j + 1..]);
    var last := stops[|stops| - 1];
    if j + 1 < |stops| {
      // the next stop lies above every corner: the search completes the
      // origins and the loop breaks
      var s2 := stops[j + 1];
      assert s < s2;
      assert OneSide(pos, s2);
      CollectRest(tri, pos, s, s2, st1.origin);
      assert stops[j + 1..][0] == s2;
      assert fin == StopStep(cut, st1, tri, pos, s2).0;
      StraddleFinish(m, fin, tri, pos, last, b);
    } else {
      assert fin == st1;
      FinalFromRest(tri, pos, s, st1.origin);
      StraddleFinish(m, fin, tri, pos, last, b);
    }
  }

  /** The straddled stop's step from empty lists: it appends the corners
      below the stop, then two ends cut on two different edges that cross
      the stop, and keeps those ends for the next stop. */
  lemma StraddleStepVerts(cut: Cut, m: Mesh, tri: seq<Vertex>, pos: seq<real>, s: real)
    returns (below: seq<Vertex>, x1: Corner, y1: Corner, x2: Corner, y2: Corner)
    requires |tri| == 3 && |pos| == 3 && Straddles(pos, s)
    requires pos[0] != s && pos[1] != s && pos[2] != s
    ensures var (st, broke) := StopStep(cut, Fresh.(mesh := m), tri, pos, s);
      !broke && st.starts == [] && st.ends == [cut(tri[x1], tri[y1], s), cut(tri[x2], tri[y2], s)] &&
      (forall p: Corner :: p in st.origin <==> pos[p] < s) && |st.origin| == NumBelow(pos, s) &&
      st.mesh.verts == m.verts + below + st.ends
    ensures |below| == NumBelow(pos, s) && multiset(below) == multiset(CornersBelow(tri, pos, s))
    ensures pos[x1] < s < pos[y1] && pos[x2] < s < pos[y2] && (x1 != x2 || y1 != y2)
  {
    CollectFromEmpty(tri, pos, s);
    StartsBelow(tri, pos, s);
    x1, y1, x2, y2 := StraddleEnds(cut, tri, pos, s);
    below := CollectFrom(Collected([], [], false), tri, pos, s, 0).starts;
  }

  /** The stops after the straddled one, and the clean-up, append the
      corners above the straddled stop (in some order) and nothing else. */
  lemma StraddleTail(cut: Cut, st: SplitState, tri: seq<Vertex>, pos: seq<real>, s: real, rest: seq<real>, last: real)
    returns (above: seq<Vertex>)
    requires |tri| == 3 && |pos| == 3 && |st.ends| == 2 && st.starts == []
    requires forall p: Corner :: p in st.origin <==> pos[p] < s
    requires |st.origin| == NumBelow(pos, s) && 1 <= NumBelow(pos, s) <= 2
    requires pos[0] != s && pos[1] != s && pos[2] != s
    requires rest != [] ==> pos[0] < rest[0] && pos[1] < rest[0] && pos[2] < rest[0]
    requires rest == [] ==> last == s
    ensures Finish(RunStops(cut, st, tri, pos, rest), tri, pos, last).verts == st.mesh.verts + above
    ensures multiset(above) == multiset(CornersAbove(tri, pos, s))
  {
    var fin := RunStops(cut, st, tri, pos, rest);
    if rest != [] {
      CollectRest(tri, pos, s, rest[0], st.origin);
      CollectRestAbove(tri, pos, s, rest[0], st.origin);
      assert fin == StopStep(cut, st, tri, pos, rest[0]).0;
      above := fin.starts;
    } else {
      FinalFromAbove(tri, pos, s, st.origin);
      FinalFromRest(tri, pos, s, st.origin);
      above := FinalFrom([], st.origin, tri, pos, s, 0);
    }
  }

  /** Up to the straddled stop: the stops below the triangle are skipped
      and the straddled one appends the corners below it and the two ends;
      the stops after it all lie above every corner. */
  lemma {:induction false} StraddleRun(cut: Cut, m: Mesh, tri: seq<Vertex>, pos: seq<real>, stops: seq<real>, j: nat)
    returns (st1: SplitState, below: seq<Vertex>, x1: Corner, y1: Corner, x2: Corner, y2: Corner)
    requires |tri| == 3 && |pos| == 3 && j < |stops| && Ascending(stops)
    requires Straddles(pos, stops[j])
    requires forall k :: 0 <= k < |stops| && k != j ==> OneSide(pos, stops[k])
    requires forall k :: 0 <= k < |stops| ==> pos[0] != stops[k] && pos[1] != stops[k] && pos[2] != stops[k]
    ensures RunStops(cut, Fresh.(mesh := m), tri, pos, stops) == RunStops(cut, st1, tri, pos, stops[j + 1..])
    ensures st1.starts == [] && st1.ends == [cut(tri[x1], tri[y1], stops[j]), cut(tri[x2], tri[y2], stops[j])]
    ensures (forall p: Corner :: p in st1.origin <==> pos[p] < stops[j]) && |st1.origin| == NumBelow(pos, stops[j])
    ensures st1.mesh.verts == m.verts + below + st1.ends
    ensures multiset(below) == multiset(CornersBelow(tri, pos, stops[j]))
    ensures pos[x1] < stops[j] < pos[y1] && pos[x2] < stops[j] < pos[y2] && (x1 != x2 || y1 != y2)
    ensures j + 1 < |stops| ==> pos[0] < stops[j + 1] && pos[1] < stops[j + 1] && pos[2] < stops[j + 1]
  {
    var s := stops[j];
    forall k | 0 <= k < j ensures pos[0] > stops[k] && pos[1] > stops[k] && pos[2] > stops[k] {
      assert stops[k] < s;
      assert OneSide(pos, stops[k]);
    }
    RunStopsSkipBelow(cut, m, tri, pos, stops, j);
    below, x1, y1, x2, y2 := StraddleStepVerts(cut, m, tri, pos, s);
    st1 := StopStep(cut, Fresh.(mesh := m), tri, pos, s).0;
    assert stops[j..][0] == s && stops[j..][1..] == stops[j + 1..];
    assert RunStops(cut, Fresh.(mesh := m), tri, pos, stops[j..]) == RunStops(cut, st1, tri, pos, stops[j + 1..]);
    if j + 1 < |stops| {
      assert s < stops[j + 1];
      assert OneSide(pos, stops[j + 1]);
    }
  }

  /** Which five vertices a single straddle appends, in buffer order: the
      corners below the stop, the two vertices cut on two different edges
      that cross the stop, and the corners above it. Every corner is kept,
      and with `cut` the split of CreateSplitVertex, SplitVertexOnEdge and
      SplitUvOnEdge place both cut vertices on those edges. */
  lemma {:induction false} SingleStraddlePieces(cut: Cut, m: Mesh, tri: seq<Vertex>, pos: seq<real>, stops: seq<real>, j: nat)
    returns (below: seq<Vertex>, above: seq<Vertex>, x1: Corner, y1: Corner, x2: Corner, y2: Corner)
    requires |tri| == 3 && |pos| == 3 && j < |stops| && Ascending(stops)
    requires Straddles(pos, stops[j])
    requires forall k :: 0 <= k < |stops| && k != j ==> OneSide(pos, stops[k])
    requires forall k :: 0 <= k < |stops| ==> pos[0] != stops[k] && pos[1] != stops[k] && pos[2] != stops[k]
    ensures Finish(RunStops(cut, Fresh.(mesh := m), tri, pos, stops), tri, pos, stops[|stops| - 1]).verts
         == m.verts + below + [cut(tri[x1], tri[y1], stops[j]), cut(tri[x2], tri[y2], stops[j])] + above
    ensures multiset(below) == multiset(CornersBelow(tri, pos, stops[j]))
    ensures multiset(above) == multiset(CornersAbove(tri, pos, stops[j]))
    ensures pos[x1] < stops[j] < pos[y1] && pos[x2] < stops[j] < pos[y2] && (x1 != x2 || y1 != y2)
  {
    var s := stops[j];
    var st1;
    st1, below, x1, y1, x2, y2 := StraddleRun(cut, m, tri, pos, stops, j);
    var last := stops[|stops| - 1];
    assert stops[j + 1..] == [] ==> last == s;
    assert stops[j + 1..] != [] ==> stops[j + 1..][0] == stops[j + 1];
    above := StraddleTail(cut, st1, tri, pos, s, stops[j + 1..], last);
  }

  /** The branch for a stop after an earlier split, as written: corner 0 was
      split at the previous stop, corner 1 now lies below this one and
      corner 2 above it. This stop adds one start vertex and two ends, at
      indices `ic`..`ic + 2`, yet the third triangle it emits names `ic + 3`,
      one past the end of the buffer. */
  lemma HadEndsIndexPastEnd(cut: Cut, st: SplitState, tri: seq<Vertex>)
    requires |tri| == 3 && st.origin == [0] && st.starts == [] && |st.ends| == 2
    ensures var r := StopStep(cut, st, tri, [0.0, 1.0, 5.0], 2.0).0;
      |r.mesh.verts| == |st.mesh.verts| + 3 &&
      |r.mesh.indices| == |st.mesh.indices| + 9 &&
      r.mesh.indices[|st.mesh.indices| + 7] == |r.mesh.verts|
  {
  }
}
