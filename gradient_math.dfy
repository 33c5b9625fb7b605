/** The expression-only parts of the gradient effect: configuration enums,
    setter clamping, colour blending, mesh bounds, the linear sample
    coordinate and the interpolated split vertex. */
module GradientMath {
  import opened UIMesh

  datatype GradientType = Horizontal | Vertical | Radial | Diamond

  datatype Blend = Override | Add | Multiply

  function Abs(x: real): (r: real)
    ensures r >= 0.0 && (r == x || r == -x)
  {
    if x < 0.0 then -x else x
  }

  // ---------------------------------------------------------------------
  // Clamping (the GradientOffset and GradientZoom setters)
  // ---------------------------------------------------------------------

  /** The engine's clamp: below the range gives the lower end, above it the
      upper end. */
  function Clamp(value: real, lo: real, hi: real): (r: real)
    requires lo <= hi
    ensures lo <= r <= hi
    ensures r == value <==> lo <= value <= hi
  {
    if value < lo then lo else if value > hi then hi else value
  }

  /** The clamped value is the point of the range nearest to the input. */
  lemma {:induction false} ClampIsNearest(value: real, lo: real, hi: real, y: real)
    requires lo <= y <= hi
    ensures Abs(Clamp(value, lo, hi) - value) <= Abs(y - value)
  {
    if value < lo {
      assert Clamp(value, lo, hi) == lo;
    } else if value > hi {
      assert Clamp(value, lo, hi) == hi;
    }
  }

  lemma {:induction false} ClampIdempotent(value: real, lo: real, hi: real)
    requires lo <= hi
    ensures Clamp(Clamp(value, lo, hi), lo, hi) == Clamp(value, lo, hi)
  {
    var r := Clamp(value, lo, hi);
    assert lo <= r <= hi;
  }

  // ---------------------------------------------------------------------
  // Blending
  // ---------------------------------------------------------------------

  /** Combines the vertex colour `a` with the ramp colour `b`. */
  function BlendColor(mode: Blend, a: Color, b: Color): (c: Color)
    ensures mode == Add ==> c == Color(a.r + b.r, a.g + b.g, a.b + b.b, a.a + b.a)
    ensures mode == Multiply ==> c == Color(a.r * b.r, a.g * b.g, a.b * b.b, a.a * b.a)
    ensures mode == Override ==> c == b
  {
    match mode
    case Add => Color(a.r + b.r, a.g + b.g, a.b + b.b, a.a + b.a)
    case Multiply => Color(a.r * b.r, a.g * b.g, a.b * b.b, a.a * b.a)
    case _ => b
  }

  /** Override ignores the existing colour; Multiply on a white vertex and
      Add on a transparent black one both reproduce the ramp colour. */
  lemma BlendNeutralElements(a: Color, b: Color)
    ensures BlendColor(Override, a, b) == BlendColor(Override, White, b)
    ensures BlendColor(Multiply, White, b) == b
    ensures BlendColor(Add, Color(0.0, 0.0, 0.0, 0.0), b) == b
  {
  }

  // ---------------------------------------------------------------------
  // Bounds
  // ---------------------------------------------------------------------

  /** An axis-aligned rectangle as (xMin, yMin, width, height). */
  datatype Rect = Rect(xMin: real, yMin: real, width: real, height: real) {
    function XMax(): real { xMin + width }
    function YMax(): real { yMin + height }
    function CenterX(): real { xMin + width / 2.0 }
    function CenterY(): real { yMin + height / 2.0 }
  }

  function SeqMin(s: seq<real>): real
    requires |s| > 0
  {
    if |s| == 1 then s[0]
    else var m := SeqMin(s[1..]); if s[0] < m then s[0] else m
  }

  function SeqMax(s: seq<real>): real
    requires |s| > 0
  {
    if |s| == 1 then s[0]
    else var m := SeqMax(s[1..]); if s[0] > m then s[0] else m
  }

  lemma {:induction false} SeqMinIsLeast(s: seq<real>)
    requires |s| > 0
    ensures forall k :: 0 <= k < |s| ==> SeqMin(s) <= s[k]
    ensures exists k :: 0 <= k < |s| && SeqMin(s) == s[k]
  {
    if |s| == 1 {
      assert SeqMin(s) == s[0];
    } else {
      SeqMinIsLeast(s[1..]);
      var j :| 0 <= j < |s[1..]| && SeqMin(s[1..]) == s[1..][j];
      assert s[1..][j] == s[j + 1];
      if s[0] < SeqMin(s[1..]) {
        assert SeqMin(s) == s[0];
      } else {
        assert SeqMin(s) == s[j + 1];
      }
      forall k | 0 <= k < |s| ensures SeqMin(s) <= s[k] {
        if k > 0 { assert s[k] == s[1..][k - 1]; }
      }
    }
  }

  lemma {:induction false} SeqMaxIsGreatest(s: seq<real>)
    requires |s| > 0
    ensures forall k :: 0 <= k < |s| ==> s[k] <= SeqMax(s)
    ensures exists k :: 0 <= k < |s| && SeqMax(s) == s[k]
  {
    if |s| == 1 {
      assert SeqMax(s) == s[0];
    } else {
      SeqMaxIsGreatest(s[1..]);
      var j :| 0 <= j < |s[1..]| && SeqMax(s[1..]) == s[1..][j];
      assert s[1..][j] == s[j + 1];
      if s[0] > SeqMax(s[1..]) {
        assert SeqMax(s) == s[0];
      } else {
        assert SeqMax(s) == s[j + 1];
      }
      forall k | 0 <= k < |s| ensures s[k] <= SeqMax(s) {
        if k > 0 { assert s[k] == s[1..][k - 1]; }
      }
    }
  }

  /** A least element that is attained is the minimum. */
  lemma LeastIsSeqMin(s: seq<real>, m: real)
    requires |s| > 0
    requires forall k :: 0 <= k < |s| ==> m <= s[k]
    requires exists k :: 0 <= k < |s| && m == s[k]
    ensures m == SeqMin(s)
  {
    SeqMinIsLeast(s);
  }

  lemma GreatestIsSeqMax(s: seq<real>, m: real)
    requires |s| > 0
    requires forall k :: 0 <= k < |s| ==> s[k] <= m
    requires exists k :: 0 <= k < |s| && m == s[k]
    ensures m == SeqMax(s)
  {
    SeqMaxIsGreatest(s);
  }

  function Xs(vs: seq<Vertex>): (r: seq<real>)
    ensures |r| == |vs|
  {
    seq(|vs|, k requires 0 <= k < |vs| => vs[k].position.x)
  }

  function Ys(vs: seq<Vertex>): (r: seq<real>)
    ensures |r| == |vs|
  {
    seq(|vs|, k requires 0 <= k < |vs| => vs[k].position.y)
  }

  /** The bounding rectangle of the vertex positions. */
  function BoundsOf(vs: seq<Vertex>): Rect
    requires |vs| > 0
  {
    var left := SeqMin(Xs(vs));
    var bottom := SeqMin(Ys(vs));
    Rect(left, bottom, SeqMax(Xs(vs)) - left, SeqMax(Ys(vs)) - bottom)
  }

  /** The bounds contain every vertex, have non-negative extent, and each
      of their four sides touches some vertex. */
  lemma BoundsOfIsTight(vs: seq<Vertex>)
    requires |vs| > 0
    ensures BoundsOf(vs).width >= 0.0 && BoundsOf(vs).height >= 0.0
    ensures forall k :: 0 <= k < |vs| ==>
      BoundsOf(vs).xMin <= vs[k].position.x <= BoundsOf(vs).XMax() &&
      BoundsOf(vs).yMin <= vs[k].position.y <= BoundsOf(vs).YMax()
    ensures exists k :: 0 <= k < |vs| && vs[k].position.x == BoundsOf(vs).xMin
    ensures exists k :: 0 <= k < |vs| && vs[k].position.x == BoundsOf(vs).XMax()
    ensures exists k :: 0 <= k < |vs| && vs[k].position.y == BoundsOf(vs).yMin
    ensures exists k :: 0 <= k < |vs| && vs[k].position.y == BoundsOf(vs).YMax()
  {
    SeqMinIsLeast(Xs(vs));
    SeqMaxIsGreatest(Xs(vs));
    SeqMinIsLeast(Ys(vs));
    SeqMaxIsGreatest(Ys(vs));
    assert Xs(vs)[0] == vs[0].position.x;
    var i1 :| 0 <= i1 < |vs| && SeqMin(Xs(vs)) == Xs(vs)[i1];
    var i2 :| 0 <= i2 < |vs| && SeqMax(Xs(vs)) == Xs(vs)[i2];
    var i3 :| 0 <= i3 < |vs| && SeqMin(Ys(vs)) == Ys(vs)[i3];
    var i4 :| 0 <= i4 < |vs| && SeqMax(Ys(vs)) == Ys(vs)[i4];
    assert vs[i1].position.x == BoundsOf(vs).xMin;
    assert vs[i2].position.x == BoundsOf(vs).XMax();
    assert vs[i3].position.y == BoundsOf(vs).yMin;
    assert vs[i4].position.y == BoundsOf(vs).YMax();
    forall k | 0 <= k < |vs|
      ensures BoundsOf(vs).xMin <= vs[k].position.x <= BoundsOf(vs).XMax()
      ensures BoundsOf(vs).yMin <= vs[k].position.y <= BoundsOf(vs).YMax()
    {
      assert Xs(vs)[k] == vs[k].position.x;
      assert Ys(vs)[k] == vs[k].position.y;
    }
  }

  // ---------------------------------------------------------------------
  // Linear sample coordinate
  // ---------------------------------------------------------------------

  /** How far the visible window is shrunk on each side: (1 - 1/zoom)/2. */
  function ZoomOffset(zoom: real): real
    requires zoom != 0.0
  {
    (1.0 - 1.0 / zoom) * 0.5
  }

  /** Scale from mesh units to ramp units: zero for a degenerate extent. */
  function RampScale(extent: real, zoom: real): real
    requires zoom != 0.0
  {
    if extent == 0.0 then 0.0 else 1.0 / extent / zoom
  }

  /** The ramp shift: offset * (1 - zoomOffset) - zoomOffset. */
  function LinearShift(offset: real, zoom: real): real
    requires zoom != 0.0
  {
    offset * (1.0 - ZoomOffset(zoom)) - ZoomOffset(zoom)
  }

  /** The ramp coordinate of a vertex whose axis coordinate is `pos`, for a
      linear gradient over [min, min + extent]. */
  function LinearSample(pos: real, min: real, extent: real, offset: real, zoom: real): (t: real)
    requires zoom != 0.0
    ensures extent == 0.0 || pos == min ==> t == -LinearShift(offset, zoom)
  {
    (pos - min) * RampScale(extent, zoom) - LinearShift(offset, zoom)
  }

  /** With zoom 1 and offset 0 the ramp is stretched exactly over the bounds:
      the near side samples 0, the far side 1 and the middle 1/2. */
  lemma {:induction false} LinearSampleUnitWindow(min: real, extent: real)
    requires extent > 0.0
    ensures LinearSample(min, min, extent, 0.0, 1.0) == 0.0
    ensures LinearSample(min + extent, min, extent, 0.0, 1.0) == 1.0
    ensures LinearSample(min + extent / 2.0, min, extent, 0.0, 1.0) == 0.5
  {
    assert ZoomOffset(1.0) == 0.0;
    assert RampScale(extent, 1.0) == 1.0 / extent;
    assert extent * (1.0 / extent) == 1.0;
  }

  /** Along a non-degenerate extent the ramp coordinate never decreases
      as the position advances along the axis. */
  lemma {:induction false} LinearSampleMonotone(p: real, q: real, min: real, extent: real, offset: real, zoom: real)
    requires extent > 0.0 && zoom > 0.0 && p <= q
    ensures LinearSample(p, min, extent, offset, zoom) <= LinearSample(q, min, extent, offset, zoom)
  {
    var s := RampScale(extent, zoom);
    assert s == 1.0 / extent / zoom;
    assert s > 0.0 by {
      assert 1.0 / extent > 0.0;
    }
    assert (p - min) * s <= (q - min) * s by {
      assert (q - min) * s - (p - min) * s == (q - p) * s;
    }
  }

  /** Zoom magnifies around the middle of the bounds: whatever the zoom, the
      middle samples 1/2 minus the offset's scaled share. */
  lemma {:induction false} LinearSampleAtCentre(min: real, extent: real, offset: real, zoom: real)
    requires extent > 0.0 && zoom > 0.0
    ensures LinearSample(min + extent / 2.0, min, extent, offset, zoom)
         == 0.5 - offset * (1.0 - ZoomOffset(zoom))
  {
    var s := RampScale(extent, zoom);
    assert s == 1.0 / extent / zoom;
    assert (extent / 2.0) * s == 0.5 / zoom by {
      assert (extent / 2.0) * (1.0 / extent / zoom) == (extent / extent) * (0.5 / zoom);
    }
    assert ZoomOffset(zoom) == 0.5 - 0.5 / zoom;
  }

  /** A degenerate extent flattens the gradient to one constant coordinate. */
  lemma DegenerateExtentIsConstant(p: real, q: real, min: real, offset: real, zoom: real)
    requires zoom != 0.0
    ensures LinearSample(p, min, 0.0, offset, zoom) == LinearSample(q, min, 0.0, offset, zoom)
         == -LinearShift(offset, zoom)
  {
  }

  // ---------------------------------------------------------------------
  // Split vertices
  // ---------------------------------------------------------------------

  /** The coordinate a linear gradient of this type is measured along
      (x for Horizontal, y otherwise). */
  function AxisOf(horizontal: bool, v: Vertex): real {
    if horizontal then v.position.x else v.position.y
  }

  /** The other in-plane coordinate. */
  function CrossOf(horizontal: bool, v: Vertex): real {
    if horizontal then v.position.y else v.position.x
  }

  /** (v1.axis - stop) / (v1.axis - v2.axis); taken as 0 when both axis
      coordinates coincide. */
  function SplitRatio(horizontal: bool, v1: Vertex, v2: Vertex, stop: real): real {
    var d := AxisOf(horizontal, v1) - AxisOf(horizontal, v2);
    if d == 0.0 then 0.0 else (AxisOf(horizontal, v1) - stop) / d
  }

  /** The vertex where the edge v1-v2 meets the stop line. */
  function CreateSplitVertex(horizontal: bool, v1: Vertex, v2: Vertex, stop: real): (r: Vertex)
    ensures AxisOf(horizontal, r) == stop
    ensures r.position.z == v1.position.z && r.normal == v1.normal
    ensures r.color == White && r.tangent == ZeroVertex.tangent
  {
    var ratio := SplitRatio(horizontal, v1, v2, stop);
    if horizontal then
      var splitY := v1.position.y - (v1.position.y - v2.position.y) * ratio;
      ZeroVertex.(position := Vec3(stop, splitY, v1.position.z), normal := v1.normal,
                  uv0 := Vec2(v1.uv0.x - (v1.uv0.x - v2.uv0.x) * ratio, v1.uv0.y - (v1.uv0.y - v2.uv0.y) * ratio),
                  color := White)
    else
      var splitX := v1.position.x - (v1.position.x - v2.position.x) * ratio;
      ZeroVertex.(position := Vec3(splitX, stop, v1.position.z), normal := v1.normal,
                  uv0 := Vec2(v1.uv0.x - (v1.uv0.x - v2.uv0.x) * ratio, v1.uv0.y - (v1.uv0.y - v2.uv0.y) * ratio),
                  color := White)
  }

  /** When the stop lies between the two axis coordinates the ratio is a
      convex weight, so the split vertex lies on the edge. */
  lemma {:induction false} SplitRatioInUnitInterval(horizontal: bool, v1: Vertex, v2: Vertex, stop: real)
    requires AxisOf(horizontal, v1) != AxisOf(horizontal, v2)
    requires AxisOf(horizontal, v1) <= stop <= AxisOf(horizontal, v2) ||
             AxisOf(horizontal, v2) <= stop <= AxisOf(horizontal, v1)
    ensures 0.0 <= SplitRatio(horizontal, v1, v2, stop) <= 1.0
  {
    var a1, a2 := AxisOf(horizontal, v1), AxisOf(horizontal, v2);
    var t := SplitRatio(horizontal, v1, v2, stop);
    assert t * (a1 - a2) == a1 - stop;
    if a1 < a2 {
      UnitWeight(t, a2 - a1, stop - a1);
    } else {
      UnitWeight(t, a1 - a2, a1 - stop);
    }
  }

  lemma UnitWeight(t: real, d: real, n: real)
    requires d > 0.0 && 0.0 <= n <= d && t * d == n
    ensures 0.0 <= t <= 1.0
  {
  }

  /** The split point is collinear with the edge's end points. */
  lemma {:induction false} SplitVertexOnEdge(horizontal: bool, v1: Vertex, v2: Vertex, stop: real)
    requires AxisOf(horizontal, v1) != AxisOf(horizontal, v2)
    ensures var r := CreateSplitVertex(horizontal, v1, v2, stop);
      (CrossOf(horizontal, r) - CrossOf(horizontal, v1)) * (AxisOf(horizontal, v2) - AxisOf(horizontal, v1))
      == (CrossOf(horizontal, v2) - CrossOf(horizontal, v1)) * (stop - AxisOf(horizontal, v1))
  {
    var a1, a2 := AxisOf(horizontal, v1), AxisOf(horizontal, v2);
    var t := SplitRatio(horizontal, v1, v2, stop);
    assert t * (a1 - a2) == a1 - stop;
    var r := CreateSplitVertex(horizontal, v1, v2, stop);
    Collinear(CrossOf(horizontal, v1), CrossOf(horizontal, v2), a1, a2, stop, t, CrossOf(horizontal, r));
  }

  lemma Collinear(c1: real, c2: real, a1: real, a2: real, stop: real, t: real, c: real)
    requires t * (a1 - a2) == a1 - stop
    requires c == c1 - (c1 - c2) * t
    ensures (c - c1) * (a2 - a1) == (c2 - c1) * (stop - a1)
  {
    assert c - c1 == (c2 - c1) * t;
    assert (c2 - c1) * t * (a2 - a1) == (c2 - c1) * (t * (a2 - a1));
  }

  /** The split vertex's uv is interpolated with the same ratio as its
      position: each uv channel lies on the line through the two ends'
      values, at the fraction of the edge where the stop cuts it. */
  lemma {:induction false} SplitUvOnEdge(horizontal: bool, v1: Vertex, v2: Vertex, stop: real)
    requires AxisOf(horizontal, v1) != AxisOf(horizontal, v2)
    ensures var r := CreateSplitVertex(horizontal, v1, v2, stop);
      (r.uv0.x - v1.uv0.x) * (AxisOf(horizontal, v2) - AxisOf(horizontal, v1))
      == (v2.uv0.x - v1.uv0.x) * (stop - AxisOf(horizontal, v1))
    ensures var r := CreateSplitVertex(horizontal, v1, v2, stop);
      (r.uv0.y - v1.uv0.y) * (AxisOf(horizontal, v2) - AxisOf(horizontal, v1))
      == (v2.uv0.y - v1.uv0.y) * (stop - AxisOf(horizontal, v1))
  {
    var a1, a2 := AxisOf(horizontal, v1), AxisOf(horizontal, v2);
    var t := SplitRatio(horizontal, v1, v2, stop);
    assert t * (a1 - a2) == a1 - stop;
    var r := CreateSplitVertex(horizontal, v1, v2, stop);
    Collinear(v1.uv0.x, v2.uv0.x, a1, a2, stop, t, r.uv0.x);
    Collinear(v1.uv0.y, v2.uv0.y, a1, a2, stop, t, r.uv0.y);
  }

  /** Splitting exactly at an end point reproduces that end point's in-plane
      position and uv. */
  lemma {:induction false} SplitVertexAtEndPoints(horizontal: bool, v1: Vertex, v2: Vertex)
    requires AxisOf(horizontal, v1) != AxisOf(horizontal, v2)
    ensures var r := CreateSplitVertex(horizontal, v1, v2, AxisOf(horizontal, v1));
      CrossOf(horizontal, r) == CrossOf(horizontal, v1) && r.uv0 == v1.uv0
    ensures var r := CreateSplitVertex(horizontal, v1, v2, AxisOf(horizontal, v2));
      CrossOf(horizontal, r) == CrossOf(horizontal, v2) && r.uv0 == v2.uv0
  {
    var a1, a2 := AxisOf(horizontal, v1), AxisOf(horizontal, v2);
    var d := a1 - a2;
    assert SplitRatio(horizontal, v1, v2, a1) == 0.0 / d == 0.0;
    DivSelf(d);
    assert SplitRatio(horizontal, v1, v2, a2) == d / d == 1.0;
  }

  lemma DivSelf(d: real)
    requires d != 0.0
    ensures d / d == 1.0
  {
    var q := d / d;
    assert q * d == d;
    assert (q - 1.0) * d == 0.0;
  }

  /** The axis coordinates of the triangle at `index` (GetPositions). */
  function GetPositions(horizontal: bool, vertexList: seq<Vertex>, index: nat): (r: seq<real>)
    requires index + 3 <= |vertexList|
    ensures |r| == 3
    ensures forall p :: 0 <= p < 3 ==> r[p] == AxisOf(horizontal, vertexList[index + p])
  {
    [AxisOf(horizontal, vertexList[index]), AxisOf(horizontal, vertexList[index + 1]),
     AxisOf(horizontal, vertexList[index + 2])]
  }
}
