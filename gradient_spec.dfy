/** What one ModifyMesh call of the gradient effect does to the vertex
    buffer, as a function of the effect's settings, the engine services it
    calls and the buffer before the call. */
module GradientSpec {
  import opened UIMesh
  import opened GradientMath
  import opened GradientStops
  import opened GradientSplit

  /** Engine services the effect calls but does not define: the gradient's
      colour at a ramp coordinate (Gradient.Evaluate), the square root, and
      the cosine and sine of an angle given in degrees. */
  datatype Engine = Engine(evaluate: (Gradient, real) -> Color, sqrt: real -> real,
                           cosDeg: real -> real, sinDeg: real -> real)

  /** The serialized configuration of the effect. */
  datatype Settings = Settings(gradientType: GradientType, blendMode: Blend, modifyVertices: bool,
                               modifyTangents: bool, offset: real, zoom: real, gradient: Gradient)

  /** The ranges the clamping setters keep the offset and zoom in. */
  ghost predicate InRange(s: Settings) {
    -1.0 <= s.offset <= 1.0 && 0.1 <= s.zoom <= 10.0
  }

  // ---------------------------------------------------------------------
  // Linear gradients (Horizontal, Vertical)
  // ---------------------------------------------------------------------

  function IsHorizontal(s: Settings): bool {
    s.gradientType == Horizontal
  }

  /** Where the linear gradient's axis starts: yMin for Vertical, else xMin. */
  function LinearMin(s: Settings, b: Rect): real {
    if s.gradientType == Vertical then b.yMin else b.xMin
  }

  /** The linear gradient's extent: the height for Vertical, else the width. */
  function LinearExtent(s: Settings, b: Rect): real {
    if s.gradientType == Vertical then b.height else b.width
  }

  /** FindStops for the settings and bounds. */
  function LinearStops(s: Settings, b: Rect): seq<real>
    requires InRange(s)
  {
    StopsSpec(s.gradient, s.offset, s.zoom, ZoomOffset(s.zoom), LinearExtent(s, b), LinearMin(s, b))
  }

  /** CreateSplitVertex for the gradient's axis. */
  function SplitAt(h: bool): Cut {
    (v1: Vertex, v2: Vertex, stop: real) => CreateSplitVertex(h, v1, v2, stop)
  }

  /** The linear geometry pass: the stream split at the stops found for
      the bounds. */
  function LinearSplit(s: Settings, stream: seq<Vertex>, b: Rect, m: Mesh): Mesh
    requires InRange(s) && |stream| % 3 == 0
  {
    SplitSpec(IsHorizontal(s), SplitAt(IsHorizontal(s)), stream, LinearStops(s, b), m)
  }

  /** The blended colour a linear gradient gives a vertex. */
  function LinearColor(s: Settings, e: Engine, b: Rect, v: Vertex): Color
    requires InRange(s)
  {
    Paint(s.blendMode, e, s.gradient, v.color,
          LinearSample(AxisOf(IsHorizontal(s), v), LinearMin(s, b), LinearExtent(s, b), s.offset, s.zoom))
  }

  /** The blended colour goes to the tangent slot when modifyTangents is
      set, to the colour otherwise. */
  function LinearRecolor(s: Settings, e: Engine, b: Rect, v: Vertex): Vertex
    requires InRange(s)
  {
    var c := LinearColor(s, e, b, v);
    if s.modifyTangents then v.(tangent := ColorToVec4(c)) else v.(color := c)
  }

  // ---------------------------------------------------------------------
  // Diamond
  // ---------------------------------------------------------------------

  /** The diamond centre: both in-plane coordinates are half the bounds'
      vertical centre (the horizontal centre is not used). */
  function DiamondCenter(b: Rect, z: real): (c: Vec3)
    ensures c.x == c.y == b.CenterY() / 2.0 && c.z == z
  {
    var radius := b.CenterY() / 2.0;
    Vec3(radius, radius, z)
  }

  function SquaredDistance(p: Vec3, q: Vec3): (d: real)
    ensures d >= 0.0
  {
    (p.x - q.x) * (p.x - q.x) + (p.y - q.y) * (p.y - q.y) + (p.z - q.z) * (p.z - q.z)
  }

  /** The ramp coordinate of a position for Diamond: the distance to the
      centre, scaled by the inverse height. */
  function DiamondSample(e: Engine, zoom: real, offset: real, b: Rect, center: Vec3, p: Vec3): (t: real)
    requires zoom != 0.0
    ensures b.height == 0.0 ==> t == -offset
    ensures p == center && e.sqrt(0.0) == 0.0 ==> t == -offset
  {
    assert p == center ==> SquaredDistance(p, center) == 0.0;
    e.sqrt(SquaredDistance(p, center)) * RampScale(b.height, zoom) - offset
  }

  /** The blend of a vertex colour with the gradient's colour at ramp
      coordinate t. */
  function Paint(mode: Blend, e: Engine, g: Gradient, c: Color, t: real): Color {
    BlendColor(mode, c, e.evaluate(g, t))
  }

  function DiamondRecolor(s: Settings, e: Engine, b: Rect, center: Vec3, v: Vertex): Vertex
    requires InRange(s)
  {
    v.(color := Paint(s.blendMode, e, s.gradient, v.color, DiamondSample(e, s.zoom, s.offset, b, center, v.position)))
  }

  // ---------------------------------------------------------------------
  // Radial
  // ---------------------------------------------------------------------

  /** The squared elliptical distance of p from the bounds centre, the
      axis distances scaled by sx and sy. */
  function RadialDistanceSquared(b: Rect, sx: real, sy: real, p: Vec3): real {
    var dx := Abs(p.x - b.CenterX()) * sx;
    var dy := Abs(p.y - b.CenterY()) * sy;
    dx * dx + dy * dy
  }

  /** The ramp coordinate of a position for Radial: twice the elliptical
      distance to the bounds centre, each axis scaled by its inverse
      extent. */
  function RadialSample(e: Engine, zoom: real, offset: real, b: Rect, p: Vec3): (t: real)
    requires zoom != 0.0
    ensures e.sqrt(0.0) == 0.0 && ((b.width == 0.0 && b.height == 0.0) || (p.x == b.CenterX() && p.y == b.CenterY()))
            ==> t == -offset
  {
    e.sqrt(RadialDistanceSquared(b, RampScale(b.width, zoom), RampScale(b.height, zoom), p)) * 2.0 - offset
  }

  /** The radial ramp is symmetric about the bounds centre on each axis: a
      position mirrored through the centre's x or y samples the same value. */
  lemma {:induction false} RadialSampleSymmetric(e: Engine, zoom: real, offset: real, b: Rect, p: Vec3)
    requires zoom != 0.0
    ensures RadialSample(e, zoom, offset, b, p.(x := 2.0 * b.CenterX() - p.x)) == RadialSample(e, zoom, offset, b, p)
    ensures RadialSample(e, zoom, offset, b, p.(y := 2.0 * b.CenterY() - p.y)) == RadialSample(e, zoom, offset, b, p)
  {
    var sx, sy := RampScale(b.width, zoom), RampScale(b.height, zoom);
    var px, py := p.(x := 2.0 * b.CenterX() - p.x), p.(y := 2.0 * b.CenterY() - p.y);
    assert Abs(px.x - b.CenterX()) == Abs(p.x - b.CenterX());
    assert Abs(py.y - b.CenterY()) == Abs(p.y - b.CenterY());
    assert RadialDistanceSquared(b, sx, sy, px) == RadialDistanceSquared(b, sx, sy, p);
    assert RadialDistanceSquared(b, sx, sy, py) == RadialDistanceSquared(b, sx, sy, p);
  }

  function RadialRecolor(s: Settings, e: Engine, b: Rect, v: Vertex): Vertex
    requires InRange(s)
  {
    v.(color := Paint(s.blendMode, e, s.gradient, v.color, RadialSample(e, s.zoom, s.offset, b, v.position)))
  }

  // ---------------------------------------------------------------------
  // Fans
  // ---------------------------------------------------------------------

  /** The triangles (i - 1, i, hub) for i = 1 .. n - 1. */
  function FanStrip(n: nat, hub: int): (r: seq<int>)
    ensures |r| == if n == 0 then 0 else 3 * (n - 1)
  {
    if n <= 1 then [] else FanStrip(n - 1, hub) + [n - 2, n - 1, hub]
  }

  /** A closed fan over n rim vertices around `hub`. */
  function FanIndices(n: nat, hub: int): seq<int>
    requires n >= 1
  {
    FanStrip(n, hub) + [0, n - 1, hub]
  }

  /** The added central vertex: white, uv (0.5, 0.5), the first stream
      vertex's normal. */
  function CentralVertex(position: Vec3, normal: Vec3): Vertex {
    ZeroVertex.(position := position, normal := normal, uv0 := Vec2(0.5, 0.5), color := White)
  }

  function DiamondFan(stream: seq<Vertex>, center: Vec3): Mesh
    requires |stream| > 0
  {
    Mesh(stream + [CentralVertex(center, stream[0].normal)], FanIndices(|stream|, |stream|))
  }

  const RadialSteps: nat := 64

  /** The angle, in degrees, of rim vertex i. */
  function RimAngle(i: nat): real {
    (i as real) * 360.0 / (RadialSteps as real)
  }

  /** Where rim vertex i sits: on the ellipse of the bounds' half extents,
      around the origin (the bounds centre is not added). */
  function RimPosition(e: Engine, b: Rect, z: real, i: nat): Vec3 {
    Vec3(e.cosDeg(RimAngle(i)) * (b.width / 2.0), e.sinDeg(RimAngle(i)) * (b.height / 2.0), z)
  }

  /** Rim vertex i: white, with uv ((cos a + 1) / 2, (sin a + 1) / 2). */
  function RimVertex(e: Engine, b: Rect, z: real, normal: Vec3, i: nat): Vertex {
    var c := e.cosDeg(RimAngle(i));
    var sn := e.sinDeg(RimAngle(i));
    ZeroVertex.(position := RimPosition(e, b, z, i), normal := normal,
                uv0 := Vec2((c + 1.0) * 0.5, (sn + 1.0) * 0.5), color := White)
  }

  function RadialFan(e: Engine, stream: seq<Vertex>, b: Rect): Mesh
    requires |stream| > 0
  {
    var z := stream[0].position.z;
    var rim := seq(RadialSteps, i requires 0 <= i < RadialSteps => RimVertex(e, b, z, stream[0].normal, i));
    Mesh(rim + [CentralVertex(Vec3(b.CenterX(), b.CenterY(), z), stream[0].normal)],
         FanIndices(|rim|, |rim|))
  }

  // ---------------------------------------------------------------------
  // The whole call
  // ---------------------------------------------------------------------

  /** The buffer after the geometry pass, before recolouring. */
  function Rebuilt(s: Settings, e: Engine, m: Mesh, stream: seq<Vertex>): Mesh
    requires InRange(s) && |stream| > 0 && |stream| % 3 == 0
  {
    var b := BoundsOf(stream);
    if !s.modifyVertices then m
    else match s.gradientType
      case Diamond => DiamondFan(stream, DiamondCenter(b, stream[0].position.z))
      case Radial => RadialFan(e, stream, b)
      case _ => LinearSplit(s, stream, b, m)
  }

  /** The recolouring of one vertex for the shape. */
  function Recolor(s: Settings, e: Engine, b: Rect, z: real, v: Vertex): Vertex
    requires InRange(s)
  {
    match s.gradientType
    case Diamond => DiamondRecolor(s, e, b, DiamondCenter(b, z), v)
    case Radial => RadialRecolor(s, e, b, v)
    case _ => LinearRecolor(s, e, b, v)
  }

  function RecolorAll(s: Settings, e: Engine, b: Rect, z: real, vs: seq<Vertex>): (r: seq<Vertex>)
    requires InRange(s)
    ensures |r| == |vs|
  {
    seq(|vs|, k requires 0 <= k < |vs| => Recolor(s, e, b, z, vs[k]))
  }

  /** How the call ends: with the buffer rewritten, or with the
      out-of-range exception that GetBounds raises on an empty stream. */
  datatype Outcome = Returned(mesh: Mesh) | IndexOutOfRange

  function EffectSpec(s: Settings, e: Engine, active: bool, m: Mesh): Outcome
    requires InRange(s) && IndicesInRange(m) && |m.indices| % 3 == 0
  {
    if !active || |m.verts| == 0 then Returned(m)
    else
      var stream := Stream(m);
      if |stream| == 0 then IndexOutOfRange
      else
        var b := BoundsOf(stream);
        var r := Rebuilt(s, e, m, stream);
        Returned(Mesh(RecolorAll(s, e, b, stream[0].position.z, r.verts), r.indices))
  }

  // ---------------------------------------------------------------------
  // Properties
  // ---------------------------------------------------------------------

  /** Recolouring changes colour or tangent only. */
  ghost predicate SameGeometry(a: Vertex, b: Vertex) {
    a.position == b.position && a.normal == b.normal && a.uv0 == b.uv0
  }

  /** The call leaves an inactive component's buffer, or an empty buffer,
      exactly as it was; a buffer whose triangle list is empty raises. */
  lemma EffectGuards(s: Settings, e: Engine, active: bool, m: Mesh)
    requires InRange(s) && IndicesInRange(m) && |m.indices| % 3 == 0
    ensures !active || |m.verts| == 0 ==> EffectSpec(s, e, active, m) == Returned(m)
    ensures active && |m.verts| > 0 && |m.indices| == 0 ==> EffectSpec(s, e, active, m) == IndexOutOfRange
    ensures active && |m.indices| > 0 ==> EffectSpec(s, e, active, m).Returned?
  {
  }

  /** The recolouring pass keeps every vertex's position, normal and uv;
      Diamond and Radial write the colour and keep the tangent whatever
      modifyTangents says; the linear shapes write the tangent instead of
      the colour exactly when modifyTangents is set. */
  lemma {:induction false} RecolorWrites(s: Settings, e: Engine, b: Rect, z: real, v: Vertex)
    requires InRange(s)
    ensures SameGeometry(Recolor(s, e, b, z, v), v)
    ensures s.gradientType in {Diamond, Radial} ==>
      Recolor(s, e, b, z, v).tangent == v.tangent &&
      Recolor(s, e, b, z, v) == Recolor(s.(modifyTangents := !s.modifyTangents), e, b, z, v)
    ensures s.gradientType in {Horizontal, Vertical} && s.modifyTangents ==>
      Recolor(s, e, b, z, v) == v.(tangent := ColorToVec4(LinearColor(s, e, b, v)))
    ensures s.gradientType in {Horizontal, Vertical} && !s.modifyTangents ==>
      Recolor(s, e, b, z, v) == v.(color := LinearColor(s, e, b, v))
  {
    var s' := s.(modifyTangents := !s.modifyTangents);
    assert InRange(s');
    match s.gradientType
    case Diamond =>
      assert Recolor(s, e, b, z, v) == DiamondRecolor(s, e, b, DiamondCenter(b, z), v);
    case Radial =>
      assert Recolor(s, e, b, z, v) == RadialRecolor(s, e, b, v);
    case _ =>
      assert Recolor(s, e, b, z, v) == LinearRecolor(s, e, b, v);
  }

  /** Without modifyVertices no shape changes the buffer's geometry: the
      triangle list and vertex count stay, and only colours or tangents of
      the existing vertices are rewritten. */
  lemma {:induction false} EffectWithoutModifyVertices(s: Settings, e: Engine, active: bool, m: Mesh)
    requires InRange(s) && IndicesInRange(m) && |m.indices| % 3 == 0 && !s.modifyVertices
    requires EffectSpec(s, e, active, m).Returned?
    ensures var r := EffectSpec(s, e, active, m).mesh;
      r.indices == m.indices && |r.verts| == |m.verts| &&
      forall k :: 0 <= k < |m.verts| ==> SameGeometry(r.verts[k], m.verts[k])
  {
    if active && |m.verts| > 0 {
      var stream := Stream(m);
      var b := BoundsOf(stream);
      var r := EffectSpec(s, e, active, m).mesh;
      assert Rebuilt(s, e, m, stream) == m;
      forall k | 0 <= k < |m.verts| ensures SameGeometry(r.verts[k], m.verts[k]) {
        RecolorWrites(s, e, b, stream[0].position.z, m.verts[k]);
      }
    }
  }

  /** The fan strip's triangle t is (t, t + 1, hub). */
  lemma {:induction false} FanStripTriangles(n: nat, hub: int)
    ensures forall t :: 0 <= t < n - 1 ==>
      FanStrip(n, hub)[3 * t] == t && FanStrip(n, hub)[3 * t + 1] == t + 1 && FanStrip(n, hub)[3 * t + 2] == hub
  {
    if n > 1 {
      FanStripTriangles(n - 1, hub);
      var r := FanStrip(n, hub);
      assert r == FanStrip(n - 1, hub) + [n - 2, n - 1, hub];
      forall t | 0 <= t < n - 1
        ensures r[3 * t] == t && r[3 * t + 1] == t + 1 && r[3 * t + 2] == hub
      {
        if t < n - 2 {
          assert r[3 * t] == FanStrip(n - 1, hub)[3 * t];
          assert r[3 * t + 1] == FanStrip(n - 1, hub)[3 * t + 1];
          assert r[3 * t + 2] == FanStrip(n - 1, hub)[3 * t + 2];
        }
      }
    }
  }

  /** Every index of a closed fan over n >= 1 rim vertices around hub n
      names one of its n + 1 vertices. */
  lemma {:induction false} FanIndicesInRange(n: nat)
    requires n >= 1
    ensures |FanIndices(n, n)| == 3 * n
    ensures forall k :: 0 <= k < 3 * n ==> 0 <= FanIndices(n, n)[k] <= n
  {
    FanStripTriangles(n, n);
    var r := FanIndices(n, n);
    forall k | 0 <= k < 3 * n ensures 0 <= r[k] <= n {
      if k < 3 * (n - 1) {
        var t := k / 3;
        assert k == 3 * t || k == 3 * t + 1 || k == 3 * t + 2;
        assert r[k] == FanStrip(n, n)[k];
      }
    }
  }

  /** Diamond with modifyVertices: the stream's vCount vertices followed by
      the centre at index vCount, and vCount triangles (i - 1, i, vCount)
      for i = 1 .. vCount - 1 closed by (0, vCount - 1, vCount), every index
      below vCount + 1. The centre has both in-plane coordinates equal to
      half the bounds' vertical centre and the first vertex's depth. */
  lemma {:induction false} DiamondFanShape(s: Settings, e: Engine, m: Mesh)
    requires InRange(s) && IndicesInRange(m) && |m.indices| % 3 == 0
    requires s.gradientType == Diamond && s.modifyVertices && |m.indices| > 0
    ensures var r := EffectSpec(s, e, true, m).mesh;
      var stream := Stream(m);
      var n := |stream|;
      |r.verts| == n + 1 && |r.indices| == 3 * n &&
      (forall k :: 0 <= k < n ==> SameGeometry(r.verts[k], stream[k])) &&
      r.verts[n].position == Vec3(BoundsOf(stream).CenterY() / 2.0, BoundsOf(stream).CenterY() / 2.0,
                                  stream[0].position.z) &&
      (forall t :: 0 <= t < n - 1 ==> r.indices[3 * t] == t && r.indices[3 * t + 1] == t + 1 && r.indices[3 * t + 2] == n) &&
      r.indices[3 * n - 3] == 0 && r.indices[3 * n - 2] == n - 1 && r.indices[3 * n - 1] == n &&
      forall k :: 0 <= k < |r.indices| ==> 0 <= r.indices[k] < |r.verts|
  {
    var stream := Stream(m);
    var n := |stream|;
    var b := BoundsOf(stream);
    var z := stream[0].position.z;
    var fan := DiamondFan(stream, DiamondCenter(b, z));
    assert Rebuilt(s, e, m, stream) == fan;
    var r := EffectSpec(s, e, true, m).mesh;
    assert r == Mesh(RecolorAll(s, e, b, z, fan.verts), fan.indices);
    FanStripTriangles(n, n);
    FanIndicesInRange(n);
    forall k | 0 <= k <= n ensures SameGeometry(r.verts[k], fan.verts[k]) {
      RecolorWrites(s, e, b, z, fan.verts[k]);
    }
    assert fan.verts[n].position == DiamondCenter(b, z);
    forall t | 0 <= t < n - 1
      ensures r.indices[3 * t] == t && r.indices[3 * t + 1] == t + 1 && r.indices[3 * t + 2] == n
    {
      assert r.indices[3 * t] == FanStrip(n, n)[3 * t];
      assert r.indices[3 * t + 1] == FanStrip(n, n)[3 * t + 1];
      assert r.indices[3 * t + 2] == FanStrip(n, n)[3 * t + 2];
    }
  }

  /** Recolouring a whole vertex list keeps every vertex's geometry. */
  lemma {:induction false} RecolorAllKeepsGeometry(s: Settings, e: Engine, b: Rect, z: real, vs: seq<Vertex>)
    requires InRange(s)
    ensures forall k :: 0 <= k < |vs| ==> SameGeometry(RecolorAll(s, e, b, z, vs)[k], vs[k])
  {
    forall k | 0 <= k < |vs| ensures SameGeometry(RecolorAll(s, e, b, z, vs)[k], vs[k]) {
      RecolorWrites(s, e, b, z, vs[k]);
    }
  }

  /** The radial fan itself: 64 rim vertices on the ellipse of the half
      extents around the origin, the centre vertex at index 64 on the
      bounds centre, 64 triangles whose indices all lie below 65. */
  lemma {:induction false} RadialFanLayout(e: Engine, stream: seq<Vertex>, b: Rect)
    requires |stream| > 0
    ensures var fan := RadialFan(e, stream, b);
      var z := stream[0].position.z;
      |fan.verts| == 65 && |fan.indices| == 192 &&
      (forall i :: 0 <= i < 64 ==>
        fan.verts[i].position == RimPosition(e, b, z, i)) &&
      fan.verts[64].position == Vec3(b.CenterX(), b.CenterY(), z) &&
      forall k :: 0 <= k < |fan.indices| ==> 0 <= fan.indices[k] < |fan.verts|
  {
    var fan := RadialFan(e, stream, b);
    FanIndicesInRange(|fan.verts| - 1);
  }

  /** Radial with modifyVertices: the buffer is the radial fan, recoloured. */
  lemma RadialEffect(s: Settings, e: Engine, m: Mesh)
    requires InRange(s) && IndicesInRange(m) && |m.indices| % 3 == 0
    requires s.gradientType == Radial && s.modifyVertices && |m.indices| > 0
    ensures var stream := Stream(m);
      var b := BoundsOf(stream);
      var fan := RadialFan(e, stream, b);
      EffectSpec(s, e, true, m) == Returned(Mesh(RecolorAll(s, e, b, stream[0].position.z, fan.verts), fan.indices))
  {
  }

  /** Radial with modifyVertices: 64 rim vertices and the centre at index
      64, 64 triangles, every index below 65, whatever the input. Rim
      vertex i sits at (cos a * width / 2, sin a * height / 2) for the angle
      a = i * 360 / 64 degrees, not offset by the bounds centre; the centre
      vertex sits at the bounds centre. */
  lemma {:induction false} RadialFanShape(s: Settings, e: Engine, m: Mesh)
    requires InRange(s) && IndicesInRange(m) && |m.indices| % 3 == 0
    requires s.gradientType == Radial && s.modifyVertices && |m.indices| > 0
    ensures var r := EffectSpec(s, e, true, m).mesh;
      var stream := Stream(m);
      var b := BoundsOf(stream);
      var z := stream[0].position.z;
      |r.verts| == 65 && |r.indices| == 192 &&
      (forall i :: 0 <= i < 64 ==>
        r.verts[i].position == RimPosition(e, b, z, i)) &&
      r.verts[64].position == Vec3(b.CenterX(), b.CenterY(), z) &&
      forall k :: 0 <= k < |r.indices| ==> 0 <= r.indices[k] < |r.verts|
  {
    var stream := Stream(m);
    var b := BoundsOf(stream);
    var z := stream[0].position.z;
    var fan := RadialFan(e, stream, b);
    RadialEffect(s, e, m);
    RadialFanLayout(e, stream, b);
    RecolorAllKeepsGeometry(s, e, b, z, fan.verts);
  }

  /** A linear shape with modifyVertices and no stop in view keeps the
      buffer's geometry; otherwise the buffer is the split of the stream. */
  lemma {:induction false} LinearGeometry(s: Settings, e: Engine, m: Mesh)
    requires InRange(s) && IndicesInRange(m) && |m.indices| % 3 == 0
    requires s.gradientType in {Horizontal, Vertical} && s.modifyVertices && |m.indices| > 0
    ensures var r := EffectSpec(s, e, true, m).mesh;
      var stream := Stream(m);
      var g := LinearSplit(s, stream, BoundsOf(stream), m);
      r.indices == g.indices && |r.verts| == |g.verts| &&
      (forall k :: 0 <= k < |g.verts| ==> SameGeometry(r.verts[k], g.verts[k])) &&
      (LinearStops(s, BoundsOf(stream)) == [] ==> g == m)
  {
    var stream := Stream(m);
    var b := BoundsOf(stream);
    var z := stream[0].position.z;
    var g := LinearSplit(s, stream, b, m);
    assert Rebuilt(s, e, m, stream) == g;
    var r := EffectSpec(s, e, true, m).mesh;
    forall k | 0 <= k < |g.verts| ensures SameGeometry(r.verts[k], g.verts[k]) {
      RecolorWrites(s, e, b, z, g.verts[k]);
    }
  }

  /** A vertex lying on a stop samples the gradient exactly at the key
      time that produced the stop, so every gradient key lands on split
      vertices along the stop line (for a non-degenerate extent). */
  lemma {:induction false} StopSamplesKeyTime(s: Settings, b: Rect, k: nat) returns (t: real)
    requires InRange(s) && LinearExtent(s, b) > 0.0 && k < |LinearStops(s, b)|
    ensures t in ColorTimes(s.gradient) || t in AlphaTimes(s.gradient)
    ensures StartBoundary(s.offset, ZoomOffset(s.zoom)) < t < EndBoundary(s.offset, ZoomOffset(s.zoom))
    ensures LinearSample(LinearStops(s, b)[k], LinearMin(s, b), LinearExtent(s, b), s.offset, s.zoom) == t
  {
    var zo := ZoomOffset(s.zoom);
    var w := LinearExtent(s, b);
    var min := LinearMin(s, b);
    var stops := StopsSpec(s.gradient, s.offset, s.zoom, zo, w, min);
    assert stops == LinearStops(s, b);
    var y;
    t, y := StopsSound(s.gradient, s.offset, s.zoom, zo, w, min, k);
    SampleInvertsStop(stops[k], t, y, s.offset, s.zoom, w, min);
  }

  lemma SampleInvertsStop(pos: real, t: real, y: real, offset: real, zoom: real, w: real, min: real)
    requires zoom > 0.0 && w > 0.0
    requires y == KeyPosition(t, StartBoundary(offset, ZoomOffset(zoom)), zoom) && pos == ToMesh(y, w, min)
    ensures LinearSample(pos, min, w, offset, zoom) == t
  {
    var lo := StartBoundary(offset, ZoomOffset(zoom));
    assert RampScale(w, zoom) == 1.0 / w / zoom;
    assert (pos - min) * RampScale(w, zoom) == t - lo by {
      assert pos - min == (t - lo) * zoom * w;
      assert ((t - lo) * zoom * w) * (1.0 / w / zoom) == (t - lo) * ((zoom * w) * (1.0 / w / zoom));
      assert (zoom * w) * (1.0 / w / zoom) == 1.0;
    }
  }
}
