/** The Flippable mesh effect: it mirrors every vertex of the buffer about
    the centre of the component's rectangle, horizontally, vertically or
    both. The rectangle's centre is read from the engine's transform and is
    a parameter here. */
module Flippable {
  import opened UIMesh
  import opened GradientMath

  /** One coordinate, mirrored about `c` when `flip` is set. */
  function Mirror(flip: bool, c: real, x: real): (r: real)
    ensures flip ==> r - c == c - x
    ensures !flip ==> r == x
  {
    if flip then x + (c - x) * 2.0 else x
  }

  /** The vertex with its x and/or y mirrored about the centre; z and every
      other field are written back as they were read. */
  function FlipVertex(horizontal: bool, vertical: bool, center: Vec2, v: Vertex): Vertex {
    v.(position := Vec3(Mirror(horizontal, center.x, v.position.x),
                        Mirror(vertical, center.y, v.position.y),
                        v.position.z))
  }

  /** Every vertex of a list, flipped. */
  function FlipAll(horizontal: bool, vertical: bool, center: Vec2, vs: seq<Vertex>): (r: seq<Vertex>)
    ensures |r| == |vs|
  {
    seq(|vs|, k requires 0 <= k < |vs| => FlipVertex(horizontal, vertical, center, vs[k]))
  }

  /** Mirroring a coordinate twice about the same centre restores it. */
  lemma MirrorTwice(flip: bool, c: real, x: real)
    ensures Mirror(flip, c, Mirror(flip, c, x)) == x
  {
  }

  /** Flipping changes the position's x and y only: z, normal, tangent,
      colour and uv are kept; each flipped coordinate keeps its distance to
      the centre, and a vertex on the centre does not move. */
  lemma FlipVertexGeometry(horizontal: bool, vertical: bool, center: Vec2, v: Vertex)
    ensures var w := FlipVertex(horizontal, vertical, center, v);
      w.position.z == v.position.z && w.normal == v.normal && w.tangent == v.tangent &&
      w.color == v.color && w.uv0 == v.uv0 &&
      Abs(w.position.x - center.x) == Abs(v.position.x - center.x) &&
      Abs(w.position.y - center.y) == Abs(v.position.y - center.y) &&
      (v.position.x == center.x && v.position.y == center.y ==> w == v)
  {
  }

  /** Flipping a whole buffer twice with the same flags and centre restores
      every vertex. */
  lemma FlipAllTwice(horizontal: bool, vertical: bool, center: Vec2, vs: seq<Vertex>)
    ensures FlipAll(horizontal, vertical, center, FlipAll(horizontal, vertical, center, vs)) == vs
  {
    var once := FlipAll(horizontal, vertical, center, vs);
    var twice := FlipAll(horizontal, vertical, center, once);
    forall k | 0 <= k < |vs| ensures twice[k] == vs[k] {
      MirrorTwice(horizontal, center.x, vs[k].position.x);
      MirrorTwice(vertical, center.y, vs[k].position.y);
    }
  }

  /** With neither flag set the buffer is left as it is. */
  lemma FlipAllIdentity(center: Vec2, vs: seq<Vertex>)
    ensures FlipAll(false, false, center, vs) == vs
  {
    var r := FlipAll(false, false, center, vs);
    forall k | 0 <= k < |vs| ensures r[k] == vs[k] {
      assert r[k] == FlipVertex(false, false, center, vs[k]);
    }
  }

  /** The component; `veritical` keeps the spelling of its backing field,
      which the `vertical` accessor reads and writes. */
  class UIFlippable {
    var horizontal: bool
    var veritical: bool

    constructor (horizontal: bool, vertical: bool)
      ensures this.horizontal == horizontal && veritical == vertical
    {
      this.horizontal := horizontal;
      veritical := vertical;
    }

    /** The `horizontal` setter assigns the backing field and nothing else
        (unlike the gradient effect's setters, the source's accessor does
        not mark the vertices dirty, so the mesh is not rebuilt). */
    method SetHorizontal(value: bool)
      modifies this
      ensures horizontal == value && veritical == old(veritical)
    {
      horizontal := value;
    }

    /** The `vertical` setter, likewise. */
    method SetVertical(value: bool)
      modifies this
      ensures veritical == value && horizontal == old(horizontal)
    {
      veritical := value;
    }

    /** The mirror loop over every vertex of the buffer, rewritten in place;
        the triangle list and the vertex count are kept. */
    method ModifyMesh(helper: VertexHelper, center: Vec2)
      modifies helper
      ensures helper.verts == FlipAll(horizontal, veritical, center, old(helper.verts))
      ensures helper.indices == old(helper.indices)
    {
      ghost var v0 := helper.verts;
      var i := 0;
      while i < helper.CurrentVertCount()
        invariant 0 <= i <= |helper.verts| == |v0|
        invariant helper.indices == old(helper.indices)
        invariant forall k :: 0 <= k < i ==> helper.verts[k] == FlipVertex(horizontal, veritical, center, v0[k])
        invariant forall k :: i <= k < |v0| ==> helper.verts[k] == v0[k]
      {
        var vertex := helper.PopulateUIVertex(i);
        vertex := vertex.(position := Vec3(
          if horizontal then vertex.position.x + (center.x - vertex.position.x) * 2.0 else vertex.position.x,
          if veritical then vertex.position.y + (center.y - vertex.position.y) * 2.0 else vertex.position.y,
          vertex.position.z));
        helper.SetUIVertex(vertex, i);
        i := i + 1;
      }
    }
  }

  /** Running the effect twice with the same flags and centre gives back the
      buffer it started from. */
  method FlipTwice(f: UIFlippable, helper: VertexHelper, center: Vec2)
    modifies helper
    ensures helper.Snapshot() == old(helper.Snapshot())
  {
    f.ModifyMesh(helper, center);
    f.ModifyMesh(helper, center);
    FlipAllTwice(f.horizontal, f.veritical, center, old(helper.verts));
  }
}
