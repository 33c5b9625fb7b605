/** The UI vertex stream that mesh effects rewrite: the engine's `UIVertex`
    record and its mutable `VertexHelper` buffer (a vertex list plus a flat
    list of triangle indices). All floating-point values are modelled as
    exact reals. */
module UIMesh {

  datatype Vec2 = Vec2(x: real, y: real)
  datatype Vec3 = Vec3(x: real, y: real, z: real)
  datatype Vec4 = Vec4(x: real, y: real, z: real, w: real)

  /** A colour with real channels. The engine stores a vertex colour as
      8-bit channels (clamped to [0, 1] and quantised); that write-back is
      not modelled, so channels here may leave [0, 1]. */
  datatype Color = Color(r: real, g: real, b: real, a: real)

  const White := Color(1.0, 1.0, 1.0, 1.0)

  /** The engine's implicit `Color` to `Vector4` conversion (used when a
      colour is stored in the tangent slot). */
  function ColorToVec4(c: Color): Vec4 {
    Vec4(c.r, c.g, c.b, c.a)
  }

  /** One vertex of the stream. The uv1..uv3 slots are not modelled; the
      vertices an effect creates have them zero. */
  datatype Vertex = Vertex(position: Vec3, normal: Vec3, tangent: Vec4, color: Color, uv0: Vec2)

  /** `new UIVertex()`: every field zero. */
  const ZeroVertex := Vertex(Vec3(0.0, 0.0, 0.0), Vec3(0.0, 0.0, 0.0), Vec4(0.0, 0.0, 0.0, 0.0),
                             Color(0.0, 0.0, 0.0, 0.0), Vec2(0.0, 0.0))

  /** A value snapshot of a vertex buffer. */
  datatype Mesh = Mesh(verts: seq<Vertex>, indices: seq<int>)

  /** Every triangle index names an existing vertex. */
  ghost predicate IndicesInRange(m: Mesh) {
    forall k :: 0 <= k < |m.indices| ==> 0 <= m.indices[k] < |m.verts|
  }

  /** The non-indexed triangle list: one vertex per index, in index order. */
  function Stream(m: Mesh): seq<Vertex>
    requires IndicesInRange(m)
  {
    seq(|m.indices|, k requires 0 <= k < |m.indices| => m.verts[m.indices[k]])
  }

  /** The engine's vertex/triangle buffer. */
  class VertexHelper {
    var verts: seq<Vertex>
    var indices: seq<int>

    /** Triangles are always added three indices at a time. */
    ghost predicate Valid()
      reads this
    {
      |indices| % 3 == 0
    }

    function Snapshot(): Mesh
      reads this
    {
      Mesh(verts, indices)
    }

    function CurrentVertCount(): (n: nat)
      reads this
      ensures n == |verts|
    {
      |verts|
    }

    constructor (m: Mesh)
      requires |m.indices| % 3 == 0
      ensures Valid() && Snapshot() == m
    {
      verts := m.verts;
      indices := m.indices;
    }

    method Clear()
      modifies this
      ensures Valid() && verts == [] && indices == []
    {
      verts := [];
      indices := [];
    }

    method AddVert(v: Vertex)
      modifies this
      ensures verts == old(verts) + [v] && indices == old(indices)
    {
      verts := verts + [v];
    }

    method AddTriangle(a: int, b: int, c: int)
      requires Valid()
      modifies this
      ensures Valid()
      ensures indices == old(indices) + [a, b, c] && verts == old(verts)
    {
      indices := indices + [a, b, c];
    }

    method PopulateUIVertex(i: nat) returns (v: Vertex)
      requires i < |verts|
      ensures v == verts[i]
    {
      v := verts[i];
    }

    method SetUIVertex(v: Vertex, i: nat)
      requires i < |verts|
      modifies this
      ensures verts == old(verts)[i := v] && indices == old(indices)
    {
      verts := verts[i := v];
    }

    /** Expands the indexed triangles into a flat vertex list. */
    method GetUIVertexStream() returns (s: seq<Vertex>)
      requires IndicesInRange(Snapshot())
      ensures s == Stream(Snapshot())
    {
      s := [];
      var k := 0;
      while k < |indices|
        invariant 0 <= k <= |indices|
        invariant |s| == k
        invariant forall j :: 0 <= j < k ==> s[j] == verts[indices[j]]
      {
        s := s + [verts[indices[k]]];
        k := k + 1;
      }
    }
  }
}
