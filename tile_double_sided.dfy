/** TileDoubleSided: makes a tile visible from both sides by doubling its
    mesh. The vertex, uv and normal arrays are copied twice (the second copy
    of each normal negated), and every triangle is appended a second time
    with reversed winding and indices shifted into the second vertex copy. */
module DoubleSided {
  import opened GazeCommon

  /** A mesh as the script sees it: its four parallel arrays. */
  class Mesh {
    var vertices: array<Vec3>
    var triangles: array<int>
    var uv: array<Vec2>
    var normals: array<Vec3>

    constructor (vertices: array<Vec3>, triangles: array<int>, uv: array<Vec2>, normals: array<Vec3>)
      ensures this.vertices == vertices && this.triangles == triangles
      ensures this.uv == uv && this.normals == normals
    {
      this.vertices, this.triangles, this.uv, this.normals := vertices, triangles, uv, normals;
    }
  }

  /** The `MeshFilter` component; `sharedMesh` is null when it holds no mesh. */
  class MeshFilter {
    var sharedMesh: Mesh?

    constructor (mesh: Mesh?)
      ensures sharedMesh == mesh
    {
      sharedMesh := mesh;
    }
  }

  /** The four freshly allocated arrays of the doubled mesh. */
  datatype Doubled = Doubled(vertices: array<Vec3>, triangles: array<int>,
                             uvs: array<Vec2>, normals: array<Vec3>)

  /** The default value of a new `Vector2[]` / `Vector3[]` element. */
  const ZeroUv := Vec2(0.0, 0.0)
  const ZeroVec := Vec3(0.0, 0.0, 0.0)

  function ZeroUvs(n: nat): seq<Vec2>
  {
    seq(n, _ => ZeroUv)
  }

  function ZeroVecs(n: nat): seq<Vec3>
  {
    seq(n, _ => ZeroVec)
  }

  /** Every normal flipped. */
  function Negated(s: seq<Vec3>): seq<Vec3>
  {
    seq(|s|, i requires 0 <= i < |s| => s[i].Neg())
  }

  /** The back faces: each triangle (a, b, c) of `t` becomes (c + n, b + n, a + n),
      the same triangle wound the other way round on the second vertex copy. */
  function BackFaces(t: seq<int>, n: int): (r: seq<int>)
    requires |t| % 3 == 0
    ensures |r| == |t|
  {
    if |t| == 0 then [] else [t[2] + n, t[1] + n, t[0] + n] + BackFaces(t[3..], n)
  }

  /** When the loops of `MakeDoubleSided` run to the end: every vertex has a uv
      and a normal, and the triangle list is made of whole triangles. Otherwise
      an index runs past an array and the script stops with an exception. */
  predicate Copyable(vertices: seq<Vec3>, triangles: seq<int>, uvs: seq<Vec2>, normals: seq<Vec3>)
  {
    |uvs| >= |vertices| && |normals| >= |vertices| && |triangles| % 3 == 0
  }

  predicate IndicesBelow(t: seq<int>, lo: int, hi: int)
  {
    forall i :: 0 <= i < |t| ==> lo <= t[i] < hi
  }

  /** Back faces can be built triangle by triangle. */
  lemma {:induction false} BackFacesAppend(a: seq<int>, b: seq<int>, n: int)
    requires |a| % 3 == 0 && |b| % 3 == 0
    ensures BackFaces(a + b, n) == BackFaces(a, n) + BackFaces(b, n)
  {
    if |a| > 0 {
      assert (a + b)[3..] == a[3..] + b;
      BackFacesAppend(a[3..], b, n);
    } else {
      assert a + b == b;
    }
  }

  /** Extending a whole-triangle prefix by one triangle appends its back face. */
  lemma BackFacesStep(t: seq<int>, i: int, n: int)
    requires 0 <= i && i + 3 <= |t| && i % 3 == 0
    ensures BackFaces(t[..i + 3], n) == BackFaces(t[..i], n) + [t[i + 2] + n, t[i + 1] + n, t[i] + n]
  {
    assert BackFaces(t[i..i + 3], n) == [t[i + 2] + n, t[i + 1] + n, t[i] + n];
    assert t[..i + 3] == t[..i] + t[i..i + 3];
    BackFacesAppend(t[..i], t[i..i + 3], n);
  }

  /** Indices of the original mesh in [0, n) give back-face indices in [n, 2n). */
  lemma {:induction false} BackFacesInRange(t: seq<int>, n: int)
    requires |t| % 3 == 0 && IndicesBelow(t, 0, n)
    ensures IndicesBelow(BackFaces(t, n), n, 2 * n)
  {
    if |t| > 0 {
      BackFacesInRange(t[3..], n);
    }
  }

  /** Reversing the winding twice and shifting back restores the triangles. */
  lemma {:induction false} BackFacesInvolution(t: seq<int>, n: int)
    requires |t| % 3 == 0
    ensures BackFaces(BackFaces(t, n), -n) == t
  {
    if |t| > 0 {
      var r := BackFaces(t, n);
      assert r[3..] == BackFaces(t[3..], n);
      BackFacesInvolution(t[3..], n);
      assert t == t[..3] + t[3..];
    }
  }

  /** Every index of the doubled triangle list addresses the doubled vertex list. */
  lemma DoubledIndicesInBounds(t: seq<int>, n: int)
    requires |t| % 3 == 0 && IndicesBelow(t, 0, n)
    ensures IndicesBelow(t + BackFaces(t, n), 0, 2 * n)
  {
    BackFacesInRange(t, n);
  }

  /** First loop of `MakeDoubleSided`: the front copy of every vertex, uv and
      normal. The rest of each array keeps its previous contents. */
  method CopyFront(vertices: seq<Vec3>, uvs: seq<Vec2>, normals: seq<Vec3>,
                   newVertices: array<Vec3>, newUvs: array<Vec2>, newNormals: array<Vec3>)
    requires |uvs| >= |vertices| && |normals| >= |vertices|
    requires newVertices.Length == 2 * |vertices| && newUvs.Length == 2 * |uvs|
    requires newNormals.Length == 2 * |normals| && newVertices != newNormals
    modifies newVertices, newUvs, newNormals
    ensures newVertices[..|vertices|] == vertices
    ensures newVertices[|vertices|..] == old(newVertices[|vertices|..])
    ensures newUvs[..] == uvs[..|vertices|] + old(newUvs[|vertices|..])
    ensures newNormals[..] == normals[..|vertices|] + old(newNormals[|vertices|..])
  {
    var n := |vertices|;
    for i := 0 to n
      invariant forall k :: 0 <= k < i ==> newVertices[k] == vertices[k]
      invariant forall k :: 0 <= k < i ==> newUvs[k] == uvs[k]
      invariant forall k :: 0 <= k < i ==> newNormals[k] == normals[k]
      invariant newVertices[i..] == old(newVertices[i..])
      invariant newUvs[i..] == old(newUvs[i..]) && newNormals[i..] == old(newNormals[i..])
    {
      newVertices[i] := vertices[i];
      newUvs[i] := uvs[i];
      newNormals[i] := normals[i];
    }
    assert newUvs[..] == newUvs[..n] + newUvs[n..];
    assert newNormals[..] == newNormals[..n] + newNormals[n..];
  }

  /** Second loop of `MakeDoubleSided`: the back copy of every vertex and uv
      at offset n, with its normal negated. */
  method CopyBack(vertices: seq<Vec3>, uvs: seq<Vec2>, normals: seq<Vec3>,
                  newVertices: array<Vec3>, newUvs: array<Vec2>, newNormals: array<Vec3>)
    requires |uvs| >= |vertices| && |normals| >= |vertices|
    requires newVertices.Length == 2 * |vertices| && newUvs.Length == 2 * |uvs|
    requires newNormals.Length == 2 * |normals| && newVertices != newNormals
    modifies newVertices, newUvs, newNormals
    ensures newVertices[..] == old(newVertices[..|vertices|]) + vertices
    ensures newUvs[..] == old(newUvs[..|vertices|]) + uvs[..|vertices|] + old(newUvs[2 * |vertices|..])
    ensures newNormals[..] ==
      old(newNormals[..|vertices|]) + Negated(normals[..|vertices|]) + old(newNormals[2 * |vertices|..])
  {
    var n := |vertices|;
    for i := 0 to n
      invariant newVertices[..n] == old(newVertices[..n])
      invariant newUvs[..n] == old(newUvs[..n]) && newNormals[..n] == old(newNormals[..n])
      invariant newVertices[n..n + i] == vertices[..i]
      invariant newUvs[n..n + i] == uvs[..i]
      invariant newNormals[n..n + i] == Negated(normals[..i])
      invariant newUvs[n + i..] == old(newUvs[n + i..]) && newNormals[n + i..] == old(newNormals[n + i..])
    {
      newVertices[n + i] := vertices[i];
      newUvs[n + i] := uvs[i];
      newNormals[n + i] := normals[i].Neg();
    }
    assert vertices[..n] == vertices;
    assert newVertices[n..] == newVertices[n..n + n];
    assert newVertices[..] == newVertices[..n] + newVertices[n..];
    assert newUvs[..] == newUvs[..n] + newUvs[n..n + n] + newUvs[n + n..];
    assert newNormals[..] == newNormals[..n] + newNormals[n..n + n] + newNormals[n + n..];
  }

  /** Third loop of `MakeDoubleSided`: the front triangles, unchanged. */
  method CopyFrontTriangles(triangles: seq<int>, newTriangles: array<int>)
    requires newTriangles.Length == 2 * |triangles|
    modifies newTriangles
    ensures newTriangles[..] == triangles + old(newTriangles[|triangles|..])
  {
    var m := |triangles|;
    for i := 0 to m
      invariant forall k :: 0 <= k < i ==> newTriangles[k] == triangles[k]
      invariant newTriangles[i..] == old(newTriangles[i..])
    {
      newTriangles[i] := triangles[i];
    }
    assert newTriangles[..] == newTriangles[..m] + newTriangles[m..];
  }

  /** Fourth loop of `MakeDoubleSided`: one back triangle per front triangle,
      winding reversed and indices offset by the vertex count n. */
  method CopyBackTriangles(triangles: seq<int>, n: int, newTriangles: array<int>)
    requires |triangles| % 3 == 0 && newTriangles.Length == 2 * |triangles|
    modifies newTriangles
    ensures newTriangles[..] == old(newTriangles[..|triangles|]) + BackFaces(triangles, n)
  {
    var m, i := |triangles|, 0;
    ghost var done: seq<int> := [];
    while i < m
      invariant 0 <= i <= m && i % 3 == 0 && |done| == i
      invariant done == BackFaces(triangles[..i], n)
      invariant forall k :: 0 <= k < m ==> newTriangles[k] == old(newTriangles[k])
      invariant forall k :: 0 <= k < i ==> newTriangles[m + k] == done[k]
    {
      var baseIndex := m + i;
      newTriangles[baseIndex] := triangles[i + 2] + n;
      newTriangles[baseIndex + 1] := triangles[i + 1] + n;
      newTriangles[baseIndex + 2] := triangles[i] + n;
      BackFacesStep(triangles, i, n);
      done := done + [triangles[i + 2] + n, triangles[i + 1] + n, triangles[i] + n];
      i := i + 3;
    }
    assert triangles[..m] == triangles;
    assert newTriangles[m..m + m] == done;
    assert newTriangles[..] == newTriangles[..m] + newTriangles[m..m + m];
  }

  /** The array-building part of `MakeDoubleSided`: allocate the doubled
      arrays and run the four loops. `None` stands for the out-of-range
      exception the loops throw when the input is not `Copyable`. */
  method BuildDoubleSided(vertices: seq<Vec3>, triangles: seq<int>, uvs: seq<Vec2>, normals: seq<Vec3>)
    returns (r: Option<Doubled>)
    ensures r.None? <==> !Copyable(vertices, triangles, uvs, normals)
    ensures r.Some? ==>
      var n := |vertices|;
      && r.value.vertices[..] == vertices + vertices
      && r.value.uvs[..] == uvs[..n] + uvs[..n] + ZeroUvs(2 * |uvs| - 2 * n)
      && r.value.normals[..] == normals[..n] + Negated(normals[..n]) + ZeroVecs(2 * |normals| - 2 * n)
      && r.value.triangles[..] == triangles + BackFaces(triangles, |vertices|)
  {
    if !Copyable(vertices, triangles, uvs, normals) {
      return None;
    }
    var n := |vertices|;
    var newVertices := new Vec3[2 * n](_ => ZeroVec);
    var newTriangles := new int[2 * |triangles|](_ => 0);
    var newUvs := new Vec2[2 * |uvs|](_ => ZeroUv);
    var newNormals := new Vec3[2 * |normals|](_ => ZeroVec);
    assert newUvs[..] == ZeroUvs(2 * |uvs|);
    assert newNormals[..] == ZeroVecs(2 * |normals|);

    CopyFront(vertices, uvs, normals, newVertices, newUvs, newNormals);
    CopyBack(vertices, uvs, normals, newVertices, newUvs, newNormals);
    CopyFrontTriangles(triangles, newTriangles);
    CopyBackTriangles(triangles, n, newTriangles);

    assert ZeroUvs(2 * |uvs|)[2 * n..] == ZeroUvs(2 * |uvs| - 2 * n);
    assert ZeroVecs(2 * |normals|)[2 * n..] == ZeroVecs(2 * |normals| - 2 * n);
    r := Some(Doubled(newVertices, newTriangles, newUvs, newNormals));
  }

  /** `MakeDoubleSided`: without a filter, without a mesh, or when the copy
      loops would run out of range, the filter keeps its mesh; otherwise it
      receives a new mesh made of the doubled arrays, whose triangles index
      only its vertices when the original's did. */
  method MakeDoubleSided(filter: MeshFilter?)
    modifies filter
    ensures filter == null || old(filter.sharedMesh) == null ==> filter == null || unchanged(filter)
    ensures filter != null && old(filter.sharedMesh) != null ==>
      var mesh := old(filter.sharedMesh);
      var vs, ts, uvs, ns := mesh.vertices[..], mesh.triangles[..], mesh.uv[..], mesh.normals[..];
      var n := |vs|;
      if !Copyable(vs, ts, uvs, ns) then filter.sharedMesh == mesh
      else
        && filter.sharedMesh != null
        && filter.sharedMesh.vertices[..] == vs + vs
        && filter.sharedMesh.uv[..] == uvs[..n] + uvs[..n] + ZeroUvs(2 * |uvs| - 2 * n)
        && filter.sharedMesh.normals[..] == ns[..n] + Negated(ns[..n]) + ZeroVecs(2 * |ns| - 2 * n)
        && filter.sharedMesh.triangles[..] == ts + BackFaces(ts, n)
        && (|ts| % 3 == 0 && IndicesBelow(ts, 0, n) ==> IndicesBelow(filter.sharedMesh.triangles[..], 0, 2 * n))
  {
    if filter == null {
      return;
    }
    var original := filter.sharedMesh;
    if original == null {
      return;
    }
    if |original.triangles[..]| % 3 == 0 && IndicesBelow(original.triangles[..], 0, original.vertices.Length) {
      DoubledIndicesInBounds(original.triangles[..], original.vertices.Length);
    }
    var r := BuildDoubleSided(original.vertices[..], original.triangles[..], original.uv[..], original.normals[..]);
    if r.Some? {
      var doubled := new Mesh(r.value.vertices, r.value.triangles, r.value.uvs, r.value.normals);
      filter.sharedMesh := doubled;
    }
  }
}
