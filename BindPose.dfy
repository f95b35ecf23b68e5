/** The rest geometry `ShapeSkin::loadMesh` (src/ShapeSkin.cpp) keeps from an
    OBJ file: the flat coordinate arrays grouped into 3-vectors, and the
    element buffer made of the vertex indices of every face of every shape.
    The OBJ reader itself is not modelled; its output is an `ObjData` value. */
module BindPose {
  import opened LinAlg

  // ---------------------------------------------------------------------------
  // Flat float arrays and 3-vectors

  /** Consecutive triples of a flat array as 3-vectors. */
  function Group3(flat: seq<real>): (vs: seq<Vec3>)
    requires |flat| % 3 == 0
    ensures |vs| * 3 == |flat|
    ensures forall i :: 0 <= i < |vs| ==> vs[i] == Vec3(flat[3 * i], flat[3 * i + 1], flat[3 * i + 2])
  {
    seq(|flat| / 3, i requires 0 <= i < |flat| / 3 => Vec3(flat[3 * i], flat[3 * i + 1], flat[3 * i + 2]))
  }

  /** 3-vectors written out one after another, as the vertex buffers hold them. */
  function Flatten(vs: seq<Vec3>): (flat: seq<real>)
    ensures |flat| == 3 * |vs|
  {
    if |vs| == 0 then []
    else
      var v := vs[|vs| - 1];
      Flatten(vs[..|vs| - 1]) + [v.x, v.y, v.z]
  }

  lemma FlattenAppend(vs: seq<Vec3>, v: Vec3)
    ensures Flatten(vs + [v]) == Flatten(vs) + [v.x, v.y, v.z]
  {
    assert (vs + [v])[..|vs|] == vs;
  }

  /** Grouping three more floats adds one vector. */
  lemma Group3Append(flat: seq<real>, i: nat)
    requires i % 3 == 0 && i + 3 <= |flat|
    ensures Group3(flat[..i + 3]) == Group3(flat[..i]) + [Vec3(flat[i], flat[i + 1], flat[i + 2])]
  {
    var g, g' := Group3(flat[..i]), Group3(flat[..i + 3]);
    assert |g'| == |g| + 1;
    forall k | 0 <= k < |g| ensures g'[k] == g[k] { }
  }

  /** Vector `i` occupies positions 3i, 3i+1 and 3i+2 of the flat array. */
  lemma {:induction false} FlattenAt(vs: seq<Vec3>, i: nat)
    requires i < |vs|
    ensures Flatten(vs)[3 * i] == vs[i].x && Flatten(vs)[3 * i + 1] == vs[i].y && Flatten(vs)[3 * i + 2] == vs[i].z
  {
    var n := |vs| - 1;
    if i < n {
      FlattenAt(vs[..n], i);
    }
  }

  /** Grouping undoes flattening. */
  lemma GroupFlatten(vs: seq<Vec3>)
    ensures Group3(Flatten(vs)) == vs
  {
    forall i | 0 <= i < |vs| ensures Group3(Flatten(vs))[i] == vs[i] {
      FlattenAt(vs, i);
    }
  }

  /** Flattening undoes grouping. */
  lemma FlattenGroup(flat: seq<real>)
    requires |flat| % 3 == 0
    ensures Flatten(Group3(flat)) == flat
  {
    var vs := Group3(flat);
    var f := Flatten(vs);
    forall p | 0 <= p < |flat| ensures f[p] == flat[p] {
      var i := p / 3;
      assert 0 <= i < |vs|;
      assert vs[i] == Vec3(flat[3 * i], flat[3 * i + 1], flat[3 * i + 2]);
      FlattenAt(vs, i);
      assert p == 3 * i || p == 3 * i + 1 || p == 3 * i + 2;
    }
  }

  // ---------------------------------------------------------------------------
  // Faces and the element buffer

  /** One shape of an OBJ file: the vertex count of each face, and the
      vertex indices of all faces one after another. */
  datatype ObjShape = ObjShape(numFaceVertices: seq<nat>, vertexIndices: seq<int>)

  /** What the OBJ reader hands back: flat positions, normals and texture
      coordinates, and the shapes. */
  datatype ObjData = ObjData(vertices: seq<real>, normals: seq<real>, texcoords: seq<real>, shapes: seq<ObjShape>)

  /** How many indices the faces use. */
  function SumFaces(nfv: seq<nat>): nat {
    if |nfv| == 0 then 0 else SumFaces(nfv[..|nfv| - 1]) + nfv[|nfv| - 1]
  }

  /** A signed vertex index stored into an `unsigned int` element: taken
      modulo 2^32. */
  function ToUnsigned(i: int): (u: nat)
    ensures u < 0x1_0000_0000
    ensures 0 <= i < 0x1_0000_0000 ==> u == i
    ensures (u - i) % 0x1_0000_0000 == 0
  {
    i % 0x1_0000_0000
  }

  function Unsigned(xs: seq<int>): (us: seq<nat>)
    ensures |us| == |xs|
    ensures forall k :: 0 <= k < |xs| ==> us[k] == ToUnsigned(xs[k])
  {
    seq(|xs|, k requires 0 <= k < |xs| => ToUnsigned(xs[k]))
  }

  /** The faces of a shape index only the indices it has. The source reads
      past the end otherwise. */
  predicate ShapeFits(sh: ObjShape) {
    SumFaces(sh.numFaceVertices) <= |sh.vertexIndices|
  }

  /** The elements of one shape: the indices of its faces, in order. */
  function ShapeElems(sh: ObjShape): (es: seq<nat>)
    requires ShapeFits(sh)
    ensures |es| == SumFaces(sh.numFaceVertices)
  {
    Unsigned(sh.vertexIndices[..SumFaces(sh.numFaceVertices)])
  }

  /** The element buffer for a sequence of shapes: their elements, shape after
      shape. */
  function AllElems(shapes: seq<ObjShape>): seq<nat>
    requires forall s :: 0 <= s < |shapes| ==> ShapeFits(shapes[s])
  {
    if |shapes| == 0 then []
    else AllElems(shapes[..|shapes| - 1]) + ShapeElems(shapes[|shapes| - 1])
  }

  /** The same elements built face by face: face `f` contributes the
      `nfv[f]` indices that start where the faces before it end. */
  function ByFaces(nfv: seq<nat>, idx: seq<int>): seq<nat>
    requires SumFaces(nfv) <= |idx|
  {
    if |nfv| == 0 then []
    else
      var before := nfv[..|nfv| - 1];
      SumFacesPrefix(nfv, |nfv| - 1);
      ByFaces(before, idx) + Unsigned(idx[SumFaces(before)..SumFaces(nfv)])
  }

  /** Face sizes add up: the faces before `f` use no more indices than all. */
  lemma {:induction false} SumFacesPrefix(nfv: seq<nat>, f: nat)
    requires f <= |nfv|
    ensures SumFaces(nfv[..f]) <= SumFaces(nfv)
    decreases |nfv|
  {
    if f < |nfv| {
      assert nfv[..|nfv| - 1][..f] == nfv[..f];
      SumFacesPrefix(nfv[..|nfv| - 1], f);
    } else {
      assert nfv[..f] == nfv;
    }
  }

  /** One more face: its indices follow the elements of the faces before it. */
  lemma ByFacesStep(nfv: seq<nat>, idx: seq<int>, f: nat)
    requires f < |nfv| && SumFaces(nfv) <= |idx|
    ensures SumFaces(nfv[..f + 1]) == SumFaces(nfv[..f]) + nfv[f] <= |idx|
    ensures ByFaces(nfv[..f + 1], idx) ==
      ByFaces(nfv[..f], idx) + Unsigned(idx[SumFaces(nfv[..f])..SumFaces(nfv[..f]) + nfv[f]])
  {
    assert nfv[..f + 1][..f] == nfv[..f];
    SumFacesPrefix(nfv, f + 1);
  }

  /** Face by face, the elements are exactly the first `SumFaces` indices. */
  lemma {:induction false} ByFacesIsPrefix(nfv: seq<nat>, idx: seq<int>)
    requires SumFaces(nfv) <= |idx|
    ensures ByFaces(nfv, idx) == Unsigned(idx[..SumFaces(nfv)])
  {
    if |nfv| > 0 {
      var before := nfv[..|nfv| - 1];
      SumFacesPrefix(nfv, |nfv| - 1);
      ByFacesIsPrefix(before, idx);
      var a, b := SumFaces(before), SumFaces(nfv);
      assert idx[..b] == idx[..a] + idx[a..b];
      UnsignedAppend(idx[..a], idx[a..b]);
    }
  }

  lemma UnsignedAppend(xs: seq<int>, ys: seq<int>)
    ensures Unsigned(xs + ys) == Unsigned(xs) + Unsigned(ys)
  {
  }
}
