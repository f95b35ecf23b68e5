/** Linear blend skinning as `ShapeSkin::update` (src/ShapeSkin.cpp) computes it
    on the CPU, over the reals.

    For frame k every bone j gets one combined matrix, its frame matrix times
    its bind matrix (the inverse of its rest transform). A vertex with rest
    position x and bone influences (j, w) moves to the xyz part of
    the sum of w * combined[j] * (x, 1); a normal n is blended the same way
    from (n, 0) and then normalized. */
module Skinning {
  import opened LinAlg

  /** `matProductVec`: one combined matrix per bone of the frame. */
  function Combined(frameMats: seq<Mat4>, bindMats: seq<Mat4>): (r: seq<Mat4>)
    requires |frameMats| <= |bindMats|
    ensures |r| == |frameMats|
    ensures forall j :: 0 <= j < |r| ==> r[j] == MulMM(frameMats[j], bindMats[j])
  {
    seq(|frameMats|, j requires 0 <= j < |frameMats| => MulMM(frameMats[j], bindMats[j]))
  }

  /** A combined matrix first applies the bind matrix, then the frame matrix. */
  lemma CombinedApplies(frameMats: seq<Mat4>, bindMats: seq<Mat4>, j: nat, v: Vec4)
    requires |frameMats| <= |bindMats| && j < |frameMats|
    ensures MulMV(Combined(frameMats, bindMats)[j], v) == MulMV(frameMats[j], MulMV(bindMats[j], v))
  {
    MulMMIsComposition(frameMats[j], bindMats[j], v);
  }

  /** Every bone index names a combined matrix. */
  predicate IndicesIn(inds: seq<int>, bones: nat) {
    forall t :: 0 <= t < |inds| ==> 0 <= inds[t] < bones
  }

  /** The contribution of one influence: xyz of w * (comb[j] * h). */
  function Term(comb: seq<Mat4>, j: int, w: real, h: Vec4): Vec3
    requires 0 <= j < |comb|
  {
    Xyz(Scale4(w, MulMV(comb[j], h)))
  }

  /** The blended vertex: the terms of the influences added up from the
      zero vector, first influence first. */
  function Blend(comb: seq<Mat4>, inds: seq<int>, wgts: seq<real>, h: Vec4): Vec3
    requires |inds| == |wgts| && IndicesIn(inds, |comb|)
  {
    if |inds| == 0 then Zero3
    else
      var n := |inds| - 1;
      Add3(Blend(comb, inds[..n], wgts[..n], h), Term(comb, inds[n], wgts[n], h))
  }

  /** Sum of a sequence of weights. */
  function Sum(ws: seq<real>): real {
    if |ws| == 0 then 0.0 else Sum(ws[..|ws| - 1]) + ws[|ws| - 1]
  }

  /** One influence of weight one moves the vertex rigidly with its bone. */
  lemma SingleBone(comb: seq<Mat4>, j: int, h: Vec4)
    requires 0 <= j < |comb|
    ensures Blend(comb, [j], [1.0], h) == Xyz(MulMV(comb[j], h))
  {
    assert [j][..0] == [];
    assert [1.0][..0] == [];
  }

  /** An influence with weight 0 changes nothing, wherever it is inserted. */
  lemma {:induction false} ZeroWeightIgnored(comb: seq<Mat4>, inds: seq<int>, wgts: seq<real>, p: nat, j: int, h: Vec4)
    requires |inds| == |wgts| && IndicesIn(inds, |comb|)
    requires p <= |inds| && 0 <= j < |comb|
    ensures Blend(comb, inds[..p] + [j] + inds[p..], wgts[..p] + [0.0] + wgts[p..], h) == Blend(comb, inds, wgts, h)
    decreases |inds| - p
  {
    var inds', wgts' := inds[..p] + [j] + inds[p..], wgts[..p] + [0.0] + wgts[p..];
    var n := |inds|;
    if p == n {
      assert inds'[..n] == inds && wgts'[..n] == wgts;
      ZeroTerm(comb, j, h);
    } else {
      var m := n - 1;
      ZeroWeightIgnored(comb, inds[..m], wgts[..m], p, j, h);
      InsertBeforeLast(inds, p, j);
      InsertBeforeLast(wgts, p, 0.0);
    }
  }

  /** Inserting before the last element keeps that element last. */
  lemma InsertBeforeLast<T>(s: seq<T>, p: nat, x: T)
    requires p < |s|
    ensures var s' := s[..p] + [x] + s[p..];
      s'[..|s|] == s[..|s| - 1][..p] + [x] + s[..|s| - 1][p..] && s'[|s|] == s[|s| - 1]
  {
  }

  /** Padding an influence list with (0, 0.0) pairs, as the attachment
      reader does, changes nothing. */
  lemma {:induction false} PaddingIgnored(comb: seq<Mat4>, inds: seq<int>, wgts: seq<real>, k: nat, h: Vec4)
    requires |inds| == |wgts| && IndicesIn(inds, |comb|) && |comb| > 0
    ensures Blend(comb, inds + seq(k, _ => 0), wgts + seq(k, _ => 0.0), h) == Blend(comb, inds, wgts, h)
  {
    if k > 0 {
      PaddingIgnored(comb, inds, wgts, k - 1, h);
      var inds', wgts' := inds + seq(k, _ => 0), wgts + seq(k, _ => 0.0);
      var n := |inds'| - 1;
      assert inds'[..n] == inds + seq(k - 1, _ => 0);
      assert wgts'[..n] == wgts + seq(k - 1, _ => 0.0);
      ZeroTerm(comb, 0, h);
    } else {
      assert inds + seq(k, _ => 0) == inds;
      assert wgts + seq(k, _ => 0.0) == wgts;
    }
  }

  /** A direction (w = 0) is blended the same by matrices that differ only
      in their translation columns. */
  lemma {:induction false} DirectionBlendIgnoresTranslation(comb: seq<Mat4>, comb': seq<Mat4>, inds: seq<int>, wgts: seq<real>, n: Vec3)
    requires |comb| == |comb'| && forall j :: 0 <= j < |comb| ==> SameLinearPart(comb[j], comb'[j])
    requires |inds| == |wgts| && IndicesIn(inds, |comb|)
    ensures Blend(comb, inds, wgts, Lift(n, 0.0)) == Blend(comb', inds, wgts, Lift(n, 0.0))
  {
    if |inds| > 0 {
      var m := |inds| - 1;
      DirectionBlendIgnoresTranslation(comb, comb', inds[..m], wgts[..m], n);
      DirectionIgnoresTranslation(comb[inds[m]], comb'[inds[m]], n);
    }
  }

  /** In the bind pose every combined matrix is the identity, and a vertex
      moves to its rest position scaled by the sum of its weights. */
  lemma {:induction false} BindPoseBlend(comb: seq<Mat4>, inds: seq<int>, wgts: seq<real>, v: Vec3)
    requires forall j :: 0 <= j < |comb| ==> comb[j] == Identity4
    requires |inds| == |wgts| && IndicesIn(inds, |comb|)
    ensures Blend(comb, inds, wgts, Lift(v, 1.0)) == Scale3(Sum(wgts), v)
  {
    if |inds| > 0 {
      var m := |inds| - 1;
      BindPoseBlend(comb, inds[..m], wgts[..m], v);
      var s, w := Sum(wgts[..m]), wgts[m];
      assert Sum(wgts) == s + w;
      IdentityTerm(comb, inds[m], w, v);
      ScaleAdd(Blend(comb, inds[..m], wgts[..m], Lift(v, 1.0)), Term(comb, inds[m], w, Lift(v, 1.0)), s, w, v);
    }
  }

  lemma ZeroTerm(comb: seq<Mat4>, j: int, h: Vec4)
    requires 0 <= j < |comb|
    ensures Term(comb, j, 0.0, h) == Zero3
  {
  }

  lemma IdentityTerm(comb: seq<Mat4>, j: int, w: real, v: Vec3)
    requires 0 <= j < |comb| && comb[j] == Identity4
    ensures Term(comb, j, w, Lift(v, 1.0)) == Scale3(w, v)
  {
    MulIdentity4(Lift(v, 1.0));
  }

  lemma ScaleAdd(a: Vec3, b: Vec3, s: real, w: real, v: Vec3)
    requires a == Scale3(s, v) && b == Scale3(w, v)
    ensures Add3(a, b) == Scale3(s + w, v)
  {
  }

  /** Every vertex's influences name combined matrices and come in pairs. */
  predicate Influences(comb: seq<Mat4>, boneInd: seq<seq<int>>, boneWgt: seq<seq<real>>) {
    |boneInd| == |boneWgt| &&
    forall i :: 0 <= i < |boneInd| ==> |boneInd[i]| == |boneWgt[i]| && IndicesIn(boneInd[i], |comb|)
  }

  /** Every vertex blended from its rest vector lifted with `w`: 1 for
      positions, 0 for normals. */
  function BlendAll(comb: seq<Mat4>, boneInd: seq<seq<int>>, boneWgt: seq<seq<real>>, rest: seq<Vec3>, w: real): (r: seq<Vec3>)
    requires Influences(comb, boneInd, boneWgt) && |rest| >= |boneInd|
    ensures |r| == |boneInd|
    ensures forall i :: 0 <= i < |r| ==> r[i] == Blend(comb, boneInd[i], boneWgt[i], Lift(rest[i], w))
  {
    seq(|boneInd|, i requires 0 <= i < |boneInd| => Blend(comb, boneInd[i], boneWgt[i], Lift(rest[i], w)))
  }

  /** Normals do not see the translation columns of the combined matrices. */
  lemma NormalsIgnoreTranslation(comb: seq<Mat4>, comb': seq<Mat4>, boneInd: seq<seq<int>>, boneWgt: seq<seq<real>>, rest: seq<Vec3>)
    requires |comb| == |comb'| && forall j :: 0 <= j < |comb| ==> SameLinearPart(comb[j], comb'[j])
    requires Influences(comb, boneInd, boneWgt) && |rest| >= |boneInd|
    ensures BlendAll(comb, boneInd, boneWgt, rest, 0.0) == BlendAll(comb', boneInd, boneWgt, rest, 0.0)
  {
    forall i | 0 <= i < |boneInd|
      ensures Blend(comb, boneInd[i], boneWgt[i], Lift(rest[i], 0.0)) == Blend(comb', boneInd[i], boneWgt[i], Lift(rest[i], 0.0))
    {
      DirectionBlendIgnoresTranslation(comb, comb', boneInd[i], boneWgt[i], rest[i]);
    }
  }

  /** The inner loop of the update: accumulate the terms of a vertex's
      influences into `x_ik` (or `n_ik`), one component at a time. */
  method BlendVertex(comb: seq<Mat4>, inds: seq<int>, wgts: seq<real>, h: Vec4) returns (acc: Vec3)
    requires |inds| == |wgts| && IndicesIn(inds, |comb|)
    ensures acc == Blend(comb, inds, wgts, h)
  {
    acc := Zero3;
    var itr := 0;
    while itr < |inds|
      invariant 0 <= itr <= |inds|
      invariant acc == Blend(comb, inds[..itr], wgts[..itr], h)
    {
      var j := inds[itr];
      var prod := MulMV(comb[j], h);
      prod := Scale4(wgts[itr], prod);
      assert inds[..itr + 1][..itr] == inds[..itr];
      assert wgts[..itr + 1][..itr] == wgts[..itr];
      acc := Vec3(acc.x + prod.x, acc.y + prod.y, acc.z + prod.z);
      itr := itr + 1;
    }
    assert inds[..itr] == inds && wgts[..itr] == wgts;
  }

  /** `glm::normalize` applied to every blended normal; the function itself
      is a parameter of the model. */
  function Renormalized(normalize: Vec3 -> Vec3, vs: seq<Vec3>): (r: seq<Vec3>)
    ensures |r| == |vs|
    ensures forall i :: 0 <= i < |vs| ==> r[i] == normalize(vs[i])
  {
    seq(|vs|, i requires 0 <= i < |vs| => normalize(vs[i]))
  }
}
