/** `ShapeSkin` (src/ShapeSkin.h, src/ShapeSkin.cpp): a skinned mesh part.
    It keeps the rest geometry read from an OBJ file, the per-vertex bone
    tables read from an attachment file, and the vertex buffers that
    `Update` refills for each animation frame. The GPU buffer ids, `init`
    and `draw` are not part of this model. */
module ShapeSkins {
  import opened Options
  import opened LinAlg
  import opened Textures
  import opened AttachmentFormat
  import opened BindPose
  import opened Skinning

  /** The shader program a shape draws with; only its identity matters here. */
  class Program {
  }

  /** Every requirement the mesh loop places on the reader's output: whole
      triples of coordinates, and faces that index only the indices there are. */
  predicate MeshFits(d: ObjData) {
    |d.vertices| % 3 == 0 && |d.normals| % 3 == 0 &&
    forall s :: 0 <= s < |d.shapes| ==> ShapeFits(d.shapes[s])
  }

  class ShapeSkin {
    var prog: Program?
    var elemBuf: seq<nat>
    var posBuf: seq<real>
    var norBuf: seq<real>
    var texBuf: seq<real>
    var boneIndVec: seq<seq<int>>
    var boneWgtVec: seq<seq<real>>
    var initialVertPos: seq<Vec3>
    var initialVertNor: seq<Vec3>
    var textureFilename: string
    const T: TextureMatrix

    /** The two bone tables are parallel: one row per vertex in each, and as
        many weights as indices in every row. */
    ghost predicate TablesParallel()
      reads this
    {
      |boneIndVec| == |boneWgtVec| &&
      forall i :: 0 <= i < |boneIndVec| ==> |boneIndVec[i]| == |boneWgtVec[i]|
    }

    /** The shape's invariant: parallel bone tables, and a texture matrix that
        keeps its own invariant. */
    ghost predicate Valid()
      reads this, T`xOffset, T`yOffset, T`T, T`xTenths, T`yTenths
    {
      TablesParallel() && T.Valid()
    }

    /** No program, empty buffers and tables, and a fresh texture matrix of
        its own. */
    constructor ()
      ensures Valid()
      ensures prog == null && textureFilename == []
      ensures elemBuf == [] && posBuf == [] && norBuf == [] && texBuf == []
      ensures boneIndVec == [] && boneWgtVec == [] && initialVertPos == [] && initialVertNor == []
      ensures fresh(T) && T.meshType == NONE
      ensures T.xOffset == 0.0 && T.yOffset == 0.0 && T.T == Identity3 && T.xTenths == 0 && T.yTenths == 0
    {
      prog := null;
      elemBuf := [];
      posBuf := [];
      norBuf := [];
      texBuf := [];
      boneIndVec := [];
      boneWgtVec := [];
      initialVertPos := [];
      initialVertNor := [];
      textureFilename := [];
      T := new TextureMatrix();
    }

    /** `setTextureMatrixType`: classify the mesh name into the shape's texture matrix. */
    method SetTextureMatrixType(meshName: string)
      modifies T`meshType
      ensures T.meshType == Classify(meshName)
    {
      T.SetType(meshName);
    }

    /** `loadMesh` given what the OBJ reader returned (`None` when it failed):
        on failure nothing changes; otherwise the buffers take the reader's
        arrays, and the rest positions, rest normals and elements of this
        mesh are appended to those already held. */
    method LoadMesh(loaded: Option<ObjData>)
      requires loaded.Some? ==> MeshFits(loaded.value)
      modifies this`posBuf, this`norBuf, this`texBuf, this`initialVertPos, this`initialVertNor, this`elemBuf
      ensures loaded.None? ==>
        posBuf == old(posBuf) && norBuf == old(norBuf) && texBuf == old(texBuf) &&
        initialVertPos == old(initialVertPos) && initialVertNor == old(initialVertNor) && elemBuf == old(elemBuf)
      ensures loaded.Some? ==>
        posBuf == loaded.value.vertices && norBuf == loaded.value.normals && texBuf == loaded.value.texcoords &&
        initialVertPos == old(initialVertPos) + Group3(loaded.value.vertices) &&
        initialVertNor == old(initialVertNor) + Group3(loaded.value.normals) &&
        elemBuf == old(elemBuf) + AllElems(loaded.value.shapes)
    {
      if loaded.None? {
        return;
      }
      var d := loaded.value;
      posBuf := d.vertices;
      norBuf := d.normals;
      texBuf := d.texcoords;

      AppendRestPositions();
      AppendRestNormals();

      var s := 0;
      while s < |d.shapes|
        invariant posBuf == d.vertices && norBuf == d.normals && texBuf == d.texcoords
        invariant initialVertPos == old(initialVertPos) + Group3(d.vertices)
        invariant initialVertNor == old(initialVertNor) + Group3(d.normals)
        invariant 0 <= s <= |d.shapes|
        invariant elemBuf == old(elemBuf) + AllElems(d.shapes[..s])
      {
        AppendShape(d.shapes[s]);
        assert d.shapes[..s + 1][..s] == d.shapes[..s];
        s := s + 1;
      }
      assert d.shapes[..s] == d.shapes;
    }

    /** The position loop of `loadMesh`: one rest position per triple of
        `posBuf`, appended in order. */
    method AppendRestPositions()
      requires |posBuf| % 3 == 0
      modifies this`initialVertPos
      ensures initialVertPos == old(initialVertPos) + Group3(posBuf)
    {
      var i := 0;
      while i < |posBuf|
        invariant 0 <= i <= |posBuf| && i % 3 == 0
        invariant initialVertPos == old(initialVertPos) + Group3(posBuf[..i])
      {
        Group3Append(posBuf, i);
        initialVertPos := initialVertPos + [Vec3(posBuf[i], posBuf[i + 1], posBuf[i + 2])];
        i := i + 3;
      }
      assert posBuf[..i] == posBuf;
    }

    /** The normal loop of `loadMesh`: one rest normal per triple of
        `norBuf`, appended in order. */
    method AppendRestNormals()
      requires |norBuf| % 3 == 0
      modifies this`initialVertNor
      ensures initialVertNor == old(initialVertNor) + Group3(norBuf)
    {
      var i := 0;
      while i < |norBuf|
        invariant 0 <= i <= |norBuf| && i % 3 == 0
        invariant initialVertNor == old(initialVertNor) + Group3(norBuf[..i])
      {
        Group3Append(norBuf, i);
        initialVertNor := initialVertNor + [Vec3(norBuf[i], norBuf[i + 1], norBuf[i + 2])];
        i := i + 3;
      }
      assert norBuf[..i] == norBuf;
    }

    /** The vertex loop of `loadMesh` for one face: the `fv` indices from
        `indexOffset` on, as unsigned elements, in order. */
    method AppendFace(idx: seq<int>, indexOffset: nat, fv: nat)
      requires indexOffset + fv <= |idx|
      modifies this`elemBuf
      ensures elemBuf == old(elemBuf) + Unsigned(idx[indexOffset..indexOffset + fv])
    {
      var v := 0;
      while v < fv
        invariant 0 <= v <= fv
        invariant elemBuf == old(elemBuf) + Unsigned(idx[indexOffset..indexOffset + v])
      {
        UnsignedAppend(idx[indexOffset..indexOffset + v], [idx[indexOffset + v]]);
        assert idx[indexOffset..indexOffset + v + 1] == idx[indexOffset..indexOffset + v] + [idx[indexOffset + v]];
        elemBuf := elemBuf + [ToUnsigned(idx[indexOffset + v])];
        v := v + 1;
      }
    }

    /** The face loop of `loadMesh` for one shape: the indices of each face
        in turn, with `index_offset` where the face starts. */
    method AppendShape(mesh: ObjShape)
      requires ShapeFits(mesh)
      modifies this`elemBuf
      ensures elemBuf == old(elemBuf) + ShapeElems(mesh)
    {
      var nfv, idx := mesh.numFaceVertices, mesh.vertexIndices;
      var indexOffset := 0;
      var f := 0;
      assert nfv[..0] == [];
      while f < |nfv|
        invariant 0 <= f <= |nfv|
        invariant indexOffset == SumFaces(nfv[..f]) && indexOffset <= |idx|
        invariant elemBuf == old(elemBuf) + ByFaces(nfv[..f], idx)
      {
        var fv := nfv[f];
        ByFacesStep(nfv, idx, f);
        AppendFace(idx, indexOffset, fv);
        AppendAssoc(old(elemBuf), ByFaces(nfv[..f], idx), Unsigned(idx[indexOffset..indexOffset + fv]));
        indexOffset := indexOffset + fv;
        f := f + 1;
      }
      assert nfv[..f] == nfv;
      ByFacesIsPrefix(nfv, idx);
    }

    /** `loadAttachment` given the file's lines (`None` when it cannot be
        opened): on failure nothing changes; otherwise one row per vertex
        line is appended to each bone table, as `Parse` describes. */
    method LoadAttachment(file: Option<seq<Line>>)
      requires Valid()
      requires file.Some? ==> WellTokenised(file.value)
      modifies this`boneIndVec, this`boneWgtVec
      ensures Valid()
      ensures file.None? ==> boneIndVec == old(boneIndVec) && boneWgtVec == old(boneWgtVec)
      ensures file.Some? ==>
        boneIndVec == old(boneIndVec) + Parse(file.value).0 &&
        boneWgtVec == old(boneWgtVec) + Parse(file.value).1
    {
      if file.None? {
        return;
      }
      var inds, wgts := ReadTables(file.value);
      boneIndVec := boneIndVec + inds;
      boneWgtVec := boneWgtVec + wgts;
      TablesStayParallel(old(boneIndVec), old(boneWgtVec), file.value);
    }

    /** `setProgram`: store the program and change nothing else. */
    method SetProgram(p: Program?)
      modifies this`prog
      ensures prog == p
    {
      prog := p;
    }

    method SetTextureFilename(f: string)
      modifies this`textureFilename
      ensures textureFilename == f
    {
      textureFilename := f;
    }

    /** `getTextureFilename`: the name last stored. */
    function GetTextureFilename(): (f: string)
      reads this
      ensures f == textureFilename
    {
      textureFilename
    }

    /** `getTextureMatrix`: the texture matrix created with the shape. */
    function GetTextureMatrix(): (t: TextureMatrix)
      ensures t == T
    {
      T
    }

    /** The CPU part of `update(k, bindMats, allFrameMats)`: rebuild the
        position buffer from the blended rest positions (w = 1) and the normal
        buffer from the normalized blended rest normals (w = 0), for the
        combined matrices of frame `k`. What the buffers held before plays no
        part. `normalize` stands for `glm::normalize`. */
    method Update(k: int, bindMats: seq<Mat4>, allFrameMats: seq<seq<Mat4>>, normalize: Vec3 -> Vec3)
      requires TablesParallel()
      requires 0 <= k < |allFrameMats| && |allFrameMats[k]| <= |bindMats|
      requires forall i :: 0 <= i < |boneIndVec| ==> IndicesIn(boneIndVec[i], |allFrameMats[k]|)
      requires |initialVertPos| >= |boneIndVec| && |initialVertNor| >= |boneIndVec|
      modifies this`posBuf, this`norBuf
      ensures var comb := Combined(allFrameMats[k], bindMats);
        posBuf == Flatten(BlendAll(comb, boneIndVec, boneWgtVec, initialVertPos, 1.0)) &&
        norBuf == Flatten(Renormalized(normalize, BlendAll(comb, boneIndVec, boneWgtVec, initialVertNor, 0.0)))
    {
      var frameMats := allFrameMats[k];
      var matProductVec := CombineBones(frameMats, bindMats);
      SkinPositions(matProductVec);
      SkinNormals(matProductVec, normalize);
    }

    /** The position half of `update`: clear `posBuf`, then append each
        vertex's blended rest position. */
    method SkinPositions(comb: seq<Mat4>)
      requires TablesParallel() && |initialVertPos| >= |boneIndVec|
      requires forall i :: 0 <= i < |boneIndVec| ==> IndicesIn(boneIndVec[i], |comb|)
      modifies this`posBuf
      ensures posBuf == Flatten(BlendAll(comb, boneIndVec, boneWgtVec, initialVertPos, 1.0))
    {
      ghost var positions := BlendAll(comb, boneIndVec, boneWgtVec, initialVertPos, 1.0);
      posBuf := [];
      var i := 0;
      while i < |boneIndVec|
        invariant 0 <= i <= |boneIndVec|
        invariant posBuf == Flatten(positions[..i])
      {
        var xIk := BlendVertex(comb, boneIndVec[i], boneWgtVec[i], Lift(initialVertPos[i], 1.0));
        assert xIk == positions[i];
        FlattenAppend(positions[..i], xIk);
        assert positions[..i + 1] == positions[..i] + [xIk];
        posBuf := posBuf + [xIk.x, xIk.y, xIk.z];
        i := i + 1;
      }
      assert positions[..i] == positions;
    }

    /** The normal half of `update`: clear `norBuf`, then append each
        vertex's blended rest normal, normalized. */
    method SkinNormals(comb: seq<Mat4>, normalize: Vec3 -> Vec3)
      requires TablesParallel() && |initialVertNor| >= |boneIndVec|
      requires forall i :: 0 <= i < |boneIndVec| ==> IndicesIn(boneIndVec[i], |comb|)
      modifies this`norBuf
      ensures norBuf == Flatten(Renormalized(normalize, BlendAll(comb, boneIndVec, boneWgtVec, initialVertNor, 0.0)))
    {
      ghost var blended := BlendAll(comb, boneIndVec, boneWgtVec, initialVertNor, 0.0);
      ghost var normals := Renormalized(normalize, blended);
      norBuf := [];
      var i := 0;
      while i < |boneIndVec|
        invariant 0 <= i <= |boneIndVec|
        invariant norBuf == Flatten(normals[..i])
      {
        var nIk := BlendVertex(comb, boneIndVec[i], boneWgtVec[i], Lift(initialVertNor[i], 0.0));
        assert nIk == blended[i];
        nIk := normalize(nIk);
        assert nIk == normals[i];
        FlattenAppend(normals[..i], nIk);
        assert normals[..i + 1] == normals[..i] + [nIk];
        norBuf := norBuf + [nIk.x, nIk.y, nIk.z];
        i := i + 1;
      }
      assert normals[..i] == normals;
    }
  }

  /** After `update`, vertex `i` owns floats 3i, 3i+1 and 3i+2 of the rebuilt
      buffer, and they are the xyz of its blend; the buffer holds three floats
      per vertex. */
  lemma BufferAt(comb: seq<Mat4>, boneInd: seq<seq<int>>, boneWgt: seq<seq<real>>, rest: seq<Vec3>, w: real, i: nat)
    requires Skinning.Influences(comb, boneInd, boneWgt) && |rest| >= |boneInd| && i < |boneInd|
    ensures var buf := Flatten(BlendAll(comb, boneInd, boneWgt, rest, w));
      var b := Blend(comb, boneInd[i], boneWgt[i], Lift(rest[i], w));
      |buf| == 3 * |boneInd| && buf[3 * i..3 * i + 3] == [b.x, b.y, b.z]
  {
    var vs := BlendAll(comb, boneInd, boneWgt, rest, w);
    FlattenAt(vs, i);
  }

  /** The first loop of `update`: `matProductVec`, each frame matrix times
      the bind matrix of the same bone. */
  method CombineBones(frameMats: seq<Mat4>, bindMats: seq<Mat4>) returns (matProductVec: seq<Mat4>)
    requires |frameMats| <= |bindMats|
    ensures matProductVec == Combined(frameMats, bindMats)
  {
    matProductVec := [];
    var i := 0;
    while i < |frameMats|
      invariant 0 <= i <= |frameMats|
      invariant |matProductVec| == i
      invariant forall j :: 0 <= j < i ==> matProductVec[j] == MulMM(frameMats[j], bindMats[j])
    {
      matProductVec := matProductVec + [MulMM(frameMats[i], bindMats[i])];
      i := i + 1;
    }
  }

  /** The reading loop of `loadAttachment`: every complete line up to the
      end of the file goes through `ReadLine`, and the rows it yields are
      collected in order; they are exactly the rows `Parse` describes. */
  method ReadTables(lines: seq<Line>) returns (inds: seq<seq<int>>, wgts: seq<seq<real>>)
    requires WellTokenised(lines)
    ensures (inds, wgts) == Parse(lines)
  {
    inds, wgts := [], [];
    var i := 0;
    var firstLine := true;
    var maxInfluences := 0;
    assert lines[..0] == [];
    while true
      invariant ReadState(lines, i, firstLine, maxInfluences)
      invariant (inds, wgts) == Parse(lines[..i])
      decreases |lines| - i
    {
      if i == |lines| || !lines[i].terminated {
        break;  // getline reached the end of the file
      }
      var row;
      firstLine, maxInfluences, row := ReadLine(lines, i, firstLine, maxInfluences);
      if row.Some? {
        inds := inds + [row.value.0];
        wgts := wgts + [row.value.1];
      }
      i := i + 1;
    }
    ReadAll(lines, i);
  }

  lemma AppendAssoc<T>(a: seq<T>, b: seq<T>, c: seq<T>)
    ensures a + b + c == a + (b + c)
  {
  }

  /** Appending the tables parsed from a file to parallel tables keeps them
      parallel. */
  lemma TablesStayParallel(inds: seq<seq<int>>, wgts: seq<seq<real>>, lines: seq<Line>)
    requires WellTokenised(lines)
    requires |inds| == |wgts| && forall i :: 0 <= i < |inds| ==> |inds[i]| == |wgts[i]|
    ensures var p := Parse(lines);
      |inds + p.0| == |wgts + p.1| &&
      forall i :: 0 <= i < |inds + p.0| ==> |(inds + p.0)[i]| == |(wgts + p.1)[i]|
  {
    var p := Parse(lines);
    forall i | 0 <= i < |inds + p.0| ensures |(inds + p.0)[i]| == |(wgts + p.1)[i]| {
      if i >= |inds| {
        ParseRows(lines, i - |inds|);
      }
    }
  }

  /** Where the reading loop of `loadAttachment` stands after the first `i`
      lines, all complete: `firstLine` holds until a line that counts has been
      read, and from then on `maxInfluences` is the header's count. */
  ghost predicate ReadState(lines: seq<Line>, i: nat, firstLine: bool, maxInfluences: int) {
    WellTokenised(lines) && i <= LiveLength(lines) && WellTokenised(lines[..i]) &&
    (firstLine <==> |Counted(lines[..i])| == 0) &&
    (!firstLine ==> maxInfluences == MaxInfluences(Counted(lines[..i])[0]))
  }

  /** One turn of the reading loop of `loadAttachment` on the complete line
      `i`: an empty line or a comment is skipped, the first other line sets
      `maxInfluences`, and every later one yields one row of each bone table. */
  method ReadLine(lines: seq<Line>, i: nat, firstLine: bool, maxInfluences: int)
    returns (firstLine': bool, maxInfluences': int, row: Option<(seq<int>, seq<real>)>)
    requires ReadState(lines, i, firstLine, maxInfluences) && i < LiveLength(lines)
    ensures ReadState(lines, i + 1, firstLine', maxInfluences')
    ensures row.None? ==> Parse(lines[..i + 1]) == Parse(lines[..i])
    ensures row.Some? ==>
      Parse(lines[..i + 1]) == (Parse(lines[..i]).0 + [row.value.0], Parse(lines[..i]).1 + [row.value.1])
    ensures row.Some? <==> !firstLine && !Skipped(lines[i])
  {
    var line := lines[i];
    firstLine', maxInfluences', row := firstLine, maxInfluences, None;
    if |line.text| == 0 || line.text[0] == '#' {  // an empty line or a comment
      ReadSkippedLine(lines, i);
      return;
    }
    if firstLine {
      ReadHeaderLine(lines, i);
      firstLine' := false;
      maxInfluences' := MaxInfluences(line);
      return;
    }
    ReadEntryLine(lines, i);
    var tempIndVec, tempWgtVec := ReadEntry(line, maxInfluences);
    row := Some((tempIndVec, tempWgtVec));
  }

  /** The two inner loops of `loadAttachment` for one vertex line: the
      line's index/weight pairs, then (0, 0.0) pairs up to `maxInfluences`. */
  method ReadEntry(line: Line, maxInfluences: int) returns (inds: seq<int>, wgts: seq<real>)
    requires EntryTokens(line)
    ensures inds == EntryIndices(line, maxInfluences) && wgts == EntryWeights(line, maxInfluences)
  {
    var curInfluences := line.tokens[0].asInt;
    inds, wgts := [], [];
    var i := 0;
    while i < curInfluences
      invariant 0 <= i <= Max0(curInfluences) && |inds| == i && |wgts| == i
      invariant forall t :: 0 <= t < i ==> inds[t] == line.tokens[1 + 2 * t].asInt
      invariant forall t :: 0 <= t < i ==> wgts[t] == line.tokens[2 + 2 * t].asReal
    {
      inds := inds + [line.tokens[1 + 2 * i].asInt];
      wgts := wgts + [line.tokens[2 + 2 * i].asReal];
      i := i + 1;
    }
    var n := |inds|;
    i := 0;
    while i < maxInfluences - curInfluences
      invariant 0 <= i <= Max0(maxInfluences - curInfluences) && |inds| == n + i && |wgts| == n + i
      invariant forall t :: 0 <= t < n ==> inds[t] == line.tokens[1 + 2 * t].asInt
      invariant forall t :: 0 <= t < n ==> wgts[t] == line.tokens[2 + 2 * t].asReal
      invariant forall t :: n <= t < n + i ==> inds[t] == 0 && wgts[t] == 0.0
    {
      inds := inds + [0];
      wgts := wgts + [0.0];
      i := i + 1;
    }
  }
}
