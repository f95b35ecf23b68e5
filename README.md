# Linear blend skinning: a verified model of the CPU core

This project models, in Dafny, the CPU side of a small linear-blend-skinning
viewer: the `ShapeSkin` class (src/ShapeSkin.h, src/ShapeSkin.cpp) and the
`TextureMatrix` class (src/TextureMatrix.cpp). Each part keeps the source's
own form. The classes become Dafny classes whose methods update their fields
in place. The source's loops become `while` loops with invariants, and each
loop is proved against a specification function about which further lemmas
are proved.

- **Attachment files** (`AttachmentFormat`, Attachment.dfy). A file is a
  sequence of `Line`s, and the loop stops at the first line without a
  newline. Empty lines and lines starting with `#` are skipped. The first
  remaining line is the header, and only its third word (`maxInfluences`)
  is kept. Every later line gives one row of bone indices and one row of
  bone weights, padded with `(0, 0.0)` up to `maxInfluences`. `Parse` is the
  specification. `ShapeSkins.ReadLine`, `ShapeSkins.ReadTables` and
  `ShapeSkin.LoadAttachment` are the reading loop, proved against it.
- **Rest geometry** (`BindPose`, BindPose.dfy). `Group3` groups flat float
  arrays into 3-vectors, and `Flatten` undoes it. The element buffer is the
  vertex indices of every face of every shape, in order, stored as
  `unsigned int` (taken modulo 2^32). `ShapeSkin.LoadMesh` and its three
  loops are proved against these.
- **Skinning** (`Skinning`, Skinning.dfy; `LinAlg`, LinAlg.dfy). Matrices
  are column-major, as in glm. For frame `k`, bone `j` gets the combined
  matrix `frameMats[j] * bindMats[j]`. A vertex's new position is the xyz of
  the weighted sum of `combined[j] * (x, 1)` over its influences. Its new
  normal is the same sum from `(n, 0)`, passed to `normalize`.
  `ShapeSkin.Update` rebuilds both buffers, and its result does not depend
  on what the buffers held before.
- **Texture offsets** (`Textures`, TextureMatrix.dfy; `Float32`,
  Float32.dfy). `Classify` matches case-sensitively with priority Body,
  Mouth, Eyes, Brows, and gives NONE when none occurs. `Step` moves the
  offsets, counted in tenths. The class keeps the offsets as
  single-precision values and ghost counts of tenths. `Float32` models
  round-to-nearest-even single precision on the range the offsets use.
  With it, `TextureMatrix.Update` is proved to take exactly the transitions
  of `Step`. So the comparisons `> 0.2f`, `> 0.4f` and `>= 1.1f` on the
  floats agree with `> 2`, `> 4` and `>= 11` on the tenths on every
  reachable state. The texture matrix is always the identity with the two
  offsets in column 2.

Where the code differs from what a reader of its design might expect, the
model follows the code:
- A vertex line that lists more influences than `maxInfluences` is not cut
  down (`EntryLength`).
- A blended normal of zero length is passed to `normalize` unguarded. The
  model keeps `normalize` abstract.
- A failed mesh or attachment load leaves every table as it was; nothing is
  cleared. A successful load appends to the rest geometry and bone tables
  already held.
- In the bind pose a vertex moves to its rest position scaled by the sum of
  its weights (`BindPoseBlend`). Weights are not renormalized.
- Faces may have any number of vertices.
- If the type is changed between key presses, the horizontal offset can
  reach 0.3 (0.1 under MOUTH, then 'e' under EYES). The class invariant
  therefore uses the band 0 .. 0.4 (`InBand`). The per-type cycles 0, 0.1,
  0.2 and 0, 0.2, 0.4 are stated separately (`Reachable`, `HStepsCycle`).

## Model

| member | source | states |
|---|---|---|
| ShapeSkins.ShapeSkin.constructor | src/ShapeSkin.cpp:19-27 | a new shape has no program, empty buffers and bone tables, and a fresh texture matrix of type NONE at offset (0, 0) with the identity matrix; the shape invariant, texture matrix included, holds |
| ShapeSkins.ShapeSkin.SetTextureMatrixType | src/ShapeSkin.cpp:33-36 | the shape's texture matrix gets the type `Classify` gives the mesh name; nothing else changes |
| ShapeSkins.ShapeSkin.LoadMesh | src/ShapeSkin.cpp:38-85 | on a failed load nothing changes; otherwise pos/nor/tex buffers take the reader's arrays, and the grouped positions, grouped normals and all face indices are appended to what was held |
| ShapeSkins.ShapeSkin.AppendRestPositions | src/ShapeSkin.cpp:56-59 | appends exactly `Group3(posBuf)`: rest position i is (posBuf[3i], posBuf[3i+1], posBuf[3i+2]) |
| ShapeSkins.ShapeSkin.AppendRestNormals | src/ShapeSkin.cpp:60-63 | appends exactly `Group3(norBuf)` |
| ShapeSkins.ShapeSkin.AppendShape | src/ShapeSkin.cpp:67-83 | the face loop with its running `index_offset` appends the faces' indices face by face (`ByFaces`), which are exactly the first `SumFaces` vertex indices of the shape, as unsigned values |
| ShapeSkins.ShapeSkin.AppendFace | src/ShapeSkin.cpp:74-78 | the vertex loop appends the face's `fv` indices from `index_offset` on, as unsigned values, in order |
| ShapeSkins.ShapeSkin.LoadAttachment | src/ShapeSkin.cpp:87-157 | a file that cannot be opened changes nothing; otherwise the rows of `Parse` are appended to both bone tables, which stay parallel |
| ShapeSkins.ReadTables | src/ShapeSkin.cpp:97-154 | the reading loop yields exactly `Parse(lines)` |
| ShapeSkins.ReadLine | src/ShapeSkin.cpp:100-153 | one turn of the loop keeps its state (`firstLine`, `maxInfluences`) in step with the lines read, and yields a row exactly when the line is counted and is not the header, extending `Parse` by that row |
| ShapeSkins.ReadEntry | src/ShapeSkin.cpp:131-149 | the two inner loops build exactly `EntryIndices` and `EntryWeights` of the line |
| ShapeSkins.TablesStayParallel | src/ShapeSkin.cpp:152-153 | appending a parse to parallel bone tables keeps them parallel, row by row |
| ShapeSkins.ShapeSkin.SetProgram | src/ShapeSkin.h:23 | stores the program and changes no other field |
| ShapeSkins.ShapeSkin.SetTextureFilename | src/ShapeSkin.h:27 | stores the file name and changes no other field |
| ShapeSkins.ShapeSkin.GetTextureFilename | src/ShapeSkin.h:28 | returns the name last stored |
| ShapeSkins.ShapeSkin.GetTextureMatrix | src/ShapeSkin.h:29 | returns the shape's own texture matrix, the one made by the constructor |
| ShapeSkins.ShapeSkin.Update | src/ShapeSkin.cpp:188-261 | posBuf becomes the flattened blends of the rest positions (w = 1), norBuf the flattened normalized blends of the rest normals (w = 0), for the combined matrices of frame k; old buffer contents play no part |
| ShapeSkins.ShapeSkin.SkinPositions | src/ShapeSkin.cpp:199-223 | clears and refills posBuf with every vertex's blended position |
| ShapeSkins.ShapeSkin.SkinNormals | src/ShapeSkin.cpp:228-255 | clears and refills norBuf with every vertex's normalized blended normal |
| ShapeSkins.CombineBones | src/ShapeSkin.cpp:193-197 | the loop builds one combined matrix per bone: frame matrix times bind matrix |
| ShapeSkins.BufferAt | src/ShapeSkin.cpp:219-222 | a rebuilt buffer has 3 floats per vertex, and floats 3i..3i+2 are the xyz of vertex i's blend |
| Skinning.BlendVertex | src/ShapeSkin.cpp:203-217 | the accumulator loop over a vertex's influences computes exactly `Blend` |
| Skinning.Combined | src/ShapeSkin.cpp:194-197 | one matrix per bone of the frame, entry j equal to frameMats[j] * bindMats[j] |
| Skinning.CombinedApplies | src/ShapeSkin.cpp:196 | a combined matrix applies the bind matrix first, then the frame matrix |
| Skinning.BlendAll | src/ShapeSkin.cpp:201-223 | one blended vector per vertex, vertex i blended from its own rest vector and influences |
| Skinning.SingleBone | src/ShapeSkin.cpp:208-217 | a single influence of weight 1 moves the vertex rigidly with its bone |
| Skinning.ZeroWeightIgnored | src/ShapeSkin.cpp:208-217 | an influence of weight 0 inserted anywhere leaves the blend unchanged |
| Skinning.PaddingIgnored | src/ShapeSkin.cpp:145-149 | the (0, 0.0) padding the reader adds leaves the blend unchanged |
| Skinning.DirectionBlendIgnoresTranslation | src/ShapeSkin.cpp:235-246 | a normal (w = 0) blends the same under matrices that differ only in translation |
| Skinning.NormalsIgnoreTranslation | src/ShapeSkin.cpp:229-246 | all blended normals are independent of the combined matrices' translation columns |
| Skinning.BindPoseBlend | src/ShapeSkin.cpp:201-223 | with every combined matrix the identity, a vertex goes to its rest position times the sum of its weights |
| Skinning.Renormalized | src/ShapeSkin.cpp:248-249 | every blended normal passes through `normalize`, in place and in order |
| LinAlg.MulMMIsComposition | src/ShapeSkin.cpp:196 | glm's column-major matrix product is composition of the two maps |
| LinAlg.DirectionIgnoresTranslation | src/ShapeSkin.cpp:235-240 | a direction (w = 0) does not see a matrix's translation column |
| BindPose.Group3 | src/ShapeSkin.cpp:57-63 | one vector per triple, vector i built from floats 3i, 3i+1, 3i+2 |
| BindPose.Flatten | src/ShapeSkin.cpp:219-222 | three floats per vector |
| BindPose.FlattenAt | src/ShapeSkin.cpp:219-222 | vector i occupies floats 3i, 3i+1, 3i+2 of the flat buffer |
| BindPose.GroupFlatten | src/ShapeSkin.cpp:57-63 | grouping undoes flattening |
| BindPose.FlattenGroup | src/ShapeSkin.cpp:57-63 | flattening undoes grouping |
| BindPose.ToUnsigned | src/ShapeSkin.cpp:77 | storing a vertex index in an `unsigned int` element keeps it modulo 2^32: below 2^32, unchanged when already in range |
| BindPose.Unsigned | src/ShapeSkin.cpp:77 | element-wise conversion to unsigned, same length |
| BindPose.ShapeElems | src/ShapeSkin.cpp:69-82 | a shape contributes as many elements as its faces have vertices |
| BindPose.SumFacesPrefix | src/ShapeSkin.cpp:79 | `index_offset` never passes the total face size |
| BindPose.ByFacesIsPrefix | src/ShapeSkin.cpp:70-82 | the indices taken face by face from `index_offset` are exactly the first `SumFaces` indices, in order |
| AttachmentFormat.LiveLength | src/ShapeSkin.cpp:100-104 | the loop gets the lines before the first line without a newline, and all of those have one |
| AttachmentFormat.CountedLines | src/ShapeSkin.cpp:105-111 | the lines that count are neither empty nor comments, and are no more than the lines read |
| AttachmentFormat.EntryIndices | src/ShapeSkin.cpp:131-149 | a row holds the line's `curInfluences` indices in order, then zeros up to `maxInfluences`, with nothing cut off |
| AttachmentFormat.EntryWeights | src/ShapeSkin.cpp:131-149 | the same for weights, padded with 0.0 |
| AttachmentFormat.EntryLength | src/ShapeSkin.cpp:136-149 | a row has equally many indices and weights, max(curInfluences, maxInfluences) of each |
| AttachmentFormat.Entries | src/ShapeSkin.cpp:113-153 | one row per vertex line, row k from line k |
| AttachmentFormat.Parse | src/ShapeSkin.cpp:97-154 | the two tables have one row per counted line after the header |
| AttachmentFormat.ParseRows | src/ShapeSkin.cpp:152-153 | row k of both tables comes from counted line k + 1, padded to the header's third word; the two rows have equal length |
| AttachmentFormat.SkippedLineIgnored | src/ShapeSkin.cpp:105-111 | an empty or '#' line anywhere changes neither the counted lines nor the parse |
| AttachmentFormat.IndentedHashCounted | src/ShapeSkin.cpp:109-111 | a line with a blank before its '#' is not a comment and counts (as a vertex line, the source then throws at `stoi("#")`, which the model does not capture) |
| AttachmentFormat.UnterminatedRestDropped | src/ShapeSkin.cpp:101-104 | a line without a newline, and everything after it, is never parsed |
| AttachmentFormat.ParseAppendLine | src/ShapeSkin.cpp:122-153 | one more counted line becomes the header and adds nothing, or adds exactly one row to each table |
| AttachmentFormat.CountedAppend | src/ShapeSkin.cpp:105-111 | the counted lines of two pieces are those of each piece, in order |
| AttachmentFormat.ReadSkippedLine | src/ShapeSkin.cpp:105-111 | reading a skipped line leaves the counted lines and the parse as they were |
| AttachmentFormat.ReadHeaderLine | src/ShapeSkin.cpp:122-129 | reading the first counted line makes it the header, with its three words present, and adds no row |
| AttachmentFormat.ReadEntryLine | src/ShapeSkin.cpp:131-153 | reading a later counted line keeps the header and adds that line's row to both tables |
| AttachmentFormat.ReadAll | src/ShapeSkin.cpp:100-104 | the loop ends with every line that counts read: the partial parse is the whole parse |
| Textures.Classify | src/TextureMatrix.cpp:25-38 | BODY iff "Body" occurs; MOUTH iff "Mouth" occurs and "Body" does not; EYES and BROWS likewise down the priority order; NONE otherwise |
| Textures.ContainsIffOccurs | src/TextureMatrix.cpp:27 | `find(sub) != npos` holds iff `sub` occurs at some index |
| Textures.ClassifyBody | src/TextureMatrix.cpp:27-28 | "Body_Torso" is BODY |
| Textures.ClassifyBodyFirst | src/TextureMatrix.cpp:27-30 | "MouthBody" is BODY: priority, not position, decides |
| Textures.ClassifyMouth | src/TextureMatrix.cpp:29-30 | "Head_Mouth_01" is MOUTH |
| Textures.ClassifyNone | src/TextureMatrix.cpp:35-36 | a name without 'B', without 'M', and lacking 'E' or 's' is NONE |
| Textures.ClassifyEyebrow | src/TextureMatrix.cpp:31-36 | "LeftEyebrow" is NONE |
| Textures.ClassifyLowerCase | src/TextureMatrix.cpp:29-36 | "mouth" is NONE: matching is case-sensitive |
| Textures.Step | src/TextureMatrix.cpp:40-70 | BODY and NONE change no offset; only 'm' (MOUTH) or 'e' (EYES) moves x; only 'M' (MOUTH), 'E' (EYES) or 'b' (BROWS) moves y |
| Textures.StepPreservesReachable | src/TextureMatrix.cpp:40-70 | under a fixed type, x stays on that type's cells and y in 0 .. 1.0 |
| Textures.StepStaysInBand | src/TextureMatrix.cpp:40-70 | under any sequence of types and keys, x stays in 0 .. 0.4 and y in 0 .. 1.0 |
| Textures.VStepStaysPositive | src/TextureMatrix.cpp:50-53 | after a vertical press y is in 0.1 .. 1.0 and never 0 |
| Textures.VStepsCycle | src/TextureMatrix.cpp:50-53 | from 0.1 .. 1.0, n vertical presses add n tenths modulo ten within 0.1 .. 1.0 |
| Textures.HStepsCycle | src/TextureMatrix.cpp:46-49 | 'm' cycles 0, 0.1, 0.2 and 'e' cycles 0, 0.2, 0.4 with period three |
| Textures.Tenths | src/TextureMatrix.cpp:47 | n float additions of 0.1f stay within n * 0.10001 of zero, never below |
| Textures.TenthsAreTabulated | src/TextureMatrix.cpp:47 | n float additions of 0.1f give exactly the tabulated float of n tenths |
| Textures.AddTenth | src/TextureMatrix.cpp:47-52 | adding 0.1f gives the float of one tenth more, and `> 0.2f` and `>= 1.1f` on it agree with `> 2` and `>= 11` on the tenths |
| Textures.AddTwoTenths | src/TextureMatrix.cpp:57-58 | from up to 0.4, adding 0.2f gives the float of two tenths more, and `> 0.4f` on it agrees with `> 4` |
| Textures.Translation | src/TextureMatrix.cpp:15 | at offsets (0, 0) the texture matrix is the identity |
| Textures.TextureMatrix.constructor | src/TextureMatrix.cpp:12-18 | type NONE, both offsets 0, matrix the identity, and the invariant holds |
| Textures.TextureMatrix.SetType | src/TextureMatrix.cpp:25-38 | the type becomes `Classify(name)`; the offsets and matrix are untouched |
| Textures.TextureMatrix.Update | src/TextureMatrix.cpp:40-75 | the float offsets move exactly as `Step` moves the tenths, the type is untouched, and the matrix again carries the offsets in column 2 |
| Textures.TextureMatrix.MouthPress | src/TextureMatrix.cpp:46-49 | 'm' adds 0.1f and wraps to 0 past 0.2f, in step with one horizontal step of one tenth |
| Textures.TextureMatrix.EyesPress | src/TextureMatrix.cpp:56-59 | 'e' adds 0.2f and wraps to 0 past 0.4f, in step with one horizontal step of two tenths |
| Textures.TextureMatrix.VerticalPress | src/TextureMatrix.cpp:50-53 | 'M', 'E' and 'b' add 0.1f and wrap to 0.1f at 1.1f, in step with `VStep` |
| Float32.LiteralsRounded | src/TextureMatrix.cpp:47-52 | the constants used for 0.1f, 0.2f, 0.4f and 1.1f are the nearest floats to those decimals |
| Float32.TenthsStep | src/TextureMatrix.cpp:47 | rounding the float of n-1 tenths plus 0.1f gives the float of n tenths, up to 11 |
| Float32.TwoTenthsStep | src/TextureMatrix.cpp:57 | rounding the float of n tenths plus 0.2f gives the float of n+2 tenths, for n up to 4 |
| Float32.TenthsThresholds | src/TextureMatrix.cpp:48-52 | the float of n tenths exceeds 0.2f iff n > 2, exceeds 0.4f iff n > 4, and reaches 1.1f iff n = 11 |
| Float32.Round | src/TextureMatrix.cpp:47 | single-precision rounding moves a value by at most half a unit in the last place, and keeps zero |

## Left out

- OpenGL: `init`, `draw`, the buffer uploads inside `update`, `GLSL::checkError` and the four buffer ids are GPU side effects. They are not modelled.
- The OBJ reader `tinyobj::LoadObj` is foreign code. `LoadMesh` takes its result as an `Option<ObjData>`: `None` for a failed load, whose error text is not modelled.
- File and console I/O in `loadAttachment` (open, close, the "Cannot read" and "Loading" messages). `LoadAttachment` takes `None` for a file that cannot be opened, or the file's lines.
- Splitting a line into words is not modelled. Each `Line` carries its words, and a file whose counted lines lack a word the parser reads is excluded by the precondition `WellTokenised`. The source's reads past the end of a short line are not modelled.
- `stoi`/`stof` are not modelled. The `Token` type gives every word both an integer and a real reading, so a word that does not convert cannot be written down. The source throws on such a word. One case: after the header, a line whose '#' follows blanks (`IndentedHashCounted`) has the word "#" as its influence count, and `stoi("#")` throws. The model instead reads that line as a vertex line.
- AttachmentFormat.Token: `asInt` is an unbounded integer. The source's `stoi` throws `out_of_range` outside the 32-bit `int` range, and the model does not capture that.
- AttachmentFormat.EntryIndices: the padding count `maxInfluences - curInfluences` is an unbounded subtraction. In the source it is a 32-bit `int` subtraction that can overflow when the two counts lie far apart. The model pads by the exact difference instead.
- The debug `assert(posBuf.size() == norBuf.size())` in `loadMesh` is not modelled. `LoadMesh` does not require equal sizes.
- `glm::normalize` is a parameter of `Update` (`normalize: Vec3 -> Vec3`). Its square-root numerics, and its result on a zero vector, are not modelled.
- Skinning: IEEE single-precision rounding in the matrix products and weighted sums is not modelled. Matrices and vectors are over the reals.
- Unchecked indexing in `update` (`allFrameMats[k]`, `bindMats[i]`, `matProductVec[j]`, `initialVertPos[i]`, `initialVertNor[i]`) and in `loadMesh` (`mesh.indices`, triples of `posBuf`/`norBuf`) is made explicit as preconditions. Out-of-range behaviour is not modelled.
- ShapeSkins.ReadTables: the rows the reading loop produces are collected in local tables, then appended to the fields by `LoadAttachment`. The source appends each row to the fields as it goes. The result is the same, since nothing else reads the tables during the loop.
- `tinyobj` normal and texcoord indices and per-face materials are ignored by the source and are not modelled.
- `TextureMatrix::getMatrix`, the header src/TextureMatrix.h and the destructors are not part of this model.
- Float32: the single-precision model covers zero and magnitudes in [1/16, 2). That range holds every offset and constant that `TextureMatrix::update` uses. Overflow, subnormals and NaN are not modelled.
- Textures.TextureMatrix.Update: the float offsets are tied to ghost counts of tenths, and the class invariant keeps those counts in the band 0..4 by 0..10. States outside that band cannot be reached from the constructor and are not modelled.
