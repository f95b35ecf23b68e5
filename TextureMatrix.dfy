/** The texture-offset state machine of a skinned mesh part (src/TextureMatrix.cpp).
    A mesh name is classified once by substring; key codes then step the
    horizontal and vertical texture offsets through small cycles, and the
    translation entries of a 3x3 texture matrix follow the offsets.

    The offsets are single-precision floats; ghost counts of tenths shadow
    them. `TextureMatrix.Update` shows that on every state the source can
    reach, its float additions and comparisons take exactly the transitions
    `Step` takes on the counts of tenths. */
module Textures {
  import opened LinAlg
  import Float32

  datatype MatType = NONE | BODY | MOUTH | EYES | BROWS

  const KeyLowerM: int := 109  // 'm'
  const KeyUpperM: int := 77   // 'M'
  const KeyLowerE: int := 101  // 'e'
  const KeyUpperE: int := 69   // 'E'
  const KeyLowerB: int := 98   // 'b'

  // ---------------------------------------------------------------------------
  // Classification by substring

  /** `sub` occurs in `s` starting at index `i`. */
  predicate OccursAt(s: string, sub: string, i: nat) {
    i + |sub| <= |s| && s[i..i + |sub|] == sub
  }

  /** `std::string::find(sub) != npos`: `sub` occurs somewhere in `s`. */
  predicate Contains(s: string, sub: string)
    decreases |s|
  {
    |sub| <= |s| && (s[..|sub|] == sub || Contains(s[1..], sub))
  }

  /** `Contains` agrees with the direct definition: some index where `sub` occurs. */
  lemma {:induction false} ContainsIffOccurs(s: string, sub: string)
    ensures Contains(s, sub) <==> exists i: nat :: OccursAt(s, sub, i)
    decreases |s|
  {
    if |sub| > |s| {
      forall i: nat ensures !OccursAt(s, sub, i) { }
    } else if s[..|sub|] == sub {
      assert OccursAt(s, sub, 0);
    } else {
      ContainsIffOccurs(s[1..], sub);
      if Contains(s[1..], sub) {
        var i: nat :| OccursAt(s[1..], sub, i);
        assert s[1..][i..i + |sub|] == s[i + 1..i + 1 + |sub|];
        assert OccursAt(s, sub, i + 1);
      } else {
        forall i: nat | OccursAt(s, sub, i) ensures false {
          if i > 0 {
            assert s[1..][i - 1..i - 1 + |sub|] == s[i..i + |sub|];
            assert OccursAt(s[1..], sub, i - 1);
          }
        }
      }
    }
  }

  /** A word with a letter that the name lacks does not occur in the name. */
  lemma {:induction false} MissingLetter(s: string, sub: string, c: char)
    requires c in sub && c !in s
    ensures !Contains(s, sub)
    decreases |s|
  {
    if |sub| <= |s| {
      assert s[..|sub|] != sub by {
        var k :| 0 <= k < |sub| && sub[k] == c;
        assert s[..|sub|][k] == s[k];
      }
      MissingLetter(s[1..], sub, c);
    }
  }

  /** `TextureMatrix::setType`: the first of "Body", "Mouth", "Eyes", "Brows"
      that occurs in the name decides the type; none of them gives NONE. */
  function Classify(name: string): (t: MatType)
    ensures t == BODY <==> Contains(name, "Body")
    ensures t == MOUTH <==> !Contains(name, "Body") && Contains(name, "Mouth")
    ensures t == EYES <==> !Contains(name, "Body") && !Contains(name, "Mouth") && Contains(name, "Eyes")
    ensures t == BROWS <==>
      !Contains(name, "Body") && !Contains(name, "Mouth") && !Contains(name, "Eyes") && Contains(name, "Brows")
  {
    if Contains(name, "Body") then BODY
    else if Contains(name, "Mouth") then MOUTH
    else if Contains(name, "Eyes") then EYES
    else if Contains(name, "Brows") then BROWS
    else NONE
  }

  /** A name containing "Body" is BODY. */
  lemma ClassifyBody()
    ensures Classify("Body_Torso") == BODY
  {
    assert OccursAt("Body_Torso", "Body", 0);
    ContainsIffOccurs("Body_Torso", "Body");
  }

  /** "Body" wins over a word found earlier in the name. */
  lemma ClassifyBodyFirst()
    ensures Classify("MouthBody") == BODY
  {
    assert OccursAt("MouthBody", "Body", 5);
    ContainsIffOccurs("MouthBody", "Body");
  }

  lemma ClassifyMouth()
    ensures Classify("Head_Mouth_01") == MOUTH
  {
    HeadMouthNoBody();
    HeadMouthHasMouth();
  }

  lemma HeadMouthNoBody()
    ensures !Contains("Head_Mouth_01", "Body")
  {
    MissingLetter("Head_Mouth_01", "Body", 'B');
  }

  lemma HeadMouthHasMouth()
    ensures Contains("Head_Mouth_01", "Mouth")
  {
    assert OccursAt("Head_Mouth_01", "Mouth", 5);
    ContainsIffOccurs("Head_Mouth_01", "Mouth");
  }

  /** A name without 'B', without 'M', and without 'E' or 's' contains none
      of the four words and is NONE. */
  lemma ClassifyNone(name: string)
    requires 'B' !in name && 'M' !in name && ('E' !in name || 's' !in name)
    ensures Classify(name) == NONE
  {
    MissingLetter(name, "Body", 'B');
    MissingLetter(name, "Mouth", 'M');
    if 'E' !in name {
      MissingLetter(name, "Eyes", 'E');
    } else {
      MissingLetter(name, "Eyes", 's');
    }
    MissingLetter(name, "Brows", 'B');
  }

  /** "Eyebrow" is neither "Eyes" nor "Brows". */
  lemma ClassifyEyebrow()
    ensures Classify("LeftEyebrow") == NONE
  {
    ClassifyNone("LeftEyebrow");
  }

  /** Matching is case-sensitive: "mouth" is not "Mouth". */
  lemma ClassifyLowerCase()
    ensures Classify("mouth") == NONE
  {
    ClassifyNone("mouth");
  }

  // ---------------------------------------------------------------------------
  // The key-driven offset steps, in tenths

  /** A horizontal press: add `inc` tenths, and wrap to 0 once past `limit`. */
  function HStep(x: int, inc: int, limit: int): int {
    if x + inc > limit then 0 else x + inc
  }

  /** A vertical press: add one tenth, and wrap to one tenth once at eleven. */
  function VStep(y: int): int {
    if y + 1 >= 11 then 1 else y + 1
  }

  /** `TextureMatrix::update` on the offsets, in tenths: the new (xOffset, yOffset). */
  function Step(t: MatType, key: int, x: int, y: int): (r: (int, int))
    ensures t == BODY || t == NONE ==> r == (x, y)
    ensures r.0 != x ==> (t == MOUTH && key == KeyLowerM) || (t == EYES && key == KeyLowerE)
    ensures r.1 != y ==>
      (t == MOUTH && key == KeyUpperM) || (t == EYES && key == KeyUpperE) || (t == BROWS && key == KeyLowerB)
  {
    match t
    case BODY => (x, y)
    case MOUTH =>
      (if key == KeyLowerM then HStep(x, 1, 2) else x, if key == KeyUpperM then VStep(y) else y)
    case EYES =>
      (if key == KeyLowerE then HStep(x, 2, 4) else x, if key == KeyUpperE then VStep(y) else y)
    case BROWS => (x, if key == KeyLowerB then VStep(y) else y)
    case NONE => (x, y)
  }

  /** The horizontal cells a type can reach from 0 under that type alone:
      0, 0.1, 0.2 for MOUTH, 0, 0.2, 0.4 for EYES, and only 0 otherwise. */
  predicate HorizontalCell(t: MatType, x: int) {
    match t
    case MOUTH => 0 <= x <= 2
    case EYES => x == 0 || x == 2 || x == 4
    case _ => x == 0
  }

  /** The offsets reachable from (0, 0) under a fixed type: vertically 0
      before the first press and 0.1 .. 1.0 after it. */
  predicate Reachable(t: MatType, x: int, y: int) {
    HorizontalCell(t, x) && 0 <= y <= 10
  }

  lemma StepPreservesReachable(t: MatType, key: int, x: int, y: int)
    requires Reachable(t, x, y)
    ensures Reachable(t, Step(t, key, x, y).0, Step(t, key, x, y).1)
  {
  }

  /** The offsets reachable from (0, 0) when the type may also change between
      presses: horizontally 0 .. 0.4 (0.1 then 'e' reaches 0.3), vertically 0 .. 1.0. */
  predicate InBand(x: int, y: int) {
    0 <= x <= 4 && 0 <= y <= 10
  }

  lemma StepStaysInBand(t: MatType, key: int, x: int, y: int)
    requires InBand(x, y)
    ensures InBand(Step(t, key, x, y).0, Step(t, key, x, y).1)
  {
  }

  /** Once pressed, the vertical offset never returns to 0. */
  lemma VStepStaysPositive(y: int)
    requires 0 <= y <= 10
    ensures 1 <= VStep(y) <= 10
  {
  }

  /** `n` vertical presses in a row. */
  function VSteps(y: int, n: nat): int {
    if n == 0 then y else VStep(VSteps(y, n - 1))
  }

  /** In the band 0.1 .. 1.0 the vertical offset cycles with period ten. */
  lemma {:induction false} VStepsCycle(y: int, n: nat)
    requires 1 <= y <= 10
    ensures VSteps(y, n) == (y - 1 + n) % 10 + 1
  {
    if n > 0 {
      VStepsCycle(y, n - 1);
    }
  }

  /** `n` horizontal presses in a row. */
  function HSteps(x: int, inc: int, limit: int, n: nat): int {
    if n == 0 then x else HStep(HSteps(x, inc, limit, n - 1), inc, limit)
  }

  /** On the cells 0, inc, 2*inc the horizontal offset cycles with period three:
      0 -> 0.1 -> 0.2 -> 0 under 'm', 0 -> 0.2 -> 0.4 -> 0 under 'e'. */
  lemma {:induction false} HStepsCycle(c: nat, inc: int, n: nat)
    requires inc > 0 && c < 3
    ensures HSteps(c * inc, inc, 2 * inc, n) == ((c + n) % 3) * inc
  {
    if n > 0 {
      HStepsCycle(c, inc, n - 1);
      var k := (c + n - 1) % 3;
      assert HSteps(c * inc, inc, 2 * inc, n - 1) == k * inc;
      assert (c + n) % 3 == if k == 2 then 0 else k + 1;
    }
  }

  // ---------------------------------------------------------------------------
  // The same steps in single precision

  /** The float that `n` single-precision additions of 0.1f to 0 produce. */
  function Tenths(n: nat): (r: real)
    requires n <= 11
    ensures 0.0 <= r <= n as real * 0.10001
  {
    if n == 0 then 0.0
    else
      var prev := Tenths(n - 1);
      Float32.Add(prev, Float32.Tenth)
  }

  /** `Tenths` gives exactly the tabulated floats. */
  lemma {:induction false} TenthsAreTabulated(n: nat)
    requires n <= 11
    ensures Tenths(n) == Float32.TenthsTable(n)
  {
    if n > 0 {
      TenthsAreTabulated(n - 1);
      Float32.TenthsStep(n);
    }
  }

  /** One more 0.1f: the float of `n` tenths plus 0.1f is the float of `n + 1`
      tenths, and it exceeds 0.2f, exceeds 0.4f, or reaches 1.1f exactly when
      `n + 1` tenths do. */
  lemma AddTenth(n: nat)
    requires n <= 10
    ensures Float32.Add(Tenths(n), Float32.Tenth) == Tenths(n + 1)
    ensures Tenths(n + 1) > Float32.TwoTenths <==> n + 1 > 2
    ensures Tenths(n + 1) >= Float32.ElevenTenths <==> n + 1 >= 11
  {
    TenthsAreTabulated(n + 1);
    Float32.TenthsThresholds(n + 1);
  }

  /** 0.2f in one addition: from up to 0.4 the float of `n` tenths plus 0.2f
      is the float of `n + 2` tenths, and it exceeds 0.4f exactly when `n + 2`
      tenths do. */
  lemma AddTwoTenths(n: nat)
    requires n <= 4
    ensures Float32.Add(Tenths(n), Float32.TwoTenths) == Tenths(n + 2)
    ensures Tenths(n + 2) > Float32.FourTenths <==> n + 2 > 4
  {
    TenthsAreTabulated(n);
    TenthsAreTabulated(n + 2);
    Float32.TwoTenthsStep(n);
    Float32.TenthsThresholds(n + 2);
  }

  /** The translation the texture matrix applies: the identity with the
      offsets in column 2, rows 0 and 1. */
  function Translation(x: real, y: real): (m: Mat3)
    ensures x == 0.0 && y == 0.0 ==> m == Identity3
  {
    Mat3(Vec3(1.0, 0.0, 0.0), Vec3(0.0, 1.0, 0.0), Vec3(x, y, 1.0))
  }

  /** `TextureMatrix`: the mesh part's type, the two float offsets and the
      3x3 texture matrix they are written into. The ghost fields count the
      offsets in tenths. */
  class TextureMatrix {
    var meshType: MatType
    var T: Mat3
    var xOffset: real
    var yOffset: real
    ghost var xTenths: int
    ghost var yTenths: int

    /** Each offset is the float of its count of tenths, the counts are in
        the reachable band, and the matrix carries the offsets. The type
        plays no part. */
    ghost predicate Valid()
      reads this`xOffset, this`yOffset, this`T, this`xTenths, this`yTenths
    {
      InBand(xTenths, yTenths) &&
      xOffset == Tenths(xTenths) && yOffset == Tenths(yTenths) &&
      T == Translation(xOffset, yOffset)
    }

    constructor ()
      ensures Valid()
      ensures meshType == NONE && T == Identity3 && xOffset == 0.0 && yOffset == 0.0
      ensures xTenths == 0 && yTenths == 0
    {
      meshType := NONE;
      T := Identity3;
      xOffset := 0.0;
      yOffset := 0.0;
      xTenths := 0;
      yTenths := 0;
    }

    /** `setType`: classify the mesh name; the offsets are left as they are. */
    method SetType(name: string)
      modifies this`meshType
      ensures meshType == Classify(name)
    {
      if Contains(name, "Body") {
        meshType := BODY;
      } else if Contains(name, "Mouth") {
        meshType := MOUTH;
      } else if Contains(name, "Eyes") {
        meshType := EYES;
      } else if Contains(name, "Brows") {
        meshType := BROWS;
      } else {
        meshType := NONE;
      }
    }

    /** `update(key)` in single precision. Its float additions and comparisons
        move the offsets exactly as `Step` moves the counts of tenths. */
    method Update(key: int)
      requires Valid()
      modifies this`xOffset, this`yOffset, this`T, this`xTenths, this`yTenths
      ensures Valid()
      ensures (xTenths, yTenths) == Step(meshType, key, old(xTenths), old(yTenths))
    {
      if meshType == BODY {
      } else if meshType == MOUTH {
        if key == KeyLowerM {
          MouthPress();
        }
        if key == KeyUpperM {
          VerticalPress();
        }
      } else if meshType == EYES {
        if key == KeyLowerE {
          EyesPress();
        }
        if key == KeyUpperE {
          VerticalPress();
        }
      } else if meshType == BROWS {
        if key == KeyLowerB {
          VerticalPress();
        }
      }
      T := T.(c2 := T.c2.(x := xOffset, y := yOffset));
    }

    /** The 'm' press of a mouth: add 0.1f and wrap to 0 once past 0.2f. */
    method MouthPress()
      requires 0 <= xTenths <= 4 && xOffset == Tenths(xTenths)
      modifies this`xOffset, this`xTenths
      ensures xTenths == HStep(old(xTenths), 1, 2) && xOffset == Tenths(xTenths)
    {
      AddTenth(xTenths);
      xOffset := Float32.Add(xOffset, Float32.Tenth);
      xTenths := xTenths + 1;
      if xOffset > Float32.TwoTenths {
        xOffset := 0.0;
        xTenths := 0;
      }
    }

    /** The 'e' press of the eyes: add 0.2f and wrap to 0 once past 0.4f. */
    method EyesPress()
      requires 0 <= xTenths <= 4 && xOffset == Tenths(xTenths)
      modifies this`xOffset, this`xTenths
      ensures xTenths == HStep(old(xTenths), 2, 4) && xOffset == Tenths(xTenths)
    {
      AddTwoTenths(xTenths);
      xOffset := Float32.Add(xOffset, Float32.TwoTenths);
      xTenths := xTenths + 2;
      if xOffset > Float32.FourTenths {
        xOffset := 0.0;
        xTenths := 0;
      }
    }

    /** The vertical step the 'M', 'E' and 'b' presses share: add 0.1f and
        wrap to 0.1f once at 1.1f. */
    method VerticalPress()
      requires 0 <= yTenths <= 10 && yOffset == Tenths(yTenths)
      modifies this`yOffset, this`yTenths
      ensures yTenths == VStep(old(yTenths)) && yOffset == Tenths(yTenths)
    {
      AddTenth(yTenths);
      yOffset := Float32.Add(yOffset, Float32.Tenth);
      yTenths := yTenths + 1;
      if yOffset >= Float32.ElevenTenths {
        TenthsAreTabulated(1);
        yOffset := Float32.Tenth;
        yTenths := 1;
      }
    }
  }
}
