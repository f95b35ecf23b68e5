/** The attachment file read by `ShapeSkin::loadAttachment` (src/ShapeSkin.cpp),
    as the lines the reading loop sees.

    A file is a sequence of lines. A line is delivered only when a newline
    ends it: the loop stops at end of file before handling a last line that
    has no newline. Empty lines and lines whose first character is '#' are
    skipped. The first remaining line is the header
    "vertCount boneCount maxInfluences", of which only the third word is
    kept. Every later line is one vertex:
    "curInfluences i0 w0 i1 w1 ...", whose pairs are padded with (0, 0.0)
    up to maxInfluences. Splitting a line into words and `stoi`/`stof` are
    not modelled: each line carries its words already converted. */
module AttachmentFormat {

  /** One whitespace-separated word, as `stoi` and as `stof` read it. */
  datatype Token = Token(asInt: int, asReal: real)

  /** A line of the file: its characters, its words, and whether a newline
      ends it. */
  datatype Line = Line(text: string, tokens: seq<Token>, terminated: bool)

  function Max0(n: int): nat {
    if n < 0 then 0 else n
  }

  /** An empty line or a comment; a '#' after leading blanks does not count. */
  predicate Skipped(l: Line) {
    |l.text| == 0 || l.text[0] == '#'
  }

  /** How many lines the reading loop gets before end of file: the lines
      up to the first one without a newline. */
  function LiveLength(ls: seq<Line>): (n: nat)
    ensures n <= |ls|
    ensures forall i :: 0 <= i < n ==> ls[i].terminated
    ensures n < |ls| ==> !ls[n].terminated
  {
    if |ls| == 0 || !ls[0].terminated then 0 else 1 + LiveLength(ls[1..])
  }

  /** The lines that are neither empty nor comments, in order. */
  function CountedLines(ls: seq<Line>): (c: seq<Line>)
    ensures |c| <= |ls|
    ensures forall k :: 0 <= k < |c| ==> !Skipped(c[k])
  {
    if |ls| == 0 then []
    else if Skipped(ls[0]) then CountedLines(ls[1..])
    else [ls[0]] + CountedLines(ls[1..])
  }

  /** The lines of a file that the parser acts on: the header first. */
  function Counted(ls: seq<Line>): seq<Line> {
    CountedLines(ls[..LiveLength(ls)])
  }

  /** The header has the three words the parser reads. */
  predicate HeaderTokens(l: Line) {
    |l.tokens| >= 3
  }

  /** A vertex line has its influence count and that many index/weight pairs. */
  predicate EntryTokens(l: Line) {
    |l.tokens| >= 1 && 1 + 2 * l.tokens[0].asInt <= |l.tokens|
  }

  /** Every word the parser reads is present. The source reads past the end
      of a short line without noticing; such files are outside this model. */
  predicate WellTokenised(ls: seq<Line>) {
    var c := Counted(ls);
    |c| > 0 ==> HeaderTokens(c[0]) && forall k :: 1 <= k < |c| ==> EntryTokens(c[k])
  }

  /** The third word of the header. */
  function MaxInfluences(header: Line): int
    requires HeaderTokens(header)
  {
    header.tokens[2].asInt
  }

  /** The first word of a vertex line. */
  function Influences(l: Line): int
    requires EntryTokens(l)
  {
    l.tokens[0].asInt
  }

  /** The bone indices of a vertex line: the line's `curInfluences` indices,
      then `maxInfluences - curInfluences` zeros (none when that is not
      positive; nothing is cut off). */
  function EntryIndices(l: Line, maxInf: int): (r: seq<int>)
    requires EntryTokens(l)
    ensures |r| == Max0(Influences(l)) + Max0(maxInf - Influences(l))
    ensures forall k :: 0 <= k < Influences(l) ==> r[k] == l.tokens[1 + 2 * k].asInt
    ensures forall k :: Max0(Influences(l)) <= k < |r| ==> r[k] == 0
  {
    var cur := Influences(l);
    seq(Max0(cur), k requires 0 <= k < Max0(cur) => l.tokens[1 + 2 * k].asInt) + seq(Max0(maxInf - cur), _ => 0)
  }

  /** The bone weights of a vertex line, padded with 0.0 like the indices. */
  function EntryWeights(l: Line, maxInf: int): (r: seq<real>)
    requires EntryTokens(l)
    ensures |r| == Max0(Influences(l)) + Max0(maxInf - Influences(l))
    ensures forall k :: 0 <= k < Influences(l) ==> r[k] == l.tokens[2 + 2 * k].asReal
    ensures forall k :: Max0(Influences(l)) <= k < |r| ==> r[k] == 0.0
  {
    var cur := Influences(l);
    seq(Max0(cur), k requires 0 <= k < Max0(cur) => l.tokens[2 + 2 * k].asReal) + seq(Max0(maxInf - cur), _ => 0.0)
  }

  /** A vertex entry has as many indices as weights, `max(curInfluences,
      maxInfluences)` of each for a non-negative count, and more than
      `maxInfluences` when the line lists more. */
  lemma EntryLength(l: Line, maxInf: int)
    requires EntryTokens(l) && Influences(l) >= 0
    ensures |EntryIndices(l, maxInf)| == |EntryWeights(l, maxInf)|
    ensures |EntryIndices(l, maxInf)| == if Influences(l) > maxInf then Influences(l) else maxInf
  {
  }

  /** The two tables a sequence of vertex lines produces, one row per line. */
  function Entries(ls: seq<Line>, maxInf: int): (r: (seq<seq<int>>, seq<seq<real>>))
    requires forall k :: 0 <= k < |ls| ==> EntryTokens(ls[k])
    ensures |r.0| == |ls| && |r.1| == |ls|
    ensures forall k :: 0 <= k < |ls| ==> r.0[k] == EntryIndices(ls[k], maxInf)
    ensures forall k :: 0 <= k < |ls| ==> r.1[k] == EntryWeights(ls[k], maxInf)
  {
    if |ls| == 0 then ([], [])
    else
      var last := ls[|ls| - 1];
      var e := Entries(ls[..|ls| - 1], maxInf);
      (e.0 + [EntryIndices(last, maxInf)], e.1 + [EntryWeights(last, maxInf)])
  }

  /** What `loadAttachment` appends to (boneIndVec, boneWgtVec) for a file:
      nothing for the header, one row per later counted line, in order. */
  function Parse(ls: seq<Line>): (r: (seq<seq<int>>, seq<seq<real>>))
    requires WellTokenised(ls)
    ensures |r.0| == |r.1| == Max0(|Counted(ls)| - 1)
  {
    var c := Counted(ls);
    if |c| == 0 then ([], []) else Entries(c[1..], MaxInfluences(c[0]))
  }

  /** Row `k` of each table comes from counted line `k + 1`, padded to the
      header's `maxInfluences`; the two rows have the same length. */
  lemma ParseRows(ls: seq<Line>, k: nat)
    requires WellTokenised(ls) && k < |Parse(ls).0|
    ensures Parse(ls).0[k] == EntryIndices(Counted(ls)[k + 1], MaxInfluences(Counted(ls)[0]))
    ensures Parse(ls).1[k] == EntryWeights(Counted(ls)[k + 1], MaxInfluences(Counted(ls)[0]))
    ensures |Parse(ls).0[k]| == |Parse(ls).1[k]|
  {
  }

  // ---------------------------------------------------------------------------
  // How the lines of a file combine

  lemma {:induction false} CountedAppend(a: seq<Line>, b: seq<Line>)
    ensures CountedLines(a + b) == CountedLines(a) + CountedLines(b)
  {
    if |a| > 0 {
      assert (a + b)[1..] == a[1..] + b;
      CountedAppend(a[1..], b);
    } else {
      assert a + b == b;
    }
  }

  lemma {:induction false} LiveLengthAppend(a: seq<Line>, b: seq<Line>)
    ensures LiveLength(a + b) == if LiveLength(a) < |a| then LiveLength(a) else |a| + LiveLength(b)
  {
    if |a| > 0 && a[0].terminated {
      assert (a + b)[1..] == a[1..] + b;
      LiveLengthAppend(a[1..], b);
    } else if |a| == 0 {
      assert a + b == b;
    }
  }

  /** The lines the reading loop gets from two pieces of a file. */
  lemma LivePrefixAppend(a: seq<Line>, b: seq<Line>)
    ensures (a + b)[..LiveLength(a + b)] ==
      if LiveLength(a) < |a| then a[..LiveLength(a)] else a + b[..LiveLength(b)]
  {
    LiveLengthAppend(a, b);
    if LiveLength(a) < |a| {
      assert (a + b)[..LiveLength(a)] == a[..LiveLength(a)];
    } else {
      assert (a + b)[..|a| + LiveLength(b)] == a + b[..LiveLength(b)];
    }
  }

  /** A skipped line contributes no counted line wherever it stands. */
  lemma CountedWithout(a: seq<Line>, l: Line, b: seq<Line>)
    requires Skipped(l)
    ensures CountedLines(a + [l] + b) == CountedLines(a + b)
  {
    CountedAppend(a + [l], b);
    CountedAppend(a, [l]);
    CountedAppend(a, b);
    assert CountedLines([l]) == [] by {
      assert [l][1..] == [];
    }
  }

  /** Inserting an empty or comment line anywhere changes nothing that is
      parsed. */
  lemma SkippedLineIgnored(a: seq<Line>, l: Line, b: seq<Line>)
    requires Skipped(l) && l.terminated
    ensures Counted(a + [l] + b) == Counted(a + b)
    ensures WellTokenised(a + b) ==> Parse(a + [l] + b) == Parse(a + b)
  {
    var al := a + [l];
    LiveLengthAppend(a, [l]);
    assert LiveLength([l]) == 1;
    assert al[..|a|] == a;
    LivePrefixAppend(al, b);
    LivePrefixAppend(a, b);
    if LiveLength(a) < |a| {
      assert al[..LiveLength(al)] == a[..LiveLength(a)];
    } else {
      assert al[..LiveLength(al)] == al;
      CountedWithout(a, l, b[..LiveLength(b)]);
    }
  }

  /** Nothing from a line without a newline onwards is parsed: in particular
      a last line that lacks one is dropped. */
  lemma UnterminatedRestDropped(a: seq<Line>, l: Line, b: seq<Line>)
    requires !l.terminated
    ensures Counted(a + [l] + b) == Counted(a)
    ensures WellTokenised(a) ==> Parse(a + [l] + b) == Parse(a)
  {
    assert a + [l] + b == a + ([l] + b);
    LivePrefixAppend(a, [l] + b);
    assert LiveLength([l] + b) == 0;
    assert a[..|a|] == a;
  }

  /** A complete counted line extends the counted lines of a file that has
      no cut-off line. */
  lemma CountedLineAppended(a: seq<Line>, l: Line)
    requires LiveLength(a) == |a| && l.terminated && !Skipped(l)
    ensures Counted(a + [l]) == Counted(a) + [l]
  {
    LivePrefixAppend(a, [l]);
    SingleLine(l);
    assert a[..|a|] == a;
    CountedAppend(a, [l]);
  }

  lemma SingleLine(l: Line)
    requires l.terminated && !Skipped(l)
    ensures [l][..LiveLength([l])] == [l]
    ensures CountedLines([l]) == [l]
  {
    assert [l][1..] == [];
  }

  /** A blank before the '#' makes the line an ordinary counted line. As a
      vertex line its first word is then "#", on which the source's `stoi`
      throws; the model's words always convert, so it reads the line on. */
  lemma IndentedHashCounted(a: seq<Line>, l: Line)
    requires LiveLength(a) == |a|
    requires l.terminated && |l.text| >= 2 && l.text[0] == ' ' && l.text[1] == '#'
    ensures Counted(a + [l]) == Counted(a) + [l]
  {
    CountedLineAppended(a, l);
  }

  /** Reading one more complete line: before the header it becomes the
      header and appends nothing; after it, it appends exactly one row to
      each table. */
  lemma ParseAppendLine(a: seq<Line>, l: Line)
    requires LiveLength(a) == |a| && l.terminated && !Skipped(l)
    requires WellTokenised(a)
    requires if |Counted(a)| == 0 then HeaderTokens(l) else EntryTokens(l)
    ensures WellTokenised(a + [l])
    ensures |Counted(a)| == 0 ==> Parse(a + [l]) == ([], [])
    ensures |Counted(a)| > 0 ==>
      var m := MaxInfluences(Counted(a)[0]);
      Parse(a + [l]) == (Parse(a).0 + [EntryIndices(l, m)], Parse(a).1 + [EntryWeights(l, m)])
  {
    CountedLineAppended(a, l);
    var c := Counted(a);
    if |c| > 0 {
      var rest := c[1..];
      assert (c + [l])[1..] == rest + [l];
      assert (rest + [l])[..|rest|] == rest;
      assert (c + [l])[0] == c[0];
    }
  }

  // ---------------------------------------------------------------------------
  // Reading the file line by line

  /** Before end of file, the lines read so far are all complete, and their
      counted lines begin the counted lines of the whole file. */
  lemma CountedPrefix(ls: seq<Line>, i: nat)
    requires i <= LiveLength(ls)
    ensures LiveLength(ls[..i]) == i
    ensures Counted(ls) == Counted(ls[..i]) + CountedLines(ls[i..LiveLength(ls)])
    ensures WellTokenised(ls) ==> WellTokenised(ls[..i])
  {
    CountedSplit(ls, i);
    var c, c' := Counted(ls), Counted(ls[..i]);
    assert forall k :: 0 <= k < |c'| ==> c[k] == c'[k];
  }

  lemma CountedSplit(ls: seq<Line>, i: nat)
    requires i <= LiveLength(ls)
    ensures LiveLength(ls[..i]) == i
    ensures Counted(ls) == Counted(ls[..i]) + CountedLines(ls[i..LiveLength(ls)])
  {
    var n := LiveLength(ls);
    assert LiveLength(ls[..i]) == i;
    assert ls[..i][..i] == ls[..i];
    assert ls[..n] == ls[..i] + ls[i..n];
    CountedAppend(ls[..i], ls[i..n]);
  }

  /** Reading the complete line at index `i` when it is empty or a comment
      leaves the counted lines as they are. */
  lemma ReadSkipped(ls: seq<Line>, i: nat)
    requires i < LiveLength(ls) && Skipped(ls[i])
    ensures Counted(ls[..i + 1]) == Counted(ls[..i])
  {
    CountedPrefix(ls, i);
    assert ls[..i] + [ls[i]] + [] == ls[..i + 1];
    assert ls[..i] + [] == ls[..i];
    SkippedLineIgnored(ls[..i], ls[i], []);
  }

  /** Reading the complete line at index `i` when it is counted appends it to
      the counted lines. */
  lemma ReadCounted(ls: seq<Line>, i: nat)
    requires i < LiveLength(ls) && !Skipped(ls[i])
    ensures Counted(ls[..i + 1]) == Counted(ls[..i]) + [ls[i]]
  {
    CountedPrefix(ls, i);
    assert ls[..i + 1] == ls[..i] + [ls[i]];
    CountedLineAppended(ls[..i], ls[i]);
  }

  /** The counted line at index `i` has the words the parser reads: it is
      the header when nothing was counted before it, a vertex line otherwise. */
  lemma CountedTokens(ls: seq<Line>, i: nat)
    requires i < LiveLength(ls) && !Skipped(ls[i]) && WellTokenised(ls)
    ensures if |Counted(ls[..i])| == 0 then HeaderTokens(ls[i]) else EntryTokens(ls[i])
  {
    var c := Counted(ls[..i]);
    CountedAt(ls, i);
    var all := Counted(ls);
    assert all[|c|] == ls[i];
  }

  /** The counted line at index `i` comes right after the lines counted
      before it. */
  lemma CountedAt(ls: seq<Line>, i: nat)
    requires i < LiveLength(ls) && !Skipped(ls[i])
    ensures |Counted(ls[..i])| < |Counted(ls)| && Counted(ls)[|Counted(ls[..i])|] == ls[i]
  {
    var n := LiveLength(ls);
    CountedPrefix(ls, i);
    var rest := ls[i..n];
    assert rest[0] == ls[i] && rest[1..] == ls[i + 1..n];
    assert CountedLines(rest) == [ls[i]] + CountedLines(ls[i + 1..n]);
  }

  /** One turn of the reading loop on a complete empty or comment line:
      nothing more is parsed. */
  lemma ReadSkippedLine(ls: seq<Line>, i: nat)
    requires i < LiveLength(ls) && WellTokenised(ls) && Skipped(ls[i])
    ensures WellTokenised(ls[..i]) && WellTokenised(ls[..i + 1])
    ensures Counted(ls[..i + 1]) == Counted(ls[..i]) && Parse(ls[..i + 1]) == Parse(ls[..i])
  {
    CountedPrefix(ls, i);
    ReadSkipped(ls, i);
  }

  /** One turn of the reading loop on the first counted line: it is the
      header, and no row is added. */
  lemma ReadHeaderLine(ls: seq<Line>, i: nat)
    requires i < LiveLength(ls) && WellTokenised(ls) && !Skipped(ls[i])
    requires |Counted(ls[..i])| == 0
    ensures HeaderTokens(ls[i]) && WellTokenised(ls[..i + 1])
    ensures Counted(ls[..i + 1]) == [ls[i]]
    ensures Parse(ls[..i + 1]) == ([], [])
  {
    CountedPrefix(ls, i);
    CountedPrefix(ls, i + 1);
    ReadCounted(ls, i);
    CountedTokens(ls, i);
  }

  /** One turn of the reading loop on a later counted line: one row is
      added to each table, from the line and the header's `maxInfluences`. */
  lemma ReadEntryLine(ls: seq<Line>, i: nat)
    requires i < LiveLength(ls) && WellTokenised(ls) && !Skipped(ls[i])
    requires WellTokenised(ls[..i]) && |Counted(ls[..i])| > 0
    ensures EntryTokens(ls[i]) && WellTokenised(ls[..i + 1])
    ensures |Counted(ls[..i + 1])| > 0 && Counted(ls[..i + 1])[0] == Counted(ls[..i])[0]
    ensures var m := MaxInfluences(Counted(ls[..i])[0]);
      Parse(ls[..i + 1]) == (Parse(ls[..i]).0 + [EntryIndices(ls[i], m)], Parse(ls[..i]).1 + [EntryWeights(ls[i], m)])
  {
    CountedPrefix(ls, i);
    ReadCounted(ls, i);
    CountedTokens(ls, i);
    assert ls[..i + 1] == ls[..i] + [ls[i]];
    ParseAppendLine(ls[..i], ls[i]);
  }

  /** The reading loop stops at end of file with every line that counts read. */
  lemma ReadAll(ls: seq<Line>, i: nat)
    requires i <= LiveLength(ls) && (i == |ls| || !ls[i].terminated)
    ensures i == LiveLength(ls)
    ensures Counted(ls[..i]) == Counted(ls)
    ensures WellTokenised(ls) ==> Parse(ls[..i]) == Parse(ls)
  {
    CountedPrefix(ls, i);
    assert ls[i..LiveLength(ls)] == [];
  }
}
