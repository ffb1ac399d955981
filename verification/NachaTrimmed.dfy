/** Lines that end early: blanks at the end of a line, or past its 94th column, say nothing. */
module NachaTrimmed {
  import opened Wrappers
  import opened PythonText
  import opened Nacha

  /** `short` is `line` without some or all of the blanks at its end. */
  predicate IsTrimmed(short: Text, line: Text) {
    && |short| <= |line| && short == line[..|short|]
    && (forall i :: |short| <= i < |line| ==> line[i] == 0x20)
  }

  lemma BlankTogether(short: Text, line: Text)
    requires IsTrimmed(short, line)
    ensures Strip(short) == [] <==> Strip(line) == []
  {
    hide Strip;
    var _, _ := StripMeans(short);
    var _, _ := StripMeans(line);
    assert forall i :: 0 <= i < |short| ==> short[i] == line[i];
  }

  /** The same first 94 columns. */
  predicate SameColumns(t: Text, u: Text) {
    |t| >= 94 && |u| >= 94 && t[..94] == u[..94]
  }

  lemma CutTwice(t: Text, a: nat, b: nat)
    requires a <= b <= 94 <= |t|
    ensures t[..94][a..b] == t[a..b]
  {
  }

  lemma SamePart(t: Text, u: Text, a: nat, b: nat)
    requires SameColumns(t, u) && a <= b <= 94
    ensures t[a..b] == u[a..b]
  {
    CutTwice(t, a, b);
    CutTwice(u, a, b);
  }

  lemma SameControl(t: Text, u: Text, a: nat, b: nat, c: nat, d: nat, e: nat)
    requires SameColumns(t, u) && a <= b <= c <= d <= e <= 94
    ensures ReadControl(t, a, b, c, d, e) == ReadControl(u, a, b, c, d, e)
  {
    hide ParseIntOrZero;
    SamePart(t, u, a, b);
    SamePart(t, u, b, c);
    SamePart(t, u, c, d);
    SamePart(t, u, d, e);
  }

  lemma SameFields(t: Text, u: Text)
    requires SameColumns(t, u)
    ensures ReadHeader(t) == ReadHeader(u) && ReadEntry(t) == ReadEntry(u)
  {
    hide ParseIntOrZero, ParseInt, ParseYymmdd, Strip;
    SamePart(t, u, 1, 3);
    SamePart(t, u, 3, 11);
    SamePart(t, u, 12, 29);
    SamePart(t, u, 29, 39);
    SamePart(t, u, 39, 54);
    SamePart(t, u, 79, 94);
    SamePart(t, u, 4, 20);
    SamePart(t, u, 40, 50);
    SamePart(t, u, 50, 53);
    SamePart(t, u, 69, 75);
  }

  lemma SameColumnsRead(raw: Text, other: Text, inBatch: bool)
    requires SameColumns(Pad(raw), Pad(other)) && (Strip(raw) == [] <==> Strip(other) == [])
    ensures ReadLine(raw, inBatch) == ReadLine(other, inBatch)
  {
    hide ReadHeader, ReadEntry, ReadControl, Strip, Pad;
    var t, u := Pad(raw), Pad(other);
    assert t[0] == t[..94][0] && u[0] == u[..94][0];
    SameFields(t, u);
    SameControl(t, u, 4, 10, 20, 32, 44);
    SameControl(t, u, 13, 21, 31, 43, 55);
    hide SameColumns;
  }

  lemma TrimmedPads(short: Text, line: Text)
    requires IsTrimmed(short, line)
    ensures SameColumns(Pad(short), Pad(line))
  {
    var t, u := Pad(short), Pad(line);
    forall i | 0 <= i < 94 ensures t[i] == u[i] {}
  }

  /** A line reads the same with and without the blanks at its end. */
  lemma TrimmedLineReads(short: Text, line: Text, inBatch: bool)
    requires IsTrimmed(short, line)
    ensures ReadLine(short, inBatch) == ReadLine(line, inBatch)
  {
    hide ReadLine, Pad, SameColumns, Strip;
    BlankTogether(short, line);
    TrimmedPads(short, line);
    SameColumnsRead(short, line, inBatch);
  }

  /** Whatever stands behind the 94th column of a line is not looked at. */
  lemma LongLineReads(line: Text, more: Text, inBatch: bool)
    requires |line| == 94 && Strip(line) != []
    ensures ReadLine(line + more, inBatch) == ReadLine(line, inBatch)
  {
    hide ReadLine, Strip;
    var t := line + more;
    var _, _ := StripMeans(line);
    var _, _ := StripMeans(t);
    assert forall i :: 0 <= i < |line| ==> t[i] == line[i];
    assert t[..94] == line && line[..94] == line;
    SameColumnsRead(t, line, inBatch);
  }

  /** A file whose lines were trimmed, each at its own column, parses as it did: the same
      entries, or the same error at the same line. */
  lemma TrimmedFileParses(short: seq<Text>, lines: seq<Text>)
    requires |short| == |lines| && forall i :: 0 <= i < |lines| ==> IsTrimmed(short[i], lines[i])
    ensures Parse(short) == Parse(lines)
  {
    TrimmedRun(short, lines, |lines|);
  }

  lemma {:induction false} TrimmedRun(short: seq<Text>, lines: seq<Text>, n: nat)
    requires |short| == |lines| && forall i :: 0 <= i < |lines| ==> IsTrimmed(short[i], lines[i])
    requires n <= |lines|
    ensures Run(short, n) == Run(lines, n)
  {
    hide IsTrimmed, ReadLine, FirstMismatch, Contribution;
    if n > 0 {
      TrimmedRun(short, lines, n - 1);
      var before := Run(lines, n - 1);
      if before.Success? { TrimmedLineReads(short[n - 1], lines[n - 1], before.value.batch.Some?); }
    }
  }
}
