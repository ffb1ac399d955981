/** The records that the parser passes over, and the types that it does not know. */
module X937Skipped {
  import opened Wrappers
  import opened PythonText
  import opened Calendar
  import opened X937Records
  import opened X937Parser

  // ---- The types, written out ----

  /** The two bytes of a record type. */
  function Code(n: nat): Bytes
    requires n < 100
  {
    [0x30 + n / 10, 0x30 + n % 10]
  }

  const SKIPPED_TYPES := {1, 26, 27, 28, 31, 32, 33, 34}
  const READ_TYPES := {10, 20, 25, 50, 52, 70, 90, 99}

  /** A record of a skipped type is passed over whole, whatever it holds. */
  lemma SkippedReads(n: nat, body: Bytes, more: Bytes)
    requires n in SKIPPED_TYPES && |body| == 78
    ensures Head(Code(n) + body + more) == Success(Read(Skipped(Code(n) + body), 80))
  {
    var z := Code(n) + body;
    assert (z + more)[..2] == Code(n) && (z + more)[..STANDARD_LEN] == z && z[..STANDARD_LEN] == z;
    assert RecordTypeOf(Code(n)) == SkippedType;
  }

  /** A record of any type that is not listed is rejected. */
  lemma UnlistedIsRejected(code: Bytes, more: Bytes)
    requires |code| == 2 && forall n :: n in SKIPPED_TYPES + READ_TYPES ==> code != Code(n)
    ensures Head(code + more) == Failure(UnrecognizedRecordType)
  {
    assert (code + more)[..2] == code;
    assert code != Code(10) && code != Code(20) && code != Code(25) && code != Code(50);
    assert code != Code(52) && code != Code(70) && code != Code(90) && code != Code(99);
    SkippedIsListed(code);
  }

  lemma SkippedIsListed(code: Bytes)
    requires |code| == 2
    ensures IsSkippedCode(code) <==> exists n :: n in SKIPPED_TYPES && code == Code(n)
  {
    if IsSkippedCode(code) {
      var n: nat := 10 * (code[0] - 0x30) + (code[1] - 0x30);
      assert n in SKIPPED_TYPES && code == Code(n);
    }
  }

  // ---- What they change ----

  /** The records without those that are passed over. */
  function Essential(recs: seq<Record>): seq<Record> {
    if recs == [] then []
    else (if recs[0].Skipped? then [] else [recs[0]]) + Essential(recs[1..])
  }

  lemma {:induction false} EssentialAppend(a: seq<Record>, b: seq<Record>)
    ensures Essential(a + b) == Essential(a) + Essential(b)
  {
    if a == [] {
      assert a + b == b;
    } else {
      assert (a + b)[1..] == a[1..] + b;
      EssentialAppend(a[1..], b);
    }
  }

  /** The scanner's steps over a sequence of records. */
  function StepAll(a: Scanner, recs: seq<Record>, today: Date): (end: Result<Scanner, ErrorKind>)
    requires a.Valid()
    ensures end.Success? ==> end.value.Valid()
    decreases |recs|
  {
    if recs == [] then Success(a)
    else
      var next := Step(a, recs[0], today);
      if next.Failure? then next else StepAll(next.value, recs[1..], today)
  }

  lemma {:induction false} SkippedSteps(a: Scanner, recs: seq<Record>, today: Date)
    requires a.Valid()
    ensures StepAll(a, recs, today) == StepAll(a, Essential(recs), today)
    decreases |recs|
  {
    if recs != [] {
      var next := Step(a, recs[0], today);
      if recs[0].Skipped? {
        SkippedSteps(a, recs[1..], today);
        assert [] + Essential(recs[1..]) == Essential(recs[1..]);
      } else {
        assert Essential(recs)[0] == recs[0] && Essential(recs)[1..] == Essential(recs[1..]);
        if next.Success? { SkippedSteps(next.value, recs[1..], today); }
      }
    }
  }

  ghost predicate TracksFrom(a: Scanner, recs: seq<Record>, n: nat) {
    n <= |recs| && Tracks(a, recs, n)
  }

  lemma {:induction false} StepAllExact(a: Scanner, recs: seq<Record>, n: nat, today: Date)
    requires TracksFrom(a, recs, n)
    ensures StepAll(a, recs[n..], today).Success? <==> AgreeFrom(recs, n)
    ensures StepAll(a, recs[n..], today).Success? ==>
              StepAll(a, recs[n..], today).value.Flushed() == Outcome(a, recs[n..], today)
    decreases |recs| - n
  {
    hide OpenTotals;
    if n == |recs| {
      assert recs[n..] == [];
      assert a.images + [] == a.images;
      assert a.Flushed() + [] == a.Flushed();
    } else {
      StepTracks(a, recs, n, today);
      var next := Step(a, recs[n], today);
      assert recs[n..][0] == recs[n] && recs[n..][1..] == recs[n + 1..];
      if next.Success? {
        StepAllExact(next.value, recs, n + 1, today);
        StepKeepsOutcome(a, recs[n..], today);
      }
    }
  }

  lemma FromStart(recs: seq<Record>, today: Date)
    ensures StepAll(Start(today), recs, today).Success? <==> ControlsAgree(recs)
    ensures ControlsAgree(recs) ==> StepAll(Start(today), recs, today).value.Flushed() == ItemsOf(recs, 0, today, today)
  {
    hide Step, StepAll;
    assert recs[0..] == recs;
    forall scope ensures Start(today).Running(scope) == OpenTotals(recs, 0, scope) {
      assert recs[0..0] == [];
    }
    StepAllExact(Start(today), recs, 0, today);
    assert [] + ItemsOf(recs, 0, today, today) == ItemsOf(recs, 0, today, today);
  }

  /** Skipped records change neither whether the controls agree nor what the items are. */
  lemma EssentialSays(recs: seq<Record>, today: Date)
    ensures ControlsAgree(recs) <==> ControlsAgree(Essential(recs))
    ensures ControlsAgree(recs) ==> ItemsOf(recs, 0, today, today) == ItemsOf(Essential(recs), 0, today, today)
  {
    hide ControlsAgree, ItemsOf, StepAll, Essential;
    FromStart(recs, today);
    FromStart(Essential(recs), today);
    SkippedSteps(Start(today), recs, today);
  }

  lemma SkippedAt(n: nat, body: Bytes, gap: Bytes)
    requires n in SKIPPED_TYPES && |body| == 78 && AllSeparators(gap)
    ensures Scan(Code(n) + body + gap) == Some([Skipped(Code(n) + body)])
  {
    hide Head;
    var z := Code(n) + body;
    SkippedReads(n, body, gap);
    assert (z + gap)[80..] == gap;
    SkipAll(gap, []);
    assert gap + [] == gap;
    assert After(z + gap) == [];
    assert Scan([]) == Some([]) && [Skipped(z)] + [] == [Skipped(z)];
  }

  lemma InsertionScans(a: Bytes, z: Bytes, c: Bytes)
    requires Scan(a).Some? && AtRecordStart(c) && Scan(z).Some?
    ensures Scan(a + c) == Append(Scan(a), Scan(c))
    ensures Scan(a + z + c) == Append(Scan(a), Append(Scan(z), Scan(c)))
  {
    hide Scan, AtRecordStart;
    ScansAtRecordStart(z);
    ScanAppend(a, c);
    ScanAppend(a, z);
    ScanAppend(a + z, c);
    AppendIsAssociative(Scan(a), Scan(z), Scan(c));
  }

  /** Putting such a record between any two records of any file, readable or not, changes
      neither whether the file is accepted nor its items. */
  lemma InsertionChangesNothing(before: Bytes, n: nat, body: Bytes, gap: Bytes, behind: Bytes, today: Date)
    requires Scan(before).Some? && AtRecordStart(behind)
    requires n in SKIPPED_TYPES && |body| == 78 && AllSeparators(gap)
    ensures var was, now := Parse(before + behind, today), Parse(before + (Code(n) + body + gap) + behind, today);
            && (was.Success? <==> now.Success?)
            && (was.Success? ==> was.value == now.value)
  {
    var z := Code(n) + body;
    SkippedAt(n, body, gap);
    hide Parse, Head, Scan, ControlsAgree, ItemsOf, Essential, AtRecordStart, Code;
    ParseExact(before + behind, today);
    ParseExact(before + (z + gap) + behind, today);
    InsertionScans(before, z + gap, behind);
    if Scan(behind).Some? {
      var a, b := Scan(before).value, Scan(behind).value;
      EssentialWithout(a, Skipped(z), b);
      EssentialSays(a + b, today);
      EssentialSays(a + ([Skipped(z)] + b), today);
    }
  }

  lemma EssentialWithout(a: seq<Record>, z: Record, b: seq<Record>)
    requires z.Skipped?
    ensures Essential(a + ([z] + b)) == Essential(a + b)
  {
    EssentialAppend(a, [z] + b);
    EssentialAppend([z], b);
    EssentialAppend(a, b);
    assert Essential([z]) == [];
    assert [] + Essential(b) == Essential(b);
  }
}
