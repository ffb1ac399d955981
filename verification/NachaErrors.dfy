/** What a rejected file is told: the first bad line, and what is wrong with it. */
module NachaErrors {
  import opened Wrappers
  import opened PythonText
  import opened Nacha
  import opened NachaTotals

  // ---- Why a line cannot be read ----

  /** An entry is refused outside a batch, then for a blank account, then for its amount, then
      for its routing number; otherwise it reads. */
  lemma EntryRefusals(t: Text, inBatch: bool)
    requires |t| >= 94 && t[0] == 0x36
    ensures var blank := forall i :: 12 <= i < 29 ==> t[i] in {9, 10, 11, 12, 13, 28, 29, 30, 31, 32};
            var read := ReadLine(t, inBatch);
            if !inBatch then read == Failure(EntryBeforeBatch)
            else if blank then read == Failure(NoAccount)
            else if ParseInt(t[29..39]) == None then read == Failure(InvalidAmount)
            else if ParseIntOrZero(t[3..11]) == None then read == Failure(NonNumericDfi)
            else read.Success? && read.value.EntryDetail?
  {
    var _, _ := StripMeans(t);
    var _, _ := StripMeans(t[12..29]);
    var account := t[12..29];
    assert forall i :: 12 <= i < 29 ==> account[i - 12] == t[i];
    assert forall j :: 0 <= j < 17 ==> account[j] == t[j + 12];
    hide Strip, ParseInt, ParseIntOrZero, ReadHeader, ReadControl;
  }

  /** A batch header is refused for its date alone. */
  lemma HeaderRefusals(t: Text, inBatch: bool)
    requires |t| >= 94 && t[0] == 0x35
    ensures ReadLine(t, inBatch) == Failure(InvalidDate) <==> ParseYymmdd(Strip(t[69..75])) == None
    ensures ReadLine(t, inBatch).Failure? ==> ReadLine(t, inBatch).error == InvalidDate
  {
    var _, _ := StripMeans(t);
    hide Strip, ParseYymmdd, ReadEntry, ReadControl;
  }

  /** A control is refused for any of its four numbers; a line of no known type never is. */
  lemma ControlRefusals(t: Text, inBatch: bool)
    requires |t| >= 94
    ensures t[0] == 0x38 ==>
              (ReadLine(t, inBatch).Failure? <==>
               ParseIntOrZero(t[4..10]) == None || ParseIntOrZero(t[10..20]) == None
               || ParseIntOrZero(t[20..32]) == None || ParseIntOrZero(t[32..44]) == None)
    ensures t[0] == 0x39 ==>
              (ReadLine(t, inBatch).Failure? <==>
               ParseIntOrZero(t[13..21]) == None || ParseIntOrZero(t[21..31]) == None
               || ParseIntOrZero(t[31..43]) == None || ParseIntOrZero(t[43..55]) == None)
    ensures t[0] in {0x38, 0x39} && ReadLine(t, inBatch).Failure? ==> ReadLine(t, inBatch).error == NonNumericControl
    ensures t[0] !in {0x35, 0x36, 0x38, 0x39} ==> ReadLine(t, inBatch) == Success(Ignored)
  {
    var _, _ := StripMeans(t);
    hide Strip, ParseIntOrZero, ReadHeader, ReadEntry;
  }

  // ---- Where ----

  /** The first of the four numbers, in this order, that is not what was seen. */
  predicate IsWrongFirst(declared: Sums, seen: Sums, column: Column) {
    var hash := seen.hash % 10_000_000_000;
    match column
    case CountColumn => declared.count != seen.count
    case HashColumn => declared.count == seen.count && declared.hash != hash
    case DebitColumn => declared.count == seen.count && declared.hash == hash && declared.debit != seen.debit
    case CreditColumn =>
      declared.count == seen.count && declared.hash == hash && declared.debit == seen.debit
      && declared.credit != seen.credit
  }

  /** Behind the lines read as `recs`, this one cannot be read, or declares something else. */
  ghost predicate IsBadLine(recs: seq<Line>, line: Text, kind: Kind) {
    match ReadLine(line, OpenBatch(recs, |recs|).Some?)
    case Failure(e) => kind == e
    case Success(r) =>
      && kind.Mismatch?
      && if kind.file then r.FileControl? && IsWrongFirst(r.declared, SumOf(recs), kind.column)
         else r.BatchControl? && IsWrongFirst(r.declared, BatchSum(recs, |recs|), kind.column)
  }

  ghost predicate ErrorAt(lines: seq<Text>, e: NachaError) {
    && 1 <= e.lineNumber <= |lines|
    && var before := ReadAll(lines[..e.lineNumber - 1]);
       before.Some? && ControlsAgree(before.value) && IsBadLine(before.value, lines[e.lineNumber - 1], e.kind)
  }

  lemma WrongFirst(declared: Sums, seen: Sums)
    requires FirstMismatch(declared, seen).Some?
    ensures IsWrongFirst(declared, seen, FirstMismatch(declared, seen).value)
  {
  }

  lemma BadStep(s: State, recs: seq<Line>, line: Text, n: nat)
    requires Mirrors(s, recs) && Step(s, line, n).Failure?
    ensures Step(s, line, n).error.lineNumber == n && IsBadLine(recs, line, Step(s, line, n).error.kind)
  {
    hide ReadLine, Contribution, FirstMismatch, IsWrongFirst, SumOf, BatchSum, EntriesOf, OpenBatch, Add;
    var read := ReadLine(line, s.batch.Some?);
    if read.Success? {
      if read.value.BatchControl? && FirstMismatch(read.value.declared, s.batchSums).Some? {
        WrongFirst(read.value.declared, s.batchSums);
      }
      if read.value.FileControl? && FirstMismatch(read.value.declared, s.fileSums).Some? {
        WrongFirst(read.value.declared, s.fileSums);
      }
    }
  }

  lemma {:induction false} RunErrorAt(lines: seq<Text>, n: nat)
    requires n <= |lines| && Run(lines, n).Failure?
    ensures ErrorAt(lines, Run(lines, n).error)
  {
    hide Step, ReadAll, ControlsAgree, IsBadLine, Mirrors;
    if Run(lines, n - 1).Failure? {
      RunErrorAt(lines, n - 1);
    } else {
      RunExact(lines, n - 1);
      BadStep(Run(lines, n - 1).value, ReadAll(lines[..n - 1]).value, lines[n - 1], n);
    }
  }

  /** A rejected file was read without fault up to the line that the error names, which is bad; or
      all of it was, and it has no entry. */
  lemma ErrorNamesFirstBadLine(lines: seq<Text>)
    requires Parse(lines).Failure?
    ensures var e := Parse(lines).error;
            || ErrorAt(lines, e)
            || (&& e == NachaError(NoEntries, |lines|)
                && ReadAll(lines).Some? && ControlsAgree(ReadAll(lines).value)
                && EntriesOf(ReadAll(lines).value) == [])
  {
    hide ReadAll, ControlsAgree, ErrorAt, EntriesOf;
    if Run(lines, |lines|).Failure? { RunErrorAt(lines, |lines|); } else { ParseExact(lines); }
    RunExact(lines, |lines|);
    assert lines[..|lines|] == lines;
  }
}
