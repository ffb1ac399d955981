/** What an accepted NACHA file guarantees: both levels of control totals, how they compose,
    what they say about the returned entries, and which lost entries they reveal. */
module NachaTotals {
  import opened Wrappers
  import opened PythonText
  import opened Nacha

  // ---- Facts about prefixes ----

  lemma {:induction false} PrefixFacts(recs: seq<Line>, more: seq<Line>, n: nat)
    requires n <= |recs|
    ensures OpenBatch(recs + more, n) == OpenBatch(recs, n)
    ensures BatchStart(recs + more, n) == BatchStart(recs, n)
  {
    if n > 0 {
      assert (recs + more)[n - 1] == recs[n - 1];
      PrefixFacts(recs, more, n - 1);
    }
  }

  lemma PrefixAgrees(recs: seq<Line>, more: seq<Line>, i: nat)
    requires i < |recs|
    ensures LineAgrees(recs + more, i) <==> LineAgrees(recs, i)
  {
    hide SumOf, BatchStart;
    PrefixFacts(recs, more, i);
    var b := BatchStart(recs, i);
    assert (recs + more)[b..i] == recs[b..i];
    assert (recs + more)[..i] == recs[..i];
  }

  lemma AgreeWithOneMore(recs: seq<Line>, last: Line)
    ensures ControlsAgree(recs + [last]) <==> ControlsAgree(recs) && LineAgrees(recs + [last], |recs|)
  {
    hide LineAgrees;
    forall i | 0 <= i < |recs| ensures LineAgrees(recs + [last], i) <==> LineAgrees(recs, i) {
      PrefixAgrees(recs, [last], i);
    }
  }

  lemma SumWithOneMore(recs: seq<Line>, last: Line)
    ensures SumOf(recs + [last]) == if last.EntryDetail? then Add(SumOf(recs), Contribution(last.entry))
                                    else SumOf(recs)
  {
    var all := recs + [last];
    assert all[..|all| - 1] == recs;
    AddZero(SumOf(recs));
  }

  lemma AddZero(s: Sums)
    ensures Add(s, ZERO_SUMS) == s && Add(ZERO_SUMS, s) == s
  {
  }

  lemma BatchSumWithOneMore(recs: seq<Line>, last: Line)
    ensures var n := |recs|;
            BatchSum(recs + [last], n + 1) ==
            if last.BatchHeader? then ZERO_SUMS
            else if last.EntryDetail? then Add(BatchSum(recs, n), Contribution(last.entry))
            else BatchSum(recs, n)
  {
    hide Contribution, SumOf;
    var n := |recs|;
    var all := recs + [last];
    PrefixFacts(recs, [last], n);
    if last.BatchHeader? {
      NothingSums();
      assert all[n + 1..n + 1] == [];
    } else {
      var b := BatchStart(recs, n);
      assert all[b..n + 1] == recs[b..n] + [last];
      SumWithOneMore(recs[b..n], last);
    }
  }

  lemma NothingSums()
    ensures SumOf([]) == ZERO_SUMS
  {
  }

  // ---- Acceptance, exactly ----

  lemma MismatchIff(declared: Sums, actual: Sums)
    ensures FirstMismatch(declared, actual).None? <==> declared == Declarable(actual)
  {
  }

  ghost predicate Mirrors(s: State, recs: seq<Line>) {
    && s.entries == EntriesOf(recs)
    && s.batch == OpenBatch(recs, |recs|)
    && s.batchSums == BatchSum(recs, |recs|)
    && s.fileSums == SumOf(recs)
  }

  lemma EntriesWithOneMore(recs: seq<Line>, last: Line)
    ensures EntriesOf(recs + [last]) == EntriesOf(recs) +
            if last.EntryDetail? && OpenBatch(recs, |recs|).Some?
            then [NachaEntry(|recs| + 1, last.entry, OpenBatch(recs, |recs|).value)] else []
  {
    hide OpenBatch;
    var all := recs + [last];
    PrefixFacts(recs, [last], |recs|);
    assert all[..|recs|] == recs;
  }

  lemma OpenWithOneMore(recs: seq<Line>, last: Line)
    ensures OpenBatch(recs + [last], |recs| + 1) ==
            if last.BatchHeader? then Some(last.batch)
            else if last.BatchControl? then None
            else OpenBatch(recs, |recs|)
  {
    PrefixFacts(recs, [last], |recs|);
    assert (recs + [last])[|recs|] == last;
  }

  lemma LineAgreesAtEnd(recs: seq<Line>, last: Line)
    ensures LineAgrees(recs + [last], |recs|) <==>
            && (last.BatchControl? ==> FirstMismatch(last.declared, BatchSum(recs, |recs|)).None?)
            && (last.FileControl? ==> FirstMismatch(last.declared, SumOf(recs)).None?)
  {
    hide BatchSum, SumOf, FirstMismatch;
    BatchSumOfPrefix(recs, last);
    assert (recs + [last])[..|recs|] == recs;
    if last.BatchControl? || last.FileControl? {
      MismatchIff(last.declared, BatchSum(recs, |recs|));
      MismatchIff(last.declared, SumOf(recs));
    }
  }

  lemma StepMirrors(s: State, recs: seq<Line>, raw: Text, n: nat)
    requires Mirrors(s, recs) && n == |recs| + 1
    ensures var read := ReadLine(raw, OpenBatch(recs, |recs|).Some?);
            && (Step(s, raw, n).Success? <==> read.Success? && LineAgrees(recs + [read.value], |recs|))
            && (Step(s, raw, n).Success? ==> Mirrors(Step(s, raw, n).value, recs + [read.value]))
  {
    hide ReadLine, Contribution, FirstMismatch, SumOf, BatchSum, EntriesOf, OpenBatch, LineAgrees, Add;
    var read := ReadLine(raw, s.batch.Some?);
    if read.Success? {
      var last := read.value;
      LineAgreesAtEnd(recs, last);
      OpenWithOneMore(recs, last);
      BatchSumWithOneMore(recs, last);
      SumWithOneMore(recs, last);
      EntriesWithOneMore(recs, last);
      assert EntriesOf(recs) + [] == EntriesOf(recs);
    }
  }

  lemma BatchSumOfPrefix(recs: seq<Line>, last: Line)
    ensures BatchSum(recs + [last], |recs|) == BatchSum(recs, |recs|)
  {
    hide SumOf;
    PrefixFacts(recs, [last], |recs|);
    var b := BatchStart(recs, |recs|);
    assert (recs + [last])[b..|recs|] == recs[b..|recs|];
  }

  lemma {:induction false} RunExact(lines: seq<Text>, n: nat)
    requires n <= |lines|
    ensures Run(lines, n).Success? <==> ReadAll(lines[..n]).Some? && ControlsAgree(ReadAll(lines[..n]).value)
    ensures Run(lines, n).Success? ==> Mirrors(Run(lines, n).value, ReadAll(lines[..n]).value)
  {
    hide ReadLine, Step, LineAgrees, Mirrors;
    if n == 0 {
      assert lines[..0] == [];
      StartMirrors();
    } else {
      RunExact(lines, n - 1);
      assert lines[..n][..n - 1] == lines[..n - 1];
      var before := ReadAll(lines[..n - 1]);
      if before.Some? {
        var recs := before.value;
        var read := ReadLine(lines[n - 1], OpenBatch(recs, n - 1).Some?);
        if read.Success? { AgreeWithOneMore(recs, read.value); }
        if Run(lines, n - 1).Success? { StepMirrors(Run(lines, n - 1).value, recs, lines[n - 1], n); }
      }
    }
  }

  lemma StartMirrors()
    ensures Mirrors(START, [])
  {
    var none: seq<Line> := [];
    assert none[0..0] == [];
  }

  /** A file is accepted exactly when every line can be read in its place, every batch and
      file control declares the entries before it, and there is at least one entry; the
      result is then every entry, in order, under the header of its own batch. */
  lemma ParseExact(lines: seq<Text>)
    ensures Parse(lines).Success? <==>
            && ReadAll(lines).Some?
            && ControlsAgree(ReadAll(lines).value)
            && EntriesOf(ReadAll(lines).value) != []
    ensures Parse(lines).Success? ==> Parse(lines).value == EntriesOf(ReadAll(lines).value)
  {
    hide ReadAll, ControlsAgree, EntriesOf;
    RunExact(lines, |lines|);
    assert lines[..|lines|] == lines;
  }

  // ---- What the totals say about the entries ----

  /** Count, routing hash, money debited and money credited by type of transaction. */
  function MoneyOf(entries: seq<NachaEntry>): Sums {
    if entries == [] then ZERO_SUMS
    else
      var e := entries[|entries| - 1].entry;
      var t := TransactionTypeForCode(e.code);
      Add(MoneyOf(entries[..|entries| - 1]),
          Sums(1, e.dfi, if t == Some(Debit) then e.cents else 0, if t == Some(Credit) then e.cents else 0))
  }

  function AmountOf(entries: seq<NachaEntry>): int {
    if entries == [] then 0 else AmountOf(entries[..|entries| - 1]) + entries[|entries| - 1].entry.cents
  }

  predicate Readable(recs: seq<Line>) {
    forall i :: 0 <= i < |recs| && recs[i].EntryDetail? ==> OpenBatch(recs, i).Some?
  }

  lemma {:induction false} ReadAllIsReadable(lines: seq<Text>)
    requires ReadAll(lines).Some?
    ensures Readable(ReadAll(lines).value)
  {
    hide ReadLine;
    if lines != [] {
      var n := |lines| - 1;
      ReadAllIsReadable(lines[..n]);
      var before := ReadAll(lines[..n]).value;
      var all := ReadAll(lines).value;
      forall i | 0 <= i < |all| && all[i].EntryDetail? ensures OpenBatch(all, i).Some? {
        PrefixFacts(before, [all[n]], i);
        if i < n { assert before[i].EntryDetail?; }
      }
    }
  }

  lemma MoneyWithOneMore(entries: seq<NachaEntry>, last: NachaEntry)
    ensures MoneyOf(entries + [last]) == Add(MoneyOf(entries), Contribution(last.entry))
  {
    var all := entries + [last];
    assert all[..|entries|] == entries;
  }

  lemma {:induction false} EntriesCarryTheSums(recs: seq<Line>)
    requires Readable(recs)
    ensures MoneyOf(EntriesOf(recs)) == SumOf(recs)
  {
    hide MoneyOf, SumOf, EntriesOf, OpenBatch, Contribution;
    if recs == [] {
      NothingSums();
      NoEntriesNoMoney();
    } else {
      var n := |recs| - 1;
      var before, last := recs[..n], recs[n];
      assert before + [last] == recs;
      forall i | 0 <= i < n && before[i].EntryDetail? ensures OpenBatch(before, i).Some? {
        PrefixFacts(before, [last], i);
        assert recs[i].EntryDetail?;
      }
      EntriesCarryTheSums(before);
      PrefixFacts(before, [last], n);
      EntriesWithOneMore(before, last);
      SumWithOneMore(before, last);
      assert EntriesOf(before) + [] == EntriesOf(before);
      if last.EntryDetail? {
        assert OpenBatch(recs, n).Some?;
        MoneyWithOneMore(EntriesOf(before), NachaEntry(n + 1, last.entry, OpenBatch(before, n).value));
      }
    }
  }

  lemma NoEntriesNoMoney()
    ensures EntriesOf([]) == [] && MoneyOf([]) == ZERO_SUMS
  {
  }

  predicate AllCodesKnown(entries: seq<NachaEntry>) {
    forall i :: 0 <= i < |entries| ==> TransactionTypeForCode(entries[i].entry.code).Some?
  }

  /** When every code is supported, all the money is either debited or credited. */
  lemma {:induction false} DebitsAndCredits(entries: seq<NachaEntry>)
    ensures MoneyOf(entries).count == |entries|
    ensures AllCodesKnown(entries) ==> MoneyOf(entries).debit + MoneyOf(entries).credit == AmountOf(entries)
  {
    hide IsDebit, IsCredit;
    if entries != [] {
      var n := |entries| - 1;
      DebitsAndCredits(entries[..n]);
      if AllCodesKnown(entries) {
        assert forall i :: 0 <= i < n ==> entries[..n][i] == entries[i];
        assert TransactionTypeForCode(entries[n].entry.code).Some?;
      }
    }
  }

  /** In an accepted file the entries returned add up to every file control that has them all
      before it. */
  lemma FileControlMatchesResult(lines: seq<Text>, n: nat)
    requires Parse(lines).Success? && ReadAll(lines).Some?
    requires n < |lines| && ReadAll(lines).value[n].FileControl?
    requires forall i :: n < i < |lines| ==> !ReadAll(lines).value[i].EntryDetail?
    ensures var declared := ReadAll(lines).value[n].declared;
            var entries := Parse(lines).value;
            && declared == Declarable(MoneyOf(entries))
            && declared.count == |entries| && declared.hash == MoneyOf(entries).hash % 10_000_000_000
            && (AllCodesKnown(entries) ==> declared.debit + declared.credit == AmountOf(entries))
  {
    hide ReadAll, EntriesOf, SumOf, MoneyOf, AmountOf, AllCodesKnown, Readable, OpenBatch, BatchSum;
    ParseExact(lines);
    var recs := ReadAll(lines).value;
    ReadAllIsReadable(lines);
    EntriesCarryTheSums(recs);
    DebitsAndCredits(EntriesOf(recs));
    assert LineAgrees(recs, n);
    SumWithoutMore(recs, n);
  }

  lemma {:induction false} SumWithoutMore(recs: seq<Line>, n: nat)
    requires n <= |recs| && forall i :: n <= i < |recs| ==> !recs[i].EntryDetail?
    ensures SumOf(recs) == SumOf(recs[..n])
  {
    hide SumOf;
    if n == |recs| {
      assert recs[..n] == recs;
    } else {
      var m := |recs| - 1;
      SumWithoutMore(recs[..m], n);
      assert recs == recs[..m] + [recs[m]] && recs[..m][..n] == recs[..n];
      SumWithOneMore(recs[..m], recs[m]);
    }
  }
}
