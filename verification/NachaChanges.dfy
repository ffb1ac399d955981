/** Which changed entries, and which filler lines, the NACHA control records reveal. */
module NachaChanges {
  import opened Wrappers
  import opened PythonText
  import opened Nacha
  import opened NachaTotals
  import opened NachaAlteration

  // ---- The range of a routing field ----

  lemma {:induction false} DigitRunIsShort(t: Text)
    ensures DigitRun(t).Some? ==> DigitRun(t).value < Pow10(|t|)
  {
    if DigitRun(t).Some? && |t| > 1 {
      var rest := if t[|t| - 2] == 0x5F then t[..|t| - 2] else t[..|t| - 1];
      DigitRunIsShort(rest);
      PowerGrows(|rest|, |t| - 1);
    }
  }

  lemma {:induction false} PowerGrows(a: nat, b: nat)
    requires a <= b
    ensures Pow10(a) <= Pow10(b)
  {
    if a < b { PowerGrows(a, b - 1); }
  }

  lemma {:induction false} StripIsShort(t: Text)
    ensures |StripLeft(t)| <= |t| && |StripRight(t)| <= |t| && |Strip(t)| <= |t|
  {
    StripLeftIsShort(t);
    StripRightIsShort(t);
    StripRightIsShort(StripLeft(t));
  }

  lemma {:induction false} StripLeftIsShort(t: Text)
    ensures |StripLeft(t)| <= |t|
  {
    if t != [] && IsSpace(t[0]) { StripLeftIsShort(t[1..]); }
  }

  lemma {:induction false} StripRightIsShort(t: Text)
    ensures |StripRight(t)| <= |t|
  {
    if t != [] && IsSpace(t[|t| - 1]) { StripRightIsShort(t[..|t| - 1]); }
  }

  lemma IntIsShort(t: Text)
    ensures ParseIntOrZero(t).Some? ==> ParseIntOrZero(t).value < Pow10(|t|) && -ParseIntOrZero(t).value < Pow10(|t|)
  {
    var u := Strip(t);
    StripIsShort(t);
    hide Strip, DigitRun, Pow10;
    if u != [] {
      DigitRunIsShort(u);
      DigitRunIsShort(u[1..]);
      PowerGrows(|u|, |t|);
      PowerGrows(|u| - 1, |t|);
    }
  }

  /** What eight columns can hold. */
  predicate IsRouting(dfi: int) {
    -100_000_000 < dfi < 100_000_000
  }

  lemma RoutingIsShort(t: Text)
    requires ReadLine(t, true).Success? && ReadLine(t, true).value.EntryDetail?
    ensures IsRouting(ReadLine(t, true).value.entry.dfi)
  {
    IntIsShort(Pad(t)[3..11]);
    hide ParseIntOrZero, ParseInt, Strip, Pad, ReadHeader, ReadControl, Pow10;
    PowersOfTen();
  }

  // ---- A changed entry ----

  /** The sums that no control record can tell apart. */
  predicate LooksAlike(a: Sums, b: Sums) {
    a.count == b.count && a.debit == b.debit && a.credit == b.credit && a.hash % HASH_MODULUS == b.hash % HASH_MODULUS
  }

  lemma AlikeIff(x: Sums, a: Sums, b: Sums)
    ensures Declarable(Add(x, a)) == Declarable(Add(x, b)) <==> LooksAlike(a, b)
  {
    ReduceEither(x.hash, a.hash);
    ReduceEither(x.hash, b.hash);
    ReduceEither(x.hash + a.hash, -x.hash);
    ReduceEither(x.hash + b.hash, -x.hash);
  }

  function Changed(recs: seq<Line>, i: nat, e: Entry): seq<Line>
    requires i < |recs|
  {
    recs[i := EntryDetail(e)]
  }

  /** How the running values differ once the entry on line `i` is another. */
  lemma EntryChanged(recs: seq<Line>, i: nat, n: nat, e: Entry)
    requires i < n <= |recs| && recs[i].EntryDetail?
    ensures var now := Changed(recs, i, e);
            var less := Without(recs, i, n);
            && OpenBatch(now, n) == OpenBatch(recs, n) && BatchStart(now, n) == BatchStart(recs, n)
            && SumOf(recs[..n]) == Add(SumOf(less), Contribution(recs[i].entry))
            && SumOf(now[..n]) == Add(SumOf(less), Contribution(e))
            && (BatchStart(recs, n) > i ==> BatchSum(now, n) == BatchSum(recs, n))
            && (BatchStart(recs, n) <= i ==>
                  && BatchSum(recs, n) == Add(BatchSum(less, n - 1), Contribution(recs[i].entry))
                  && BatchSum(now, n) == Add(BatchSum(less, n - 1), Contribution(e)))
  {
    hide SumOf, OpenBatch, Contribution, BatchStart;
    var now := Changed(recs, i, e);
    assert Without(now, i, n) == Without(recs, i, n);
    EntryGone(recs, i, n);
    EntryGone(now, i, n);
    SameBatchStart(recs, i, n, e);
    PrefixOf(recs, n, n);
    PrefixOf(now, n, n);
    assert recs[..n][BatchStart(recs, n)..n] == recs[BatchStart(recs, n)..n];
    assert now[..n][BatchStart(now, n)..n] == now[BatchStart(now, n)..n];
  }

  lemma {:induction false} SameBatchStart(recs: seq<Line>, i: nat, n: nat, e: Entry)
    requires i < |recs| && n <= |recs| && recs[i].EntryDetail?
    ensures BatchStart(Changed(recs, i, e), n) == BatchStart(recs, n)
  {
    if n > 0 { SameBatchStart(recs, i, n - 1, e); }
  }

  /** With the entry changed, the controls behind it agree exactly if none counts it or none
      can tell. */
  lemma {:induction false} AgreeChanged(recs: seq<Line>, i: nat, n: nat, e: Entry)
    requires i < n <= |recs| && recs[i].EntryDetail? && ControlsAgree(recs[..n])
    ensures ControlsAgree(Changed(recs, i, e)[..n]) <==>
            !Counted(recs, i, n) || LooksAlike(Contribution(recs[i].entry), Contribution(e))
  {
    hide SumOf, BatchSum, OpenBatch, Contribution, LineAgrees, ControlsAgree, Declarable, BatchStart, LooksAlike;
    var now := Changed(recs, i, e);
    var last := recs[n - 1];
    assert recs[..n] == recs[..n - 1] + [last];
    AgreeWithOneMore(recs[..n - 1], last);
    assert now[..n] == now[..n - 1] + [now[n - 1]];
    AgreeWithOneMore(now[..n - 1], now[n - 1]);
    LineAgreesAtEnd(recs[..n - 1], last);
    LineAgreesAtEnd(now[..n - 1], now[n - 1]);
    if n == i + 1 {
      assert now[..n - 1] == recs[..n - 1];
    } else {
      AgreeChanged(recs, i, n - 1, e);
      EntryChanged(recs, i, n - 1, e);
      SameSumOfPrefix(recs, n - 1);
      SameSumOfPrefix(now, n - 1);
      if last.BatchControl? || last.FileControl? {
        ControlTells(last, recs, i, n - 1, e);
        MismatchIff(last.declared, BatchSum(recs[..n - 1], n - 1));
        MismatchIff(last.declared, BatchSum(now[..n - 1], n - 1));
        MismatchIff(last.declared, SumOf(recs[..n - 1]));
        MismatchIff(last.declared, SumOf(now[..n - 1]));
      }
      assert Counted(recs, i, n) <==>
             Counted(recs, i, n - 1) || last.FileControl? || (last.BatchControl? && BatchStart(recs, n - 1) <= i);
    }
  }

  lemma SameSumOfPrefix(recs: seq<Line>, n: nat)
    requires n <= |recs|
    ensures BatchSum(recs[..n], n) == BatchSum(recs, n)
  {
    hide SumOf;
    PrefixOf(recs, n, n);
    assert recs[..n][BatchStart(recs, n)..n] == recs[BatchStart(recs, n)..n];
  }

  /** One control record, against the values with the old entry and with the new one. */
  lemma ControlTells(last: Line, recs: seq<Line>, i: nat, n: nat, e: Entry)
    requires i < n <= |recs| && recs[i].EntryDetail? && (last.BatchControl? || last.FileControl?)
    ensures var now := Changed(recs, i, e);
            var was := Contribution(recs[i].entry);
            && (last.declared == Declarable(SumOf(recs[..n])) ==>
                  (last.declared == Declarable(SumOf(now[..n])) <==> LooksAlike(was, Contribution(e))))
            && (last.declared == Declarable(BatchSum(recs, n)) ==>
                  (last.declared == Declarable(BatchSum(now, n)) <==>
                     BatchStart(recs, n) > i || LooksAlike(was, Contribution(e))))
  {
    hide SumOf, BatchSum, OpenBatch, Contribution, Declarable, BatchStart, LooksAlike;
    EntryChanged(recs, i, n, e);
    var less := Without(recs, i, n);
    AlikeIff(SumOf(less), Contribution(recs[i].entry), Contribution(e));
    AlikeIff(BatchSum(less, n - 1), Contribution(recs[i].entry), Contribution(e));
  }

  lemma {:induction false} ReadChanged(lines: seq<Text>, recs: seq<Line>, i: nat, t: Text, n: nat)
    requires ReadAll(lines) == Some(recs) && i < n <= |lines| && recs[i].EntryDetail?
    requires ReadLine(t, true).Success? && ReadLine(t, true).value.EntryDetail?
    ensures ReadAll(lines[i := t][..n]) == Some(Changed(recs, i, ReadLine(t, true).value.entry)[..n])
    decreases n
  {
    hide ReadLine, ReadAll, OpenBatch, SumOf, BatchSum, Contribution;
    var e := ReadLine(t, true).value.entry;
    var now, lines' := Changed(recs, i, e), lines[i := t];
    LastRead(lines, recs, n);
    assert lines'[..n] == lines'[..n - 1] + [lines'[n - 1]] && now[..n] == now[..n - 1] + [now[n - 1]];
    if n == i + 1 {
      ReadPrefix(lines, recs, i);
      EntryNeedsBatch(lines[i], OpenBatch(recs[..i], i).Some?);
      assert lines'[..i] == lines[..i] && now[..i] == recs[..i];
      ReadOneMore(lines[..i], t, recs[..i], EntryDetail(e));
    } else {
      ReadChanged(lines, recs, i, t, n - 1);
      EntryChanged(recs, i, n - 1, e);
      PrefixOf(recs, n - 1, n - 1);
      PrefixOf(now, n - 1, n - 1);
      ReadOneMore(lines'[..n - 1], lines[n - 1], now[..n - 1], recs[n - 1]);
    }
  }

  lemma EntryNeedsBatch(raw: Text, inBatch: bool)
    requires ReadLine(raw, inBatch).Success? && ReadLine(raw, inBatch).value.EntryDetail?
    ensures inBatch
  {
  }

  lemma {:induction false} UnreadableStays(lines: seq<Text>, n: nat)
    requires n <= |lines| && ReadAll(lines[..n]).None?
    ensures ReadAll(lines).None?
    decreases |lines|
  {
    hide ReadLine, OpenBatch;
    if n < |lines| {
      var m := |lines| - 1;
      assert lines[..m][..n] == lines[..n];
      UnreadableStays(lines[..m], n);
    } else {
      assert lines[..n] == lines;
    }
  }

  lemma UnreadableEntry(lines: seq<Text>, recs: seq<Line>, i: nat, t: Text)
    requires ReadAll(lines) == Some(recs) && i < |lines| && recs[i].EntryDetail? && ReadLine(t, true).Failure?
    ensures Parse(lines[i := t]).Failure?
  {
    hide ReadLine, OpenBatch, ControlsAgree, EntriesOf;
    var now := lines[i := t];
    ReadPrefix(lines, recs, i);
    LastRead(lines, recs, i + 1);
    EntryNeedsBatch(lines[i], OpenBatch(recs[..i], i).Some?);
    assert now[..i + 1][..i] == lines[..i] && now[..i + 1][i] == t;
    assert ReadAll(now[..i + 1]).None?;
    UnreadableStays(now, i + 1);
    ParseExact(now);
  }

  lemma ShortAndAlike(a: Entry, b: Entry)
    requires IsRouting(a.dfi) && IsRouting(b.dfi) && LooksAlike(Contribution(a), Contribution(b))
    ensures Contribution(a) == Contribution(b)
  {
    hide IsDebit, IsCredit;
  }

  /** Changing one entry line of an accepted file, in any of its fields, is caught exactly when
      the line no longer reads as an entry, or some control record counts the entry and its
      routing number, debit or credit is another. */
  lemma ChangedEntryIsCaught(lines: seq<Text>, i: nat, t: Text)
    requires Parse(lines).Success? && ReadAll(lines).Some?
    requires i < |lines| && ReadAll(lines).value[i].EntryDetail?
    requires Strip(t) != [] && Pad(t)[0] == CODE_6
    ensures var read, recs := ReadLine(t, true), ReadAll(lines).value;
            && (read.Success? ==> read.value.EntryDetail?)
            && (Parse(lines[i := t]).Failure? <==>
                  || read.Failure?
                  || (Counted(recs, i, |lines|) && Contribution(read.value.entry) != Contribution(recs[i].entry)))
  {
    var read, recs := ReadLine(t, true), ReadAll(lines).value;
    assert read.Success? ==> read.value.EntryDetail?;
    hide ReadLine, ReadAll, ControlsAgree, EntriesOf, Contribution, LooksAlike, Strip, Pad, Counted;
    if read.Failure? {
      UnreadableEntry(lines, recs, i, t);
    } else {
      RoutingIsShort(t);
      OldRoutingIsShort(lines, recs, i);
      ChangedIsCaught(lines, recs, i, t);
      if LooksAlike(Contribution(recs[i].entry), Contribution(read.value.entry)) {
        ShortAndAlike(recs[i].entry, read.value.entry);
      } else {
        AlikeIff(ZERO_SUMS, Contribution(recs[i].entry), Contribution(read.value.entry));
      }
    }
  }

  lemma OldRoutingIsShort(lines: seq<Text>, recs: seq<Line>, i: nat)
    requires ReadAll(lines) == Some(recs) && i < |lines| && recs[i].EntryDetail?
    ensures IsRouting(recs[i].entry.dfi)
  {
    hide ReadLine, OpenBatch, Pow10;
    LastRead(lines, recs, i + 1);
    EntryNeedsBatch(lines[i], OpenBatch(recs[..i], i).Some?);
    RoutingIsShort(lines[i]);
  }

  lemma ChangedIsCaught(lines: seq<Text>, recs: seq<Line>, i: nat, t: Text)
    requires Parse(lines).Success? && ReadAll(lines) == Some(recs) && i < |lines| && recs[i].EntryDetail?
    requires ReadLine(t, true).Success? && ReadLine(t, true).value.EntryDetail?
    ensures Parse(lines[i := t]).Success? <==>
            !Counted(recs, i, |lines|)
                || LooksAlike(Contribution(recs[i].entry), Contribution(ReadLine(t, true).value.entry))
  {
    hide ReadLine, ReadAll, ControlsAgree, EntriesOf, Contribution, LooksAlike, Counted, Readable, MoneyOf, SumOf;
    var n, e, lines' := |lines|, ReadLine(t, true).value.entry, lines[i := t];
    var now := Changed(recs, i, e);
    assert lines'[..n] == lines' && now[..n] == now && recs[..n] == recs;
    ParseExact(lines);
    ParseExact(lines');
    ReadChanged(lines, recs, i, t, n);
    AgreeChanged(recs, i, n, e);
    ReadAllIsReadable(lines);
    ReadAllIsReadable(lines');
    EntryChanged(recs, i, n, e);
    SameNumberOfEntries(recs, now, SumOf(Without(recs, i, n)), recs[i].entry, e);
  }

  lemma SameNumberOfEntries(recs: seq<Line>, now: seq<Line>, less: Sums, a: Entry, b: Entry)
    requires Readable(recs) && Readable(now)
    requires SumOf(recs) == Add(less, Contribution(a)) && SumOf(now) == Add(less, Contribution(b))
    ensures |EntriesOf(now)| == |EntriesOf(recs)|
  {
    hide SumOf, MoneyOf, EntriesOf, Readable;
    EntriesCarryTheSums(recs);
    EntriesCarryTheSums(now);
    DebitsAndCredits(EntriesOf(recs));
    DebitsAndCredits(EntriesOf(now));
  }

  // ---- Filler lines ----

  function Nines(w: nat): Text {
    seq(w, _ => CODE_9)
  }

  /** The line of nines that fills up the last block of a file. */
  const FILLER := Nines(LINE_LEN)
  const FILLER_SUMS := Sums(99_999_999, 9_999_999_999, 999_999_999_999, 999_999_999_999)

  lemma {:induction false} NinesRead(w: nat)
    requires w > 0
    ensures ParseIntOrZero(Nines(w)) == Some(Pow10(w) - 1)
  {
    NinesRun(w);
    IntOfDigits(Nines(w));
  }

  lemma {:induction false} NinesRun(w: nat)
    requires w > 0
    ensures DigitRun(Nines(w)) == Some(Pow10(w) - 1)
  {
    if w == 1 {
      assert Pow10(1) == 10 * Pow10(0);
    } else {
      assert Nines(w)[..w - 1] == Nines(w - 1);
      NinesRun(w - 1);
    }
  }

  lemma FillerReads(inBatch: bool)
    ensures ReadLine(FILLER, inBatch) == Success(FileControl(FILLER_SUMS))
  {
    IntOfDigits(FILLER);
    NinesRead(8);
    NinesRead(10);
    NinesRead(12);
    PowersOfTen();
    hide ParseIntOrZero, Pow10, Strip;
    assert FILLER[13..21] == Nines(8) && FILLER[21..31] == Nines(10);
    assert FILLER[31..43] == Nines(12) && FILLER[43..55] == Nines(12);
  }

  /** A filler line is read as a file control record: behind an accepted file it is accepted
      exactly if it happens to declare that file, so never behind fewer than 99,999,999 lines. */
  lemma FillerIsCaught(lines: seq<Text>)
    requires Parse(lines).Success? && ReadAll(lines).Some?
    ensures Parse(lines + [FILLER]).Success? <==> Declarable(SumOf(ReadAll(lines).value)) == FILLER_SUMS
    ensures |lines| < FILLER_SUMS.count ==> Parse(lines + [FILLER]).Failure?
  {
    hide ReadLine, ReadAll, ControlsAgree, EntriesOf, SumOf, Readable, MoneyOf, OpenBatch;
    var recs := ReadAll(lines).value;
    var filler := FileControl(FILLER_SUMS);
    ParseExact(lines);
    FillerReads(OpenBatch(recs, |recs|).Some?);
    ReadOneMore(lines, FILLER, recs, filler);
    ParseExact(lines + [FILLER]);
    AgreeWithOneMore(recs, filler);
    LineAgreesAtEnd(recs, filler);
    MismatchIff(FILLER_SUMS, SumOf(recs));
    EntriesWithOneMore(recs, filler);
    assert EntriesOf(recs) + [] == EntriesOf(recs);
    ReadAllIsReadable(lines);
    EntriesCarryTheSums(recs);
    DebitsAndCredits(EntriesOf(recs));
    FewerEntriesThanLines(recs);
  }

  lemma {:induction false} FewerEntriesThanLines(recs: seq<Line>)
    ensures |EntriesOf(recs)| <= |recs|
  {
    hide OpenBatch;
    if recs != [] { FewerEntriesThanLines(recs[..|recs| - 1]); }
  }
}
