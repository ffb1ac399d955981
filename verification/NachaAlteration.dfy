/** How NACHA batch totals compose into the file total, and exactly which lost entries the
    control records reveal. */
module NachaAlteration {
  import opened Wrappers
  import opened PythonText
  import opened Nacha
  import opened NachaTotals

  // ---- Batches compose ----

  datatype BatchOf = BatchOf(header: Batch, body: seq<Line>, control: Sums)

  predicate Plain(body: seq<Line>) {
    forall i :: 0 <= i < |body| ==> body[i].EntryDetail? || body[i].Ignored?
  }

  function BatchLines(b: BatchOf): seq<Line> {
    [BatchHeader(b.header)] + b.body + [BatchControl(b.control)]
  }

  function BatchesLines(batches: seq<BatchOf>): seq<Line> {
    if batches == [] then [] else BatchesLines(batches[..|batches| - 1]) + BatchLines(batches[|batches| - 1])
  }

  /** The sum of what the batch controls declare. */
  function DeclaredByBatches(batches: seq<BatchOf>): Sums {
    if batches == [] then ZERO_SUMS
    else Add(DeclaredByBatches(batches[..|batches| - 1]), batches[|batches| - 1].control)
  }

  predicate BatchesHonest(batches: seq<BatchOf>) {
    forall i :: 0 <= i < |batches| ==> batches[i].control == Declarable(SumOf(batches[i].body))
  }

  lemma {:induction false} BodyBehindHeader(before: seq<Line>, header: Batch, body: seq<Line>)
    requires Plain(body)
    ensures var recs := before + [BatchHeader(header)] + body;
            && (ControlsAgree(recs) <==> ControlsAgree(before))
            && BatchSum(recs, |recs|) == SumOf(body)
            && SumOf(recs) == Add(SumOf(before), SumOf(body))
  {
    hide ControlsAgree, BatchSum, SumOf, Contribution, Add;
    var begun := before + [BatchHeader(header)];
    if body == [] {
      assert begun + body == begun;
      AgreeWithOneMore(before, BatchHeader(header));
      BatchSumWithOneMore(before, BatchHeader(header));
      SumWithOneMore(before, BatchHeader(header));
      NothingSums();
      AddZero(SumOf(before));
    } else {
      var n := |body| - 1;
      var recs := begun + body[..n];
      BodyBehindHeader(before, header, body[..n]);
      assert begun + body == recs + [body[n]];
      assert body == body[..n] + [body[n]];
      AgreeWithOneMore(recs, body[n]);
      BatchSumWithOneMore(recs, body[n]);
      SumWithOneMore(recs, body[n]);
      SumWithOneMore(body[..n], body[n]);
      if body[n].EntryDetail? {
        AddAssociates(SumOf(before), SumOf(body[..n]), Contribution(body[n].entry));
      }
    }
  }

  lemma AddAssociates(a: Sums, b: Sums, c: Sums)
    ensures Add(Add(a, b), c) == Add(a, Add(b, c))
  {
  }

  lemma BatchAppended(before: seq<Line>, b: BatchOf)
    requires Plain(b.body)
    ensures ControlsAgree(before + BatchLines(b)) <==>
            ControlsAgree(before) && b.control == Declarable(SumOf(b.body))
    ensures SumOf(before + BatchLines(b)) == Add(SumOf(before), SumOf(b.body))
  {
    hide ControlsAgree, BatchSum, SumOf;
    BodyBehindHeader(before, b.header, b.body);
    var recs := before + [BatchHeader(b.header)] + b.body;
    assert before + BatchLines(b) == recs + [BatchControl(b.control)];
    AgreeWithOneMore(recs, BatchControl(b.control));
    LineAgreesAtEnd(recs, BatchControl(b.control));
    MismatchIff(b.control, SumOf(b.body));
    SumWithOneMore(recs, BatchControl(b.control));
  }

  lemma DeclarableAdds(a: Sums, b: Sums, c: Sums)
    requires Declarable(a) == Declarable(b)
    ensures Declarable(Add(a, c)) == Declarable(Add(b, Declarable(c)))
  {
    ReduceEither(a.hash, c.hash);
    ReduceEither(b.hash, c.hash);
    ReduceEither(b.hash, c.hash % HASH_MODULUS);
  }

  lemma ReduceEither(x: int, y: int)
    ensures (x + y) % HASH_MODULUS == (x % HASH_MODULUS + y) % HASH_MODULUS ==
            (x % HASH_MODULUS + y % HASH_MODULUS) % HASH_MODULUS
  {
    Shifted(x % HASH_MODULUS + y, x / HASH_MODULUS);
    Shifted(x % HASH_MODULUS + y % HASH_MODULUS, y / HASH_MODULUS);
  }

  lemma {:induction false} Shifted(x: int, k: int)
    ensures (x + k * HASH_MODULUS) % HASH_MODULUS == x % HASH_MODULUS
  {
  }

  lemma {:induction false} BatchesCompose(before: seq<Line>, batches: seq<BatchOf>)
    requires ControlsAgree(before) && SumOf(before) == ZERO_SUMS
    requires forall i :: 0 <= i < |batches| ==> Plain(batches[i].body)
    ensures ControlsAgree(before + BatchesLines(batches)) <==> BatchesHonest(batches)
    ensures BatchesHonest(batches) ==>
              Declarable(SumOf(before + BatchesLines(batches))) == Declarable(DeclaredByBatches(batches))
  {
    hide ControlsAgree, SumOf, Plain, BatchLines, Add, Declarable;
    if batches == [] {
      assert before + BatchesLines(batches) == before;
    } else {
      var n := |batches| - 1;
      var earlier := before + BatchesLines(batches[..n]);
      BatchesCompose(before, batches[..n]);
      BatchAppended(earlier, batches[n]);
      assert before + BatchesLines(batches) == earlier + BatchLines(batches[n]);
      assert BatchesHonest(batches) <==>
             BatchesHonest(batches[..n]) && batches[n].control == Declarable(SumOf(batches[n].body));
      if BatchesHonest(batches) {
        DeclarableAdds(SumOf(earlier), DeclaredByBatches(batches[..n]), SumOf(batches[n].body));
      }
    }
  }

  /** In a file of closed batches the controls agree exactly when every batch declares its own
      entries and the file declares the sum of the batch declarations: the file hash is the
      sum of the batch hashes modulo ten to the tenth. */
  lemma {:induction false} FileTotalIsSumOfBatches(prelude: seq<Line>, batches: seq<BatchOf>, control: Sums)
    requires forall i :: 0 <= i < |prelude| ==> prelude[i].Ignored?
    requires forall i :: 0 <= i < |batches| ==> Plain(batches[i].body)
    ensures ControlsAgree(prelude + BatchesLines(batches) + [FileControl(control)]) <==>
            BatchesHonest(batches) && control == Declarable(DeclaredByBatches(batches))
  {
    hide ControlsAgree, SumOf, Plain, BatchesLines, BatchesHonest, Declarable;
    NothingToAgree(prelude);
    var recs := prelude + BatchesLines(batches);
    BatchesCompose(prelude, batches);
    AgreeWithOneMore(recs, FileControl(control));
    LineAgreesAtEnd(recs, FileControl(control));
    MismatchIff(control, SumOf(recs));
  }

  lemma {:induction false} NothingToAgree(recs: seq<Line>)
    requires forall i :: 0 <= i < |recs| ==> recs[i].Ignored?
    ensures ControlsAgree(recs) && SumOf(recs) == ZERO_SUMS
  {
    hide LineAgrees, SumOf, BatchSum;
    if recs == [] {
      NothingSums();
    } else {
      var n := |recs| - 1;
      NothingToAgree(recs[..n]);
      assert recs == recs[..n] + [recs[n]];
      AgreeWithOneMore(recs[..n], recs[n]);
      SumWithOneMore(recs[..n], recs[n]);
      LineAgreesAtEnd(recs[..n], recs[n]);
    }
  }

  // ---- Losing an entry ----

  /** The first `n` lines without the `i`th. */
  function Without<T>(lines: seq<T>, i: nat, n: nat): seq<T>
    requires i < n <= |lines|
  {
    lines[..i] + lines[i + 1..n]
  }

  /** Some control record among the first `n` lines counts the entry on line `i`. */
  predicate Counted(recs: seq<Line>, i: nat, n: nat)
    requires i < n <= |recs|
  {
    exists k :: i < k < n && (recs[k].FileControl? || (recs[k].BatchControl? && BatchStart(recs, k) <= i))
  }

  lemma PrefixOf(recs: seq<Line>, n: nat, k: nat)
    requires k <= n <= |recs|
    ensures OpenBatch(recs[..n], k) == OpenBatch(recs, k)
    ensures BatchStart(recs[..n], k) == BatchStart(recs, k)
  {
    assert recs == recs[..n] + recs[n..];
    PrefixFacts(recs[..n], recs[n..], k);
  }

  /** How the running values differ once the entry on line `i` is gone. */
  ghost predicate OneEntryLess(recs: seq<Line>, i: nat, n: nat)
    requires i < n <= |recs| && recs[i].EntryDetail?
  {
    var less := Without(recs, i, n);
    var c := Contribution(recs[i].entry);
    && OpenBatch(less, n - 1) == OpenBatch(recs[..n], n)
    && SumOf(recs[..n]) == Add(SumOf(less), c)
    && BatchSum(recs[..n], n) ==
       if BatchStart(recs, n) <= i then Add(BatchSum(less, n - 1), c) else BatchSum(less, n - 1)
  }

  lemma {:induction false} EntryGone(recs: seq<Line>, i: nat, n: nat)
    requires i < n <= |recs| && recs[i].EntryDetail?
    ensures OneEntryLess(recs, i, n)
  {
    hide SumOf, BatchSum, OpenBatch, Contribution;
    var last := recs[n - 1];
    var all := recs[..n - 1];
    assert recs[..n] == all + [last];
    PrefixOf(recs, n, n);
    OpenWithOneMore(all, last);
    SumWithOneMore(all, last);
    BatchSumWithOneMore(all, last);
    if n == i + 1 {
      assert Without(recs, i, n) == all;
      PrefixOf(recs, n - 1, n - 1);
    } else {
      EntryGone(recs, i, n - 1);
      var less := Without(recs, i, n - 1);
      assert Without(recs, i, n) == less + [last];
      OpenWithOneMore(less, last);
      SumWithOneMore(less, last);
      BatchSumWithOneMore(less, last);
      if last.EntryDetail? {
        AddCommutes(SumOf(less), Contribution(recs[i].entry), Contribution(last.entry));
        AddCommutes(BatchSum(less, n - 2), Contribution(recs[i].entry), Contribution(last.entry));
      }
    }
  }

  lemma AddCommutes(a: Sums, b: Sums, c: Sums)
    ensures Add(Add(a, b), c) == Add(Add(a, c), b)
  {
  }

  lemma OneLessIsVisible(a: Sums, e: Entry)
    ensures Declarable(Add(a, Contribution(e))) != Declarable(a)
  {
  }

  lemma {:induction false} AgreeWithout(recs: seq<Line>, i: nat, n: nat)
    requires i < n <= |recs| && recs[i].EntryDetail? && ControlsAgree(recs[..n])
    ensures ControlsAgree(Without(recs, i, n)) <==> !Counted(recs, i, n)
  {
    hide SumOf, BatchSum, OpenBatch, Contribution, LineAgrees, ControlsAgree, Declarable, BatchStart;
    var last := recs[n - 1];
    var all := recs[..n - 1];
    assert recs[..n] == all + [last];
    AgreeWithOneMore(all, last);
    if n == i + 1 {
      assert Without(recs, i, n) == all;
    } else {
      AgreeWithout(recs, i, n - 1);
      EntryGone(recs, i, n - 1);
      var less := Without(recs, i, n - 1);
      assert Without(recs, i, n) == less + [last];
      AgreeWithOneMore(less, last);
      LineAgreesAtEnd(all, last);
      LineAgreesAtEnd(less, last);
      if last.BatchControl? || last.FileControl? {
        MismatchIff(last.declared, BatchSum(all, n - 1));
        MismatchIff(last.declared, BatchSum(less, n - 2));
        MismatchIff(last.declared, SumOf(all));
        MismatchIff(last.declared, SumOf(less));
        OneLessIsVisible(BatchSum(less, n - 2), recs[i].entry);
        OneLessIsVisible(SumOf(less), recs[i].entry);
      }
      assert Counted(recs, i, n) <==>
             Counted(recs, i, n - 1) || last.FileControl? || (last.BatchControl? && BatchStart(recs, n - 1) <= i);
    }
  }

  lemma ReadOneMore(lines: seq<Text>, last: Text, recs: seq<Line>, r: Line)
    requires ReadAll(lines) == Some(recs) && ReadLine(last, OpenBatch(recs, |recs|).Some?) == Success(r)
    ensures ReadAll(lines + [last]) == Some(recs + [r])
  {
    hide ReadLine, OpenBatch;
    assert (lines + [last])[..|lines|] == lines;
  }

  lemma LastRead(lines: seq<Text>, recs: seq<Line>, n: nat)
    requires ReadAll(lines) == Some(recs) && 0 < n <= |lines|
    ensures ReadLine(lines[n - 1], OpenBatch(recs[..n - 1], n - 1).Some?) == Success(recs[n - 1])
  {
    hide ReadLine, OpenBatch;
    ReadPrefix(lines, recs, n);
    ReadPrefix(lines, recs, n - 1);
    assert lines[..n][..n - 1] == lines[..n - 1];
  }

  lemma {:induction false} ReadWithout(lines: seq<Text>, recs: seq<Line>, i: nat, n: nat)
    requires ReadAll(lines) == Some(recs) && i < n <= |lines| && recs[i].EntryDetail?
    ensures ReadAll(Without(lines, i, n)) == Some(Without(recs, i, n))
    decreases n
  {
    hide ReadLine, ReadAll, OpenBatch, SumOf, BatchSum, Contribution;
    if n == i + 1 {
      ReadPrefix(lines, recs, i);
      assert Without(lines, i, n) == lines[..i] && Without(recs, i, n) == recs[..i];
    } else {
      ReadWithout(lines, recs, i, n - 1);
      EntryGone(recs, i, n - 1);
      LastRead(lines, recs, n);
      ReadOneMore(Without(lines, i, n - 1), lines[n - 1], Without(recs, i, n - 1), recs[n - 1]);
      assert Without(lines, i, n) == Without(lines, i, n - 1) + [lines[n - 1]];
      assert Without(recs, i, n) == Without(recs, i, n - 1) + [recs[n - 1]];
    }
  }

  lemma {:induction false} ReadPrefix(lines: seq<Text>, recs: seq<Line>, n: nat)
    requires ReadAll(lines) == Some(recs) && n <= |lines|
    ensures ReadAll(lines[..n]) == Some(recs[..n])
  {
    hide ReadLine, OpenBatch;
    if n == |lines| {
      assert lines[..n] == lines && recs[..n] == recs;
    } else {
      var m := |lines| - 1;
      ReadPrefix(lines[..m], recs[..m], n);
      assert lines[..m][..n] == lines[..n] && recs[..m][..n] == recs[..n];
    }
  }

  lemma EntriesWithout(recs: seq<Line>, i: nat)
    requires i < |recs| && recs[i].EntryDetail? && Readable(recs) && Readable(Without(recs, i, |recs|))
    ensures |EntriesOf(Without(recs, i, |recs|))| == |EntriesOf(recs)| - 1
  {
    hide SumOf, MoneyOf, EntriesOf, Readable;
    EntryGone(recs, i, |recs|);
    assert recs[..|recs|] == recs;
    var less := Without(recs, i, |recs|);
    EntriesCarryTheSums(recs);
    EntriesCarryTheSums(less);
    DebitsAndCredits(EntriesOf(recs));
    DebitsAndCredits(EntriesOf(less));
  }

  /** Losing one entry line from an accepted file is caught exactly when some control record
      counts that entry, or it was the only one. */
  lemma LostEntryIsCaught(lines: seq<Text>, i: nat)
    requires Parse(lines).Success? && ReadAll(lines).Some?
    requires i < |lines| && ReadAll(lines).value[i].EntryDetail?
    ensures Parse(lines[..i] + lines[i + 1..]).Failure? <==>
            Counted(ReadAll(lines).value, i, |lines|) || |Parse(lines).value| == 1
  {
    hide ReadAll, ControlsAgree, EntriesOf, Counted, Readable;
    var recs := ReadAll(lines).value;
    var n := |lines|;
    ParseExact(lines);
    ReadWithout(lines, recs, i, n);
    assert recs[..n] == recs && lines[..i] + lines[i + 1..] == Without(lines, i, n);
    AgreeWithout(recs, i, n);
    ParseExact(Without(lines, i, n));
    ReadAllIsReadable(lines);
    ReadAllIsReadable(Without(lines, i, n));
    EntriesWithout(recs, i);
  }
}
