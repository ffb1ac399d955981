/** Printing batches of entries and parsing them back. */
module NachaRoundTrip {
  import opened Wrappers
  import opened PythonText
  import opened Nacha
  import opened NachaTotals
  import opened NachaAlteration
  import opened NachaPrinter

  /** A batch as somebody might send it. */
  datatype Group = Group(header: Batch, entries: seq<Entry>)

  predicate IsPrintable(g: Group) {
    && IsPrintableBatch(g.header)
    && (forall i :: 0 <= i < |g.entries| ==> IsPrintableEntry(g.entries[i]))
    && Fits(ControlOf(g), 6)
  }

  function Details(entries: seq<Entry>): (recs: seq<Line>)
    ensures |recs| == |entries|
  {
    if entries == [] then []
    else Details(entries[..|entries| - 1]) + [EntryDetail(entries[|entries| - 1])]
  }

  function ControlOf(g: Group): Sums {
    Declarable(SumOf(Details(g.entries)))
  }

  function Closed(g: Group): BatchOf {
    BatchOf(g.header, Details(g.entries), ControlOf(g))
  }

  function AllClosed(groups: seq<Group>): (batches: seq<BatchOf>)
    ensures |batches| == |groups|
    ensures forall i :: 0 <= i < |groups| ==> batches[i] == Closed(groups[i])
  {
    if groups == [] then [] else AllClosed(groups[..|groups| - 1]) + [Closed(groups[|groups| - 1])]
  }

  function FileControlOf(groups: seq<Group>): Sums {
    Declarable(DeclaredByBatches(AllClosed(groups)))
  }

  predicate EachPrintable(groups: seq<Group>) {
    forall i :: 0 <= i < |groups| ==> IsPrintable(groups[i])
  }

  predicate AllPrintable(groups: seq<Group>) {
    EachPrintable(groups) && Fits(FileControlOf(groups), 8)
  }

  // ---- Printing ----

  function PrintEntries(entries: seq<Entry>): seq<Text>
    requires forall i :: 0 <= i < |entries| ==> IsPrintableEntry(entries[i])
  {
    if entries == [] then []
    else PrintEntries(entries[..|entries| - 1]) + [PrintEntry(entries[|entries| - 1])]
  }

  function PrintGroup(g: Group): seq<Text>
    requires IsPrintable(g)
  {
    [PrintHeader(g.header)] + PrintEntries(g.entries) + [PrintBatchControl(ControlOf(g))]
  }

  function PrintGroups(groups: seq<Group>): seq<Text>
    requires EachPrintable(groups)
  {
    if groups == [] then []
    else PrintGroups(groups[..|groups| - 1]) + PrintGroup(groups[|groups| - 1])
  }

  /** `prelude` stands for the file header and anything else that the parser passes over. */
  function PrintFile(prelude: seq<Text>, groups: seq<Group>): seq<Text>
    requires AllPrintable(groups)
  {
    prelude + PrintGroups(groups) + [PrintFileControl(FileControlOf(groups))]
  }

  predicate PassedOver(prelude: seq<Text>) {
    forall i :: 0 <= i < |prelude| ==> ReadLine(prelude[i], false) == Success(Ignored)
  }

  // ---- What comes back ----

  /** The entries of a batch, whose header is the line numbered `at`. */
  function Under(entries: seq<Entry>, header: Batch, at: nat): seq<NachaEntry> {
    if entries == [] then []
    else
      var n := |entries| - 1;
      Under(entries[..n], header, at) + [NachaEntry(at + 1 + n, entries[n], header)]
  }

  function LinesIn(groups: seq<Group>): nat {
    if groups == [] then 0 else LinesIn(groups[..|groups| - 1]) + |groups[|groups| - 1].entries| + 2
  }

  /** Every entry in order, with its line number and the header of its own batch. */
  function Expected(groups: seq<Group>, before: nat): seq<NachaEntry> {
    if groups == [] then []
    else
      var n := |groups| - 1;
      Expected(groups[..n], before)
      + Under(groups[n].entries, groups[n].header, before + LinesIn(groups[..n]) + 1)
  }

  // ---- Reading it back, line by line ----

  /** The lines so far read as `recs`, with this batch open and these entries found. */
  ghost predicate ReadsAs(lines: seq<Text>, recs: seq<Line>, batch: Option<Batch>, found: seq<NachaEntry>) {
    ReadAll(lines) == Some(recs) && OpenBatch(recs, |recs|) == batch && EntriesOf(recs) == found
  }

  lemma OneLine(lines: seq<Text>, recs: seq<Line>, batch: Option<Batch>, found: seq<NachaEntry>, line: Text, r: Line)
    requires ReadsAs(lines, recs, batch, found) && ReadLine(line, batch.Some?) == Success(r)
    ensures var next := if r.BatchHeader? then Some(r.batch) else if r.BatchControl? then None else batch;
            var more := if r.EntryDetail? && batch.Some? then [NachaEntry(|recs| + 1, r.entry, batch.value)] else [];
            ReadsAs(lines + [line], recs + [r], next, found + more)
  {
    hide ReadLine, ReadAll, OpenBatch, EntriesOf;
    ReadOneMore(lines, line, recs, r);
    OpenWithOneMore(recs, r);
    EntriesWithOneMore(recs, r);
  }

  lemma {:induction false} PreludeReads(prelude: seq<Text>) returns (recs: seq<Line>)
    requires PassedOver(prelude)
    ensures |recs| == |prelude| && ReadsAs(prelude, recs, None, [])
    ensures forall i :: 0 <= i < |recs| ==> recs[i].Ignored?
  {
    if prelude == [] {
      recs := [];
    } else {
      hide ReadLine, ReadsAs;
      var n := |prelude| - 1;
      recs := PreludeReads(prelude[..n]);
      OneLine(prelude[..n], recs, None, [], prelude[n], Ignored);
      assert prelude[..n] + [prelude[n]] == prelude;
      var none: seq<NachaEntry> := [];
      assert none + [] == none;
      recs := recs + [Ignored];
    }
  }

  lemma Onto<T>(a: seq<T>, b: seq<T>, x: T)
    ensures a + (b + [x]) == a + b + [x]
  {
  }

  lemma Around<T>(a: seq<T>, first: T, b: seq<T>, last: T)
    ensures a + ([first] + b + [last]) == a + [first] + b + [last]
  {
  }

  lemma {:induction false} EntriesRead(
      lines: seq<Text>, recs: seq<Line>, header: Batch, found: seq<NachaEntry>, entries: seq<Entry>)
    requires ReadsAs(lines, recs, Some(header), found)
    requires forall i :: 0 <= i < |entries| ==> IsPrintableEntry(entries[i])
    ensures ReadsAs(lines + PrintEntries(entries), recs + Details(entries), Some(header),
                    found + Under(entries, header, |recs|))
  {
    hide ReadsAs, IsPrintableEntry, PrintEntry;
    if entries == [] {
      assert lines + PrintEntries(entries) == lines && recs + Details(entries) == recs;
      assert found + Under(entries, header, |recs|) == found;
    } else {
      var n := |entries| - 1;
      var some := entries[..n];
      EntriesRead(lines, recs, header, found, some);
      EntryReads(entries[n]);
      hide ReadLine;
      OneLine(lines + PrintEntries(some), recs + Details(some), Some(header), found + Under(some, header, |recs|),
              PrintEntry(entries[n]), EntryDetail(entries[n]));
      Onto(lines, PrintEntries(some), PrintEntry(entries[n]));
      Onto(recs, Details(some), EntryDetail(entries[n]));
      Onto(found, Under(some, header, |recs|), NachaEntry(|recs| + 1 + n, entries[n], header));
    }
  }

  lemma GroupReads(lines: seq<Text>, recs: seq<Line>, found: seq<NachaEntry>, g: Group)
    requires ReadsAs(lines, recs, None, found) && IsPrintable(g)
    ensures ReadsAs(lines + PrintGroup(g), recs + BatchLines(Closed(g)), None,
                    found + Under(g.entries, g.header, |recs| + 1))
  {
    hide ReadsAs, IsPrintableBatch, IsPrintableEntry, Fits, ControlOf, PrintHeader, PrintBatchControl;
    hide Under, Details, PrintEntries;
    var header, control := PrintHeader(g.header), PrintBatchControl(ControlOf(g));
    var all := Under(g.entries, g.header, |recs| + 1);
    HeaderReads(g.header, false);
    BatchControlReads(ControlOf(g), true);
    hide ReadLine;
    OneLine(lines, recs, None, found, header, BatchHeader(g.header));
    assert found + [] == found;
    var lines1, recs1 := lines + [header], recs + [BatchHeader(g.header)];
    EntriesRead(lines1, recs1, g.header, found, g.entries);
    var lines2, recs2 := lines1 + PrintEntries(g.entries), recs1 + Details(g.entries);
    OneLine(lines2, recs2, Some(g.header), found + all, control, BatchControl(ControlOf(g)));
    assert found + all + [] == found + all;
    Around(lines, header, PrintEntries(g.entries), control);
    Around(recs, BatchHeader(g.header), Details(g.entries), BatchControl(ControlOf(g)));
  }

  lemma BatchLength(g: Group)
    ensures |BatchLines(Closed(g))| == |g.entries| + 2
  {
  }

  lemma ClosedStep(groups: seq<Group>)
    requires groups != []
    ensures var n := |groups| - 1;
            BatchesLines(AllClosed(groups)) == BatchesLines(AllClosed(groups[..n])) + BatchLines(Closed(groups[n]))
  {
    hide Closed, BatchLines;
    var n := |groups| - 1;
    assert AllClosed(groups)[..n] == AllClosed(groups[..n]);
  }

  lemma Behind<T>(a: seq<T>, b: seq<T>, c: seq<T>)
    ensures a + (b + c) == a + b + c
  {
  }

  predicate SplitsLast(groups: seq<Group>, some: seq<Group>, last: Group) {
    groups != [] && some == groups[..|groups| - 1] && last == groups[|groups| - 1]
  }

  lemma LastPrinted(groups: seq<Group>, some: seq<Group>, last: Group)
    requires SplitsLast(groups, some, last) && EachPrintable(groups)
    ensures EachPrintable(some) && IsPrintable(last)
    ensures PrintGroups(groups) == PrintGroups(some) + PrintGroup(last)
  {
    hide IsPrintable, PrintGroup;
  }

  lemma LastExpected(groups: seq<Group>, some: seq<Group>, last: Group, before: nat)
    requires SplitsLast(groups, some, last)
    ensures LinesIn(groups) == LinesIn(some) + |last.entries| + 2
    ensures Expected(groups, before) ==
            Expected(some, before) + Under(last.entries, last.header, before + LinesIn(some) + 1)
  {
    hide Under;
  }

  lemma LastGroup(groups: seq<Group>, some: seq<Group>, last: Group, before: nat)
    requires SplitsLast(groups, some, last) && EachPrintable(groups)
    ensures EachPrintable(some) && IsPrintable(last)
    ensures PrintGroups(groups) == PrintGroups(some) + PrintGroup(last)
    ensures LinesIn(groups) == LinesIn(some) + |last.entries| + 2
    ensures Expected(groups, before) ==
            Expected(some, before) + Under(last.entries, last.header, before + LinesIn(some) + 1)
    ensures BatchesLines(AllClosed(groups)) == BatchesLines(AllClosed(some)) + BatchLines(Closed(last))
  {
    LastPrinted(groups, some, last);
    LastExpected(groups, some, last, before);
    ClosedStep(groups);
    hide *;
  }

  lemma OneGroupMore(lines: seq<Text>, recs: seq<Line>, printed: seq<Text>, read: seq<Line>, found: seq<NachaEntry>,
      g: Group, at: nat)
    requires ReadsAs(lines + printed, recs + read, None, found) && IsPrintable(g) && at == |recs| + |read| + 1
    ensures ReadsAs(lines + (printed + PrintGroup(g)), recs + (read + BatchLines(Closed(g))), None,
                    found + Under(g.entries, g.header, at))
  {
    hide ReadsAs, IsPrintable, Closed, BatchLines, PrintGroup, Under;
    GroupReads(lines + printed, recs + read, found, g);
    Behind(lines, printed, PrintGroup(g));
    Behind(recs, read, BatchLines(Closed(g)));
  }

  lemma {:induction false} GroupsRead(lines: seq<Text>, recs: seq<Line>, groups: seq<Group>)
    requires ReadsAs(lines, recs, None, []) && EachPrintable(groups)
    ensures |BatchesLines(AllClosed(groups))| == LinesIn(groups)
    ensures ReadsAs(lines + PrintGroups(groups), recs + BatchesLines(AllClosed(groups)), None, Expected(groups, |recs|))
  {
    hide ReadsAs, IsPrintable, EachPrintable, Closed, BatchLines, PrintGroup, Under;
    if groups == [] {
      assert lines + PrintGroups(groups) == lines && recs + BatchesLines(AllClosed(groups)) == recs;
    } else {
      hide PrintGroups, AllClosed, BatchesLines, LinesIn, Expected;
      var some, last := groups[..|groups| - 1], groups[|groups| - 1];
      LastGroup(groups, some, last, |recs|);
      GroupsRead(lines, recs, some);
      BatchLength(last);
      OneGroupMore(lines, recs, PrintGroups(some), BatchesLines(AllClosed(some)), Expected(some, |recs|), last,
                   |recs| + LinesIn(some) + 1);
    }
  }

  lemma {:induction false} DetailsArePlain(entries: seq<Entry>)
    ensures Plain(Details(entries))
  {
    if entries != [] { DetailsArePlain(entries[..|entries| - 1]); }
  }

  /** Printed closed batches, behind any lines that the parser passes over, parse to their
      entries, in order, each with its line number and under its own batch. */
  lemma RoundTrip(prelude: seq<Text>, groups: seq<Group>)
    requires PassedOver(prelude) && AllPrintable(groups)
    ensures var parsed := Parse(PrintFile(prelude, groups));
            var expected := Expected(groups, |prelude|);
            if expected == [] then parsed.Failure? else parsed == Success(expected)
  {
    hide ReadAll, OpenBatch, EntriesOf, ControlsAgree, IsPrintable, Fits, BatchesLines, PrintGroups, Expected;
    hide DeclaredByBatches, ReadLine, Declarable;
    var read := PreludeReads(prelude);
    var batches, control := AllClosed(groups), FileControlOf(groups);
    GroupsRead(prelude, read, groups);
    FileControlReads(control, false);
    OneLine(prelude + PrintGroups(groups), read + BatchesLines(batches), None, Expected(groups, |read|),
            PrintFileControl(control), FileControl(control));
    assert Expected(groups, |read|) + [] == Expected(groups, |read|);
    forall i | 0 <= i < |batches|
      ensures Plain(batches[i].body) && batches[i].control == Declarable(SumOf(batches[i].body))
    {
      DetailsArePlain(groups[i].entries);
    }
    FileTotalIsSumOfBatches(read, batches, control);
    ParseExact(PrintFile(prelude, groups));
  }
}
