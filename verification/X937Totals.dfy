/** Conservation in an accepted X9.37 file: bundle totals add up to cash-letter totals, those
    to the file total, and the file total is what the returned items add up to. */
module X937Totals {
  import opened Wrappers
  import opened PythonText
  import opened Calendar
  import opened X937Records
  import opened X937Parser
  import opened X937Alteration

  datatype BundleOf = BundleOf(body: seq<Record>, control: Totals)

  datatype LetterOf = LetterOf(date: Option<Date>, bundles: seq<BundleOf>, control: Totals)

  predicate Plain(body: seq<Record>) {
    forall i :: 0 <= i < |body| ==> !body[i].Control? && !body[i].BundleHeader? && !body[i].CashLetterHeader?
  }

  predicate PlainBundles(bundles: seq<BundleOf>) {
    forall i :: 0 <= i < |bundles| ==> Plain(bundles[i].body)
  }

  predicate HoldsNoCheck(recs: seq<Record>) {
    forall i :: 0 <= i < |recs| ==> !recs[i].Check?
  }

  function BundleRecords(b: BundleOf): seq<Record> {
    [BundleHeader] + b.body + [Control(Bundle, b.control)]
  }

  function BundlesRecords(bundles: seq<BundleOf>): seq<Record> {
    if bundles == [] then [] else BundleRecords(bundles[0]) + BundlesRecords(bundles[1..])
  }

  function LetterRecords(l: LetterOf): seq<Record> {
    [CashLetterHeader(l.date)] + BundlesRecords(l.bundles) + [Control(CashLetter, l.control)]
  }

  function LettersRecords(letters: seq<LetterOf>): seq<Record> {
    if letters == [] then [] else LetterRecords(letters[0]) + LettersRecords(letters[1..])
  }

  function BundleControls(bundles: seq<BundleOf>): Totals {
    if bundles == [] then ZERO_TOTALS else Plus(bundles[0].control, BundleControls(bundles[1..]))
  }

  function LetterControls(letters: seq<LetterOf>): Totals {
    if letters == [] then ZERO_TOTALS else Plus(letters[0].control, LetterControls(letters[1..]))
  }

  function ItemTotals(items: seq<CheckItem>): Totals {
    if items == [] then ZERO_TOTALS else Plus(Totals(1, items[0].cents), ItemTotals(items[1..]))
  }

  predicate NoneOpens(recs: seq<Record>, scope: Scope) {
    forall i :: 0 <= i < |recs| ==> !Opens(recs[i], scope)
  }

  lemma {:induction false} OpeningBehind(before: seq<Record>, opener: Record, body: seq<Record>, behind: seq<Record>,
      n: nat, scope: Scope)
    requires Opens(opener, scope) && NoneOpens(body, scope)
    requires |before| < n <= |before| + 1 + |body|
    ensures Opening(before + [opener] + body + behind, n, scope) == |before| + 1
  {
    var recs := before + [opener] + body + behind;
    if n == |before| + 1 {
      assert recs[n - 1] == opener;
    } else {
      assert recs[n - 1] == body[n - 2 - |before|];
      OpeningBehind(before, opener, body, behind, n - 1, scope);
    }
  }

  /** A control record that closes what `opener` opened is compared with what lies between. */
  lemma ControlClosesScope(before: seq<Record>, opener: Record, body: seq<Record>, scope: Scope, declared: Totals,
      behind: seq<Record>)
    requires Opens(opener, scope) && NoneOpens(body, scope)
    ensures OpenTotals(before + [opener] + body + [Control(scope, declared)] + behind, |before| + 1 + |body|, scope) ==
            TotalsOf(body)
  {
    hide TotalsOf, Opening, Opens, NoneOpens;
    var rest := [Control(scope, declared)] + behind;
    OpeningBehind(before, opener, body, rest, |before| + 1 + |body|, scope);
    Regroup(before, opener, body, Control(scope, declared), behind);
  }

  lemma Regroup(before: seq<Record>, opener: Record, body: seq<Record>, control: Record, behind: seq<Record>)
    ensures before + [opener] + body + [control] + behind == before + [opener] + body + ([control] + behind)
    ensures (before + [opener] + body + [control] + behind)[|before| + 1..|before| + 1 + |body|] == body
  {
  }

  /** The control records from the `lo`th up to the `hi`th agree with the checks before them. */
  predicate AgreesOn(recs: seq<Record>, lo: nat, hi: nat)
    requires lo <= hi <= |recs|
  {
    forall i :: lo <= i < hi && recs[i].Control? ==> recs[i].declared == OpenTotals(recs, i, recs[i].scope)
  }

  lemma AgreesOnParts(recs: seq<Record>, lo: nat, mid: nat, hi: nat)
    requires lo <= mid <= hi <= |recs|
    ensures AgreesOn(recs, lo, hi) <==> AgreesOn(recs, lo, mid) && AgreesOn(recs, mid, hi)
  {
    hide OpenTotals;
  }

  lemma NoControlAgrees(recs: seq<Record>, lo: nat, hi: nat)
    requires lo <= hi <= |recs| && forall i :: lo <= i < hi ==> !recs[i].Control?
    ensures AgreesOn(recs, lo, hi)
  {
  }

  predicate BundleHonest(b: BundleOf) {
    b.control == TotalsOf(b.body)
  }

  predicate BundlesHonest(bundles: seq<BundleOf>) {
    forall i :: 0 <= i < |bundles| ==> BundleHonest(bundles[i])
  }

  predicate LetterHonest(l: LetterOf) {
    BundlesHonest(l.bundles) && l.control == BundleControls(l.bundles)
  }

  predicate LettersHonest(letters: seq<LetterOf>) {
    forall i :: 0 <= i < |letters| ==> LetterHonest(letters[i])
  }

  lemma BundleAgrees(before: seq<Record>, b: BundleOf, behind: seq<Record>)
    requires Plain(b.body)
    ensures AgreesOn(before + BundleRecords(b) + behind, |before|, |before| + |BundleRecords(b)|) <==> BundleHonest(b)
    ensures TotalsOf(BundleRecords(b)) == TotalsOf(b.body)
  {
    hide OpenTotals, TotalsOf;
    var control := Control(Bundle, b.control);
    var recs := before + BundleRecords(b) + behind;
    var n := |before| + 1 + |b.body|;
    assert recs == before + [BundleHeader] + b.body + [control] + behind;
    ControlClosesScope(before, BundleHeader, b.body, Bundle, b.control, behind);
    assert recs[n] == control;
    NoControlAgrees(recs, |before|, n);
    AgreesOnParts(recs, |before|, n, n + 1);
    TotalsAppend([BundleHeader] + b.body, [control]);
    TotalsAppend([BundleHeader], b.body);
    TotalsOfOne(BundleHeader);
    TotalsOfOne(control);
  }

  lemma {:induction false} BundlesAgree(before: seq<Record>, bundles: seq<BundleOf>, behind: seq<Record>)
    requires PlainBundles(bundles)
    ensures AgreesOn(before + BundlesRecords(bundles) + behind, |before|, |before| + |BundlesRecords(bundles)|) <==>
            BundlesHonest(bundles)
    ensures BundlesHonest(bundles) ==> TotalsOf(BundlesRecords(bundles)) == BundleControls(bundles)
    decreases |bundles|
  {
    hide OpenTotals, TotalsOf, BundleRecords;
    if bundles == [] {
      NothingScans();
    } else {
      var first, rest := BundleRecords(bundles[0]), BundlesRecords(bundles[1..]);
      var recs := before + BundlesRecords(bundles) + behind;
      assert recs == before + first + (rest + behind);
      assert recs == (before + first) + rest + behind;
      BundleAgrees(before, bundles[0], rest + behind);
      BundlesAgree(before + first, bundles[1..], behind);
      AgreesOnParts(recs, |before|, |before| + |first|, |before| + |first| + |rest|);
      TotalsAppend(first, rest);
      assert BundlesHonest(bundles) <==> BundleHonest(bundles[0]) && BundlesHonest(bundles[1..]);
    }
  }

  lemma {:induction false} BundlesOpenNoLetter(bundles: seq<BundleOf>)
    requires PlainBundles(bundles)
    ensures NoneOpens(BundlesRecords(bundles), CashLetter)
  {
    if bundles != [] { BundlesOpenNoLetter(bundles[1..]); }
  }

  lemma LetterAgrees(before: seq<Record>, l: LetterOf, behind: seq<Record>)
    requires PlainBundles(l.bundles)
    ensures AgreesOn(before + LetterRecords(l) + behind, |before|, |before| + |LetterRecords(l)|) <==> LetterHonest(l)
    ensures LetterHonest(l) ==> TotalsOf(LetterRecords(l)) == l.control
  {
    hide OpenTotals, TotalsOf, BundlesRecords, BundleControls, BundlesHonest;
    var head, bundles, control := CashLetterHeader(l.date), BundlesRecords(l.bundles), Control(CashLetter, l.control);
    var recs := before + LetterRecords(l) + behind;
    var n := |before| + 1 + |bundles|;
    assert recs == before + [head] + bundles + [control] + behind;
    assert recs == (before + [head]) + bundles + ([control] + behind);
    assert recs[n] == control && recs[|before|] == head;
    BundlesOpenNoLetter(l.bundles);
    ControlClosesScope(before, head, bundles, CashLetter, l.control, behind);
    BundlesAgree(before + [head], l.bundles, [control] + behind);
    NoControlAgrees(recs, |before|, |before| + 1);
    AgreesOnParts(recs, |before|, |before| + 1, n);
    AgreesOnParts(recs, |before|, n, n + 1);
    TotalsAppend([head] + bundles, [control]);
    TotalsAppend([head], bundles);
    TotalsOfOne(head);
    TotalsOfOne(control);
  }

  lemma {:induction false} LettersAgree(before: seq<Record>, letters: seq<LetterOf>, behind: seq<Record>)
    requires forall i :: 0 <= i < |letters| ==> PlainBundles(letters[i].bundles)
    ensures AgreesOn(before + LettersRecords(letters) + behind, |before|, |before| + |LettersRecords(letters)|) <==>
            LettersHonest(letters)
    ensures LettersHonest(letters) ==> TotalsOf(LettersRecords(letters)) == LetterControls(letters)
    decreases |letters|
  {
    hide OpenTotals, TotalsOf, LetterRecords, PlainBundles, LetterHonest;
    if letters == [] {
      NothingScans();
    } else {
      var first, rest := LetterRecords(letters[0]), LettersRecords(letters[1..]);
      var recs := before + LettersRecords(letters) + behind;
      assert recs == before + first + (rest + behind);
      assert recs == (before + first) + rest + behind;
      LetterAgrees(before, letters[0], rest + behind);
      LettersAgree(before + first, letters[1..], behind);
      AgreesOnParts(recs, |before|, |before| + |first|, |before| + |first| + |rest|);
      TotalsAppend(first, rest);
      assert LettersHonest(letters) <==> LetterHonest(letters[0]) && LettersHonest(letters[1..]);
    }
  }

  /** The records of a well-nested file. */
  function FileRecords(prelude: seq<Record>, letters: seq<LetterOf>, control: Totals): seq<Record> {
    prelude + LettersRecords(letters) + [Control(File, control)]
  }

  predicate WellNested(prelude: seq<Record>, letters: seq<LetterOf>) {
    && (forall i :: 0 <= i < |prelude| ==> prelude[i].Skipped?)
    && (forall i :: 0 <= i < |letters| ==> PlainBundles(letters[i].bundles))
  }

  /** The control totals of a well-nested file agree exactly when every bundle declares its
      own checks, every cash letter the sum of its bundles and the file the sum of those. */
  lemma NestedTotalsAddUp(prelude: seq<Record>, letters: seq<LetterOf>, control: Totals)
    requires WellNested(prelude, letters)
    ensures ControlsAgree(FileRecords(prelude, letters, control)) <==>
            LettersHonest(letters) && control == LetterControls(letters)
    ensures LettersHonest(letters) ==> TotalsOf(LettersRecords(letters)) == LetterControls(letters)
  {
    hide OpenTotals, TotalsOf, LettersRecords, PlainBundles, LetterHonest, LetterControls;
    var recs := FileRecords(prelude, letters, control);
    var n := |recs| - 1;
    NoControlAgrees(recs, 0, |prelude|);
    LettersAgree(prelude, letters, [Control(File, control)]);
    AgreesOnParts(recs, 0, |prelude|, n);
    AgreesOnParts(recs, 0, n, n + 1);
    assert ControlsAgree(recs) <==> AgreesOn(recs, 0, |recs|);
    FileOpensAtStart(recs, n);
    FileSum(recs, n);
    assert recs[..n] == prelude + LettersRecords(letters);
    TotalsAppend(prelude, LettersRecords(letters));
    OnlyChecksCount(prelude);
    PlusZero(TotalsOf(LettersRecords(letters)));
    assert recs[n] == Control(File, control);
    assert recs[n].declared == control && recs[n].scope == File;
  }

  lemma PlusZero(t: Totals)
    ensures Plus(ZERO_TOTALS, t) == t
  {
  }

  lemma FileSum(recs: seq<Record>, n: nat)
    requires n <= |recs|
    ensures OpenTotals(recs, n, File) == TotalsOf(recs[..n])
  {
    hide TotalsOf;
    FileOpensAtStart(recs, n);
    assert recs[0..n] == recs[..n];
  }

  lemma {:induction false} ItemsCarryTheTotals(recs: seq<Record>, number: int, date: Date, today: Date)
    ensures ItemTotals(ItemsOf(recs, number, date, today)) == TotalsOf(recs)
  {
    hide TotalsOf, ItemTotals;
    if recs == [] {
      NothingScans();
      NoItems();
    } else {
      assert recs == [recs[0]] + recs[1..];
      TotalsAppend([recs[0]], recs[1..]);
      TotalsOfOne(recs[0]);
      if recs[0].Check? {
        ItemsCarryTheTotals(recs[1..], number + 1, date, today);
        ItemTotalsOfCons(recs, number, date, today);
      } else {
        var next := if recs[0].CashLetterHeader? then DateOf(recs[0], today) else date;
        ItemsCarryTheTotals(recs[1..], number, next, today);
      }
    }
  }

  lemma NoItems()
    ensures ItemTotals([]) == ZERO_TOTALS
  {
  }

  lemma ItemTotalsOfCons(recs: seq<Record>, number: int, date: Date, today: Date)
    requires recs != [] && recs[0].Check?
    ensures ItemTotals(ItemsOf(recs, number, date, today)) ==
            Plus(Totals(1, recs[0].cents), ItemTotals(ItemsOf(recs[1..], number + 1, date, today)))
  {
    var items := ItemsOf(recs, number, date, today);
    assert items[1..] == ItemsOf(recs[1..], number + 1, date, today);
  }

  /** Conservation across all three levels of an accepted, well-nested file, down to the
      items that are handed to the caller. */
  lemma TotalsAreConserved(content: Bytes, prelude: seq<Record>, letters: seq<LetterOf>, control: Totals, today: Date)
    requires WellNested(prelude, letters) && Scan(content) == Some(FileRecords(prelude, letters, control))
    ensures Accepted(content, today) <==> LettersHonest(letters) && control == LetterControls(letters)
    ensures Accepted(content, today) ==> control == ItemTotals(Parse(content, today).value)
  {
    hide Parse, Scan, ItemsOf, TotalsOf, ItemTotals;
    hide LettersRecords, LetterControls, ControlsAgree, LettersHonest, WellNested;
    ParseExact(content, today);
    NestedTotalsAddUp(prelude, letters, control);
    var recs := FileRecords(prelude, letters, control);
    if ControlsAgree(recs) {
      var n := |recs| - 1;
      FileControlIsWholeSum(recs, n);
      assert recs == recs[..n] + [Control(File, control)];
      TotalsAppend(recs[..n], [Control(File, control)]);
      TotalsOfOne(Control(File, control));
      ItemsCarryTheTotals(recs, 0, today, today);
    }
  }

  lemma {:induction false} OnlyChecksCount(recs: seq<Record>)
    requires HoldsNoCheck(recs)
    ensures TotalsOf(recs) == ZERO_TOTALS
  {
    if recs != [] {
      OnlyChecksCount(recs[..|recs| - 1]);
      assert TotalsOf(recs[..|recs| - 1]) == Totals(0, 0);
    }
  }

  /** Every record takes at least 80 bytes, so a file holds at most a record per 80 bytes. */
  lemma {:induction false} RecordsAreLong(s: Bytes)
    requires Scan(s).Some?
    ensures STANDARD_LEN * |Scan(s).value| <= |s|
    decreases |s|
  {
    hide Head, After;
    if s != [] { RecordsAreLong(After(s)); }
  }
}
