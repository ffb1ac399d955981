/** Printing cash letters and parsing them again. Everything comes back as it was, except
    that the last check of a cash letter is dated by the header of a later one. */
module X937RoundTrip {
  import opened Wrappers
  import opened PythonText
  import opened Calendar
  import opened X937Records
  import opened X937Parser
  import opened X937Totals
  import opened X937Printer
  import opened X937Skipped

  // ---- Files of printable records ----

  predicate AllPrintable(recs: seq<Record>) {
    forall i :: 0 <= i < |recs| ==> Printable(recs[i])
  }

  /** The records one after the other, each followed by its own run of separators. */
  function PrintAll(recs: seq<Record>, gaps: seq<Bytes>): Bytes
    requires |gaps| == |recs| && AllPrintable(recs)
  {
    if recs == [] then [] else Print(recs[0]) + gaps[0] + PrintAll(recs[1..], gaps[1..])
  }

  predicate AreGaps(gaps: seq<Bytes>) {
    forall i :: 0 <= i < |gaps| ==> AllSeparators(gaps[i])
  }

  /** Any printed records scan back to themselves, whatever separators stand between them. */
  lemma {:induction false} PrintAllScans(recs: seq<Record>, gaps: seq<Bytes>)
    requires |gaps| == |recs| && AllPrintable(recs) && AreGaps(gaps)
    ensures Scan(PrintAll(recs, gaps)) == Some(recs)
  {
    hide Head, Print, Printable, AllSeparators, SkipSeparators;
    if recs != [] {
      var s := PrintAll(recs, gaps);
      var rest := PrintAll(recs[1..], gaps[1..]);
      PrintAllScans(recs[1..], gaps[1..]);
      ScansAtRecordStart(rest);
      assert s == Print(recs[0]) + (gaps[0] + rest);
      PrintReads(recs[0], gaps[0] + rest);
      assert s[|Print(recs[0])|..] == gaps[0] + rest;
      SkipAll(gaps[0], rest);
      assert After(s) == rest;
      assert recs == [recs[0]] + recs[1..];
    }
  }

  // ---- Cash letters of bundles of checks ----

  datatype PaperCheck = PaperCheck(routing: Text, account: Text, checkNumber: Text, cents: nat, images: seq<Bytes>)

  datatype CashLetterOf = CashLetterOf(date: Date, bundles: seq<seq<PaperCheck>>)

  function ImageRecords(images: seq<Bytes>): seq<Record> {
    if images == [] then [] else [ImageView, ImageData(images[0])] + ImageRecords(images[1..])
  }

  function CheckRecord(c: PaperCheck): Record {
    Check(c.routing, c.account, c.checkNumber, c.cents)
  }

  function CheckRecords(checks: seq<PaperCheck>): seq<Record> {
    if checks == [] then []
    else [CheckRecord(checks[0])] + ImageRecords(checks[0].images) + CheckRecords(checks[1..])
  }

  function BundleFor(checks: seq<PaperCheck>): BundleOf {
    BundleOf(CheckRecords(checks), TotalsOf(CheckRecords(checks)))
  }

  function BundlesFor(bundles: seq<seq<PaperCheck>>): (r: seq<BundleOf>)
    ensures |r| == |bundles|
  {
    seq(|bundles|, i requires 0 <= i < |bundles| => BundleFor(bundles[i]))
  }

  function LetterFor(l: CashLetterOf): LetterOf {
    LetterOf(Some(l.date), BundlesFor(l.bundles), BundleControls(BundlesFor(l.bundles)))
  }

  function LettersFor(letters: seq<CashLetterOf>): (r: seq<LetterOf>)
    ensures |r| == |letters|
  {
    seq(|letters|, i requires 0 <= i < |letters| => LetterFor(letters[i]))
  }

  /** The cash letters, and the file control with the totals they add up to. */
  function RecordsFor(letters: seq<CashLetterOf>): seq<Record> {
    FileRecords([], LettersFor(letters), LetterControls(LettersFor(letters)))
  }

  function Flat(bundles: seq<seq<PaperCheck>>): seq<PaperCheck> {
    if bundles == [] then [] else bundles[0] + Flat(bundles[1..])
  }

  function ItemFor(c: PaperCheck, number: int, date: Date): CheckItem {
    CheckItem(number, c.routing, c.account, c.checkNumber, c.cents, date,
              if c.images == [] then [] else c.images[0], if |c.images| < 2 then None else Some(c.images[1]))
  }

  /** One item per check, numbered from `number + 1`; all dated `date` but the last, dated `last`. */
  function ItemsFor(checks: seq<PaperCheck>, number: int, date: Date, last: Date): seq<CheckItem> {
    if checks == [] then []
    else
      [ItemFor(checks[0], number + 1, if |checks| == 1 then last else date)]
      + ItemsFor(checks[1..], number + 1, date, last)
  }

  /** What the file says: every check with the date of its own cash letter. */
  function Expected(letters: seq<CashLetterOf>, number: int): seq<CheckItem> {
    if letters == [] then []
    else
      var checks := Flat(letters[0].bundles);
      ItemsFor(checks, number, letters[0].date, letters[0].date) + Expected(letters[1..], number + |checks|)
  }

  /** The date in force when the next check begins, or at the end of the file. */
  function NextDate(letters: seq<CashLetterOf>, date: Date): Date {
    if letters == [] then date
    else if Flat(letters[0].bundles) != [] then letters[0].date
    else NextDate(letters[1..], letters[0].date)
  }

  /** What the parser reports. */
  function Reported(letters: seq<CashLetterOf>, number: int): seq<CheckItem> {
    if letters == [] then []
    else
      var checks := Flat(letters[0].bundles);
      ItemsFor(checks, number, letters[0].date, NextDate(letters[1..], letters[0].date))
      + Reported(letters[1..], number + |checks|)
  }

  /** Every letter that holds a check has the date of the next such letter, or of the last letter. */
  predicate DatesKept(letters: seq<CashLetterOf>) {
    letters == [] ||
    ((Flat(letters[0].bundles) != [] ==> NextDate(letters[1..], letters[0].date) == letters[0].date)
     && DatesKept(letters[1..]))
  }

  // ---- The items of the printed records ----

  function DateNext(recs: seq<Record>, date: Date, today: Date): Date {
    DateAfter(Group(recs), date, today)
  }

  /** The images that lie in front of the next check. */
  function ImagesAhead(recs: seq<Record>): seq<Bytes> {
    Images(Group(recs))
  }

  /** A record that is neither a check, a cash-letter header nor image data changes nothing. */
  lemma PassedOver(r: Record, rest: seq<Record>, number: int, date: Date, today: Date)
    requires !r.Check? && !r.CashLetterHeader? && !r.ImageData?
    ensures ItemsOf([r] + rest, number, date, today) == ItemsOf(rest, number, date, today)
    ensures ImagesAhead([r] + rest) == ImagesAhead(rest)
    ensures DateNext([r] + rest, date, today) == DateNext(rest, date, today)
  {
    OneMore(r, rest);
    assert [] + Images(Group(rest)) == Images(Group(rest));
  }

  lemma HeaderPassed(d: Date, rest: seq<Record>, number: int, date: Date, today: Date)
    ensures ItemsOf([CashLetterHeader(Some(d))] + rest, number, date, today) == ItemsOf(rest, number, d, today)
    ensures ImagesAhead([CashLetterHeader(Some(d))] + rest) == ImagesAhead(rest)
    ensures DateNext([CashLetterHeader(Some(d))] + rest, date, today) == DateNext(rest, d, today)
  {
    OneMore(CashLetterHeader(Some(d)), rest);
    assert [] + Images(Group(rest)) == Images(Group(rest));
  }

  lemma ImagePassed(image: Bytes, rest: seq<Record>, number: int, date: Date, today: Date)
    ensures ItemsOf([ImageData(image)] + rest, number, date, today) == ItemsOf(rest, number, date, today)
    ensures ImagesAhead([ImageData(image)] + rest) == [image] + ImagesAhead(rest)
    ensures DateNext([ImageData(image)] + rest, date, today) == DateNext(rest, date, today)
  {
    OneMore(ImageData(image), rest);
  }

  lemma OneMore(r: Record, rest: seq<Record>)
    requires !r.Check?
    ensures ([r] + rest)[1..] == rest
    ensures Group([r] + rest) == [r] + Group(rest)
    ensures ([r] + Group(rest))[1..] == Group(rest)
  {
    assert ([r] + rest)[1..] == rest;
  }

  lemma {:induction false} ImagesPassed(images: seq<Bytes>, rest: seq<Record>, number: int, date: Date, today: Date)
    ensures ItemsOf(ImageRecords(images) + rest, number, date, today) == ItemsOf(rest, number, date, today)
    ensures ImagesAhead(ImageRecords(images) + rest) == images + ImagesAhead(rest)
    ensures DateNext(ImageRecords(images) + rest, date, today) == DateNext(rest, date, today)
  {
    hide ItemsOf, ImagesAhead, DateNext;
    var recs := ImageRecords(images) + rest;
    if images == [] {
      assert recs == rest;
      assert images + ImagesAhead(rest) == ImagesAhead(rest);
    } else {
      var tail := ImageRecords(images[1..]) + rest;
      assert recs == [ImageView] + ([ImageData(images[0])] + tail);
      ImagesPassed(images[1..], rest, number, date, today);
      ImagePassed(images[0], tail, number, date, today);
      PassedOver(ImageView, [ImageData(images[0])] + tail, number, date, today);
      assert [images[0]] + (images[1..] + ImagesAhead(rest)) == images + ImagesAhead(rest);
    }
  }

  lemma CheckFirst(c: PaperCheck, behind: seq<Record>, number: int, date: Date, today: Date)
    requires ImagesAhead(behind) == c.images
    ensures ItemsOf([CheckRecord(c)] + behind, number, date, today) ==
            [ItemFor(c, number + 1, DateNext(behind, date, today))] + ItemsOf(behind, number + 1, date, today)
    ensures ImagesAhead([CheckRecord(c)] + behind) == []
    ensures DateNext([CheckRecord(c)] + behind, date, today) == date
  {
    assert ([CheckRecord(c)] + behind)[1..] == behind;
    assert Group([CheckRecord(c)] + behind) == [];
  }

  lemma OneCheckFirst(c: PaperCheck, tail: seq<Record>, number: int, date: Date, today: Date)
    requires ImagesAhead(tail) == []
    ensures var recs := [CheckRecord(c)] + (ImageRecords(c.images) + tail);
            && ItemsOf(recs, number, date, today) ==
               [ItemFor(c, number + 1, DateNext(tail, date, today))] + ItemsOf(tail, number + 1, date, today)
            && ImagesAhead(recs) == [] && DateNext(recs, date, today) == date
  {
    hide ItemsOf, ImagesAhead, DateNext, ItemFor;
    ImagesPassed(c.images, tail, number + 1, date, today);
    assert c.images + [] == c.images;
    CheckFirst(c, ImageRecords(c.images) + tail, number, date, today);
  }

  lemma RecordsOfFirst(checks: seq<PaperCheck>, rest: seq<Record>)
    requires checks != []
    ensures CheckRecords(checks) + rest ==
            [CheckRecord(checks[0])] + (ImageRecords(checks[0].images) + (CheckRecords(checks[1..]) + rest))
  {
    hide ImageRecords, CheckRecord;
  }

  lemma {:induction false} ItemsOfChecks(checks: seq<PaperCheck>, rest: seq<Record>, number: int, date: Date,
      today: Date)
    requires ImagesAhead(rest) == []
    ensures ItemsOf(CheckRecords(checks) + rest, number, date, today) ==
            ItemsFor(checks, number, date, DateNext(rest, date, today)) + ItemsOf(rest, number + |checks|, date, today)
    ensures ImagesAhead(CheckRecords(checks) + rest) == []
    ensures DateNext(CheckRecords(checks) + rest, date, today) ==
            if checks == [] then DateNext(rest, date, today) else date
  {
    hide ItemsOf, ImagesAhead, DateNext, ItemFor;
    if checks == [] {
      assert CheckRecords(checks) + rest == rest;
    } else {
      hide CheckRecords;
      var next := DateNext(rest, date, today);
      ItemsOfChecks(checks[1..], rest, number + 1, date, today);
      OneCheckFirst(checks[0], CheckRecords(checks[1..]) + rest, number, date, today);
      RecordsOfFirst(checks, rest);
      ItemsForFirst(checks, number, date, next);
    }
  }

  lemma ItemsForFirst(checks: seq<PaperCheck>, number: int, date: Date, last: Date)
    requires checks != []
    ensures forall more :: ItemsFor(checks, number, date, last) + more ==
              [ItemFor(checks[0], number + 1, if checks[1..] == [] then last else date)]
              + (ItemsFor(checks[1..], number + 1, date, last) + more)
  {
    hide ItemFor;
  }

  lemma {:induction false} ItemsForAppend(a: seq<PaperCheck>, b: seq<PaperCheck>, number: int, date: Date, last: Date)
    ensures ItemsFor(a + b, number, date, last) ==
            ItemsFor(a, number, date, if b == [] then last else date) + ItemsFor(b, number + |a|, date, last)
  {
    if a == [] {
      assert a + b == b;
    } else if b == [] {
      assert a + b == a;
    } else {
      assert (a + b)[1..] == a[1..] + b;
      ItemsForAppend(a[1..], b, number + 1, date, last);
    }
  }

  lemma {:induction false} ItemsOfBundles(bundles: seq<seq<PaperCheck>>, rest: seq<Record>, number: int, date: Date,
      today: Date)
    requires ImagesAhead(rest) == []
    ensures var recs := BundlesRecords(BundlesFor(bundles)) + rest;
            var checks := Flat(bundles);
            && ItemsOf(recs, number, date, today) ==
               ItemsFor(checks, number, date, DateNext(rest, date, today))
               + ItemsOf(rest, number + |checks|, date, today)
            && ImagesAhead(recs) == []
            && DateNext(recs, date, today) == if checks == [] then DateNext(rest, date, today) else date
  {
    hide Images, DateAfter, ImagesAhead, DateNext, ItemsOf, ItemsFor, TotalsOf, CheckRecords;
    var recs := BundlesRecords(BundlesFor(bundles)) + rest;
    if bundles == [] {
      assert recs == rest;
      NoItemsFor(number, date, DateNext(rest, date, today));
    } else {
      var b := BundleFor(bundles[0]);
      assert BundlesFor(bundles)[1..] == BundlesFor(bundles[1..]);
      var tail := BundlesRecords(BundlesFor(bundles[1..])) + rest;
      var close := [Control(Bundle, b.control)] + tail;
      var n := number + |bundles[0]|;
      assert recs == [BundleHeader] + (b.body + close);
      ItemsOfBundles(bundles[1..], rest, n, date, today);
      PassedOver(Control(Bundle, b.control), tail, n, date, today);
      ItemsOfChecks(bundles[0], close, number, date, today);
      PassedOver(BundleHeader, b.body + close, number, date, today);
      ItemsForAppend(bundles[0], Flat(bundles[1..]), number, date, DateNext(rest, date, today));
      BundlesSpliced(bundles, rest, number, date, today);
    }
  }

  lemma NoItemsFor(number: int, date: Date, last: Date)
    ensures ItemsFor([], number, date, last) == []
  {
  }

  lemma BundlesSpliced(bundles: seq<seq<PaperCheck>>, rest: seq<Record>, number: int, date: Date, today: Date)
    requires bundles != []
    ensures var a, b := bundles[0], Flat(bundles[1..]);
            var last, mid := DateNext(rest, date, today), if b == [] then DateNext(rest, date, today) else date;
            ItemsFor(a, number, date, mid)
            + (ItemsFor(b, number + |a|, date, last) + ItemsOf(rest, number + |a| + |b|, date, today))
            == ItemsFor(a, number, date, mid) + ItemsFor(b, number + |a|, date, last)
               + ItemsOf(rest, number + |a| + |b|, date, today)
  {
  }

  lemma {:induction false} ItemsOfLetters(letters: seq<CashLetterOf>, control: Totals, number: int, date: Date,
      today: Date)
    ensures var recs := LettersRecords(LettersFor(letters)) + [Control(File, control)];
            && ItemsOf(recs, number, date, today) == Reported(letters, number)
            && ImagesAhead(recs) == []
            && DateNext(recs, date, today) == NextDate(letters, date)
  {
    hide Images, DateAfter, ImagesAhead, DateNext, ItemsOf, ItemsFor, TotalsOf, BundlesRecords;
    var end := [Control(File, control)];
    var recs := LettersRecords(LettersFor(letters)) + end;
    if letters == [] {
      assert recs == end;
      EndOfFile(control, number, date, today);
    } else {
      var l := letters[0];
      assert LettersFor(letters)[1..] == LettersFor(letters[1..]);
      var tail := LettersRecords(LettersFor(letters[1..])) + end;
      var close := [Control(CashLetter, LetterFor(l).control)] + tail;
      var n := number + |Flat(l.bundles)|;
      var body := BundlesRecords(BundlesFor(l.bundles)) + close;
      assert recs == [CashLetterHeader(Some(l.date))] + body;
      ItemsOfLetters(letters[1..], control, n, l.date, today);
      PassedOver(Control(CashLetter, LetterFor(l).control), tail, n, l.date, today);
      ItemsOfBundles(l.bundles, close, number, l.date, today);
      HeaderPassed(l.date, body, number, date, today);
    }
  }

  lemma EndOfFile(control: Totals, number: int, date: Date, today: Date)
    ensures var end := [Control(File, control)];
            ItemsOf(end, number, date, today) == [] && ImagesAhead(end) == [] && DateNext(end, date, today) == date
  {
    var end: seq<Record> := [Control(File, control)];
    assert end[1..] == [];
    PassedOver(Control(File, control), [], number, date, today);
    assert [Control(File, control)] + [] == end;
  }

  // ---- The whole file ----

  lemma {:induction false} ImagesPlain(images: seq<Bytes>)
    ensures Plain(ImageRecords(images))
  {
    if images != [] { ImagesPlain(images[1..]); }
  }

  lemma {:induction false} ChecksPlain(checks: seq<PaperCheck>)
    ensures Plain(CheckRecords(checks))
  {
    if checks != [] {
      ImagesPlain(checks[0].images);
      ChecksPlain(checks[1..]);
    }
  }

  lemma RecordsForAgree(letters: seq<CashLetterOf>)
    ensures ControlsAgree(RecordsFor(letters))
  {
    hide ControlsAgree, TotalsOf, LettersRecords, CheckRecords;
    var ls := LettersFor(letters);
    forall i, j | 0 <= i < |ls| && 0 <= j < |ls[i].bundles| ensures Plain(ls[i].bundles[j].body) {
      ChecksPlain(letters[i].bundles[j]);
    }
    NestedTotalsAddUp([], ls, LetterControls(ls));
  }

  /** `recs` are the records of the letters with any records of the skipped types in between. */
  predicate AreLetters(recs: seq<Record>, letters: seq<CashLetterOf>) {
    Essential(recs) == RecordsFor(letters)
  }

  /** Any cash letters, with any skipped records anywhere and any separators after each record,
      come back from the parser as `Reported`; that is what was printed exactly when the dates
      are kept. */
  lemma RoundTrip(letters: seq<CashLetterOf>, recs: seq<Record>, gaps: seq<Bytes>, today: Date)
    requires AreLetters(recs, letters) && AllPrintable(recs) && |gaps| == |recs| && AreGaps(gaps)
    ensures var printed := PrintAll(recs, gaps);
            && Parse(printed, today) == Success(Reported(letters, 0))
            && (Parse(printed, today) == Success(Expected(letters, 0)) <==> DatesKept(letters))
  {
    hide Parse, Scan, ItemsOf, Reported, Expected, DatesKept, Essential;
    hide AllPrintable, PrintAll, AreGaps, ControlsAgree, LettersRecords, LettersFor;
    var ls := LettersFor(letters);
    PrintAllScans(recs, gaps);
    ParseExact(PrintAll(recs, gaps), today);
    EssentialSays(recs, today);
    RecordsForAgree(letters);
    assert RecordsFor(letters) == LettersRecords(ls) + [Control(File, LetterControls(ls))];
    ItemsOfLetters(letters, LetterControls(ls), 0, today, today);
    DatesKeptExactly(letters, 0);
  }

  lemma {:induction false} SameItems(checks: seq<PaperCheck>, number: int, date: Date, last: Date)
    ensures |ItemsFor(checks, number, date, last)| == |checks|
    ensures ItemsFor(checks, number, date, last) == ItemsFor(checks, number, date, date) <==>
            checks == [] || last == date
    ensures |ItemsFor(checks, number, date, date)| == |checks|
    ensures forall i :: 0 <= i < |checks| ==>
              ItemsFor(checks, number, date, last)[i].(presentedDate := date) == ItemsFor(checks, number, date, date)[i]
  {
    if checks != [] {
      SameItems(checks[1..], number + 1, date, last);
      var a, b := ItemsFor(checks, number, date, last), ItemsFor(checks, number, date, date);
      assert a[1..] == ItemsFor(checks[1..], number + 1, date, last);
      assert b[1..] == ItemsFor(checks[1..], number + 1, date, date);
      if |checks| == 1 {
        assert a[0].presentedDate == last && b[0].presentedDate == date;
      } else {
        assert a == [a[0]] + a[1..] && b == [b[0]] + b[1..];
      }
    }
  }

  lemma SameItemsIff(checks: seq<PaperCheck>, number: int, date: Date, last: Date)
    ensures ItemsFor(checks, number, date, last) == ItemsFor(checks, number, date, date) <==>
            checks == [] || last == date
    ensures |ItemsFor(checks, number, date, last)| == |ItemsFor(checks, number, date, date)|
  {
    SameItems(checks, number, date, last);
    SameItems(checks, number, date, date);
  }

  lemma {:induction false} DatesKeptExactly(letters: seq<CashLetterOf>, number: int)
    ensures |Reported(letters, number)| == |Expected(letters, number)|
    ensures Reported(letters, number) == Expected(letters, number) <==> DatesKept(letters)
  {
    hide ItemsFor;
    if letters != [] {
      var l := letters[0];
      var checks := Flat(l.bundles);
      var last := NextDate(letters[1..], l.date);
      SameItemsIff(checks, number, l.date, last);
      DatesKeptExactly(letters[1..], number + |checks|);
      var a, b := ItemsFor(checks, number, l.date, last), ItemsFor(checks, number, l.date, l.date);
      var c, d := Reported(letters[1..], number + |checks|), Expected(letters[1..], number + |checks|);
      SameConcatenation(a, b, c, d);
    }
  }

  lemma SameConcatenation(a: seq<CheckItem>, b: seq<CheckItem>, c: seq<CheckItem>, d: seq<CheckItem>)
    requires |a| == |b|
    ensures a + c == b + d <==> a == b && c == d
  {
    assert (a + c)[..|a|] == a && (b + d)[..|a|] == b;
    assert (a + c)[|a|..] == c && (b + d)[|a|..] == d;
  }

  /** Everything but the date comes back unchanged, whatever the dates of the letters are. */
  lemma {:induction false} OnlyDatesMove(letters: seq<CashLetterOf>, number: int, i: nat)
    requires i < |Expected(letters, number)|
    ensures i < |Reported(letters, number)|
    ensures var e := Expected(letters, number)[i];
            Reported(letters, number)[i].(presentedDate := e.presentedDate) == e
  {
    hide ItemsFor;
    var l := letters[0];
    var checks := Flat(l.bundles);
    var last := NextDate(letters[1..], l.date);
    SameItems(checks, number, l.date, last);
    SameItems(checks, number, l.date, l.date);
    if i < |checks| {
      assert Expected(letters, number)[i] == ItemsFor(checks, number, l.date, l.date)[i];
    } else {
      OnlyDatesMove(letters[1..], number + |checks|, i - |checks|);
    }
  }

  /** One cash letter, or letters that share a date, come back exactly as printed. */
  lemma {:induction false} SharedDateIsKept(letters: seq<CashLetterOf>, date: Date)
    requires forall i :: 0 <= i < |letters| ==> letters[i].date == date
    ensures DatesKept(letters) && NextDate(letters, date) == date
  {
    if letters != [] { SharedDateIsKept(letters[1..], date); }
  }
}
