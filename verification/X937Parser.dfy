/** The X9.37 scanner: one pass over the bytes that keeps six running totals, checks every
    control record on the way, and hands over a check only when the next one begins. */
module X937Parser {
  import opened Wrappers
  import opened PythonText
  import opened Calendar
  import opened X937Records

  datatype CheckItem = CheckItem(
    itemNumber: int, routing: Text, account: Text, checkNumber: Text, cents: int,
    presentedDate: Date, front: Bytes, back: Option<Bytes>)

  datatype ParseError = ParseError(kind: ErrorKind, at: nat)

  type Parsed = Result<seq<CheckItem>, ParseError>

  const ZERO_TOTALS := Totals(0, 0)

  function Plus(a: Totals, b: Totals): Totals {
    Totals(a.items + b.items, a.cents + b.cents)
  }

  // ---- What a sequence of records means, read off the records alone ----

  function TotalsOf(recs: seq<Record>): Totals {
    if recs == [] then ZERO_TOTALS
    else
      var last := recs[|recs| - 1];
      Plus(TotalsOf(recs[..|recs| - 1]), if last.Check? then Totals(1, last.cents) else ZERO_TOTALS)
  }

  /** A Type 20 opens a bundle and a Type 10 a cash letter; nothing reopens the file. */
  predicate Opens(r: Record, scope: Scope) {
    (r.BundleHeader? && scope.Bundle?) || (r.CashLetterHeader? && scope.CashLetter?)
  }

  /** Where the innermost `scope` that is open after the first `n` records began. */
  function Opening(recs: seq<Record>, n: nat, scope: Scope): (i: nat)
    requires n <= |recs|
    ensures i <= n
  {
    if n == 0 then 0
    else if Opens(recs[n - 1], scope) then n
    else Opening(recs, n - 1, scope)
  }

  function OpenTotals(recs: seq<Record>, n: nat, scope: Scope): Totals
    requires n <= |recs|
  {
    TotalsOf(recs[Opening(recs, n, scope)..n])
  }

  /** Every control record declares exactly the checks seen since its own scope opened. */
  predicate ControlsAgree(recs: seq<Record>) {
    forall i :: 0 <= i < |recs| && recs[i].Control? ==> recs[i].declared == OpenTotals(recs, i, recs[i].scope)
  }

  function Images(recs: seq<Record>): seq<Bytes> {
    if recs == [] then []
    else (if recs[0].ImageData? then [recs[0].image] else []) + Images(recs[1..])
  }

  function DateOf(r: Record, today: Date): Date
    requires r.CashLetterHeader?
  {
    match r.date case Some(d) => d case None => today
  }

  /** The business date in force after `recs`, if `date` was in force before. */
  function DateAfter(recs: seq<Record>, date: Date, today: Date): Date {
    if recs == [] then date
    else DateAfter(recs[1..], if recs[0].CashLetterHeader? then DateOf(recs[0], today) else date, today)
  }

  /** The records up to, and not including, the next check. */
  function Group(recs: seq<Record>): (g: seq<Record>)
    ensures |g| <= |recs|
  {
    if recs == [] || recs[0].Check? then [] else [recs[0]] + Group(recs[1..])
  }

  function MakeItem(number: int, check: Record, date: Date, images: seq<Bytes>): CheckItem
    requires check.Check?
  {
    CheckItem(number, check.routing, check.account, check.checkNumber, check.cents, date,
              if |images| >= 1 then images[0] else [], if |images| >= 2 then Some(images[1]) else None)
  }

  /** One item per check, numbered from `number + 1`; each is given the images that follow
      it and the business date in force where the next check begins. */
  function ItemsOf(recs: seq<Record>, number: int, date: Date, today: Date): seq<CheckItem> {
    if recs == [] then []
    else if recs[0].Check? then
      var group := Group(recs[1..]);
      [MakeItem(number + 1, recs[0], DateAfter(group, date, today), Images(group))]
      + ItemsOf(recs[1..], number + 1, date, today)
    else
      ItemsOf(recs[1..], number, if recs[0].CashLetterHeader? then DateOf(recs[0], today) else date, today)
  }

  // ---- The scanner's own state, and one step of it ----

  datatype Scanner = Scanner(
    items: seq<CheckItem>, itemNumber: int, current: Option<Record>, images: seq<Bytes>, date: Date,
    bundle: Totals, letter: Totals, file: Totals)
  {
    ghost predicate Valid() {
      current.Some? ==> current.value.Check?
    }

    function Flushed(): seq<CheckItem>
      requires Valid()
    {
      match current
      case None => items
      case Some(check) => items + [MakeItem(itemNumber, check, date, images)]
    }

    function Running(scope: Scope): Totals {
      match scope
      case Bundle => bundle
      case CashLetter => letter
      case File => file
    }
  }

  function Start(today: Date): (a: Scanner)
    ensures a.Valid()
  {
    Scanner([], 0, None, [], today, ZERO_TOTALS, ZERO_TOTALS, ZERO_TOTALS)
  }

  function Compare(scope: Scope, declared: Totals, actual: Totals): Option<ErrorKind> {
    if declared.items != actual.items then Some(ItemsMismatch(scope))
    else if declared.cents != actual.cents then Some(AmountMismatch(scope))
    else None
  }

  function Step(a: Scanner, r: Record, today: Date): (next: Result<Scanner, ErrorKind>)
    requires a.Valid()
    ensures next.Success? ==> next.value.Valid()
  {
    match r
    case Check(_, _, _, cents) =>
      var one := Totals(1, cents);
      Success(Scanner(a.Flushed(), a.itemNumber + 1, Some(r), [], a.date,
                      Plus(a.bundle, one), Plus(a.letter, one), Plus(a.file, one)))
    case CashLetterHeader(_) => Success(a.(date := DateOf(r, today), letter := ZERO_TOTALS))
    case BundleHeader => Success(a.(bundle := ZERO_TOTALS))
    case Control(scope, declared) =>
      var mismatch := Compare(scope, declared, a.Running(scope));
      if mismatch.Some? then Failure(mismatch.value) else Success(a)
    case ImageData(image) => Success(a.(images := a.images + [image]))
    case ImageView => Success(a)
    case Skipped(_) => Success(a)
  }

  /** The scan of the unread bytes `s`, which begin at byte `at` of the file. */
  function ParseFrom(s: Bytes, a: Scanner, at: nat, today: Date): Parsed
    requires a.Valid()
    decreases |s|
  {
    if s == [] then Success(a.Flushed())
    else
      match Head(s)
      case Failure(e) => Failure(ParseError(e, at))
      case Success(read) =>
        match Step(a, read.record, today)
        case Failure(e) => Failure(ParseError(e, at))
        case Success(next) => ParseFrom(After(s), next, at + |s| - |After(s)|, today)
  }

  function Parse(content: Bytes, today: Date): Parsed {
    ParseFrom(content, Start(today), 0, today)
  }

  // ---- The one-pass scan refines the reading of the records ----

  lemma {:induction false} OpenTotalsStep(recs: seq<Record>, n: nat, scope: Scope)
    requires n < |recs|
    ensures OpenTotals(recs, n + 1, scope) ==
            if Opens(recs[n], scope) then ZERO_TOTALS
            else Plus(OpenTotals(recs, n, scope), if recs[n].Check? then Totals(1, recs[n].cents) else ZERO_TOTALS)
  {
    var i := Opening(recs, n + 1, scope);
    if !Opens(recs[n], scope) {
      assert recs[i..n + 1][..n - i] == recs[i..n];
    }
  }

  ghost predicate Tracks(a: Scanner, recs: seq<Record>, n: nat)
    requires n <= |recs|
  {
    && a.Valid()
    && (forall scope :: a.Running(scope) == OpenTotals(recs, n, scope))
  }

  lemma StepTracks(a: Scanner, recs: seq<Record>, n: nat, today: Date)
    requires n < |recs| && Tracks(a, recs, n)
    ensures Step(a, recs[n], today).Success? <==>
            (recs[n].Control? ==> recs[n].declared == OpenTotals(recs, n, recs[n].scope))
    ensures Step(a, recs[n], today).Success? ==> Tracks(Step(a, recs[n], today).value, recs, n + 1)
  {
    hide OpenTotals;
    assert a.Running(Bundle) == a.bundle && a.Running(CashLetter) == a.letter && a.Running(File) == a.file;
    var next := Step(a, recs[n], today);
    if next.Success? {
      forall scope ensures next.value.Running(scope) == OpenTotals(recs, n + 1, scope) {
        OpenTotalsStep(recs, n, scope);
        assert a.Running(scope) == OpenTotals(recs, n, scope);
      }
    }
  }

  /** The items a scan will have produced, given the state it is in and the records to come. */
  ghost function Outcome(a: Scanner, recs: seq<Record>, today: Date): seq<CheckItem>
    requires a.Valid()
  {
    var group := Group(recs);
    var pending :=
      match a.current
      case None => []
      case Some(check) => [MakeItem(a.itemNumber, check, DateAfter(group, a.date, today), a.images + Images(group))];
    a.items + pending + ItemsOf(recs, a.itemNumber, a.date, today)
  }

  lemma Onto<T>(a: seq<T>, b: seq<T>, c: seq<T>)
    ensures (a + b) + c == a + (b + c)
    ensures a + [] == a && [] + a == a
  {
  }

  lemma OutcomeAtCheck(a: Scanner, recs: seq<Record>, today: Date)
    requires a.Valid() && recs != [] && recs[0].Check?
    ensures Outcome(a, recs, today) == a.Flushed() + ItemsOf(recs, a.itemNumber, a.date, today)
  {
    hide MakeItem, ItemsOf;
    Onto(a.images, [], []);
    Onto(a.items, [], []);
  }

  lemma CheckKeepsOutcome(a: Scanner, recs: seq<Record>, today: Date)
    requires a.Valid() && recs != [] && recs[0].Check?
    ensures Outcome(Step(a, recs[0], today).value, recs[1..], today) == Outcome(a, recs, today)
  {
    OutcomeAtCheck(a, recs, today);
    hide MakeItem, DateAfter, Images, Group, Scanner.Flushed;
    var group := Group(recs[1..]);
    Onto(Images(group), [], []);
    var item := [MakeItem(a.itemNumber + 1, recs[0], DateAfter(group, a.date, today), Images(group))];
    Onto(a.Flushed(), item, ItemsOf(recs[1..], a.itemNumber + 1, a.date, today));
  }

  lemma StepKeepsOutcome(a: Scanner, recs: seq<Record>, today: Date)
    requires a.Valid() && recs != [] && Step(a, recs[0], today).Success?
    ensures Outcome(Step(a, recs[0], today).value, recs[1..], today) == Outcome(a, recs, today)
  {
    if recs[0].Check? {
      CheckKeepsOutcome(a, recs, today);
    } else {
      var group := Group(recs);
      assert group == [recs[0]] + Group(recs[1..]);
      assert group[1..] == Group(recs[1..]);
      if recs[0].ImageData? {
        assert a.images + ([recs[0].image] + Images(group[1..])) == (a.images + [recs[0].image]) + Images(group[1..]);
      } else {
        assert [] + Images(group[1..]) == Images(group[1..]);
      }
    }
  }

  lemma {:induction false} ParsedFilesScan(s: Bytes, a: Scanner, at: nat, today: Date)
    requires a.Valid() && ParseFrom(s, a, at, today).Success?
    ensures Scan(s).Some?
    decreases |s|
  {
    hide Head, After, Step;
    if s != [] {
      ParsedFilesScan(After(s), Step(a, Head(s).value.record, today).value, at + |s| - |After(s)|, today);
    }
  }

  /** The control records from the `n`th on agree with the checks in front of them. */
  predicate AgreeFrom(recs: seq<Record>, n: nat) {
    forall i :: n <= i < |recs| && recs[i].Control? ==> recs[i].declared == OpenTotals(recs, i, recs[i].scope)
  }

  lemma ScanTail(s: Bytes, recs: seq<Record>, n: nat)
    requires s != [] && n <= |recs| && Scan(s) == Some(recs[n..])
    ensures n < |recs| && Head(s).Success? && Head(s).value.record == recs[n]
    ensures Scan(After(s)) == Some(recs[n + 1..])
  {
    hide Head, After;
    assert recs[n..][1..] == recs[n + 1..];
  }

  lemma {:induction false} ParseFromExact(s: Bytes, a: Scanner, at: nat, recs: seq<Record>, n: nat, today: Date)
    requires n <= |recs| && Tracks(a, recs, n) && Scan(s) == Some(recs[n..])
    ensures ParseFrom(s, a, at, today).Success? <==> AgreeFrom(recs, n)
    ensures ParseFrom(s, a, at, today).Success? ==> ParseFrom(s, a, at, today).value == Outcome(a, recs[n..], today)
    decreases |s|
  {
    hide Head, After, OpenTotals;
    if s == [] {
      assert a.images + [] == a.images;
      assert a.Flushed() + [] == a.Flushed();
    } else {
      ScanTail(s, recs, n);
      StepTracks(a, recs, n, today);
      var next := Step(a, recs[n], today);
      if next.Success? {
        ParseFromExact(After(s), next.value, at + |s| - |After(s)|, recs, n + 1, today);
        assert recs[n..][1..] == recs[n + 1..];
        StepKeepsOutcome(a, recs[n..], today);
      }
    }
  }

  /** A file is accepted exactly when it splits into records whose control totals agree with
      the checks in front of them, and then its items are the ones its records describe. */
  lemma ParseExact(content: Bytes, today: Date)
    ensures Parse(content, today).Success? <==> Scan(content).Some? && ControlsAgree(Scan(content).value)
    ensures Parse(content, today).Success? ==>
              Parse(content, today).value == ItemsOf(Scan(content).value, 0, today, today)
  {
    hide Head, After;
    if Parse(content, today).Success? { ParsedFilesScan(content, Start(today), 0, today); }
    if Scan(content).Some? {
      var recs := Scan(content).value;
      assert recs[0..] == recs;
      forall scope ensures Start(today).Running(scope) == OpenTotals(recs, 0, scope) {
        assert recs[0..0] == [];
      }
      ParseFromExact(content, Start(today), 0, recs, 0, today);
      assert [] + ItemsOf(recs, 0, today, today) == ItemsOf(recs, 0, today, today);
    }
  }

  /** Without a readable business date in any header, and at once behind one that has none,
      every item is dated today. */
  lemma {:induction false} UnreadableDateIsToday(recs: seq<Record>, number: int, date: Date, today: Date)
    requires forall i :: 0 <= i < |recs| && recs[i].CashLetterHeader? ==> recs[i].date == None
    requires date == today || (recs != [] && recs[0].CashLetterHeader?)
    ensures DateAfter(Group(recs), date, today) == today
    ensures forall k :: 0 <= k < |ItemsOf(recs, number, date, today)| ==>
              ItemsOf(recs, number, date, today)[k].presentedDate == today
  {
    if recs != [] {
      var n := if recs[0].Check? then number + 1 else number;
      UnreadableDateIsToday(recs[1..], n, today, today);
      if !recs[0].Check? { assert Group(recs)[1..] == Group(recs[1..]); }
    }
  }
}
