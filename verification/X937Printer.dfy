/** A printer for X9.37 records, and how each kind of record is read back: from its own columns,
    whatever the others hold. */
module X937Printer {
  import opened Wrappers
  import opened PythonText
  import opened Calendar
  import opened X937Records

  // ---- Printing one record ----

  function CountWidth(scope: Scope): nat {
    if scope.Bundle? then 4 else 8
  }

  function AmountWidth(scope: Scope): nat {
    match scope case Bundle => 12 case CashLetter => 14 case File => 15
  }

  predicate TotalsFit(scope: Scope, t: Totals) {
    0 <= t.items < Pow10(CountWidth(scope)) && 0 <= t.cents < Pow10(AmountWidth(scope))
  }

  predicate IsBytes(t: Text) {
    forall i :: 0 <= i < |t| ==> 0 <= t[i] < 256
  }

  predicate Printable(r: Record) {
    match r
    case Check(routing, account, checkNumber, cents) =>
      && IsBytes(routing) && IsBytes(account) && IsBytes(checkNumber)
      && IsFieldText(routing, 8) && IsFieldText(account, 20) && IsFieldText(checkNumber, 15)
      && 0 <= cents < Pow10(10)
    case CashLetterHeader(date) => date.Some? && IsDate(date.value)
    case Control(scope, declared) => TotalsFit(scope, declared)
    case ImageData(image) => |image| < Pow10(10)
    case BundleHeader => true
    case ImageView => true
    case Skipped(b) => |b| == STANDARD_LEN && IsSkippedCode(b[..2])
  }

  function PrintDate(d: Date): (b: Bytes)
    requires IsDate(d)
    ensures |b| == 8
  {
    Digits(d.year, 4) + Digits(d.month, 2) + Digits(d.day, 2)
  }

  function PrintControl(scope: Scope, t: Totals): (b: Bytes)
    requires TotalsFit(scope, t)
    ensures |b| == STANDARD_LEN
  {
    var count, amount := Digits(t.items, CountWidth(scope)), Digits(t.cents, AmountWidth(scope));
    match scope
    case Bundle => [0x37, 0x30] + count + amount + Blanks(62)
    case CashLetter => [0x39, 0x30] + Blanks(6) + count + amount + Blanks(50)
    case File => [0x39, 0x39] + Blanks(14) + count + amount + Blanks(41)
  }

  function PrintCheck(routing: Bytes, account: Bytes, checkNumber: Bytes, cents: nat): (b: Bytes)
    requires |routing| <= 8 && |account| <= 20 && |checkNumber| <= 15
    ensures |b| == STANDARD_LEN
  {
    [0x32, 0x35] + Field(checkNumber, 15) + Blanks(1) + Field(routing, 8) + Blanks(1) + Field(account, 20)
    + Digits(cents, 10) + Blanks(23)
  }

  function Print(r: Record): (b: Bytes)
    requires Printable(r)
    ensures |b| >= STANDARD_LEN
  {
    match r
    case Check(routing, account, checkNumber, cents) => PrintCheck(routing, account, checkNumber, cents)
    case CashLetterHeader(date) => [0x31, 0x30] + Blanks(19) + PrintDate(date.value) + Blanks(51)
    case BundleHeader => [0x32, 0x30] + Blanks(78)
    case Control(scope, declared) => PrintControl(scope, declared)
    case ImageView => [0x35, 0x30] + Blanks(198)
    case ImageData(image) => [0x35, 0x32] + Blanks(114) + Digits(|image|, 10) + image
    case Skipped(b) => b
  }

  // ---- Reading a record by its columns, whatever the other columns hold ----

  lemma PrintedDateReads(d: Date)
    requires IsDate(d)
    ensures ParseBusinessDate(Strip(Decode(PrintDate(d)))) == Some(d)
  {
    hide ParseInt, Digits, Pow10, Strip;
    var y, m, n := Digits(d.year, 4), Digits(d.month, 2), Digits(d.day, 2);
    var t := Decode(PrintDate(d));
    assert forall i :: 0 <= i < |PrintDate(d)| ==> IsDigit(PrintDate(d)[i]);
    IntOfDigits(t);
    ThreeSlices(y, m, n);
    PowersOfTen();
    DigitsRoundTrip(d.year, 4);
    DigitsRoundTrip(d.month, 2);
    DigitsRoundTrip(d.day, 2);
  }

  lemma ThreeSlices(y: Bytes, m: Bytes, n: Bytes)
    requires |y| == 4 && |m| == 2 && |n| == 2
    ensures var t := Decode(y + m + n);
            |t| == 8 && t[0..4] == Decode(y) && t[4..6] == Decode(m) && t[6..8] == Decode(n)
  {
  }

  lemma FixedReads(b: Bytes, more: Bytes, t: RecordType)
    requires |b| == FixedLen(t) && !t.Type52? && !t.UnknownType? && RecordTypeOf(b[..2]) == t
    requires ParseFields(t, b[..STANDARD_LEN]).Success?
    ensures Head(b + more) == Success(Read(ParseFields(t, b[..STANDARD_LEN]).value, FixedLen(t)))
  {
    hide ParseFields, RecordTypeOf;
    assert (b + more)[..2] == b[..2];
    assert (b + more)[..STANDARD_LEN] == b[..STANDARD_LEN];
  }

  /** A check: number in columns 3-17, routing in 19-26, account in 28-47, amount in 48-57. */
  lemma CheckReads(b: Bytes, more: Bytes, routing: Bytes, account: Bytes, checkNumber: Bytes, cents: nat)
    requires IsFieldText(routing, 8) && IsFieldText(account, 20) && IsFieldText(checkNumber, 15) && cents < Pow10(10)
    requires |b| == 80 && b[..2] == [0x32, 0x35]
    requires b[2..17] == Field(checkNumber, 15) && b[18..26] == Field(routing, 8)
    requires b[27..47] == Field(account, 20) && b[47..57] == Digits(cents, 10)
    ensures Head(b + more) == Success(Read(Check(routing, account, checkNumber, cents), 80))
  {
    hide ParseIntOrZero, ParseInt, Decode, Strip, Digits, Field, Pow10, IsFieldText;
    FieldRoundTrip(checkNumber, 15);
    FieldRoundTrip(routing, 8);
    FieldRoundTrip(account, 20);
    DigitsRoundTrip(cents, 10);
    assert b[..STANDARD_LEN] == b;
    FixedReads(b, more, Type25);
  }

  /** A cash-letter header: the business date in columns 22-29. */
  lemma LetterHeaderReads(b: Bytes, more: Bytes, date: Date)
    requires |b| == 80 && b[..2] == [0x31, 0x30] && IsDate(date) && b[21..29] == PrintDate(date)
    ensures Head(b + more) == Success(Read(CashLetterHeader(Some(date)), 80))
  {
    hide ParseBusinessDate, Decode, Strip, Digits, PrintDate;
    PrintedDateReads(date);
    assert b[..STANDARD_LEN] == b;
    FixedReads(b, more, Type10);
  }

  /** The three controls: the count, then the amount, each at its own columns. */
  lemma ControlReads(b: Bytes, more: Bytes, scope: Scope, t: Totals)
    requires |b| == 80 && TotalsFit(scope, t)
    requires scope == Bundle ==>
               b[..2] == [0x37, 0x30] && b[2..6] == Digits(t.items, 4) && b[6..18] == Digits(t.cents, 12)
    requires scope == CashLetter ==>
               b[..2] == [0x39, 0x30] && b[8..16] == Digits(t.items, 8) && b[16..30] == Digits(t.cents, 14)
    requires scope == File ==>
               b[..2] == [0x39, 0x39] && b[16..24] == Digits(t.items, 8) && b[24..39] == Digits(t.cents, 15)
    ensures Head(b + more) == Success(Read(Control(scope, t), 80))
  {
    hide ParseIntOrZero, ParseInt, Decode, Digits, Pow10;
    DigitsRoundTrip(t.items, CountWidth(scope));
    DigitsRoundTrip(t.cents, AmountWidth(scope));
    assert b[..STANDARD_LEN] == b;
    FixedReads(b, more, if scope.Bundle? then Type70 else if scope.CashLetter? then Type90 else Type99);
  }

  /** Bundle headers and image views are read as such whatever they hold. */
  lemma PlainReads(b: Bytes, more: Bytes)
    ensures |b| == 80 && b[..2] == [0x32, 0x30] ==> Head(b + more) == Success(Read(BundleHeader, 80))
    ensures |b| == 200 && b[..2] == [0x35, 0x30] ==> Head(b + more) == Success(Read(ImageView, 200))
  {
    if |b| == 80 && b[..2] == [0x32, 0x30] { FixedReads(b, more, Type20); }
    if |b| == 200 && b[..2] == [0x35, 0x30] { FixedReads(b, more, Type50); }
  }

  /** An image: its length in columns 117-126, and the image behind them. */
  lemma ImageReads(b: Bytes, image: Bytes, more: Bytes)
    requires |b| == 126 && |image| < Pow10(10)
    requires b[..2] == [0x35, 0x32] && b[116..126] == Digits(|image|, 10)
    ensures Head(b + image + more) == Success(Read(ImageData(image), 126 + |image|))
  {
    hide ParseInt, Decode, Digits, Pow10;
    var s := b + image + more;
    DigitsRoundTrip(|image|, 10);
    assert s[..2] == b[..2];
    assert s[IMAGE_LENGTH_AT..IMAGE_HEADER_LEN] == b[116..126];
    assert s[IMAGE_HEADER_LEN..IMAGE_HEADER_LEN + |image|] == image;
  }

  // ---- Reading a printed record back ----

  lemma PrintedCheckReads(routing: Bytes, account: Bytes, checkNumber: Bytes, cents: nat, more: Bytes)
    requires IsFieldText(routing, 8) && IsFieldText(account, 20) && IsFieldText(checkNumber, 15) && cents < Pow10(10)
    ensures Head(PrintCheck(routing, account, checkNumber, cents) + more) ==
            Success(Read(Check(routing, account, checkNumber, cents), STANDARD_LEN))
  {
    hide ParseIntOrZero, ParseInt, Decode, Strip, Digits, Field, Pow10, Head;
    var b := PrintCheck(routing, account, checkNumber, cents);
    var c, r, a, d := Field(checkNumber, 15), Field(routing, 8), Field(account, 20), Digits(cents, 10);
    var code: Bytes := [0x32, 0x35];
    assert b == code + c + (Blanks(1) + r + Blanks(1) + a + d + Blanks(23));
    assert b[2..17] == c;
    assert b == (code + c + Blanks(1)) + r + (Blanks(1) + a + d + Blanks(23));
    assert b[18..26] == r;
    assert b == (code + c + Blanks(1) + r + Blanks(1)) + a + (d + Blanks(23));
    assert b[27..47] == a;
    assert b == (code + c + Blanks(1) + r + Blanks(1) + a) + d + Blanks(23);
    assert b[47..57] == d;
    CheckReads(b, more, routing, account, checkNumber, cents);
  }

  lemma PrintedControlReads(scope: Scope, t: Totals, more: Bytes)
    requires TotalsFit(scope, t)
    ensures Head(PrintControl(scope, t) + more) == Success(Read(Control(scope, t), STANDARD_LEN))
  {
    hide Head, Digits, Pow10;
    var b := PrintControl(scope, t);
    var count, amount := Digits(t.items, CountWidth(scope)), Digits(t.cents, AmountWidth(scope));
    match scope {
      case Bundle => assert b[2..6] == count && b[6..18] == amount;
      case CashLetter => assert b[8..16] == count && b[16..30] == amount;
      case File => assert b[16..24] == count && b[24..39] == amount;
    }
    ControlReads(b, more, scope, t);
  }

  lemma PrintedImageReads(image: Bytes, more: Bytes)
    requires |image| < Pow10(10)
    ensures Head(Print(ImageData(image)) + more) == Success(Read(ImageData(image), IMAGE_HEADER_LEN + |image|))
  {
    hide Head, Digits, Pow10;
    var length := Digits(|image|, 10);
    var b := [0x35, 0x32] + Blanks(114) + length;
    assert b[116..126] == length;
    ImageReads(b, image, more);
  }

  lemma PrintedSkippedReads(b: Bytes, more: Bytes)
    requires |b| == STANDARD_LEN && IsSkippedCode(b[..2])
    ensures Head(b + more) == Success(Read(Skipped(b), STANDARD_LEN))
  {
    assert b[..STANDARD_LEN] == b;
    FixedReads(b, more, SkippedType);
  }

  /** Whatever follows a printed record, the record is read back whole. */
  lemma PrintReads(r: Record, more: Bytes)
    requires Printable(r)
    ensures Head(Print(r) + more) == Success(Read(r, |Print(r)|))
  {
    hide Head, Digits, Pow10, PrintCheck, PrintControl, PrintDate, IsFieldText;
    var b := Print(r);
    match r
    case Check(routing, account, checkNumber, cents) =>
      PrintedCheckReads(routing, account, checkNumber, cents, more);
    case CashLetterHeader(date) =>
      assert b[21..29] == PrintDate(date.value);
      LetterHeaderReads(b, more, date.value);
    case Control(scope, declared) =>
      PrintedControlReads(scope, declared, more);
    case ImageData(image) =>
      PrintedImageReads(image, more);
    case BundleHeader =>
      PlainReads(b, more);
    case ImageView =>
      PlainReads(b, more);
    case Skipped(bytes) =>
      PrintedSkippedReads(bytes, more);
  }
}
