/** NACHA lines as text, and how the parser reads them back. */
module NachaPrinter {
  import opened Wrappers
  import opened PythonText
  import opened Calendar
  import opened Nacha

  // ---- What can be printed ----

  predicate IsPrintableEntry(e: Entry) {
    && |e.code| == 2 && 0 <= e.code[0] < 128 && 0 <= e.code[1] < 128
    && 0 <= e.dfi < Pow10(8) && 0 <= e.cents < Pow10(10)
    && IsAscii(e.account) && e.account != [] && IsFieldText(e.account, 17)
    && (e.individualId.Some? ==> (
          IsAscii(e.individualId.value) && e.individualId.value != [] && IsFieldText(e.individualId.value, 15)))
    && IsAscii(e.trace) && IsFieldText(e.trace, 15)
  }

  predicate IsAscii(t: Text) {
    forall i :: 0 <= i < |t| ==> 0 <= t[i] < 128
  }

  /** Two-digit years stand for 1980 to 2079. */
  predicate IsPrintableBatch(b: Batch) {
    && IsAscii(b.companyName) && IsFieldText(b.companyName, 16)
    && IsAscii(b.companyId) && IsFieldText(b.companyId, 10)
    && IsAscii(b.secCode) && IsFieldText(b.secCode, 3)
    && IsDate(b.effectiveDate) && 1980 <= b.effectiveDate.year < 2080
  }

  predicate Fits(s: Sums, countWidth: nat) {
    0 <= s.count < Pow10(countWidth) && 0 <= s.hash < Pow10(10) && 0 <= s.debit < Pow10(12) && 0 <= s.credit < Pow10(12)
  }

  // ---- Printing ----

  /** A line is its fields, one after the other. */
  function Concat(fields: seq<Bytes>): Bytes {
    if fields == [] then [] else Concat(fields[..|fields| - 1]) + fields[|fields| - 1]
  }

  /** The column at which field `k` begins. */
  function Start(fields: seq<Bytes>, k: nat): nat
    requires k <= |fields|
  {
    if k == 0 then 0 else Start(fields, k - 1) + |fields[k - 1]|
  }

  lemma {:induction false} StartOfPrefix(fields: seq<Bytes>, n: nat, k: nat)
    requires k <= n <= |fields|
    ensures Start(fields[..n], k) == Start(fields, k)
  {
    if k > 0 { StartOfPrefix(fields, n, k - 1); }
  }

  lemma {:induction false} ConcatLength(fields: seq<Bytes>)
    ensures |Concat(fields)| == Start(fields, |fields|)
  {
    if fields != [] {
      ConcatLength(fields[..|fields| - 1]);
      StartOfPrefix(fields, |fields| - 1, |fields| - 1);
    }
  }

  lemma {:induction false} FieldAt(fields: seq<Bytes>, k: nat)
    requires k < |fields|
    ensures Start(fields, k) + |fields[k]| <= |Concat(fields)|
    ensures Concat(fields)[Start(fields, k)..Start(fields, k) + |fields[k]|] == fields[k]
  {
    var n := |fields| - 1;
    ConcatLength(fields[..n]);
    StartOfPrefix(fields, n, n);
    if k < n {
      FieldAt(fields[..n], k);
      StartOfPrefix(fields, n, k);
    }
  }

  function EntryFields(e: Entry): seq<Bytes>
    requires IsPrintableEntry(e)
  {
    [[CODE_6], e.code, Digits(e.dfi, 8), Blanks(1), Field(e.account, 17), Digits(e.cents, 10),
     Field(if e.individualId.Some? then e.individualId.value else [], 15), Blanks(25), Field(e.trace, 15)]
  }

  function PrintYymmdd(d: Date): (b: Bytes)
    requires IsDate(d)
    ensures |b| == 6
  {
    Digits(d.year % 100, 2) + Digits(d.month, 2) + Digits(d.day, 2)
  }

  function HeaderFields(h: Batch): seq<Bytes>
    requires IsPrintableBatch(h)
  {
    [[CODE_5], Blanks(3), Field(h.companyName, 16), Blanks(20), Field(h.companyId, 10), Field(h.secCode, 3),
     Blanks(16), PrintYymmdd(h.effectiveDate), Blanks(19)]
  }

  /** A control record: its code, `lead` blanks, the count in `width` digits, the other sums. */
  function ControlFields(code: Byte, lead: nat, width: nat, s: Sums, trail: nat): seq<Bytes>
    requires Fits(s, width)
  {
    [[code], Blanks(lead), Digits(s.count, width), Digits(s.hash, 10), Digits(s.debit, 12), Digits(s.credit, 12),
     Blanks(trail)]
  }

  function PrintEntry(e: Entry): Text
    requires IsPrintableEntry(e)
  {
    Decode(Concat(EntryFields(e)))
  }

  function PrintHeader(h: Batch): Text
    requires IsPrintableBatch(h)
  {
    Decode(Concat(HeaderFields(h)))
  }

  function PrintBatchControl(s: Sums): Text
    requires Fits(s, 6)
  {
    Decode(Concat(ControlFields(CODE_8, 3, 6, s, 50)))
  }

  function PrintFileControl(s: Sums): Text
    requires Fits(s, 8)
  {
    Decode(Concat(ControlFields(CODE_9, 12, 8, s, 39)))
  }

  // ---- Reading one line back ----

  lemma NotBlankText(t: Text)
    requires t != [] && 0x30 <= t[0] <= 0x39
    ensures Strip(t) != []
  {
    var _, _ := StripMeans(t);
  }

  /** A field of a printed line, in the text of the line. */
  lemma TextAt(fields: seq<Bytes>, k: nat)
    requires k < |fields|
    ensures var a := Start(fields, k);
            a + |fields[k]| <= |Concat(fields)| && Decode(Concat(fields))[a..a + |fields[k]|] == Decode(fields[k])
  {
    hide Concat, Start;
    FieldAt(fields, k);
    var b, a := Concat(fields), Start(fields, k);
    assert Decode(b)[a..a + |fields[k]|] == Decode(b[a..a + |fields[k]|]);
  }

  lemma BeginsWith(fields: seq<Bytes>, code: Byte)
    requires fields != [] && fields[0] == [code] && code < 128
    ensures var t := Decode(Concat(fields)); t != [] && t[0] == code
  {
    hide Concat;
    FieldAt(fields, 0);
    assert Start(fields, 0) == 0;
    assert Decode(Concat(fields))[0] == Concat(fields)[0..1][0];
  }

  lemma PlainText(b: Bytes)
    requires forall i :: 0 <= i < |b| ==> b[i] < 128
    ensures Decode(b) == b
  {
  }

  /** An entry by its columns, whatever the other columns hold: code in 2-3, routing in 4-11,
      account in 13-29, amount in 30-39, individual in 40-54, trace in 80-94. */
  lemma EntryColumnsRead(t: Text, e: Entry)
    requires IsPrintableEntry(e) && |t| >= 94 && t[0] == 0x36
    requires t[1..3] == e.code && t[3..11] == Decode(Digits(e.dfi, 8)) && t[12..29] == Decode(Field(e.account, 17))
    requires t[29..39] == Decode(Digits(e.cents, 10)) && t[79..94] == Decode(Field(e.trace, 15))
    requires t[39..54] == Decode(Field(match e.individualId case Some(id) => id case None => [], 15))
    ensures ReadLine(t, true) == Success(EntryDetail(e))
  {
    NotBlankText(t);
    DigitsRoundTrip(e.dfi, 8);
    DigitsRoundTrip(e.cents, 10);
    FieldRoundTrip(e.account, 17);
    FieldRoundTrip(if e.individualId.Some? then e.individualId.value else [], 15);
    FieldRoundTrip(e.trace, 15);
    hide ParseIntOrZero, ParseInt, Strip, Digits, Field, Blanks, Decode, Pow10, ReadHeader, ReadControl;
  }

  lemma EntryReads(e: Entry)
    requires IsPrintableEntry(e)
    ensures ReadLine(PrintEntry(e), true) == Success(EntryDetail(e))
  {
    BeginsWith(EntryFields(e), CODE_6);
    EntryCuts(e);
    hide ReadLine, IsPrintableEntry, Digits, Field;
    EntryColumnsRead(PrintEntry(e), e);
  }

  lemma EntryCuts(e: Entry)
    requires IsPrintableEntry(e)
    ensures |PrintEntry(e)| == LINE_LEN
    ensures var t := PrintEntry(e);
            var id := if e.individualId.Some? then e.individualId.value else [];
            && t[1..3] == e.code && t[3..11] == Decode(Digits(e.dfi, 8)) && t[12..29] == Decode(Field(e.account, 17))
            && t[29..39] == Decode(Digits(e.cents, 10)) && t[39..54] == Decode(Field(id, 15))
            && t[79..94] == Decode(Field(e.trace, 15))
  {
    var f := EntryFields(e);
    PlainText(e.code);
    ConcatLength(f);
    TextAt(f, 1);
    TextAt(f, 2);
    TextAt(f, 4);
    TextAt(f, 5);
    TextAt(f, 6);
    TextAt(f, 8);
    assert Start(f, 1) == 1 && Start(f, 2) == 3 && Start(f, 3) == 11;
    assert Start(f, 4) == 12 && Start(f, 5) == 29 && Start(f, 6) == 39;
    assert Start(f, 7) == 54 && Start(f, 8) == 79 && Start(f, 9) == 94;
    hide Concat, Digits, Field, Decode, Pow10, Blanks;
  }

  /** A batch header by its columns: company name in 5-20, company id in 41-50, class code in
      51-53, effective date in 70-75. */
  lemma HeaderColumnsRead(t: Text, h: Batch, inBatch: bool)
    requires IsPrintableBatch(h) && |t| >= 94 && t[0] == 0x35
    requires t[4..20] == Decode(Field(h.companyName, 16)) && t[40..50] == Decode(Field(h.companyId, 10))
    requires t[50..53] == Decode(Field(h.secCode, 3)) && t[69..75] == Decode(PrintYymmdd(h.effectiveDate))
    ensures ReadLine(t, inBatch) == Success(BatchHeader(h))
  {
    NotBlankText(t);
    FieldRoundTrip(h.companyName, 16);
    FieldRoundTrip(h.companyId, 10);
    FieldRoundTrip(h.secCode, 3);
    DateReads(h.effectiveDate);
    hide ParseYymmdd, Strip, Field, Blanks, Decode, PrintYymmdd, ReadEntry, ReadControl;
  }

  lemma HeaderReads(h: Batch, inBatch: bool)
    requires IsPrintableBatch(h)
    ensures ReadLine(PrintHeader(h), inBatch) == Success(BatchHeader(h))
  {
    BeginsWith(HeaderFields(h), CODE_5);
    HeaderCuts(h);
    hide ReadLine, HeaderFields, Field, Decode, PrintYymmdd, IsPrintableBatch;
    HeaderColumnsRead(PrintHeader(h), h, inBatch);
  }

  lemma HeaderCuts(h: Batch)
    requires IsPrintableBatch(h)
    ensures |PrintHeader(h)| == LINE_LEN
    ensures var t := PrintHeader(h);
            && t[4..20] == Decode(Field(h.companyName, 16)) && t[40..50] == Decode(Field(h.companyId, 10))
            && t[50..53] == Decode(Field(h.secCode, 3)) && t[69..75] == Decode(PrintYymmdd(h.effectiveDate))
  {
    var f := HeaderFields(h);
    ConcatLength(f);
    TextAt(f, 2);
    TextAt(f, 4);
    TextAt(f, 5);
    TextAt(f, 7);
    assert Start(f, 1) == 1 && Start(f, 2) == 4 && Start(f, 3) == 20;
    assert Start(f, 4) == 40 && Start(f, 5) == 50 && Start(f, 6) == 53;
    assert Start(f, 7) == 69 && Start(f, 8) == 75 && Start(f, 9) == 94;
    hide Concat, Field, Decode, Blanks;
  }

  lemma TwoDigits(n: nat)
    requires n < 100
    ensures Digits(n, 2) == [ZERO + n / 10, ZERO + n % 10]
  {
    assert Digits(n / 10 / 10, 0) == [];
    assert Digits(n / 10, 1) == [ZERO + n / 10];
  }

  lemma DateReads(d: Date)
    requires IsDate(d) && 1980 <= d.year < 2080
    ensures ParseYymmdd(Strip(Decode(PrintYymmdd(d)))) == Some(d)
  {
    var b := PrintYymmdd(d);
    TwoDigits(d.year % 100);
    TwoDigits(d.month);
    TwoDigits(d.day);
    hide Digits, Strip;
    var t := Decode(b);
    forall i | 0 <= i < 6 ensures IsDigit(t[i]) { assert t[i] == b[i]; }
    IntOfDigits(t);
  }

  /** The value of two digits. */
  function Two(raw: Text, i: nat): int
    requires i + 2 <= |raw|
  {
    10 * (raw[i] - 0x30) + raw[i + 1] - 0x30
  }

  /** Read as a date are exactly six digits that name a real day from 1980 to 2079. */
  lemma DatesReadAre(raw: Text, d: Date)
    ensures ParseYymmdd(raw) == Some(d) <==>
            && |raw| == 6 && (forall i :: 0 <= i < 6 ==> 0x30 <= raw[i] <= 0x39)
            && IsDate(d) && 1980 <= d.year < 2080
            && d.year % 100 == Two(raw, 0) && d.month == Two(raw, 2) && d.day == Two(raw, 4)
  {
    hide IsDate;
  }

  /** The sums at four neighbouring stretches of columns. */
  lemma SumsRead(t: Text, a: nat, width: nat, s: Sums)
    requires 0 < width && Fits(s, width) && a + width + 34 <= |t|
    requires t[a..a + width] == Decode(Digits(s.count, width))
    requires t[a + width..a + width + 10] == Decode(Digits(s.hash, 10))
    requires t[a + width + 10..a + width + 22] == Decode(Digits(s.debit, 12))
    requires t[a + width + 22..a + width + 34] == Decode(Digits(s.credit, 12))
    ensures ReadControl(t, a, a + width, a + width + 10, a + width + 22, a + width + 34) == Some(s)
  {
    DigitsRoundTrip(s.count, width);
    DigitsRoundTrip(s.hash, 10);
    DigitsRoundTrip(s.debit, 12);
    DigitsRoundTrip(s.credit, 12);
    hide Digits, ParseIntOrZero, ParseInt, Decode, Pow10;
  }

  /** A batch control: the count in columns 5-10, the hash in 11-20, the amounts in 21-44. */
  lemma BatchControlColumnsRead(t: Text, s: Sums, inBatch: bool)
    requires Fits(s, 6) && |t| >= 94 && t[0] == 0x38
    requires t[4..10] == Decode(Digits(s.count, 6)) && t[10..20] == Decode(Digits(s.hash, 10))
    requires t[20..32] == Decode(Digits(s.debit, 12)) && t[32..44] == Decode(Digits(s.credit, 12))
    ensures ReadLine(t, inBatch) == Success(BatchControl(s))
  {
    NotBlankText(t);
    SumsRead(t, 4, 6, s);
    hide ReadControl, Strip, Decode, ReadHeader, ReadEntry;
  }

  /** The file control: the count in columns 14-21, the hash in 22-31, the amounts in 32-55. */
  lemma FileControlColumnsRead(t: Text, s: Sums, inBatch: bool)
    requires Fits(s, 8) && |t| >= 94 && t[0] == 0x39
    requires t[13..21] == Decode(Digits(s.count, 8)) && t[21..31] == Decode(Digits(s.hash, 10))
    requires t[31..43] == Decode(Digits(s.debit, 12)) && t[43..55] == Decode(Digits(s.credit, 12))
    ensures ReadLine(t, inBatch) == Success(FileControl(s))
  {
    NotBlankText(t);
    SumsRead(t, 13, 8, s);
    hide ReadControl, Strip, Decode, ReadHeader, ReadEntry;
  }

  lemma ControlCuts(code: Byte, lead: nat, width: nat, s: Sums, trail: nat)
    requires 0 < width && Fits(s, width)
    ensures var t := Decode(Concat(ControlFields(code, lead, width, s, trail)));
            var x := 1 + lead;
            && |t| == x + width + 34 + trail
            && t[x..x + width] == Decode(Digits(s.count, width))
            && t[x + width..x + width + 10] == Decode(Digits(s.hash, 10))
            && t[x + width + 10..x + width + 22] == Decode(Digits(s.debit, 12))
            && t[x + width + 22..x + width + 34] == Decode(Digits(s.credit, 12))
  {
    var f := ControlFields(code, lead, width, s, trail);
    ConcatLength(f);
    TextAt(f, 2);
    TextAt(f, 3);
    TextAt(f, 4);
    TextAt(f, 5);
    assert Start(f, 1) == 1 && Start(f, 2) == 1 + lead && Start(f, 3) == 1 + lead + width;
    assert Start(f, 4) == 11 + lead + width && Start(f, 5) == 23 + lead + width && Start(f, 6) == 35 + lead + width;
    assert Start(f, 7) == 35 + lead + width + trail;
    hide Concat, Digits, Decode, Pow10, Blanks;
  }

  lemma BatchControlReads(s: Sums, inBatch: bool)
    requires Fits(s, 6)
    ensures ReadLine(PrintBatchControl(s), inBatch) == Success(BatchControl(s))
  {
    BeginsWith(ControlFields(CODE_8, 3, 6, s, 50), CODE_8);
    ControlCuts(CODE_8, 3, 6, s, 50);
    hide ReadLine, Concat, ControlFields, Decode, Digits, Pow10;
    BatchControlColumnsRead(PrintBatchControl(s), s, inBatch);
  }

  lemma FileControlReads(s: Sums, inBatch: bool)
    requires Fits(s, 8)
    ensures ReadLine(PrintFileControl(s), inBatch) == Success(FileControl(s))
  {
    BeginsWith(ControlFields(CODE_9, 12, 8, s, 39), CODE_9);
    ControlCuts(CODE_9, 12, 8, s, 39);
    hide ReadLine, Concat, ControlFields, Decode, Digits, Pow10;
    FileControlColumnsRead(PrintFileControl(s), s, inBatch);
  }
}
