/** The NACHA parser: 94-column lines, batches opened by a type 5 record and closed by a
    type 8, a type 9 for the whole file, and control totals checked at both levels. */
module Nacha {
  import opened Wrappers
  import opened PythonText
  import opened Calendar

  datatype Sums = Sums(count: int, hash: int, debit: int, credit: int)

  datatype Batch = Batch(companyName: Text, companyId: Text, secCode: Text, effectiveDate: Date)

  datatype Entry = Entry(account: Text, cents: int, individualId: Option<Text>, code: Text, trace: Text, dfi: int)

  datatype Line =
    | BatchHeader(batch: Batch)
    | EntryDetail(entry: Entry)
    | BatchControl(declared: Sums)
    | FileControl(declared: Sums)
    | Ignored

  datatype NachaEntry = NachaEntry(lineNumber: nat, entry: Entry, batch: Batch)

  datatype Column = CountColumn | HashColumn | DebitColumn | CreditColumn

  datatype Kind =
    | EntryBeforeBatch
    | NoAccount
    | InvalidAmount
    | NonNumericDfi       // the one that escapes as a bare ValueError
    | InvalidDate
    | NonNumericControl
    | Mismatch(file: bool, column: Column)
    | NoEntries

  datatype NachaError = NachaError(kind: Kind, lineNumber: nat)

  const LINE_LEN := 94
  const HASH_MODULUS := 10_000_000_000
  const ZERO_SUMS := Sums(0, 0, 0, 0)

  const CODE_5 := 0x35
  const CODE_6 := 0x36
  const CODE_8 := 0x38
  const CODE_9 := 0x39

  predicate IsCredit(code: Text) {
    code in {[0x32, 0x32], [0x32, 0x33], [0x32, 0x34], [0x33, 0x32], [0x33, 0x33], [0x33, 0x34]}
  }

  predicate IsDebit(code: Text) {
    code in {[0x32, 0x37], [0x32, 0x38], [0x32, 0x39], [0x33, 0x37], [0x33, 0x38], [0x33, 0x39]}
  }

  /** The codes of a checking account begin with 2, of a savings account with 3. */
  lemma CodesAre(a: int, b: int)
    ensures IsCredit([a, b]) <==> a in {0x32, 0x33} && 0x32 <= b <= 0x34
    ensures IsDebit([a, b]) <==> a in {0x32, 0x33} && 0x37 <= b <= 0x39
  {
  }

  datatype TransactionType = Debit | Credit

  /** None: the transaction code is not supported. */
  function TransactionTypeForCode(code: Text): Option<TransactionType> {
    if IsCredit(code) then Some(Credit) else if IsDebit(code) then Some(Debit) else None
  }

  // ---- Reading one line ----

  function Pad(line: Text): (t: Text)
    ensures |t| >= LINE_LEN
  {
    if |line| >= LINE_LEN then line else line + seq(LINE_LEN - |line|, _ => 0x20)
  }

  function ParseYymmdd(raw: Text): Option<Date> {
    if |raw| != 6 || exists i :: 0 <= i < 6 && !IsDigit(raw[i]) then None
    else
      var yy := 10 * (raw[0] - 0x30) + raw[1] - 0x30;
      var date := Date(if yy < 80 then 2000 + yy else 1900 + yy,
                       10 * (raw[2] - 0x30) + raw[3] - 0x30, 10 * (raw[4] - 0x30) + raw[5] - 0x30);
      if IsDate(date) then Some(date) else None
  }

  function ReadHeader(t: Text): Result<Line, Kind>
    requires |t| >= LINE_LEN
  {
    var date := ParseYymmdd(Strip(t[69..75]));
    if date.None? then Failure(InvalidDate)
    else Success(BatchHeader(Batch(Strip(t[4..20]), Strip(t[40..50]), Strip(t[50..53]), date.value)))
  }

  function ReadEntry(t: Text): Result<Line, Kind>
    requires |t| >= LINE_LEN
  {
    var account := Strip(t[12..29]);
    var cents := ParseInt(t[29..39]);
    var dfi := ParseIntOrZero(t[3..11]);
    var individualId := Strip(t[39..54]);
    if account == [] then Failure(NoAccount)
    else if cents.None? then Failure(InvalidAmount)
    else if dfi.None? then Failure(NonNumericDfi)
    else
      Success(EntryDetail(Entry(account, cents.value, if individualId == [] then None else Some(individualId),
                                t[1..3], Strip(t[79..94]), dfi.value)))
  }

  function ReadControl(t: Text, a: nat, b: nat, c: nat, d: nat, e: nat): Option<Sums>
    requires a <= b <= c <= d <= e <= |t|
  {
    var count, hash := ParseIntOrZero(t[a..b]), ParseIntOrZero(t[b..c]);
    var debit, credit := ParseIntOrZero(t[c..d]), ParseIntOrZero(t[d..e]);
    if count.None? || hash.None? || debit.None? || credit.None? then None
    else Some(Sums(count.value, hash.value, debit.value, credit.value))
  }

  function ReadLine(raw: Text, inBatch: bool): (r: Result<Line, Kind>)
    ensures r.Success? && r.value.EntryDetail? ==> inBatch
  {
    if Strip(raw) == [] then Success(Ignored)
    else
      var t := Pad(raw);
      if t[0] == CODE_5 then ReadHeader(t)
      else if t[0] == CODE_6 then
        if !inBatch then Failure(EntryBeforeBatch) else ReadEntry(t)
      else if t[0] == CODE_8 then
        var sums := ReadControl(t, 4, 10, 20, 32, 44);
        if sums.None? then Failure(NonNumericControl) else Success(BatchControl(sums.value))
      else if t[0] == CODE_9 then
        var sums := ReadControl(t, 13, 21, 31, 43, 55);
        if sums.None? then Failure(NonNumericControl) else Success(FileControl(sums.value))
      else Success(Ignored)
  }

  // ---- What a sequence of read lines means ----

  function Contribution(e: Entry): Sums {
    Sums(1, e.dfi, if IsDebit(e.code) then e.cents else 0, if !IsDebit(e.code) && IsCredit(e.code) then e.cents else 0)
  }

  function Add(a: Sums, b: Sums): Sums {
    Sums(a.count + b.count, a.hash + b.hash, a.debit + b.debit, a.credit + b.credit)
  }

  function SumOf(recs: seq<Line>): Sums {
    if recs == [] then ZERO_SUMS
    else
      var last := recs[|recs| - 1];
      Add(SumOf(recs[..|recs| - 1]), if last.EntryDetail? then Contribution(last.entry) else ZERO_SUMS)
  }

  /** Just behind the last batch header among the first `n` lines, or the start. */
  function BatchStart(recs: seq<Line>, n: nat): (i: nat)
    requires n <= |recs|
    ensures i <= n
  {
    if n == 0 then 0 else if recs[n - 1].BatchHeader? then n else BatchStart(recs, n - 1)
  }

  /** The batch that is open behind the first `n` lines. */
  function OpenBatch(recs: seq<Line>, n: nat): Option<Batch>
    requires n <= |recs|
  {
    if n == 0 then None
    else
      match recs[n - 1]
      case BatchHeader(b) => Some(b)
      case BatchControl(_) => None
      case _ => OpenBatch(recs, n - 1)
  }

  /** What a control record must declare: the hash only to its ten low-order digits. */
  function Declarable(s: Sums): Sums {
    s.(hash := s.hash % HASH_MODULUS)
  }

  function BatchSum(recs: seq<Line>, n: nat): Sums
    requires n <= |recs|
  {
    SumOf(recs[BatchStart(recs, n)..n])
  }

  predicate LineAgrees(recs: seq<Line>, i: nat)
    requires i < |recs|
  {
    && (recs[i].BatchControl? ==> recs[i].declared == Declarable(BatchSum(recs, i)))
    && (recs[i].FileControl? ==> recs[i].declared == Declarable(SumOf(recs[..i])))
  }

  predicate ControlsAgree(recs: seq<Line>) {
    forall i :: 0 <= i < |recs| ==> LineAgrees(recs, i)
  }

  /** Each entry with its 1-based line number and the batch header it stands under. */
  function EntriesOf(recs: seq<Line>): seq<NachaEntry> {
    if recs == [] then []
    else
      var n := |recs| - 1;
      EntriesOf(recs[..n]) +
      if recs[n].EntryDetail? && OpenBatch(recs, n).Some?
      then [NachaEntry(n + 1, recs[n].entry, OpenBatch(recs, n).value)] else []
  }

  /** All the lines read in turn, or None at the first that cannot be. */
  function ReadAll(lines: seq<Text>): (r: Option<seq<Line>>)
    ensures r.Some? ==> |r.value| == |lines|
  {
    if lines == [] then Some([])
    else
      var n := |lines| - 1;
      var before := ReadAll(lines[..n]);
      if before.None? then None
      else
        var last := ReadLine(lines[n], OpenBatch(before.value, n).Some?);
        if last.Failure? then None else Some(before.value + [last.value])
  }

  // ---- The running state of the parser ----

  datatype State = State(entries: seq<NachaEntry>, batch: Option<Batch>, batchSums: Sums, fileSums: Sums)

  function FirstMismatch(declared: Sums, actual: Sums): Option<Column> {
    if declared.count != actual.count then Some(CountColumn)
    else if declared.hash != actual.hash % HASH_MODULUS then Some(HashColumn)
    else if declared.debit != actual.debit then Some(DebitColumn)
    else if declared.credit != actual.credit then Some(CreditColumn)
    else None
  }

  function Step(s: State, raw: Text, lineNumber: nat): Result<State, NachaError> {
    var read := ReadLine(raw, s.batch.Some?);
    if read.Failure? then Failure(NachaError(read.error, lineNumber))
    else
      match read.value
      case BatchHeader(b) => Success(s.(batch := Some(b), batchSums := ZERO_SUMS))
      case EntryDetail(e) =>
        Success(State(s.entries + [NachaEntry(lineNumber, e, s.batch.value)], s.batch,
                      Add(s.batchSums, Contribution(e)), Add(s.fileSums, Contribution(e))))
      case BatchControl(declared) =>
        var column := FirstMismatch(declared, s.batchSums);
        if column.Some? then Failure(NachaError(Mismatch(false, column.value), lineNumber))
        else Success(s.(batch := None))
      case FileControl(declared) =>
        var column := FirstMismatch(declared, s.fileSums);
        if column.Some? then Failure(NachaError(Mismatch(true, column.value), lineNumber)) else Success(s)
      case Ignored => Success(s)
  }

  const START := State([], None, ZERO_SUMS, ZERO_SUMS)

  /** The state after the first `n` lines, or the first error among them. */
  function Run(lines: seq<Text>, n: nat): Result<State, NachaError>
    requires n <= |lines|
  {
    if n == 0 then Success(START)
    else
      var before := Run(lines, n - 1);
      if before.Failure? then before else Step(before.value, lines[n - 1], n)
  }

  function Parse(lines: seq<Text>): Result<seq<NachaEntry>, NachaError> {
    var end := Run(lines, |lines|);
    if end.Failure? then Failure(end.error)
    else if end.value.entries == [] then Failure(NachaError(NoEntries, |lines|))
    else Success(end.value.entries)
  }

  // ---- The parser, with its mutable running totals ----

  class RunningTotals {
    var entryCount: int
    var entryHashSum: int
    var totalDebitCents: int
    var totalCreditCents: int

    function Value(): Sums
      reads this
    {
      Sums(entryCount, entryHashSum, totalDebitCents, totalCreditCents)
    }

    constructor ()
      ensures Value() == ZERO_SUMS
    {
      entryCount, entryHashSum, totalDebitCents, totalCreditCents := 0, 0, 0, 0;
    }

    method AddEntry(receivingDfi: int, code: Text, cents: int)
      modifies this
      ensures Value() == Add(old(Value()), Contribution(Entry([], cents, None, code, [], receivingDfi)))
    {
      entryCount := entryCount + 1;
      entryHashSum := entryHashSum + receivingDfi;
      if IsDebit(code) {
        totalDebitCents := totalDebitCents + cents;
      } else if IsCredit(code) {
        totalCreditCents := totalCreditCents + cents;
      }
    }
  }

  method ParseNachaFile(lines: seq<Text>) returns (r: Result<seq<NachaEntry>, NachaError>)
    ensures r == Parse(lines)
  {
    hide ReadLine, FirstMismatch, Contribution;
    var entries: seq<NachaEntry> := [];
    var batch: Option<Batch> := None;
    var batchTotals := new RunningTotals();
    var fileTotals := new RunningTotals();
    for i := 0 to |lines|
      invariant batchTotals != fileTotals && fresh(batchTotals) && fresh(fileTotals)
      invariant Run(lines, i) == Success(State(entries, batch, batchTotals.Value(), fileTotals.Value()))
    {
      var read := ReadLine(lines[i], batch.Some?);
      if read.Failure? {
        FailsForGood(lines, i + 1);
        return Failure(NachaError(read.error, i + 1));
      }
      match read.value {
        case BatchHeader(b) =>
          batch := Some(b);
          batchTotals := new RunningTotals();
        case EntryDetail(e) =>
          OnlyMoneyCounts(e);
          batchTotals.AddEntry(e.dfi, e.code, e.cents);
          fileTotals.AddEntry(e.dfi, e.code, e.cents);
          entries := entries + [NachaEntry(i + 1, e, batch.value)];
        case BatchControl(declared) =>
          var column := FirstMismatch(declared, batchTotals.Value());
          if column.Some? {
            FailsForGood(lines, i + 1);
            return Failure(NachaError(Mismatch(false, column.value), i + 1));
          }
          batch := None;
        case FileControl(declared) =>
          var column := FirstMismatch(declared, fileTotals.Value());
          if column.Some? {
            FailsForGood(lines, i + 1);
            return Failure(NachaError(Mismatch(true, column.value), i + 1));
          }
        case Ignored =>
      }
    }
    r := if entries == [] then Failure(NachaError(NoEntries, |lines|)) else Success(entries);
  }

  lemma OnlyMoneyCounts(e: Entry)
    ensures Contribution(e) == Contribution(Entry([], e.cents, None, e.code, [], e.dfi))
  {
  }

  lemma {:induction false} FailsForGood(lines: seq<Text>, n: nat)
    requires n <= |lines| && Run(lines, n).Failure?
    ensures Run(lines, |lines|) == Run(lines, n)
    decreases |lines| - n
  {
    hide Step;
    if n < |lines| { FailsForGood(lines, n + 1); }
  }
}
