/** X9.37 records: how the bytes at the cursor are read as one record, and how a whole
    file splits into records with any run of CR or LF after each. */
module X937Records {
  import opened Wrappers
  import opened PythonText
  import opened Calendar

  /** The three levels of control totals. */
  datatype Scope = Bundle | CashLetter | File

  datatype Totals = Totals(items: int, cents: int)

  datatype Record =
    | Check(routing: Text, account: Text, checkNumber: Text, cents: int)
    | CashLetterHeader(date: Option<Date>)  // None: unreadable, the parser falls back to today
    | BundleHeader
    | Control(scope: Scope, declared: Totals)
    | ImageView
    | ImageData(image: Bytes)
    | Skipped(bytes: Bytes)  // the whole record

  datatype ErrorKind =
    | TruncatedRecordType
    | Truncated
    | NonNumericAmount
    | NonNumericControl
    | NonNumericImageLength
    | ImageDoesNotFit
    | UnrecognizedRecordType
    | ItemsMismatch(scope: Scope)
    | AmountMismatch(scope: Scope)

  /** A record together with the number of bytes it occupies. */
  datatype Read = Read(record: Record, size: nat)

  /** The record types the parser knows, by their two-digit code. */
  datatype RecordType =
    | Type10 | Type20 | Type25 | Type50 | Type52 | Type70 | Type90 | Type99 | SkippedType | UnknownType

  function RecordTypeOf(code: Bytes): RecordType
    requires |code| == 2
  {
    if code == [0x32, 0x35] then Type25
    else if code == [0x31, 0x30] then Type10
    else if code == [0x32, 0x30] then Type20
    else if code == [0x37, 0x30] then Type70
    else if code == [0x39, 0x30] then Type90
    else if code == [0x39, 0x39] then Type99
    else if code == [0x35, 0x30] then Type50
    else if code == [0x35, 0x32] then Type52
    else if IsSkippedCode(code) then SkippedType
    else UnknownType
  }

  /** Types 01, 26, 27, 28, 31, 32, 33 and 34. */
  predicate IsSkippedCode(code: Bytes)
    requires |code| == 2
  {
    code == [0x30, 0x31] || (code[0] == 0x32 && 0x36 <= code[1] <= 0x38) || (code[0] == 0x33 && 0x31 <= code[1] <= 0x34)
  }

  const STANDARD_LEN := 80
  const IMAGE_VIEW_LEN := 200
  const IMAGE_LENGTH_AT := 116
  const IMAGE_HEADER_LEN := 126

  function Slice(t: Text, lo: nat, hi: nat): Text
    requires lo <= hi
  {
    t[if lo < |t| then lo else |t| .. if hi < |t| then hi else |t|]
  }

  function ParseBusinessDate(raw: Text): Option<Date> {
    match (ParseInt(Slice(raw, 0, 4)), ParseInt(Slice(raw, 4, 6)), ParseInt(Slice(raw, 6, 8)))
    case (Some(y), Some(m), Some(d)) => if IsDate(Date(y, m, d)) then Some(Date(y, m, d)) else None
    case _ => None
  }

  /** The declared totals of a control record with the count at `a..b` and the amount at `b..c`. */
  function ParseControl(rec: Bytes, scope: Scope, a: nat, b: nat, c: nat): Result<Record, ErrorKind>
    requires a <= b <= c <= |rec|
  {
    var items := ParseIntOrZero(Decode(rec[a..b]));
    var cents := ParseIntOrZero(Decode(rec[b..c]));
    if items.None? || cents.None? then Failure(NonNumericControl)
    else Success(Control(scope, Totals(items.value, cents.value)))
  }

  /** The fields of a record of any type but 52. */
  function ParseFields(t: RecordType, rec: Bytes): Result<Record, ErrorKind>
    requires |rec| >= STANDARD_LEN && !t.Type52?
  {
    match t
    case Type25 =>
      var amount := ParseIntOrZero(Decode(rec[47..57]));
      if amount.None? then Failure(NonNumericAmount)
      else Success(Check(Strip(Decode(rec[18..26])), Strip(Decode(rec[27..47])), Strip(Decode(rec[2..17])),
          amount.value))
    case Type10 => Success(CashLetterHeader(ParseBusinessDate(Strip(Decode(rec[21..29])))))
    case Type20 => Success(BundleHeader)
    case Type70 => ParseControl(rec, Bundle, 2, 6, 18)
    case Type90 => ParseControl(rec, CashLetter, 8, 16, 30)
    case Type99 => ParseControl(rec, File, 16, 24, 39)
    case Type50 => Success(ImageView)
    case SkippedType => Success(Skipped(rec[..STANDARD_LEN]))
    case UnknownType => Failure(UnrecognizedRecordType)
  }

  /** The length of every record but the variable-length Type 52. */
  function FixedLen(t: RecordType): nat {
    if t.Type50? then IMAGE_VIEW_LEN else STANDARD_LEN
  }

  /** The record at the head of `s`, the unread part of the file. */
  function Head(s: Bytes): (r: Result<Read, ErrorKind>)
    requires s != []
    ensures r.Success? ==> STANDARD_LEN <= r.value.size <= |s|
  {
    if |s| < 2 then Failure(TruncatedRecordType)
    else
      var t := RecordTypeOf(s[..2]);
      if t.UnknownType? then Failure(UnrecognizedRecordType)
      else if t.Type52? then HeadImage(s)
      else if |s| < FixedLen(t) then Failure(Truncated)
      else
        var fields := ParseFields(t, s[..STANDARD_LEN]);
        if fields.Failure? then Failure(fields.error) else Success(Read(fields.value, FixedLen(t)))
  }

  function HeadImage(s: Bytes): (r: Result<Read, ErrorKind>)
    ensures r.Success? ==> STANDARD_LEN <= r.value.size <= |s|
  {
    if |s| < IMAGE_HEADER_LEN then Failure(Truncated)
    else
      match ParseInt(Decode(s[IMAGE_LENGTH_AT..IMAGE_HEADER_LEN]))
      case None => Failure(NonNumericImageLength)
      case Some(n) =>
        if n < 0 || IMAGE_HEADER_LEN + n > |s| then Failure(ImageDoesNotFit)
        else Success(Read(ImageData(s[IMAGE_HEADER_LEN..IMAGE_HEADER_LEN + n]), IMAGE_HEADER_LEN + n))
  }

  predicate IsSeparator(b: int) {
    b == 0x0D || b == 0x0A
  }

  function SkipSeparators(s: Bytes): (r: Bytes)
    ensures |r| <= |s|
  {
    if s != [] && IsSeparator(s[0]) then SkipSeparators(s[1..]) else s
  }

  /** What is left after the first record and the separators behind it. */
  function After(s: Bytes): (r: Bytes)
    requires s != [] && Head(s).Success?
    ensures |r| + STANDARD_LEN <= |s|
  {
    SkipSeparators(s[Head(s).value.size..])
  }

  function Append(a: Option<seq<Record>>, b: Option<seq<Record>>): Option<seq<Record>> {
    if a.Some? && b.Some? then Some(a.value + b.value) else None
  }

  /** All the records of `s`, or None where some record cannot be read. */
  function Scan(s: Bytes): Option<seq<Record>>
    decreases |s|
  {
    if s == [] then Some([])
    else if Head(s).Failure? then None
    else Append(Some([Head(s).value.record]), Scan(After(s)))
  }

  /** Nothing, or bytes that do not begin with a CR or LF: where a record may begin. */
  predicate AtRecordStart(s: Bytes) {
    s == [] || !IsSeparator(s[0])
  }

  predicate AllSeparators(s: Bytes) {
    forall i :: 0 <= i < |s| ==> IsSeparator(s[i])
  }

  // ---- Reading depends only on the bytes of the record itself ----

  lemma HeadIsLocal(s: Bytes, more: Bytes)
    requires s != [] && Head(s).Success?
    ensures Head(s + more) == Head(s)
  {
    assert (s + more)[..2] == s[..2];
    assert (s + more)[..STANDARD_LEN] == s[..STANDARD_LEN];
    if RecordTypeOf(s[..2]).Type52? {
      assert (s + more)[IMAGE_LENGTH_AT..IMAGE_HEADER_LEN] == s[IMAGE_LENGTH_AT..IMAGE_HEADER_LEN];
      var size := Head(s).value.size;
      assert (s + more)[IMAGE_HEADER_LEN..size] == s[IMAGE_HEADER_LEN..size];
    }
  }

  /** A record that is cut short can no longer be read. */
  lemma HeadNeedsAllBytes(s: Bytes, n: nat)
    requires s != [] && Head(s).Success? && 0 < n < Head(s).value.size
    ensures Head(s[..n]).Failure?
  {
    if n >= 2 {
      assert s[..n][..2] == s[..2];
      if RecordTypeOf(s[..2]).Type52? && n >= IMAGE_HEADER_LEN {
        assert s[..n][IMAGE_LENGTH_AT..IMAGE_HEADER_LEN] == s[IMAGE_LENGTH_AT..IMAGE_HEADER_LEN];
      }
    }
  }

  lemma {:induction false} SkipAll(seps: Bytes, s: Bytes)
    requires AllSeparators(seps) && AtRecordStart(s)
    ensures SkipSeparators(seps + s) == s
  {
    if seps == [] {
      assert seps + s == s;
    } else {
      assert (seps + s)[1..] == seps[1..] + s;
      SkipAll(seps[1..], s);
    }
  }

  lemma {:induction false} SkipIsLocal(s: Bytes, more: Bytes)
    requires AtRecordStart(more)
    ensures SkipSeparators(s + more) == SkipSeparators(s) + more
  {
    if s == [] {
      assert s + more == more;
      SkipAll([], more);
    } else if IsSeparator(s[0]) {
      assert (s + more)[1..] == s[1..] + more;
      SkipIsLocal(s[1..], more);
    }
  }

  lemma AfterIsLocal(s: Bytes, more: Bytes)
    requires s != [] && Head(s).Success? && AtRecordStart(more)
    ensures Head(s + more) == Head(s)
    ensures After(s + more) == After(s) + more
  {
    HeadIsLocal(s, more);
    var size := Head(s).value.size;
    assert (s + more)[size..] == s[size..] + more;
    SkipIsLocal(s[size..], more);
  }

  lemma AppendIsAssociative(a: Option<seq<Record>>, b: Option<seq<Record>>, c: Option<seq<Record>>)
    ensures Append(Append(a, b), c) == Append(a, Append(b, c))
    ensures Append(Some([]), a) == a && Append(a, Some([])) == a
  {
    if a.Some? {
      assert [] + a.value == a.value && a.value + [] == a.value;
      if b.Some? && c.Some? { assert (a.value + b.value) + c.value == a.value + (b.value + c.value); }
    }
  }

  /** Scanning distributes over concatenation at a record boundary. */
  lemma {:induction false} ScanAppend(s: Bytes, more: Bytes)
    requires Scan(s).Some? && AtRecordStart(more)
    ensures Scan(s + more) == Append(Scan(s), Scan(more))
    decreases |s|
  {
    if s == [] {
      assert s + more == more;
      AppendIsAssociative(Scan(more), Scan(more), Scan(more));
    } else {
      hide Head, After, Append;
      AfterIsLocal(s, more);
      ScanAppend(After(s), more);
      AppendIsAssociative(Some([Head(s).value.record]), Scan(After(s)), Scan(more));
    }
  }

  /** The byte at which record `k` begins; `Offset(s, |Scan(s).value|)` is the end of the file. */
  function Offset(s: Bytes, k: nat): (o: nat)
    requires Scan(s).Some? && k <= |Scan(s).value|
    ensures o <= |s|
    decreases |s|
  {
    if k == 0 then 0 else |s| - |After(s)| + Offset(After(s), k - 1)
  }

  lemma {:induction false} SkippedPart(s: Bytes)
    ensures var n := |s| - |SkipSeparators(s)|;
            AllSeparators(s[..n]) && s[n..] == SkipSeparators(s) && AtRecordStart(SkipSeparators(s))
  {
    if s != [] && IsSeparator(s[0]) {
      SkippedPart(s[1..]);
      var n := |s| - |SkipSeparators(s)|;
      assert s[..n] == [s[0]] + s[1..][..n - 1];
      assert s[n..] == s[1..][n - 1..];
    }
  }

  /** What is passed over are the carriage returns and line feeds in front, and nothing else. */
  lemma LineEndsAreSkipped(s: Bytes)
    ensures var n := |s| - |SkipSeparators(s)|;
            && SkipSeparators(s) == s[n..]
            && (forall i :: 0 <= i < n ==> s[i] in {10, 13})
            && (n < |s| ==> s[n] !in {10, 13})
  {
    SkippedPart(s);
    hide SkipSeparators;
    var n := |s| - |SkipSeparators(s)|;
    forall i | 0 <= i < n ensures s[i] in {10, 13} { assert IsSeparator(s[..n][i]); }
    assert n < |s| ==> s[n..][0] == s[n];
  }

  lemma HeadFitsInPrefix(s: Bytes, n: nat)
    requires s != [] && Head(s).Success? && Head(s).value.size <= n <= |s|
    ensures Head(s[..n]) == Head(s)
  {
    assert s[..n][..2] == s[..2];
    assert s[..n][..STANDARD_LEN] == s[..STANDARD_LEN];
    if RecordTypeOf(s[..2]).Type52? {
      assert s[..n][IMAGE_LENGTH_AT..IMAGE_HEADER_LEN] == s[IMAGE_LENGTH_AT..IMAGE_HEADER_LEN];
      var size := Head(s).value.size;
      assert s[..n][IMAGE_HEADER_LEN..size] == s[IMAGE_HEADER_LEN..size];
    }
  }

  /** The bytes of the first record and the separators behind it. */
  function First(s: Bytes): Bytes
    requires s != [] && Head(s).Success?
  {
    s[..|s| - |After(s)|]
  }

  lemma FirstThenAfter(s: Bytes)
    requires s != [] && Head(s).Success?
    ensures s == First(s) + After(s) && AtRecordStart(After(s))
    ensures Head(s).value.size <= |First(s)|
    ensures AllSeparators(First(s)[Head(s).value.size..])
  {
    hide Head, SkipSeparators, AllSeparators;
    var size := Head(s).value.size;
    var n := |s| - |After(s)|;
    SkippedPart(s[size..]);
    assert s[size..][n - size..] == s[n..];
    assert s[..n][size..] == s[size..][..n - size];
  }

  lemma FirstRecord(s: Bytes)
    requires s != [] && Head(s).Success?
    ensures s == First(s) + After(s) && AtRecordStart(After(s))
    ensures Scan(First(s)) == Some([Head(s).value.record])
  {
    hide Head;
    FirstThenAfter(s);
    var first := First(s);
    HeadFitsInPrefix(s, |first|);
    var gap := first[Head(s).value.size..];
    SkipAll(gap, []);
    assert gap + [] == gap;
    assert After(first) == [];
    assert Scan(After(first)) == Some([]);
    AppendIsAssociative(Some([Head(s).value.record]), None, None);
  }

  /** A readable file may be cut before any of its records, and both parts are readable. */
  lemma {:induction false} ScanCut(s: Bytes, k: nat)
    requires Scan(s).Some? && k <= |Scan(s).value|
    ensures Scan(s[..Offset(s, k)]) == Some(Scan(s).value[..k])
    ensures Scan(s[Offset(s, k)..]) == Some(Scan(s).value[k..])
    ensures k == |Scan(s).value| <==> Offset(s, k) == |s|
    ensures 0 < k ==> AtRecordStart(s[Offset(s, k)..])
    decreases |s|
  {
    hide Head, SkipSeparators;
    if k == 0 {
      assert s[..0] == [] && s[0..] == s;
      assert Scan(s).value[..0] == [] && Scan(s).value[0..] == Scan(s).value;
    } else {
      ScanCut(After(s), k - 1);
      ScanCutStep(s, k);
    }
  }

  lemma ScanCutStep(s: Bytes, k: nat)
    requires Scan(s).Some? && 0 < k <= |Scan(s).value|
    requires Scan(After(s)[..Offset(After(s), k - 1)]) == Some(Scan(After(s)).value[..k - 1])
    ensures Scan(s[..Offset(s, k)]) == Some(Scan(s).value[..k])
    ensures s[Offset(s, k)..] == After(s)[Offset(After(s), k - 1)..]
    ensures AtRecordStart(After(s))
  {
    hide Head, After;
    FirstRecord(s);
    var o := Offset(After(s), k - 1);
    var piece := After(s)[..o];
    assert Offset(s, k) == |First(s)| + o;
    assert (First(s) + After(s))[..|First(s)| + o] == First(s) + piece;
    assert (First(s) + After(s))[|First(s)| + o..] == After(s)[o..];
    assert AtRecordStart(piece);
    ScanAppend(First(s), piece);
    assert Scan(s).value == [Head(s).value.record] + Scan(After(s)).value;
    assert [Head(s).value.record] + Scan(After(s)).value[..k - 1] == Scan(s).value[..k];
  }

  /** A readable stretch of bytes does not begin with a separator. */
  lemma ScansAtRecordStart(s: Bytes)
    requires Scan(s).Some?
    ensures AtRecordStart(s)
  {
    hide HeadImage, ParseFields;
    if s != [] {
      assert Head(s).Success?;
      assert RecordTypeOf(s[..2]) != UnknownType;
    }
  }

  lemma ScanThree(a: Bytes, b: Bytes, c: Bytes)
    requires Scan(a).Some? && Scan(b).Some? && Scan(c).Some?
    ensures Scan(a + b + c) == Some(Scan(a).value + Scan(b).value + Scan(c).value)
  {
    hide Scan;
    ScansAtRecordStart(b);
    ScansAtRecordStart(c);
    ScanAppend(a, b);
    ScanAppend(a + b, c);
  }

  /** The bytes of the records from the `i`th up to the `j`th scan to exactly those. */
  lemma {:induction false} ScanStretch(s: Bytes, i: nat, j: nat)
    requires Scan(s).Some? && i <= j <= |Scan(s).value|
    ensures Offset(s, i) <= Offset(s, j)
    ensures Scan(s[Offset(s, i)..Offset(s, j)]) == Some(Scan(s).value[i..j])
    decreases |s|
  {
    hide Head, After;
    if i == 0 {
      ScanCut(s, j);
      assert s[0..Offset(s, j)] == s[..Offset(s, j)];
    } else {
      ScanStretch(After(s), i - 1, j - 1);
      ScanCutStepTail(s, i, j);
    }
  }

  lemma ScanCutStepTail(s: Bytes, i: nat, j: nat)
    requires Scan(s).Some? && 0 < i <= j <= |Scan(s).value|
    requires Offset(After(s), i - 1) <= Offset(After(s), j - 1)
    ensures s[Offset(s, i)..Offset(s, j)] == After(s)[Offset(After(s), i - 1)..Offset(After(s), j - 1)]
    ensures Scan(s).value[i..j] == Scan(After(s)).value[i - 1..j - 1]
  {
    hide Head, After;
    FirstThenAfter(s);
    var n := |s| - |After(s)|;
    assert s[n..] == After(s);
    assert Offset(s, i) == n + Offset(After(s), i - 1) && Offset(s, j) == n + Offset(After(s), j - 1);
  }
}
