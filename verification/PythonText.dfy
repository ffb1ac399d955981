/** The pieces of Python's text handling that the bank-file parsers lean on:
    `bytes.decode("ascii", errors="replace")`, `str.strip()`, `str.zfill`-style digit
    fields and `int(str)`. Text is a sequence of code points. */
module PythonText {
  import opened Wrappers

  type Byte = b: int | 0 <= b < 256
  type Bytes = seq<Byte>
  type Text = seq<int>

  const REPLACEMENT := 0xFFFD
  const BLANK: Byte := 0x20
  const ZERO: Byte := 0x30

  /** ASCII decoding; every byte outside ASCII becomes U+FFFD. */
  function Decode(b: Bytes): (t: Text)
    ensures |t| == |b|
  {
    seq(|b|, i requires 0 <= i < |b| => if b[i] < 128 then b[i] else REPLACEMENT)
  }

  /** The ASCII characters that Python counts as white space (9-13, 28-31 and the blank). */
  predicate IsSpace(c: int) {
    9 <= c <= 13 || 28 <= c <= 32
  }

  function StripLeft(t: Text): Text {
    if t != [] && IsSpace(t[0]) then StripLeft(t[1..]) else t
  }

  function StripRight(t: Text): Text {
    if t != [] && IsSpace(t[|t| - 1]) then StripRight(t[..|t| - 1]) else t
  }

  function Strip(t: Text): Text {
    StripRight(StripLeft(t))
  }

  predicate IsDigit(c: int) {
    0x30 <= c <= 0x39
  }

  /** One or more digits, with single underscores allowed between digits. */
  function DigitRun(t: Text): (r: Option<int>)
    ensures r.Some? ==> r.value >= 0
  {
    if t == [] || !IsDigit(t[|t| - 1]) then None
    else
      var digit := t[|t| - 1] - 0x30;
      if |t| == 1 then Some(digit)
      else
        match DigitRun(if t[|t| - 2] == 0x5F then t[..|t| - 2] else t[..|t| - 1])
        case None => None
        case Some(high) => Some(10 * high + digit)
  }

  /** Python's `int(text)`; None where it raises ValueError. */
  function ParseInt(text: Text): Option<int> {
    var t := Strip(text);
    if t == [] then None
    else if t[0] == 0x2D then
      match DigitRun(t[1..])
      case None => None
      case Some(n) => Some(-n)
    else if t[0] == 0x2B then DigitRun(t[1..])
    else DigitRun(t)
  }

  /** `int(text) if text else 0`, the rule for a declared field that may be left blank. */
  function ParseIntOrZero(text: Text): Option<int> {
    if Strip(text) == [] then Some(0) else ParseInt(text)
  }

  function Pow10(w: nat): (p: nat)
    ensures p >= 1
  {
    if w == 0 then 1 else 10 * Pow10(w - 1)
  }

  lemma PowersOfTen()
    ensures Pow10(2) == 100 && Pow10(4) == 10_000 && Pow10(6) == 1_000_000 && Pow10(8) == 100_000_000
    ensures Pow10(10) == 10_000_000_000 && Pow10(12) == 1_000_000_000_000
  {
    assert Pow10(1) == 10 && Pow10(3) == 1000;
  }

  /** `n` in exactly `w` digits, zero-filled on the left. */
  function Digits(n: nat, w: nat): (b: Bytes)
    ensures |b| == w
    ensures forall i :: 0 <= i < w ==> IsDigit(b[i])
  {
    if w == 0 then [] else Digits(n / 10, w - 1) + [ZERO + n % 10]
  }

  function Blanks(n: nat): (b: Bytes)
    ensures |b| == n
    ensures forall i :: 0 <= i < n ==> b[i] == BLANK
  {
    seq(n, i => BLANK)
  }

  /** Text that survives an ASCII field: no code point above 127 and no outer white space. */
  predicate IsFieldText(t: Bytes, width: nat) {
    && |t| <= width
    && (forall i :: 0 <= i < |t| ==> t[i] < 128)
    && (t != [] ==> !IsSpace(t[0]) && !IsSpace(t[|t| - 1]))
  }

  /** A field of `width` bytes, left justified and blank filled. */
  function Field(t: Bytes, width: nat): (b: Bytes)
    requires |t| <= width
    ensures |b| == width
  {
    t + Blanks(width - |t|)
  }

  lemma {:induction false} StripRightDropsBlanks(t: Text, n: nat)
    requires t == [] || !IsSpace(t[|t| - 1])
    ensures StripRight(t + Decode(Blanks(n))) == t
  {
    var padded := t + Decode(Blanks(n));
    if n == 0 {
      assert padded == t;
    } else {
      assert padded[..|padded| - 1] == t + Decode(Blanks(n - 1));
      StripRightDropsBlanks(t, n - 1);
    }
  }

  lemma {:induction false} StripLeftOfBlanks(n: nat)
    ensures StripLeft(Decode(Blanks(n))) == []
  {
    if n > 0 {
      assert Decode(Blanks(n))[1..] == Decode(Blanks(n - 1));
      StripLeftOfBlanks(n - 1);
    }
  }

  /** Reading a printed text field gives the text back. */
  lemma FieldRoundTrip(t: Bytes, width: nat)
    requires IsFieldText(t, width)
    ensures Strip(Decode(Field(t, width))) == t
  {
    assert Decode(Field(t, width)) == Decode(t) + Decode(Blanks(width - |t|));
    assert Decode(t) == t;
    if t == [] {
      assert Decode(Field(t, width)) == Decode(Blanks(width));
      StripLeftOfBlanks(width);
    } else {
      StripRightDropsBlanks(t, width - |t|);
    }
  }

  lemma {:induction false} DigitRunOfDigits(n: nat, w: nat)
    requires 0 < w && n < Pow10(w)
    ensures DigitRun(Decode(Digits(n, w))) == Some(n)
  {
    var t := Decode(Digits(n, w));
    if w == 1 {
      assert Digits(n / 10, 0) == [];
      assert t == [ZERO + n % 10];
    } else {
      var high := Digits(n / 10, w - 1);
      assert Digits(n, w) == high + [ZERO + n % 10];
      assert t[..w - 1] == Decode(high);
      assert t[w - 1] == ZERO + n % 10;
      assert IsDigit(high[w - 2]) && t[w - 2] == high[w - 2];
      DigitRunOfDigits(n / 10, w - 1);
    }
  }

  lemma IntOfDigits(t: Text)
    requires t != [] && forall i :: 0 <= i < |t| ==> IsDigit(t[i])
    ensures Strip(t) == t
    ensures ParseInt(t) == DigitRun(t)
  {
    assert IsDigit(t[0]) && IsDigit(t[|t| - 1]);
    assert StripLeft(t) == t;
    assert StripRight(t) == t;
    assert ParseInt(t) == DigitRun(t) by {
      assert Strip(t) == t;
      assert t[0] != 0x2D && t[0] != 0x2B;
    }
  }

  /** Reading a printed digit field gives the number back. */
  lemma DigitsRoundTrip(n: nat, w: nat)
    requires 0 < w && n < Pow10(w)
    ensures ParseInt(Decode(Digits(n, w))) == Some(n)
    ensures ParseIntOrZero(Decode(Digits(n, w))) == Some(n)
  {
    var t := Decode(Digits(n, w));
    DigitRunOfDigits(n, w);
    IntOfDigits(t);
  }

  // ---- What `decode`, `strip` and `int` do, said on the characters ----

  lemma HighByteIsReplaced(a: Bytes, x: Byte, b: Bytes)
    requires 0x80 <= x
    ensures Decode(a + [x] + b) == Decode(a) + [0xFFFD] + Decode(b)
  {
  }

  lemma {:induction false} StripLeftMeans(t: Text)
    ensures |StripLeft(t)| <= |t| && StripLeft(t) == t[|t| - |StripLeft(t)|..]
    ensures forall i :: 0 <= i < |t| - |StripLeft(t)| ==> IsSpace(t[i])
    ensures StripLeft(t) != [] ==> !IsSpace(StripLeft(t)[0])
  {
    if t != [] && IsSpace(t[0]) {
      StripLeftMeans(t[1..]);
      forall i | 0 < i < |t| - |StripLeft(t)| ensures IsSpace(t[i]) { assert t[i] == t[1..][i - 1]; }
    }
  }

  lemma {:induction false} StripRightMeans(t: Text)
    ensures |StripRight(t)| <= |t| && StripRight(t) == t[..|StripRight(t)|]
    ensures forall i :: |StripRight(t)| <= i < |t| ==> IsSpace(t[i])
    ensures StripRight(t) != [] ==> !IsSpace(StripRight(t)[|StripRight(t)| - 1])
  {
    if t != [] && IsSpace(t[|t| - 1]) { StripRightMeans(t[..|t| - 1]); }
  }

  /** Stripping cuts out the stretch from the first to the last character that is not a tab,
      line feed, vertical tab, form feed, carriage return, one of 28 to 31, or a blank. */
  lemma StripMeans(t: Text) returns (a: nat, b: nat)
    ensures a <= b <= |t| && Strip(t) == t[a..b]
    ensures forall i :: 0 <= i < a || b <= i < |t| ==> t[i] in {9, 10, 11, 12, 13, 28, 29, 30, 31, 32}
    ensures a < b ==> t[a] !in {9, 10, 11, 12, 13, 28, 29, 30, 31, 32}
    ensures a < b ==> t[b - 1] !in {9, 10, 11, 12, 13, 28, 29, 30, 31, 32}
    ensures Strip(t) == [] <==> forall i :: 0 <= i < |t| ==> t[i] in {9, 10, 11, 12, 13, 28, 29, 30, 31, 32}
  {
    var left := StripLeft(t);
    StripLeftMeans(t);
    StripRightMeans(left);
    a := |t| - |left|;
    b := a + |Strip(t)|;
    hide StripLeft, StripRight;
    forall i | b <= i < |t| ensures IsSpace(t[i]) { assert t[i] == left[i - a]; }
    if a < b { assert t[a] == left[0] && t[b - 1] == left[b - a - 1]; }
  }

  /** A blank field declares nothing, which counts as zero; any other must be a number. */
  lemma BlankCountsAsZero(t: Text)
    ensures (forall i :: 0 <= i < |t| ==> t[i] in {9, 10, 11, 12, 13, 28, 29, 30, 31, 32}) ==>
              ParseIntOrZero(t) == Some(0)
    ensures (exists i :: 0 <= i < |t| && t[i] !in {9, 10, 11, 12, 13, 28, 29, 30, 31, 32}) ==>
              ParseIntOrZero(t) == ParseInt(t)
  {
    var _, _ := StripMeans(t);
    hide Strip;
  }

  /** A number may fill its field. */
  lemma DigitsFillTheirField(t: Bytes)
    requires forall i :: 0 <= i < |t| ==> 0x30 <= t[i] <= 0x39
    ensures IsFieldText(t, |t|)
  {
  }

  /** The texts that are read as a number: digits, with single underscores between them. */
  lemma {:induction false} DigitRunReads(t: Text)
    ensures DigitRun(t).Some? <==> (
              && t != [] && 0x30 <= t[0] <= 0x39 && 0x30 <= t[|t| - 1] <= 0x39
              && (forall i :: 0 <= i < |t| ==> t[i] == 0x5F || 0x30 <= t[i] <= 0x39)
              && (forall i :: 0 < i < |t| ==> t[i - 1] != 0x5F || t[i] != 0x5F))
  {
    if |t| > 1 && IsDigit(t[|t| - 1]) {
      var head := if t[|t| - 2] == 0x5F then t[..|t| - 2] else t[..|t| - 1];
      DigitRunReads(head);
      assert forall i :: 0 <= i < |head| ==> head[i] == t[i];
    }
  }

  /** What stands in front of the last digit of a run of more than one. */
  function Front(t: Text): (n: nat)
    requires |t| > 1
    ensures n < |t|
  {
    if t[|t| - 2] == 0x5F then |t| - 2 else |t| - 1
  }

  lemma LastDigit(t: Text)
    requires |t| > 1 && DigitRun(t[..Front(t)]).Some? && 0x30 <= t[|t| - 1] <= 0x39
    ensures DigitRun(t) == Some(10 * DigitRun(t[..Front(t)]).value + t[|t| - 1] - 0x30)
  {
  }

  lemma LastDigitBehind(a: Text, b: Text)
    requires |b| > 1 && 0x30 <= b[|b| - 1] <= 0x39 && DigitRun(a + b[..Front(b)]).Some?
    ensures DigitRun(a + b) == Some(10 * DigitRun(a + b[..Front(b)]).value + b[|b| - 1] - 0x30)
  {
    hide DigitRun;
    var t := a + b;
    assert t[|t| - 1] == b[|b| - 1] && t[|t| - 2] == b[|b| - 2];
    assert t[..Front(t)] == a + b[..Front(b)];
    LastDigit(t);
  }

  lemma OneDigitBehind(a: Text, b: Text)
    requires |b| == 1 && 0x30 <= b[0] <= 0x39 && DigitRun(a).Some?
    ensures DigitRun(a + b) == Some(10 * DigitRun(a).value + b[0] - 0x30)
    ensures DigitRun(a + [0x5F] + b) == Some(10 * DigitRun(a).value + b[0] - 0x30)
  {
    DigitRunReads(a);
    hide DigitRun;
    assert (a + b)[..Front(a + b)] == a;
    LastDigit(a + b);
    var t := a + [0x5F] + b;
    assert t[..Front(t)] == a;
    LastDigit(t);
  }

  /** An underscore does not change the number. */
  lemma {:induction false} UnderscoreIsPassedOver(a: Text, b: Text)
    requires DigitRun(a).Some? && DigitRun(b).Some?
    ensures DigitRun(a + [0x5F] + b) == DigitRun(a + b) && DigitRun(a + b).Some?
  {
    DigitRunReads(b);
    if |b| == 1 {
      hide DigitRun;
      OneDigitBehind(a, b);
    } else {
      assert DigitRun(b[..Front(b)]).Some?;
      hide DigitRun;
      UnderscoreIsPassedOver(a, b[..Front(b)]);
      LastDigitBehind(a, b);
      LastDigitBehind(a + [0x5F], b);
    }
  }

  predicate AllSpaces(t: Text) {
    forall i :: 0 <= i < |t| ==> IsSpace(t[i])
  }

  lemma {:induction false} StripAround(before: Text, t: Text, behind: Text)
    requires AllSpaces(before) && AllSpaces(behind) && t != [] && !IsSpace(t[0]) && !IsSpace(t[|t| - 1])
    ensures Strip(before + t + behind) == t
    decreases |before| + |behind|
  {
    var all := before + t + behind;
    if before != [] {
      assert all[0] == before[0] && all[1..] == before[1..] + t + behind;
      StripAround(before[1..], t, behind);
    } else if behind != [] {
      var n := |behind| - 1;
      assert all[0] == t[0] && all[|all| - 1] == behind[n];
      assert all[..|all| - 1] == before + t + behind[..n];
      assert (before + t + behind[..n])[0] == t[0];
      StripAround(before, t, behind[..n]);
    } else {
      assert all == t;
    }
  }

  lemma IntOfStripped(text: Text, t: Text)
    requires DigitRun(t).Some?
    ensures Strip(text) == t ==> ParseInt(text) == DigitRun(t)
    ensures Strip(text) == [0x2B] + t ==> ParseInt(text) == DigitRun(t)
    ensures Strip(text) == [0x2D] + t ==> ParseInt(text) == Some(-DigitRun(t).value)
  {
    DigitRunReads(t);
    hide Strip, DigitRun;
    assert ([0x2B] + t)[1..] == t && ([0x2D] + t)[1..] == t;
  }

  /** White space around a number and a sign in front of it are read as one expects. */
  lemma SignedReads(before: Text, t: Text, behind: Text)
    requires AllSpaces(before) && AllSpaces(behind) && DigitRun(t).Some?
    ensures ParseInt(before + t + behind) == DigitRun(t)
    ensures ParseInt(before + ([0x2B] + t) + behind) == DigitRun(t)
    ensures ParseInt(before + ([0x2D] + t) + behind) == Some(-DigitRun(t).value)
  {
    DigitRunReads(t);
    hide Strip, DigitRun, ParseInt, AllSpaces;
    StripAround(before, t, behind);
    StripAround(before, [0x2B] + t, behind);
    StripAround(before, [0x2D] + t, behind);
    IntOfStripped(before + t + behind, t);
    IntOfStripped(before + ([0x2B] + t) + behind, t);
    IntOfStripped(before + ([0x2D] + t) + behind, t);
  }

  /** Nothing else is read as a number: there is a run of digits, and what surrounds it is white
      space but for one sign. */
  lemma OnlyIntegersRead(text: Text) returns (a: nat, b: nat)
    requires ParseInt(text).Some?
    ensures a < b <= |text| && DigitRun(text[a..b]).Some?
    ensures forall i :: b <= i < |text| || 0 <= i < a - 1 ==> IsSpace(text[i])
    ensures 0 < a ==> IsSpace(text[a - 1]) || text[a - 1] in {0x2B, 0x2D}
  {
    a, b := StripMeans(text);
    hide Strip;
    var t := text[a..b];
    if t[0] == 0x2D || t[0] == 0x2B {
      assert t[1..] == text[a + 1..b];
      DigitRunReads(t[1..]);
      a := a + 1;
    } else {
      DigitRunReads(t);
    }
  }
}
