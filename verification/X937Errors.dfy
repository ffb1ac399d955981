/** What a rejected file is told: the byte where the first bad record begins, and why. */
module X937Errors {
  import opened Wrappers
  import opened PythonText
  import opened Calendar
  import opened X937Records
  import opened X937Parser
  import opened X937Skipped
  import opened X937Alteration

  // ---- Why a record cannot be read ----

  lemma CutTwice(s: Bytes, a: nat, b: nat)
    requires a <= b <= 80 <= |s|
    ensures s[..STANDARD_LEN][a..b] == s[a..b]
  {
  }

  lemma NumbersIn(s: Bytes, scope: Scope, a: nat, b: nat, c: nat)
    requires a <= b <= c <= 80 <= |s|
    ensures var read := ParseControl(s[..STANDARD_LEN], scope, a, b, c);
            && (read == Failure(NonNumericControl) <==> read.Failure?)
            && (read.Failure? <==>
                ParseIntOrZero(Decode(s[a..b])) == None || ParseIntOrZero(Decode(s[b..c])) == None)
  {
    hide ParseIntOrZero, Decode;
    CutTwice(s, a, b);
    CutTwice(s, b, c);
  }

  /** A check: cut short, or without a readable amount. */
  lemma UnreadableCheck(s: Bytes)
    requires |s| >= 2 && s[..2] == Code(25)
    ensures |s| < 80 <==> Head(s) == Failure(Truncated)
    ensures |s| >= 80 && ParseIntOrZero(Decode(s[47..57])) == None <==> Head(s) == Failure(NonNumericAmount)
    ensures Head(s).Failure? ==> Head(s).error in {Truncated, NonNumericAmount}
  {
    hide ParseIntOrZero, Decode, Strip;
    if |s| >= 80 { CutTwice(s, 47, 57); }
  }

  /** A control: cut short, or without a readable count or amount. */
  lemma UnreadableControl(s: Bytes, scope: Scope)
    requires |s| >= 2 && s[..2] == Code(if scope.Bundle? then 70 else if scope.CashLetter? then 90 else 99)
    ensures |s| < 80 <==> Head(s) == Failure(Truncated)
    ensures |s| >= 80 ==>
              var a, b, c := if scope.Bundle? then 2 else if scope.CashLetter? then 8 else 16,
                if scope.Bundle? then 6 else if scope.CashLetter? then 16 else 24,
                if scope.Bundle? then 18 else if scope.CashLetter? then 30 else 39;
              Head(s) == Failure(NonNumericControl) <==>
              ParseIntOrZero(Decode(s[a..b])) == None || ParseIntOrZero(Decode(s[b..c])) == None
    ensures Head(s).Failure? ==> Head(s).error in {Truncated, NonNumericControl}
  {
    if |s| >= 80 {
      match scope
      case Bundle => NumbersIn(s, scope, 2, 6, 18);
      case CashLetter => NumbersIn(s, scope, 8, 16, 30);
      case File => NumbersIn(s, scope, 16, 24, 39);
    }
    hide ParseControl, ParseIntOrZero, Decode;
  }

  /** An image: a header cut short, a length that is no number, or one that does not fit. */
  lemma UnreadableImage(s: Bytes)
    requires |s| >= 2 && s[..2] == Code(52)
    ensures |s| < 126 <==> Head(s) == Failure(Truncated)
    ensures |s| >= 126 ==>
              match ParseInt(Decode(s[116..126]))
              case None => Head(s) == Failure(NonNumericImageLength)
              case Some(n) =>
                && (Head(s).Success? <==> 0 <= n <= |s| - 126)
                && (Head(s).Failure? ==> Head(s).error == ImageDoesNotFit)
  {
    hide ParseInt, Decode;
  }

  /** The other records: nothing but being cut short. */
  lemma UnreadableOther(s: Bytes, n: nat)
    requires n in SKIPPED_TYPES + {10, 20, 50} && |s| >= 2 && s[..2] == Code(n)
    ensures Head(s).Failure? <==> |s| < if n == 50 then 200 else 80
    ensures Head(s).Failure? ==> Head(s).error == Truncated
  {
    hide ParseBusinessDate, Decode, Strip;
    SkippedIsListed(s[..2]);
  }

  /** One byte is not even a type. */
  lemma OneByteLeft(b: Byte)
    ensures Head([b]) == Failure(TruncatedRecordType)
  {
  }

  // ---- Where ----

  /** The error is that of the record at this byte: it cannot be read, or it is a control that
      declares another count, or the same count and another amount, than was seen. */
  ghost predicate IsBadRecord(recs: seq<Record>, s: Bytes, kind: ErrorKind) {
    s != [] &&
    match Head(s)
    case Failure(e) => kind == e
    case Success(read) =>
      && read.record.Control?
      && var declared, seen := read.record.declared, OpenTotals(recs, |recs|, read.record.scope);
         && declared != seen
         && kind == if declared.items != seen.items then ItemsMismatch(read.record.scope)
                    else AmountMismatch(read.record.scope)
  }

  ghost predicate ErrorAt(content: Bytes, e: ParseError) {
    && e.at < |content| && Scan(content[..e.at]).Some?
    && ControlsAgree(Scan(content[..e.at]).value)
    && IsBadRecord(Scan(content[..e.at]).value, content[e.at..], e.kind)
  }

  lemma OneMoreTracked(a: Scanner, recs: seq<Record>, r: Record)
    requires Tracks(a, recs, |recs|)
    ensures Tracks(a, recs + [r], |recs|)
  {
    var more := recs + [r];
    assert more[..|recs|] == recs;
    forall scope ensures OpenTotals(more, |recs|, scope) == OpenTotals(recs, |recs|, scope) {
      OpeningOfPrefix(more, |recs|, |recs|, scope);
      var i := Opening(recs, |recs|, scope);
      assert more[i..|recs|] == recs[i..|recs|];
    }
  }

  lemma OneMoreAgrees(recs: seq<Record>, r: Record)
    requires ControlsAgree(recs) && (r.Control? ==> r.declared == OpenTotals(recs, |recs|, r.scope))
    ensures ControlsAgree(recs + [r])
  {
    var more := recs + [r];
    assert more[..|recs|] == recs;
    forall i | 0 <= i < |more| && more[i].Control?
      ensures more[i].declared == OpenTotals(more, i, more[i].scope)
    {
      var scope := more[i].scope;
      OpeningOfPrefix(more, |recs|, i, scope);
      var j := Opening(recs, i, scope);
      assert more[j..i] == recs[j..i];
      assert i < |recs| ==> recs[i].Control?;
    }
  }

  /** The scanner has read `before` as `recs`. */
  ghost predicate StandsAt(a: Scanner, before: Bytes, recs: seq<Record>) {
    Scan(before) == Some(recs) && ControlsAgree(recs) && Tracks(a, recs, |recs|)
  }

  lemma StandsAtNext(a: Scanner, before: Bytes, recs: seq<Record>, behind: Bytes, today: Date)
    requires StandsAt(a, before, recs) && behind != [] && Head(behind).Success?
    requires Step(a, Head(behind).value.record, today).Success?
    ensures StandsAt(Step(a, Head(behind).value.record, today).value, before + First(behind),
                     recs + [Head(behind).value.record])
  {
    hide Head, After, OpenTotals, ControlsAgree, AtRecordStart;
    var r := Head(behind).value.record;
    FirstRecord(behind);
    ScansAtRecordStart(First(behind));
    ScanAppend(before, First(behind));
    OneMoreTracked(a, recs, r);
    assert (recs + [r])[|recs|] == r;
    StepTracks(a, recs + [r], |recs|, today);
    SeenBefore(recs, r);
    OneMoreAgrees(recs, r);
  }

  lemma SeenBefore(recs: seq<Record>, r: Record)
    ensures r.Control? ==> OpenTotals(recs + [r], |recs|, r.scope) == OpenTotals(recs, |recs|, r.scope)
  {
    if r.Control? {
      var more := recs + [r];
      assert more[..|recs|] == recs;
      OpeningOfPrefix(more, |recs|, |recs|, r.scope);
      var i := Opening(recs, |recs|, r.scope);
      assert more[i..|recs|] == recs[i..|recs|];
    }
  }

  lemma StopsAt(a: Scanner, before: Bytes, recs: seq<Record>, behind: Bytes, kind: ErrorKind)
    requires StandsAt(a, before, recs) && IsBadRecord(recs, behind, kind)
    ensures ErrorAt(before + behind, ParseError(kind, |before|))
  {
    hide Head, Scan, ControlsAgree, OpenTotals, Tracks;
    assert (before + behind)[..|before|] == before && (before + behind)[|before|..] == behind;
  }

  lemma BadStep(a: Scanner, recs: seq<Record>, behind: Bytes, today: Date)
    requires Tracks(a, recs, |recs|) && behind != [] && Head(behind).Success?
    requires Step(a, Head(behind).value.record, today).Failure?
    ensures IsBadRecord(recs, behind, Step(a, Head(behind).value.record, today).error)
  {
    hide Head, OpenTotals;
    var r := Head(behind).value.record;
    assert a.Running(r.scope) == OpenTotals(recs, |recs|, r.scope);
  }

  lemma {:induction false} ErrorFrom(a: Scanner, before: Bytes, recs: seq<Record>, behind: Bytes, today: Date)
    requires a.Valid() && StandsAt(a, before, recs) && ParseFrom(behind, a, |before|, today).Failure?
    ensures ErrorAt(before + behind, ParseFrom(behind, a, |before|, today).error)
    decreases |behind|
  {
    hide Head, After, StandsAt, ErrorAt, Step;
    if behind != [] {
      if Head(behind).Failure? {
        StopsAt(a, before, recs, behind, Head(behind).error);
      } else {
        var next := Step(a, Head(behind).value.record, today);
        if next.Failure? {
          TracksThere(a, before, recs);
          BadStep(a, recs, behind, today);
          StopsAt(a, before, recs, behind, next.error);
        } else {
          StandsAtNext(a, before, recs, behind, today);
          FirstThenAfter(behind);
          ErrorFrom(next.value, before + First(behind), recs + [Head(behind).value.record], After(behind), today);
          Onto(before, First(behind), After(behind));
        }
      }
    }
  }

  lemma TracksThere(a: Scanner, before: Bytes, recs: seq<Record>)
    requires StandsAt(a, before, recs)
    ensures Tracks(a, recs, |recs|)
  {
  }

  /** A rejected file was read without fault up to the byte that the error names, where the first
      bad record begins. */
  lemma ErrorNamesFirstBadRecord(content: Bytes, today: Date)
    requires Parse(content, today).Failure?
    ensures ErrorAt(content, Parse(content, today).error)
  {
    hide ParseFrom, ErrorAt;
    var start := Start(today);
    var none: seq<Record> := [];
    forall scope ensures start.Running(scope) == OpenTotals(none, 0, scope) {
      assert none[0..0] == [];
    }
    ErrorFrom(start, [], none, content, today);
    assert [] + content == content;
  }
}
