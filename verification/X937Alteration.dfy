/** What the control totals of an accepted X9.37 file catch, and what they cannot. */
module X937Alteration {
  import opened Wrappers
  import opened PythonText
  import opened Calendar
  import opened X937Records
  import opened X937Parser

  predicate Accepted(content: Bytes, today: Date) {
    Parse(content, today).Success?
  }

  // ---- Sums over concatenations ----

  lemma {:induction false} TotalsAppend(a: seq<Record>, b: seq<Record>)
    ensures TotalsOf(a + b) == Plus(TotalsOf(a), TotalsOf(b))
  {
    if b == [] {
      assert a + b == a;
    } else {
      assert (a + b)[..|a + b| - 1] == a + b[..|b| - 1];
      TotalsAppend(a, b[..|b| - 1]);
    }
  }

  lemma {:induction false} FileOpensAtStart(recs: seq<Record>, n: nat)
    requires n <= |recs|
    ensures Opening(recs, n, File) == 0
  {
    if n > 0 { FileOpensAtStart(recs, n - 1); }
  }

  lemma FileControlIsWholeSum(recs: seq<Record>, n: nat)
    requires n < |recs| && ControlsAgree(recs) && recs[n].Control? && recs[n].scope.File?
    ensures recs[n].declared == TotalsOf(recs[..n])
  {
    FileOpensAtStart(recs, n);
    assert recs[0..n] == recs[..n];
  }

  lemma {:induction false} OpeningOfPrefix(recs: seq<Record>, k: nat, n: nat, scope: Scope)
    requires n <= k <= |recs|
    ensures Opening(recs[..k], n, scope) == Opening(recs, n, scope)
  {
    if n > 0 { OpeningOfPrefix(recs, k, n - 1, scope); }
  }

  lemma AgreeOnPrefix(recs: seq<Record>, k: nat)
    requires k <= |recs| && ControlsAgree(recs)
    ensures ControlsAgree(recs[..k])
  {
    var prefix := recs[..k];
    forall i | 0 <= i < k && prefix[i].Control?
      ensures prefix[i].declared == OpenTotals(prefix, i, prefix[i].scope)
    {
      var scope := recs[i].scope;
      OpeningOfPrefix(recs, k, i, scope);
      assert prefix[Opening(recs, i, scope)..i] == recs[Opening(recs, i, scope)..i];
      assert recs[i].Control?;
    }
  }

  // ---- Cutting a file short ----

  /** No record of `s` is cut in two by ending the file after `p` bytes. */
  predicate BetweenRecords(s: Bytes, p: nat)
    requires Scan(s).Some? && p <= |s|
    decreases |s|
  {
    p == 0 ||
    (Head(s).value.size <= p &&
     (p <= |s| - |After(s)| || BetweenRecords(After(s), p - (|s| - |After(s)|))))
  }

  /** How many records begin in the first `p` bytes. */
  function RecordsWithin(s: Bytes, p: nat): (k: nat)
    requires Scan(s).Some? && p <= |s|
    ensures k <= |Scan(s).value|
    decreases |s|
  {
    if p == 0 then 0
    else if p <= |s| - |After(s)| then 1
    else 1 + RecordsWithin(After(s), p - (|s| - |After(s)|))
  }

  lemma CutInFirst(s: Bytes, p: nat)
    requires s != [] && Scan(s).Some? && 0 < p <= |s| - |After(s)|
    ensures Scan(s[..p]).Some? <==> Head(s).value.size <= p
    ensures Scan(s[..p]).Some? ==> Scan(s[..p]) == Some(Scan(s).value[..1])
  {
    hide Head;
    var size := Head(s).value.size;
    if p < size {
      HeadNeedsAllBytes(s, p);
    } else {
      HeadFitsInPrefix(s, p);
      FirstThenAfter(s);
      var gap := s[..p][size..];
      assert gap == First(s)[size..][..p - size];
      SkipAll(gap, []);
      assert gap + [] == gap;
      assert After(s[..p]) == [];
      AppendIsAssociative(Some([Head(s).value.record]), None, None);
      assert Scan(s).value[..1] == [Head(s).value.record];
    }
  }

  lemma {:induction false} ScanOfPrefix(s: Bytes, p: nat)
    requires Scan(s).Some? && p <= |s|
    ensures Scan(s[..p]).Some? <==> BetweenRecords(s, p)
    ensures Scan(s[..p]).Some? ==> Scan(s[..p]) == Some(Scan(s).value[..RecordsWithin(s, p)])
    decreases |s|
  {
    hide Head, After;
    if p == 0 {
      assert s[..p] == [];
    } else if p <= |s| - |After(s)| {
      CutInFirst(s, p);
    } else {
      var rest := After(s);
      var q := p - (|s| - |rest|);
      FirstThenAfter(s);
      ScanOfPrefix(rest, q);
      ScanPastFirst(s, q);
    }
  }

  lemma ScanPastFirst(s: Bytes, q: nat)
    requires s != [] && Scan(s).Some? && 0 < q <= |After(s)|
    ensures var p := |s| - |After(s)| + q;
            Scan(s[..p]) == Append(Some([Head(s).value.record]), Scan(After(s)[..q]))
    ensures Head(s).value.size <= |s| - |After(s)|
    ensures forall k :: 0 <= k <= |Scan(After(s)).value| ==>
              [Head(s).value.record] + Scan(After(s)).value[..k] == Scan(s).value[..k + 1]
  {
    hide Head, After;
    FirstThenAfter(s);
    FirstRecord(s);
    var rest := After(s);
    assert s[..|s| - |rest| + q] == First(s) + rest[..q];
    assert rest[..q][0] == rest[0];
    ScanAppend(First(s), rest[..q]);
  }

  /** Ending an accepted file early is caught exactly when it cuts a record in two; a file
      cut between two records is accepted, with the items of the records that are left. */
  lemma CutIsAcceptedIff(content: Bytes, p: nat, today: Date)
    requires Accepted(content, today) && p <= |content|
    ensures Scan(content).Some?
    ensures Accepted(content[..p], today) <==> BetweenRecords(content, p)
    ensures Accepted(content[..p], today) ==>
              Parse(content[..p], today).value ==
              ItemsOf(Scan(content).value[..RecordsWithin(content, p)], 0, today, today)
  {
    hide Parse, Scan, ItemsOf, ControlsAgree;
    ParseExact(content, today);
    ParseExact(content[..p], today);
    ScanOfPrefix(content, p);
    AgreeOnPrefix(Scan(content).value, RecordsWithin(content, p));
  }

  // ---- Replacing a stretch of a file ----

  /** With a file control somewhere behind it, a stretch of an accepted file can only be
      replaced by one with the same number of checks and the same sum. */
  lemma ReplacementKeepsTotals(before: Bytes, was: Bytes, now: Bytes, behind: Bytes, n: nat, today: Date)
    requires Accepted(before + was + behind, today) && Accepted(before + now + behind, today)
    requires Scan(before).Some? && Scan(was).Some? && Scan(now).Some? && Scan(behind).Some?
    requires n < |Scan(behind).value| && Scan(behind).value[n].Control? && Scan(behind).value[n].scope.File?
    ensures TotalsOf(Scan(was).value) == TotalsOf(Scan(now).value)
  {
    hide Accepted, Scan, TotalsOf;
    FileControlBehind(before, was, behind, n, today);
    FileControlBehind(before, now, behind, n, today);
  }

  lemma FileControlBehind(before: Bytes, middle: Bytes, behind: Bytes, n: nat, today: Date)
    requires Accepted(before + middle + behind, today)
    requires Scan(before).Some? && Scan(middle).Some? && Scan(behind).Some?
    requires n < |Scan(behind).value| && Scan(behind).value[n].Control? && Scan(behind).value[n].scope.File?
    ensures Scan(behind).value[n].declared ==
            Plus(Plus(TotalsOf(Scan(before).value), TotalsOf(Scan(middle).value)), TotalsOf(Scan(behind).value[..n]))
  {
    hide Parse, Scan, ItemsOf, TotalsOf, ControlsAgree;
    ScanThree(before, middle, behind);
    ParseExact(before + middle + behind, today);
    var a, b, c := Scan(before).value, Scan(middle).value, Scan(behind).value;
    var recs := a + b + c;
    FileControlIsWholeSum(recs, |a + b| + n);
    assert recs[..|a + b| + n] == a + b + c[..n];
    TotalsAppend(a + b, c[..n]);
    TotalsAppend(a, b);
  }

  predicate IsImageRecord(r: Record) {
    r.ImageView? || r.ImageData?
  }

  /** Where the image records that follow the `i`th record end. */
  function GroupEnd(recs: seq<Record>, i: nat): (j: nat)
    requires i < |recs|
    ensures i < j <= |recs|
    ensures forall k :: i < k < j ==> IsImageRecord(recs[k])
    decreases |recs| - i
  {
    if i + 1 == |recs| || !IsImageRecord(recs[i + 1]) then i + 1 else GroupEnd(recs, i + 1)
  }

  predicate EndsInFileControl(recs: seq<Record>) {
    recs != [] && recs[|recs| - 1].Control? && recs[|recs| - 1].scope.File?
  }

  lemma LastTotals(recs: seq<Record>)
    requires recs != []
    ensures TotalsOf(recs) ==
            Plus(TotalsOf(recs[..|recs| - 1]),
                if recs[|recs| - 1].Check? then Totals(1, recs[|recs| - 1].cents) else ZERO_TOTALS)
  {
  }

  lemma NothingAdded(cents: int)
    ensures Plus(Totals(1, cents), ZERO_TOTALS) == Totals(1, cents) == Plus(ZERO_TOTALS, Totals(1, cents))
  {
  }

  lemma NoTotals(recs: seq<Record>)
    requires recs == []
    ensures TotalsOf(recs) == ZERO_TOTALS
  {
  }

  lemma {:induction false} GroupTotals(recs: seq<Record>, i: nat, j: nat)
    requires i < j <= |recs| && recs[i].Check? && forall k :: i < k < j ==> IsImageRecord(recs[k])
    ensures TotalsOf(recs[i..j]) == Totals(1, recs[i].cents)
  {
    hide TotalsOf, Plus;
    var group := recs[i..j];
    assert group[..|group| - 1] == recs[i..j - 1] && group[|group| - 1] == recs[j - 1];
    LastTotals(group);
    if j > i + 1 {
      GroupTotals(recs, i, j - 1);
    } else {
      NoTotals(recs[i..i]);
    }
    NothingAdded(recs[i].cents);
  }

  /** The file around the records `i..j`: what precedes them, their bytes, what follows. */
  lemma ThreeParts(content: Bytes, i: nat, j: nat)
    requires Scan(content).Some? && i <= j <= |Scan(content).value|
    ensures var recs := Scan(content).value;
            var a, b := Offset(content, i), Offset(content, j);
            && a <= b
            && content == content[..a] + content[a..b] + content[b..]
            && Scan(content[..a]) == Some(recs[..i])
            && Scan(content[a..b]) == Some(recs[i..j])
            && Scan(content[b..]) == Some(recs[j..])
  {
    hide Scan, Offset;
    ScanCut(content, i);
    ScanStretch(content, i, j);
    ScanCut(content, j);
  }

  /** Taking records out of a file that ends in a file control, or repeating some of them,
      is caught unless they hold no check and no money. */
  lemma MovedRecordsAreCaught(content: Bytes, i: nat, j: nat, today: Date)
    requires Accepted(content, today) && Scan(content).Some? && EndsInFileControl(Scan(content).value)
    requires i <= j < |Scan(content).value| && TotalsOf(Scan(content).value[i..j]) != ZERO_TOTALS
    requires Offset(content, i) <= Offset(content, j)
    ensures var a, b := Offset(content, i), Offset(content, j);
            && !Accepted(content[..a] + content[b..], today)
            && !Accepted(content[..b] + content[a..b] + content[b..], today)
  {
    hide Accepted, Scan, Offset, TotalsOf;
    var recs := Scan(content).value;
    ThreeParts(content, i, j);
    var a, b := Offset(content, i), Offset(content, j);
    var before, moved, behind := content[..a], content[a..b], content[b..];
    var n := |recs| - 1 - j;
    assert recs[j..][n] == recs[|recs| - 1];
    NothingScans();
    if Accepted(before + behind, today) {
      assert before + [] + behind == before + behind;
      ReplacementKeepsTotals(before, moved, [], behind, n, today);
    }
    if Accepted(content[..b] + moved + behind, today) {
      ThreeParts(content, 0, j);
      OffsetZero(content);
      assert content[0..b] == content[..b];
      assert content == content[..b] + [] + behind;
      ReplacementKeepsTotals(content[..b], [], moved, behind, n, today);
    }
  }

  lemma NothingScans()
    ensures Scan([]) == Some([]) && TotalsOf([]) == ZERO_TOTALS
  {
  }

  lemma OffsetZero(content: Bytes)
    requires Scan(content).Some?
    ensures Offset(content, 0) == 0
  {
  }

  /** From an accepted file that ends in a Type 99, no check can be removed with its images
      or repeated with them. */
  lemma ChecksCannotBeMoved(content: Bytes, i: nat, today: Date)
    requires Accepted(content, today) && Scan(content).Some? && EndsInFileControl(Scan(content).value)
    requires i < |Scan(content).value| && Scan(content).value[i].Check?
    ensures var a, b := Offset(content, i), Offset(content, GroupEnd(Scan(content).value, i));
            && a <= b
            && !Accepted(content[..a] + content[b..], today)
            && !Accepted(content[..b] + content[a..b] + content[b..], today)
  {
    hide Accepted, Scan, Offset, TotalsOf;
    var recs := Scan(content).value;
    var j := GroupEnd(recs, i);
    assert i < |recs| - 1 && !IsImageRecord(recs[|recs| - 1]);
    ThreeParts(content, i, j);
    GroupTotals(recs, i, j);
    MovedRecordsAreCaught(content, i, j, today);
  }

  const AMOUNT_AT := 47
  const AMOUNT_END := 57

  /** `s` with the amount field of the check at its head overwritten. */
  function WithAmount(s: Bytes, field: Bytes): Bytes
    requires |s| >= STANDARD_LEN && |field| == AMOUNT_END - AMOUNT_AT
  {
    s[..AMOUNT_AT] + field + s[AMOUNT_END..]
  }

  lemma AmountHead(s: Bytes, field: Bytes)
    requires s != [] && Head(s).Success? && Head(s).value.record.Check? && |field| == AMOUNT_END - AMOUNT_AT
    ensures var cents := ParseIntOrZero(Decode(field));
            Head(WithAmount(s, field)) ==
            if cents.None? then Failure(NonNumericAmount)
            else Success(Head(s).value.(record := Head(s).value.record.(cents := cents.value)))
    ensures Head(s).value.size == STANDARD_LEN
    ensures WithAmount(s, field)[STANDARD_LEN..] == s[STANDARD_LEN..]
  {
    hide ParseInt, ParseIntOrZero, Decode, Strip, RecordTypeOf;
    var t := WithAmount(s, field);
    assert t[..2] == s[..2];
    var old80, new80 := s[..STANDARD_LEN], t[..STANDARD_LEN];
    assert new80[AMOUNT_AT..AMOUNT_END] == field;
    assert t[..AMOUNT_AT] == s[..AMOUNT_AT];
    assert new80[18..26] == t[..AMOUNT_AT][18..26] && old80[18..26] == s[..AMOUNT_AT][18..26];
    assert new80[27..47] == t[..AMOUNT_AT][27..47] && old80[27..47] == s[..AMOUNT_AT][27..47];
    assert new80[2..17] == t[..AMOUNT_AT][2..17] && old80[2..17] == s[..AMOUNT_AT][2..17];
  }

  lemma AmountScan(check: Bytes, behind: Bytes, field: Bytes)
    requires check != [] && Head(check).Success? && Head(check).value.record.Check? && After(check) == []
    requires Scan(behind).Some? && |field| == AMOUNT_END - AMOUNT_AT
    ensures var cents := ParseIntOrZero(Decode(field));
            Scan(WithAmount(check, field) + behind) ==
            if cents.None? then None
            else Some([Head(check).value.record.(cents := cents.value)] + Scan(behind).value)
  {
    hide Head, ParseIntOrZero, Decode;
    AmountHead(check, field);
    var changed := WithAmount(check, field);
    var cents := ParseIntOrZero(Decode(field));
    if cents.Some? {
      assert After(changed) == After(check);
      AppendIsAssociative(Some([Head(changed).value.record]), None, None);
      assert Scan(changed) == Some([Head(changed).value.record]);
      ScansAtRecordStart(behind);
      ScanAppend(changed, behind);
    } else {
      HeadIsLocal(check, behind);
      AmountHead(check + behind, field);
      assert WithAmount(check + behind, field) == changed + behind by {
        assert (check + behind)[..AMOUNT_AT] == check[..AMOUNT_AT];
        assert (check + behind)[AMOUNT_END..] == check[AMOUNT_END..] + behind;
      }
    }
  }

  lemma StretchOfOne(content: Bytes, i: nat)
    requires Scan(content).Some? && i < |Scan(content).value|
    ensures var a, b := Offset(content, i), Offset(content, i + 1);
            && a < b
            && var piece := content[a..b];
            Head(piece).Success? && Head(piece).value.record == Scan(content).value[i] && After(piece) == []
  {
    hide Offset, Head, After;
    ThreeParts(content, i, i + 1);
    var piece := content[Offset(content, i)..Offset(content, i + 1)];
    assert Scan(content).value[i..i + 1] == [Scan(content).value[i]];
    NothingScanned(After(piece));
  }

  lemma NothingScanned(content: Bytes)
    ensures Scan(content) == Some([]) <==> content == []
  {
    hide Head, After;
  }

  lemma AmountWhole(content: Bytes, i: nat, field: Bytes)
    requires Scan(content).Some? && i < |Scan(content).value| && Scan(content).value[i].Check?
    requires |field| == AMOUNT_END - AMOUNT_AT && Offset(content, i) + AMOUNT_END <= |content|
    ensures var recs := Scan(content).value;
            var cents := ParseIntOrZero(Decode(field));
            var o := Offset(content, i);
            Scan(content[..o + AMOUNT_AT] + field + content[o + AMOUNT_END..]) ==
            if cents.None? then None else Some(recs[..i] + [recs[i].(cents := cents.value)] + recs[i + 1..])
  {
    hide Scan, Offset, Head, After, ParseIntOrZero, Decode;
    var recs := Scan(content).value;
    var o, e := Offset(content, i), Offset(content, i + 1);
    ThreeParts(content, i, i + 1);
    StretchOfOne(content, i);
    var before, check, behind := content[..o], content[o..e], content[e..];
    var changed := WithAmount(check, field);
    AmountHead(check, field);
    AmountScan(check, behind, field);
    assert content[..o + AMOUNT_AT] == before + check[..AMOUNT_AT];
    assert content[o + AMOUNT_END..] == check[AMOUNT_END..] + behind;
    assert content[..o + AMOUNT_AT] + field + content[o + AMOUNT_END..] == before + (changed + behind);
    assert AtRecordStart(changed + behind) by { ScansAtRecordStart(content[o..e]); }
    ScanAppend(before, changed + behind);
    var cents := ParseIntOrZero(Decode(field));
    if cents.Some? {
      var one := [recs[i].(cents := cents.value)];
      assert recs[..i] + (one + recs[i + 1..]) == recs[..i] + one + recs[i + 1..];
    }
  }

  /** Overwriting the amount of one check in an accepted file that ends in a Type 99 is
      caught exactly when the new field does not read as the same amount. */
  lemma ChangedAmountIsCaught(content: Bytes, i: nat, field: Bytes, today: Date)
    requires Accepted(content, today) && Scan(content).Some? && EndsInFileControl(Scan(content).value)
    requires i < |Scan(content).value| && Scan(content).value[i].Check?
    requires |field| == AMOUNT_END - AMOUNT_AT
    ensures Offset(content, i) + AMOUNT_END <= |content|
    ensures var o := Offset(content, i);
            Accepted(content[..o + AMOUNT_AT] + field + content[o + AMOUNT_END..], today) <==>
            ParseIntOrZero(Decode(field)) == Some(Scan(content).value[i].cents)
  {
    hide Parse, Scan, Offset, Head, After, ItemsOf, TotalsOf, ControlsAgree, ParseIntOrZero, Decode;
    var recs := Scan(content).value;
    var o := Offset(content, i);
    ThreeParts(content, i, i + 1);
    StretchOfOne(content, i);
    AmountWhole(content, i, field);
    var changed := content[..o + AMOUNT_AT] + field + content[o + AMOUNT_END..];
    ParseExact(content, today);
    ParseExact(changed, today);
    var cents := ParseIntOrZero(Decode(field));
    if cents.Some? {
      var now := recs[..i] + [recs[i].(cents := cents.value)] + recs[i + 1..];
      if cents.value == recs[i].cents {
        assert now == recs;
      } else if ControlsAgree(now) {
        AmountsInSums(recs, now, i);
      }
    }
  }

  lemma AmountsInSums(recs: seq<Record>, now: seq<Record>, i: nat)
    requires ControlsAgree(recs) && ControlsAgree(now) && EndsInFileControl(recs)
    requires i < |recs| && recs[i].Check?
    requires exists c :: now == recs[..i] + [recs[i].(cents := c)] + recs[i + 1..]
    ensures now == recs
  {
    hide ControlsAgree, TotalsOf;
    var c :| now == recs[..i] + [recs[i].(cents := c)] + recs[i + 1..];
    var last := |recs| - 1;
    assert i < last && now[last] == recs[last];
    FileControlIsWholeSum(recs, last);
    FileControlIsWholeSum(now, last);
    assert recs[..last] == recs[..i] + [recs[i]] + recs[i + 1..last];
    assert now[..last] == recs[..i] + [now[i]] + recs[i + 1..last];
    TotalsAppend(recs[..i] + [recs[i]], recs[i + 1..last]);
    TotalsAppend(recs[..i] + [now[i]], recs[i + 1..last]);
    TotalsAppend(recs[..i], [recs[i]]);
    TotalsAppend(recs[..i], [now[i]]);
    TotalsOfOne(recs[i]);
    TotalsOfOne(now[i]);
  }

  lemma TotalsOfOne(r: Record)
    ensures TotalsOf([r]) == if r.Check? then Totals(1, r.cents) else ZERO_TOTALS
  {
    var one := [r];
    assert one[..|one| - 1] == [];
    assert one[|one| - 1] == r;
    assert TotalsOf(one[..|one| - 1]) == ZERO_TOTALS;
  }
}
