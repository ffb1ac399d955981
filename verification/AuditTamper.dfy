/** What a verified audit log certifies, and when an untouched log verifies. */
module AuditTamper {
  import opened Wrappers
  import opened AuditChain

  // ---- Which tables verify ----

  /** The first `n` entries of `table` are, in every signed field, those of `rows`. */
  predicate SameAs(table: seq<Entry>, rows: seq<Entry>, n: nat, render: Rendering)
    requires n <= |table|
  {
    && n <= |rows|
    && forall i :: 0 <= i < n ==>
         && Parts(table[i], render) == Parts(rows[i], render)
         && table[i].prev == rows[i].prev
         && table[i].hash == rows[i].hash
  }

  ghost predicate AllLinked(logs: Logs) {
    forall t :: t in logs ==> Linked(logs[t])
  }

  ghost predicate AllStrict(logs: Logs) {
    forall t :: t in logs ==> StrictClock(logs[t])
  }

  lemma StrictClockLinks(rows: seq<Entry>)
    requires OnTopOfLatest(rows) && StrictClock(rows)
    ensures Linked(rows)
  {
    forall i | 0 <= i < |rows| ensures rows[i].prev == HashBefore(rows, i) {
      assert FollowsLatest(rows[i], rows[..i]);
      if i > 0 {
        var k :| 0 <= k < i && rows[i].prev == Some(rows[..i][k].hash) && IsLatest(rows[..i][k], rows[..i]);
        assert rows[..i][i - 1] == rows[i - 1];
        assert k == i - 1;
      }
    }
  }

  /** The first `n` entries of `table` have the signed texts and the links of those of `rows`. */
  predicate SameText(table: seq<Entry>, rows: seq<Entry>, n: nat, render: Rendering)
    requires n <= |table|
  {
    && n <= |rows|
    && forall i :: 0 <= i < n ==>
         && Canonical(table[i], render) == Canonical(rows[i], render)
         && table[i].prev == rows[i].prev
         && table[i].hash == rows[i].hash
  }

  /** A verified entry has the signed text of one that was recorded. */
  lemma HoldingEntryWasRecorded(e: Entry, before: Option<string>, logs: Logs, ledger: Ledger, render: Rendering)
    returns (t: int, i: nat)
    requires Recorded(logs, ledger, render) && EntryHolds(e, before, ledger, render)
    ensures t in logs && i < |logs[t]|
    ensures Canonical(e, render) == Canonical(logs[t][i], render) && e.hash == logs[t][i].hash
  {
    hide Canonical, SeparatorFree;
    var f := Canonical(e, render);
    assert (f, e.hash) in ledger;
    t, i :| t in logs && 0 <= i < |logs[t]| && f == Canonical(logs[t][i], render) && e.hash == logs[t][i].hash;
  }

  lemma PreviousPart(e: Entry, row: Entry, render: Rendering)
    requires Canonical(e, render) == Canonical(row, render)
    requires SeparatorFree(OrEmpty(e.prev)) && SeparatorFree(OrEmpty(row.prev))
    ensures OrEmpty(e.prev) == OrEmpty(row.prev)
  {
    LastPartIsTold(Parts(e, render), Parts(row, render));
  }

  /** With a rendering that keeps timestamps apart, the signed parts pin down every field but
      the row id, an absent and an empty value counting as the same. */
  lemma PartsPinTheFields(a: Entry, b: Entry, render: Rendering)
    requires FaithfulRendering(render) && Parts(a, render) == Parts(b, render)
    ensures a.occurredAt == b.occurredAt && a.content.channel == b.content.channel
    ensures a.content.action == b.content.action && a.content.summary == b.content.summary
    ensures a.content.resourceType == b.content.resourceType
    ensures OrEmpty(a.content.actor) == OrEmpty(b.content.actor)
    ensures OrEmpty(a.content.resourceId) == OrEmpty(b.content.resourceId)
    ensures OrEmpty(a.content.metadata) == OrEmpty(b.content.metadata)
  {
    var p, q := Parts(a, render), Parts(b, render);
    assert p[0] == q[0] && p[1] == q[1] && p[2] == q[2] && p[3] == q[3];
    assert p[4] == q[4] && p[5] == q[5] && p[6] == q[6] && p[7] == q[7];
  }

  lemma {:induction false} HoldingTableWasRecorded(
    table: seq<Entry>, n: nat, logs: Logs, ledger: Ledger, render: Rendering) returns (t: int)
    requires Recorded(logs, ledger, render) && AllLinked(logs)
    requires 0 < n <= |table| && HoldsTo(table, n, ledger, render)
    ensures t in logs && SameText(table, logs[t], n, render)
  {
    hide Canonical, EntryHolds, HoldsTo, Recorded, AllLinked, SeparatorFree, SameText;
    var e := table[n - 1];
    Previous(table, n, ledger, render);
    var u, i := HoldingEntryWasRecorded(e, HashBefore(table, n - 1), logs, ledger, render);
    RowPrevIsClean(u, i, logs, ledger, render);
    if n == 1 {
      PreviousPart(e, logs[u][i], render) by { assert SeparatorFree("") by { EmptyIsFree(); } }
      FirstIsFirst(e, u, i, logs, ledger, render);
      t := u;
      OneMoreText(table, logs[t], 0, render);
    } else {
      HoldsBefore(table, n, ledger, render);
      t := HoldingTableWasRecorded(table, n - 1, logs, ledger, render);
      LastText(table, logs[t], n - 1, render);
      RowHashIsClean(t, n - 2, logs, ledger, render);
      PreviousPart(e, logs[u][i], render);
      FollowsInLog(e, u, i, t, n - 1, logs, ledger, render);
      OneMoreText(table, logs[t], n - 1, render);
    }
  }

  lemma HoldsBefore(table: seq<Entry>, n: nat, ledger: Ledger, render: Rendering)
    requires 0 < n <= |table| && HoldsTo(table, n, ledger, render)
    ensures HoldsTo(table, n - 1, ledger, render)
  {
    hide EntryHolds;
  }

  lemma LastText(table: seq<Entry>, rows: seq<Entry>, n: nat, render: Rendering)
    requires 0 < n <= |table| && SameText(table, rows, n, render)
    ensures n <= |rows| && table[n - 1].hash == rows[n - 1].hash
  {
    hide Canonical;
  }

  lemma OneMoreText(table: seq<Entry>, rows: seq<Entry>, n: nat, render: Rendering)
    requires n < |table| && n < |rows| && (n > 0 ==> SameText(table, rows, n, render))
    requires Canonical(table[n], render) == Canonical(rows[n], render)
    requires table[n].prev == rows[n].prev && table[n].hash == rows[n].hash
    ensures SameText(table, rows, n + 1, render)
  {
    hide Canonical;
  }

  lemma EmptyIsFree()
    ensures SeparatorFree("")
  {
  }

  lemma RowHashIsClean(u: int, i: nat, logs: Logs, ledger: Ledger, render: Rendering)
    requires Recorded(logs, ledger, render) && u in logs && i < |logs[u]|
    ensures SeparatorFree(logs[u][i].hash)
  {
  }

  lemma RowPrevIsClean(u: int, i: nat, logs: Logs, ledger: Ledger, render: Rendering)
    requires Recorded(logs, ledger, render) && AllLinked(logs) && u in logs && i < |logs[u]|
    ensures SeparatorFree(OrEmpty(logs[u][i].prev))
  {
    hide SignedExactly, DistinctHashes, OnTopOfLatest;
    assert logs[u][i].prev == HashBefore(logs[u], i);
  }

  lemma FirstIsFirst(e: Entry, u: int, i: nat, logs: Logs, ledger: Ledger, render: Rendering)
    requires Recorded(logs, ledger, render) && AllLinked(logs) && u in logs && i < |logs[u]|
    requires e.prev == None && OrEmpty(e.prev) == OrEmpty(logs[u][i].prev)
    ensures i == 0 && logs[u][i].prev == e.prev
  {
    hide SignedExactly;
    assert logs[u][i].prev == HashBefore(logs[u], i);
  }

  /** An entry that names the row before position `i` as its predecessor is the row at `i`. */
  lemma FollowsInLog(e: Entry, u: int, j: nat, t: int, i: nat, logs: Logs, ledger: Ledger, render: Rendering)
    requires Recorded(logs, ledger, render) && AllLinked(logs)
    requires u in logs && j < |logs[u]| && t in logs && 0 < i <= |logs[t]|
    requires e.prev == Some(logs[t][i - 1].hash) && OrEmpty(e.prev) == OrEmpty(logs[u][j].prev)
    ensures u == t && j == i && logs[u][j].prev == e.prev
  {
    hide SignedExactly;
    assert logs[u][j].prev == HashBefore(logs[u], j);
    assert logs[t][i - 1].hash != "";
    assert j > 0 && logs[u][j - 1].hash == logs[t][i - 1].hash;
  }

  lemma Previous(table: seq<Entry>, n: nat, ledger: Ledger, render: Rendering)
    requires 0 < n <= |table| && HoldsTo(table, n, ledger, render)
    ensures EntryHolds(table[n - 1], HashBefore(table, n - 1), ledger, render)
    ensures table[n - 1].prev == HashBefore(table, n - 1)
  {
    hide Canonical;
    assert EntryHolds(table[n - 1], HashBefore(table, n - 1), ledger, render);
  }

  lemma RecordedTableHolds(table: seq<Entry>, n: nat, t: int, logs: Logs, ledger: Ledger, render: Rendering)
    requires Recorded(logs, ledger, render) && AllLinked(logs)
    requires n <= |table| && t in logs && SameText(table, logs[t], n, render)
    ensures HoldsTo(table, n, ledger, render)
  {
    hide Canonical;
    forall i | 0 <= i < n ensures EntryHolds(table[i], HashBefore(table, i), ledger, render) {
      assert logs[t][i].prev == HashBefore(logs[t], i);
      if i > 0 { assert table[i - 1].hash == logs[t][i - 1].hash; }
    }
  }

  /** Whatever the fields hold: the first `n` entries of a table verify exactly when they have
      the signed texts of the first `n` entries recorded for some tenant. */
  lemma VerifiesIffSameText(table: seq<Entry>, n: nat, logs: Logs, ledger: Ledger, render: Rendering)
    requires Recorded(logs, ledger, render) && AllStrict(logs) && n <= |table|
    ensures HoldsTo(table, n, ledger, render) <==>
            n == 0 || exists t :: t in logs && SameText(table, logs[t], n, render)
  {
    hide SameText, HoldsTo, StrictClock, Linked, SignedExactly, CleanHashes;
    forall t | t in logs ensures Linked(logs[t]) { StrictClockLinks(logs[t]); }
    if n > 0 && HoldsTo(table, n, ledger, render) {
      var t := HoldingTableWasRecorded(table, n, logs, ledger, render);
    }
    if n > 0 && exists t :: t in logs && SameText(table, logs[t], n, render) {
      var t :| t in logs && SameText(table, logs[t], n, render);
      RecordedTableHolds(table, n, t, logs, ledger, render);
    }
    if n == 0 { NothingToHold(table, ledger, render); }
  }

  lemma SameTextIsSame(table: seq<Entry>, n: nat, t: int, logs: Logs, render: Rendering)
    requires CleanRows(logs, render) && t in logs && n <= |table|
    ensures SameText(table, logs[t], n, render) <==> SameAs(table, logs[t], n, render)
  {
    hide Parts, Join, AllFree;
    if n <= |logs[t]| {
      forall i | 0 <= i < n && Canonical(table[i], render) == Canonical(logs[t][i], render)
        ensures Parts(table[i], render) == Parts(logs[t][i], render)
      {
        SameTextSameParts(logs[t][i], table[i], render);
      }
    }
  }

  lemma SameTextSameParts(clean: Entry, e: Entry, render: Rendering)
    requires AllFree(Parts(clean, render)) && Canonical(e, render) == Canonical(clean, render)
    ensures Parts(e, render) == Parts(clean, render)
  {
    JoinIsInjective(Parts(clean, render), Parts(e, render));
  }

  /** If no recorded field holds a separator: the first `n` entries of a table verify exactly
      when they are the first `n` entries recorded for some tenant, with nothing edited,
      reordered, inserted or missing in between. */
  lemma VerifiesIffRecorded(table: seq<Entry>, n: nat, logs: Logs, ledger: Ledger, render: Rendering)
    requires Recorded(logs, ledger, render) && AllStrict(logs) && CleanRows(logs, render) && n <= |table|
    ensures HoldsTo(table, n, ledger, render) <==> n == 0 || exists t :: t in logs && SameAs(table, logs[t], n, render)
  {
    hide SameAs, SameText, HoldsTo, AllStrict, Recorded, CleanRows;
    VerifiesIffSameText(table, n, logs, ledger, render);
    forall t | t in logs ensures SameText(table, logs[t], n, render) <==> SameAs(table, logs[t], n, render) {
      SameTextIsSame(table, n, t, logs, render);
    }
  }

  /** With its first entry in place, a table verifies exactly as far as it agrees with the
      log it came from. */
  lemma VerifiesAsFarAsIntact(table: seq<Entry>, k: nat, t: int, logs: Logs, ledger: Ledger, render: Rendering)
    requires Recorded(logs, ledger, render) && AllStrict(logs) && CleanRows(logs, render)
    requires t in logs && 0 < k <= |table| && SameAs(table, logs[t], 1, render)
    ensures HoldsTo(table, k, ledger, render) <==> SameAs(table, logs[t], k, render)
  {
    hide HoldsTo, Parts, StrictClock, SignedExactly, CleanRows;
    VerifiesIffRecorded(table, k, logs, ledger, render);
    if HoldsTo(table, k, ledger, render) {
      var u :| u in logs && SameAs(table, logs[u], k, render);
      assert logs[u][0].hash == table[0].hash == logs[t][0].hash;
      assert u == t;
    }
  }

  // ---- When an untouched log verifies ----

  ghost predicate DistinctRows(rows: seq<Entry>) {
    forall i, j :: 0 <= i < |rows| && 0 <= j < |rows| && rows[i].hash == rows[j].hash ==> i == j
  }

  predicate AllSigned(rows: seq<Entry>, ledger: Ledger, render: Rendering) {
    forall i :: 0 <= i < |rows| ==> (Canonical(rows[i], render), rows[i].hash) in ledger
  }

  predicate InTimeOrder(order: seq<Entry>) {
    forall i, j :: 0 <= i < j < |order| ==> order[i].occurredAt <= order[j].occurredAt
  }

  /** `order` is something the query "order by occurred_at" may return. */
  predicate IsChainOrder(order: seq<Entry>, rows: seq<Entry>) {
    multiset(order) == multiset(rows) && InTimeOrder(order)
  }

  /** Every row of a returned order is one of the rows. */
  lemma IndexIn(s: seq<Entry>, t: seq<Entry>, k: nat) returns (j: nat)
    requires multiset(s) == multiset(t) && k < |s|
    ensures j < |t| && t[j] == s[k]
  {
    assert s[k] in multiset(t);
    j :| 0 <= j < |t| && t[j] == s[k];
  }

  lemma DropLast(s: seq<Entry>, t: seq<Entry>)
    requires s != [] && t != [] && multiset(s) == multiset(t) && s[|s| - 1] == t[|t| - 1]
    ensures multiset(s[..|s| - 1]) == multiset(t[..|t| - 1])
  {
    WithoutLast(s);
    WithoutLast(t);
  }

  lemma WithoutLast(s: seq<Entry>)
    requires s != []
    ensures multiset(s[..|s| - 1]) == multiset(s) - multiset{s[|s| - 1]}
  {
    assert s == s[..|s| - 1] + [s[|s| - 1]];
    assert multiset(s) == multiset(s[..|s| - 1]) + multiset{s[|s| - 1]};
  }

  lemma {:induction false} StrictOrderIsUnique(order: seq<Entry>, rows: seq<Entry>)
    requires StrictClock(rows) && IsChainOrder(order, rows)
    ensures order == rows
    decreases |rows|
  {
    assert |order| == |multiset(order)| == |multiset(rows)| == |rows|;
    if rows != [] {
      var n := |rows| - 1;
      var k := IndexIn(order, rows, n);
      var l := IndexIn(rows, order, n);
      assert order[l].occurredAt <= order[n].occurredAt;
      assert k == n;
      DropLast(order, rows);
      StrictOrderIsUnique(order[..n], rows[..n]);
      assert order == order[..n] + [order[n]] && rows == rows[..n] + [rows[n]];
    }
  }

  predicate Precedes(a: Entry, b: Entry, s: seq<Entry>) {
    exists p, q :: 0 <= p < q < |s| && s[p] == a && s[q] == b
  }

  /** Insert a row in front of every row that is not older. */
  function InsertEarly(e: Entry, s: seq<Entry>): seq<Entry> {
    if s == [] then [e]
    else if e.occurredAt <= s[0].occurredAt then [e] + s
    else [s[0]] + InsertEarly(e, s[1..])
  }

  /** A time order that returns the later recorded of two rows with one timestamp first. */
  function LateFirst(rows: seq<Entry>): seq<Entry> {
    if rows == [] then [] else InsertEarly(rows[|rows| - 1], LateFirst(rows[..|rows| - 1]))
  }

  lemma PrependSorted(first: Entry, rest: seq<Entry>, e: Entry, t: seq<Entry>)
    requires InTimeOrder([first] + rest) && first.occurredAt <= e.occurredAt && InTimeOrder(t)
    requires multiset(t) == multiset(rest) + multiset{e}
    ensures InTimeOrder([first] + t) && multiset([first] + t) == multiset([first] + rest) + multiset{e}
  {
    forall j | 0 <= j < |t| ensures first.occurredAt <= t[j].occurredAt {
      assert t[j] in multiset(t);
      if t[j] != e {
        var k :| 0 <= k < |rest| && rest[k] == t[j];
        var all := [first] + rest;
        assert all[0].occurredAt <= all[k + 1].occurredAt;
      }
    }
  }

  lemma {:induction false} InsertEarlySorts(e: Entry, s: seq<Entry>)
    requires InTimeOrder(s)
    ensures InTimeOrder(InsertEarly(e, s)) && multiset(InsertEarly(e, s)) == multiset(s) + multiset{e}
  {
    if s != [] && e.occurredAt > s[0].occurredAt {
      InsertEarlySorts(e, s[1..]);
      assert s == [s[0]] + s[1..];
      PrependSorted(s[0], s[1..], e, InsertEarly(e, s[1..]));
    } else {
      assert InsertEarly(e, s) == [e] + s;
    }
  }

  lemma {:induction false} LateFirstSorts(rows: seq<Entry>)
    ensures IsChainOrder(LateFirst(rows), rows)
  {
    if rows != [] {
      var n := |rows| - 1;
      LateFirstSorts(rows[..n]);
      InsertEarlySorts(rows[n], LateFirst(rows[..n]));
      assert rows == rows[..n] + [rows[n]];
    }
  }

  lemma {:induction false} InsertEarlyKeeps(e: Entry, a: Entry, b: Entry, s: seq<Entry>)
    requires Precedes(a, b, s)
    ensures Precedes(a, b, InsertEarly(e, s))
  {
    var p, q :| 0 <= p < q < |s| && s[p] == a && s[q] == b;
    var t := InsertEarly(e, s);
    if e.occurredAt <= s[0].occurredAt {
      assert t[p + 1] == a && t[q + 1] == b;
    } else if p > 0 {
      assert s[1..][p - 1] == a && s[1..][q - 1] == b;
      InsertEarlyKeeps(e, a, b, s[1..]);
      var p', q' :| 0 <= p' < q' < |InsertEarly(e, s[1..])| && InsertEarly(e, s[1..])[p'] == a
          && InsertEarly(e, s[1..])[q'] == b;
      assert t[p' + 1] == a && t[q' + 1] == b;
    } else {
      var k := InsertEarlyHas(e, b, s[1..], q - 1);
      assert t[0] == a && t[k + 1] == b;
    }
  }

  lemma {:induction false} InsertEarlyHas(e: Entry, b: Entry, s: seq<Entry>, q: nat) returns (k: nat)
    requires q < |s| && s[q] == b
    ensures k < |InsertEarly(e, s)| && InsertEarly(e, s)[k] == b
  {
    if e.occurredAt <= s[0].occurredAt {
      k := q + 1;
    } else if q == 0 {
      k := 0;
    } else {
      k := InsertEarlyHas(e, b, s[1..], q - 1);
      k := k + 1;
    }
  }

  lemma {:induction false} InsertedBefore(e: Entry, b: Entry, s: seq<Entry>, q: nat)
    requires InTimeOrder(s) && q < |s| && s[q] == b && e.occurredAt <= b.occurredAt
    ensures Precedes(e, b, InsertEarly(e, s))
  {
    var t := InsertEarly(e, s);
    if e.occurredAt <= s[0].occurredAt {
      assert t[0] == e && t[q + 1] == b;
    } else {
      assert q > 0 && s[1..][q - 1] == b;
      InsertedBefore(e, b, s[1..], q - 1);
      var p', q' :| 0 <= p' < q' < |InsertEarly(e, s[1..])| && InsertEarly(e, s[1..])[p'] == e
          && InsertEarly(e, s[1..])[q'] == b;
      assert t[p' + 1] == e && t[q' + 1] == b;
    }
  }

  lemma {:induction false} LateFirstReverses(rows: seq<Entry>, i: nat)
    requires 0 < i < |rows| && rows[i].occurredAt <= rows[i - 1].occurredAt
    ensures Precedes(rows[i], rows[i - 1], LateFirst(rows))
    decreases |rows|
  {
    var n := |rows| - 1;
    var before := LateFirst(rows[..n]);
    if i < n {
      LateFirstReverses(rows[..n], i);
      InsertEarlyKeeps(rows[n], rows[i], rows[i - 1], before);
    } else {
      LateFirstSorts(rows[..n]);
      var q := IndexIn(rows[..n], before, n - 1);
      InsertedBefore(rows[n], rows[n - 1], before, q);
    }
  }

  lemma ReversedPairBreaks(rows: seq<Entry>, i: nat, order: seq<Entry>, ledger: Ledger, render: Rendering)
    requires OnTopOfLatest(rows) && DistinctRows(rows)
    requires 0 < i < |rows| && StrictClock(rows[..i])
    requires multiset(order) == multiset(rows) && Precedes(rows[i], rows[i - 1], order)
    ensures !HoldsTo(order, |order|, ledger, render)
  {
    hide OnTopOfLatest, StrictClock, DistinctRows, HoldsTo;
    PrevIsRowBefore(rows, i);
    var p, q :| 0 <= p < q < |order| && order[p] == rows[i] && order[q] == rows[i - 1];
    NoTwoRowsOneHashes(order, rows, q);
    LinkBroken(order, p, q, ledger, render);
  }

  lemma NoTwoRowsOneHashes(order: seq<Entry>, rows: seq<Entry>, q: nat)
    requires multiset(order) == multiset(rows) && DistinctRows(rows) && q < |order|
    ensures forall k :: 0 <= k < q ==> order[k].hash != order[q].hash
  {
    forall k | 0 <= k < q ensures order[k].hash != order[q].hash { NoTwoRowsOneHash(order, rows, k, q); }
  }

  lemma LinkBroken(order: seq<Entry>, p: nat, q: nat, ledger: Ledger, render: Rendering)
    requires p < q < |order| && order[p].prev == Some(order[q].hash)
    requires forall k :: 0 <= k < q ==> order[k].hash != order[q].hash
    ensures !HoldsTo(order, |order|, ledger, render)
  {
    hide Canonical;
    assert HashBefore(order, p) != Some(order[q].hash);
    assert !EntryHolds(order[p], HashBefore(order, p), ledger, render);
  }

  lemma NoTwoRowsOneHash(order: seq<Entry>, rows: seq<Entry>, p: nat, q: nat)
    requires multiset(order) == multiset(rows) && DistinctRows(rows)
    requires p < q < |order|
    ensures order[p].hash != order[q].hash
  {
    var k := IndexIn(order, rows, p);
    var l := IndexIn(order, rows, q);
    if order[p].hash == order[q].hash {
      SameHashSameRow(rows, k, l);
      TwoCopies(order, p, q);
      DistinctOnce(rows, k);
    }
  }

  lemma SameHashSameRow(rows: seq<Entry>, i: nat, j: nat)
    requires DistinctRows(rows) && i < |rows| && j < |rows| && rows[i].hash == rows[j].hash
    ensures i == j
  {
  }

  lemma PrevIsRowBefore(rows: seq<Entry>, i: nat)
    requires OnTopOfLatest(rows) && 0 < i < |rows| && StrictClock(rows[..i])
    ensures rows[i].prev == Some(rows[i - 1].hash)
  {
    assert FollowsLatest(rows[i], rows[..i]);
    var k :| 0 <= k < i && rows[i].prev == Some(rows[..i][k].hash) && IsLatest(rows[..i][k], rows[..i]);
    assert rows[..i][i - 1] == rows[i - 1];
  }

  lemma TwoCopies(s: seq<Entry>, p: nat, q: nat)
    requires p < q < |s| && s[p] == s[q]
    ensures multiset(s)[s[p]] >= 2
  {
    assert s == s[..p] + [s[p]] + s[p + 1..q] + [s[q]] + s[q + 1..];
  }

  lemma DistinctOnce(rows: seq<Entry>, i: nat)
    requires DistinctRows(rows) && i < |rows|
    ensures multiset(rows)[rows[i]] == 1
  {
    assert rows == rows[..i] + [rows[i]] + rows[i + 1..];
    forall k | 0 <= k < |rows| && k != i ensures rows[k] != rows[i] {}
    var later := rows[i + 1..];
    forall k | 0 <= k < |later| ensures later[k] != rows[i] { assert later[k] == rows[i + 1 + k]; }
    assert multiset(rows[..i])[rows[i]] == 0 && multiset(later)[rows[i]] == 0;
  }

  lemma {:induction false} FirstStall(rows: seq<Entry>) returns (i: nat)
    requires !StrictClock(rows)
    ensures 0 < i < |rows| && rows[i].occurredAt <= rows[i - 1].occurredAt && StrictClock(rows[..i])
    decreases |rows|
  {
    var n := |rows| - 1;
    if StrictClock(rows[..n]) {
      i := n;
      if rows[n - 1].occurredAt < rows[n].occurredAt {
        forall k, l | 0 <= k < l < |rows| ensures rows[k].occurredAt < rows[l].occurredAt {
          if l < n {
            assert rows[..n][k].occurredAt < rows[..n][l].occurredAt;
          } else if k < n - 1 {
            assert rows[..n][k].occurredAt < rows[..n][n - 1].occurredAt;
          }
        }
      }
    } else {
      i := FirstStall(rows[..n]);
      assert rows[..n][..i] == rows[..i];
    }
  }

  lemma UntouchedRowsVerifyIff(rows: seq<Entry>, ledger: Ledger, render: Rendering)
    requires OnTopOfLatest(rows) && DistinctRows(rows) && AllSigned(rows, ledger, render)
    ensures (forall order :: IsChainOrder(order, rows) ==> HoldsTo(order, |order|, ledger, render)) <==>
            StrictClock(rows)
  {
    hide Canonical;
    if StrictClock(rows) {
      StrictClockLinks(rows);
      forall order | IsChainOrder(order, rows) ensures HoldsTo(order, |order|, ledger, render) {
        StrictOrderIsUnique(order, rows);
      }
    } else {
      var i := FirstStall(rows);
      LateFirstSorts(rows);
      LateFirstReverses(rows, i);
      ReversedPairBreaks(rows, i, LateFirst(rows), ledger, render);
    }
  }

  lemma RecordedRows(logs: Logs, ledger: Ledger, render: Rendering, t: int)
    requires Recorded(logs, ledger, render) && t in logs
    ensures DistinctRows(logs[t]) && AllSigned(logs[t], ledger, render) && OnTopOfLatest(logs[t])
  {
    hide Canonical, FollowsLatest;
  }

  /** A log that nobody touched verifies in every order the database may return it in exactly
      when the clock read strictly later for every entry. */
  lemma UntouchedVerifiesIffClockStrict(logs: Logs, ledger: Ledger, render: Rendering, t: int)
    requires Recorded(logs, ledger, render) && t in logs
    ensures (forall order :: IsChainOrder(order, logs[t]) ==> HoldsTo(order, |order|, ledger, render)) <==>
            forall i :: 0 < i < |logs[t]| ==> logs[t][i - 1].occurredAt < logs[t][i].occurredAt
  {
    hide HoldsTo, IsChainOrder, Recorded;
    RecordedRows(logs, ledger, render, t);
    UntouchedRowsVerifyIff(logs[t], ledger, render);
    StrictStepByStep(logs[t]);
  }

  lemma {:induction false} StrictStepByStep(rows: seq<Entry>)
    ensures StrictClock(rows) <==> forall i :: 0 < i < |rows| ==> rows[i - 1].occurredAt < rows[i].occurredAt
  {
    if !StrictClock(rows) { var _ := FirstStall(rows); }
  }
}
