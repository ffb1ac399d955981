/** The audit log's chain of signatures: what `record_action` writes, and exactly which
    tables `verify_chain` accepts under an ideal signature scheme. */
module AuditChain {
  import opened Wrappers

  // ---- The signed serialization ----

  const SEPARATOR := '\U{001F}'

  /** The fields of an entry that its caller supplies. */
  datatype Content = Content(
    actor: Option<string>, channel: string, action: string, summary: string,
    resourceType: string, resourceId: Option<string>, metadata: Option<string>)

  /** `prev` and `hash` are signatures; the row id is not signed. */
  datatype Entry = Entry(id: int, occurredAt: int, content: Content, prev: Option<string>, hash: string)

  /** How a timestamp is written; any rendering will do that keeps timestamps apart. */
  type Rendering = int -> string

  ghost predicate FaithfulRendering(render: Rendering) {
    forall t, u :: render(t) == render(u) ==> t == u
  }

  /** The number itself in strokes is such a rendering. */
  lemma StrokesAreFaithful()
    ensures FaithfulRendering((t: int) => if t < 0 then "-" + seq(-t, _ => '1') else seq(t, _ => '1'))
  {
    var render: Rendering := (t: int) => if t < 0 then "-" + seq(-t, _ => '1') else seq(t, _ => '1');
    forall t, u | render(t) == render(u) ensures t == u {
      assert t < 0 ==> render(t)[0] == '-';
      assert u < 0 ==> render(u)[0] == '-';
      assert t > 0 ==> render(t)[0] == '1';
      assert u > 0 ==> render(u)[0] == '1';
      assert |render(t)| == if t < 0 then 1 - t else t;
      assert |render(u)| == if u < 0 then 1 - u else u;
    }
  }

  function OrEmpty(s: Option<string>): string {
    if s.None? then "" else s.value
  }

  function Parts(e: Entry, render: Rendering): (p: seq<string>)
    ensures |p| == 9
  {
    [render(e.occurredAt), OrEmpty(e.content.actor), e.content.channel, e.content.action, e.content.summary,
     e.content.resourceType, OrEmpty(e.content.resourceId), OrEmpty(e.content.metadata), OrEmpty(e.prev)]
  }

  function Join(parts: seq<string>): string {
    if parts == [] then "" else if |parts| == 1 then parts[0] else parts[0] + [SEPARATOR] + Join(parts[1..])
  }

  function Canonical(e: Entry, render: Rendering): string {
    Join(Parts(e, render))
  }

  function Separators(s: string): nat {
    if s == "" then 0 else (if s[0] == SEPARATOR then 1 else 0) + Separators(s[1..])
  }

  predicate SeparatorFree(s: string) {
    Separators(s) == 0
  }

  lemma {:induction false} SeparatorsAppend(a: string, b: string)
    ensures Separators(a + b) == Separators(a) + Separators(b)
  {
    if a == "" {
      assert a + b == b;
    } else {
      assert (a + b)[1..] == a[1..] + b;
      SeparatorsAppend(a[1..], b);
    }
  }

  function SeparatorsIn(parts: seq<string>): nat {
    if parts == [] then 0 else Separators(parts[0]) + SeparatorsIn(parts[1..])
  }

  predicate AllFree(parts: seq<string>) {
    forall i :: 0 <= i < |parts| ==> SeparatorFree(parts[i])
  }

  lemma {:induction false} AllFreeCountsNone(parts: seq<string>)
    requires AllFree(parts)
    ensures SeparatorsIn(parts) == 0
  {
    if parts != [] {
      AllFreeCountsNone(parts[1..]);
    }
  }

  lemma {:induction false} SeparatorsOfJoin(parts: seq<string>)
    requires parts != []
    ensures Separators(Join(parts)) == |parts| - 1 + SeparatorsIn(parts)
  {
    if |parts| == 1 {
      assert SeparatorsIn(parts[1..]) == 0;
    } else {
      SeparatorsOfJoin(parts[1..]);
      SeparatorsAppend(parts[0] + [SEPARATOR], Join(parts[1..]));
      SeparatorsAppend(parts[0], [SEPARATOR]);
      assert Separators([SEPARATOR]) == 1 by { assert [SEPARATOR][1..] == ""; }
    }
  }

  lemma {:induction false} FirstPart(a: string, b: string, restA: string, restB: string)
    requires SeparatorFree(a) && SeparatorFree(b)
    requires a + [SEPARATOR] + restA == b + [SEPARATOR] + restB
    ensures a == b && restA == restB
  {
    var s, t := a + [SEPARATOR] + restA, b + [SEPARATOR] + restB;
    if a == "" || b == "" {
      assert s[0] == t[0];
      if a == "" && b == "" {
        assert s[1..] == restA && t[1..] == restB;
      }
    } else {
      assert s[0] == a[0] && t[0] == b[0];
      assert s[1..] == a[1..] + [SEPARATOR] + restA && t[1..] == b[1..] + [SEPARATOR] + restB;
      FirstPart(a[1..], b[1..], restA, restB);
    }
  }

  lemma {:induction false} JoinSeparatorFree(a: seq<string>, b: seq<string>)
    requires |a| == |b| && a != [] && SeparatorsIn(a) == 0 && SeparatorsIn(b) == 0 && Join(a) == Join(b)
    ensures a == b
  {
    if |a| > 1 {
      FirstPart(a[0], b[0], Join(a[1..]), Join(b[1..]));
      JoinSeparatorFree(a[1..], b[1..]);
    }
  }

  lemma {:induction false} JoinOntoLast(parts: seq<string>)
    requires |parts| > 1
    ensures Join(parts) == Join(parts[..|parts| - 1]) + [SEPARATOR] + parts[|parts| - 1]
  {
    var n := |parts| - 1;
    if n > 1 {
      JoinOntoLast(parts[1..]);
      assert parts[1..][..n - 1] == parts[..n][1..];
      var p, q, l := parts[0], Join(parts[1..n]), parts[n];
      assert Join(parts[..n]) == p + [SEPARATOR] + q;
      assert p + [SEPARATOR] + (q + [SEPARATOR] + l) == p + [SEPARATOR] + q + [SEPARATOR] + l;
    } else {
      assert parts[..1] == [parts[0]] && parts[1..] == [parts[1]];
    }
  }

  lemma {:induction false} BehindLastSeparator(a: string, b: string, x: string, y: string)
    requires SeparatorFree(x) && SeparatorFree(y) && a + [SEPARATOR] + x == b + [SEPARATOR] + y
    ensures x == y
    decreases |x|
  {
    var s, t := a + [SEPARATOR] + x, b + [SEPARATOR] + y;
    if x == "" || y == "" {
      assert s[|s| - 1] == t[|t| - 1];
      if x != "" { LastIsFree(x); }
      if y != "" { LastIsFree(y); }
    } else {
      LastIsFree(x);
      LastIsFree(y);
      assert s[|s| - 1] == x[|x| - 1] && t[|t| - 1] == y[|y| - 1];
      assert s[..|s| - 1] == a + [SEPARATOR] + x[..|x| - 1] && t[..|t| - 1] == b + [SEPARATOR] + y[..|y| - 1];
      BehindLastSeparator(a, b, x[..|x| - 1], y[..|y| - 1]);
    }
  }

  lemma LastIsFree(x: string)
    requires SeparatorFree(x) && x != ""
    ensures x[|x| - 1] != SEPARATOR && SeparatorFree(x[..|x| - 1])
  {
    assert x == x[..|x| - 1] + [x[|x| - 1]];
    SeparatorsAppend(x[..|x| - 1], [x[|x| - 1]]);
  }

  /** The last part can always be told, if it holds no separator. */
  lemma LastPartIsTold(a: seq<string>, b: seq<string>)
    requires |a| == |b| > 1 && Join(a) == Join(b)
    requires SeparatorFree(a[|a| - 1]) && SeparatorFree(b[|b| - 1])
    ensures a[|a| - 1] == b[|b| - 1]
  {
    hide Join;
    JoinOntoLast(a);
    JoinOntoLast(b);
    BehindLastSeparator(Join(a[..|a| - 1]), Join(b[..|b| - 1]), a[|a| - 1], b[|b| - 1]);
  }

  /** No separator in the fields of one entry is enough: no other choice of the nine fields,
      with separators or without, is serialized the same way. */
  lemma JoinIsInjective(a: seq<string>, b: seq<string>)
    requires |a| == |b| && a != [] && AllFree(a) && Join(a) == Join(b)
    ensures a == b
  {
    AllFreeCountsNone(a);
    SeparatorsOfJoin(a);
    SeparatorsOfJoin(b);
    JoinSeparatorFree(a, b);
  }

  // ---- Recording and verifying ----

  /** Ideal signatures: exactly the pairs that were signed verify. */
  type Ledger = set<(string, string)>

  datatype Verdict = Verdict(valid: bool, checkedCount: nat, brokenAt: Option<int>)

  predicate EntryHolds(e: Entry, before: Option<string>, ledger: Ledger, render: Rendering) {
    e.prev == before && (Canonical(e, render), e.hash) in ledger
  }

  function HashBefore(entries: seq<Entry>, i: nat): Option<string>
    requires i <= |entries|
  {
    if i == 0 then None else Some(entries[i - 1].hash)
  }

  predicate HoldsTo(entries: seq<Entry>, n: nat, ledger: Ledger, render: Rendering)
    requires n <= |entries|
  {
    forall i :: 0 <= i < n ==> EntryHolds(entries[i], HashBefore(entries, i), ledger, render)
  }

  lemma NothingToHold(entries: seq<Entry>, ledger: Ledger, render: Rendering)
    ensures HoldsTo(entries, 0, ledger, render)
  {
  }

  lemma OneMoreHolds(entries: seq<Entry>, n: nat, ledger: Ledger, render: Rendering)
    requires n < |entries|
    ensures HoldsTo(entries, n + 1, ledger, render) <==>
            HoldsTo(entries, n, ledger, render) && EntryHolds(entries[n], HashBefore(entries, n), ledger, render)
    ensures n + 1 < |entries| && HoldsTo(entries, |entries|, ledger, render) ==> HoldsTo(entries, n + 1, ledger, render)
  {
    hide Canonical;
    hide EntryHolds;
  }

  method VerifyChain(entries: seq<Entry>, ledger: Ledger, render: Rendering) returns (v: Verdict)
    ensures v.valid <==> HoldsTo(entries, |entries|, ledger, render)
    ensures v.checkedCount <= |entries| && HoldsTo(entries, v.checkedCount, ledger, render)
    ensures v.valid <==> v.checkedCount == |entries|
    ensures !v.valid ==> !HoldsTo(entries, v.checkedCount + 1, ledger, render)
    ensures v.brokenAt == if v.valid then None else Some(entries[v.checkedCount].id)
  {
    hide Canonical, HoldsTo;
    NothingToHold(entries, ledger, render);
    var prevHash: Option<string> := None;
    for index := 0 to |entries|
      invariant prevHash == HashBefore(entries, index)
      invariant HoldsTo(entries, index, ledger, render)
    {
      OneMoreHolds(entries, index, ledger, render);
      var entry := entries[index];
      if entry.prev != prevHash {
        return Verdict(false, index, Some(entry.id));
      }
      if (Canonical(entry, render), entry.hash) !in ledger {
        return Verdict(false, index, Some(entry.id));
      }
      prevHash := Some(entry.hash);
    }
    v := Verdict(true, |entries|, None);
  }

  /** `e` may be what "order by occurred_at desc limit 1" returns. */
  predicate IsLatest(e: Entry, rows: seq<Entry>) {
    e in rows && forall i :: 0 <= i < |rows| ==> rows[i].occurredAt <= e.occurredAt
  }

  predicate StrictClock(rows: seq<Entry>) {
    forall i, j :: 0 <= i < j < |rows| ==> rows[i].occurredAt < rows[j].occurredAt
  }

  predicate Linked(rows: seq<Entry>) {
    forall i :: 0 <= i < |rows| ==> rows[i].prev == HashBefore(rows, i)
  }

  /** Each row was recorded on top of a latest row of its own tenant's log. */
  predicate OnTopOfLatest(rows: seq<Entry>) {
    forall i :: 0 <= i < |rows| ==> FollowsLatest(rows[i], rows[..i])
  }

  /** The rows of every tenant, all signed with the one audit key. */
  type Logs = map<int, seq<Entry>>

  ghost predicate DistinctHashes(logs: Logs) {
    forall t, u, i, j ::
      (t in logs && u in logs && 0 <= i < |logs[t]| && 0 <= j < |logs[u]| && logs[t][i].hash == logs[u][j].hash)
      ==> t == u && i == j
  }

  ghost predicate SignedExactly(logs: Logs, ledger: Ledger, render: Rendering) {
    && (forall t, i :: t in logs && 0 <= i < |logs[t]| ==> (Canonical(logs[t][i], render), logs[t][i].hash) in ledger)
    && (forall f, s :: (f, s) in ledger ==>
          exists t, i :: t in logs && 0 <= i < |logs[t]| && f == Canonical(logs[t][i], render) && s == logs[t][i].hash)
  }

  /** Signatures are hexadecimal text. */
  ghost predicate CleanHashes(logs: Logs) {
    forall t, i :: t in logs && 0 <= i < |logs[t]| ==> logs[t][i].hash != "" && SeparatorFree(logs[t][i].hash)
  }

  /** No recorded field holds a separator; the code hopes for it and does not check it. */
  ghost predicate CleanRows(logs: Logs, render: Rendering) {
    forall t, i :: t in logs && 0 <= i < |logs[t]| ==> AllFree(Parts(logs[t][i], render))
  }

  ghost predicate Recorded(logs: Logs, ledger: Ledger, render: Rendering) {
    && DistinctHashes(logs)
    && SignedExactly(logs, ledger, render)
    && CleanHashes(logs)
    && (forall t :: t in logs ==> OnTopOfLatest(logs[t]))
  }

  class AuditLog {
    const render: Rendering
    var logs: Logs
    ghost var ledger: Ledger

    ghost predicate Valid()
      reads this
    {
      Recorded(logs, ledger, render)
    }

    constructor (render: Rendering)
      ensures Valid() && logs == map[] && ledger == {} && this.render == render
    {
      this.render := render;
      logs := map[];
      ledger := {};
    }

    method Latest(tenant: int) returns (latest: Option<Entry>)
      ensures tenant !in logs || logs[tenant] == [] ==> latest == None
      ensures tenant in logs && logs[tenant] != [] ==> latest.Some? && IsLatest(latest.value, logs[tenant])
      ensures latest.Some? ==>
                && (exists k :: 0 <= k < |logs[tenant]| && logs[tenant][k] == latest.value)
                && (forall k :: 0 <= k < |logs[tenant]| ==> logs[tenant][k].occurredAt <= latest.value.occurredAt)
    {
      latest := None;
      if tenant !in logs { return; }
      var rows := logs[tenant];
      for i := 0 to |rows|
        invariant i == 0 ==> latest == None
        invariant i > 0 ==> latest.Some? && latest.value in rows
        invariant i > 0 ==> forall k :: 0 <= k < i ==> rows[k].occurredAt <= latest.value.occurredAt
      {
        if latest.None? || latest.value.occurredAt < rows[i].occurredAt { latest := Some(rows[i]); }
      }
    }

    /** `signature` is the fresh signature that the audit key produces for this entry. */
    method RecordAction(tenant: int, id: int, content: Content, now: int, signature: string) returns (entry: Entry)
      requires Valid()
      requires signature != "" && SeparatorFree(signature)
      requires FreshHash(logs, signature)
      modifies this
      ensures Valid()
      ensures entry.id == id && entry.occurredAt == now && entry.content == content && entry.hash == signature
      ensures var rows := if tenant in old(logs) then old(logs)[tenant] else [];
              && logs == old(logs)[tenant := rows + [entry]]
              && FollowsLatest(entry, rows)
      ensures ledger == old(ledger) + {(Canonical(entry, render), signature)}
      ensures old(CleanRows(logs, render)) && AllFree(Parts(entry.(prev := None), render)) ==> CleanRows(logs, render)
    {
      var latest := Latest(tenant);
      var prevHash := if latest.Some? then Some(latest.value.hash) else None;
      entry := Entry(id, now, content, prevHash, signature);
      var rows := if tenant in logs then logs[tenant] else [];
      Appended(logs, ledger, render, tenant, rows, entry);
      if CleanRows(logs, render) && AllFree(Parts(entry.(prev := None), render)) {
        AppendedClean(logs, render, tenant, rows, entry);
      }
      logs := logs[tenant := rows + [entry]];
      ledger := ledger + {(Canonical(entry, render), signature)};
    }
  }

  ghost predicate FreshHash(logs: Logs, hash: string) {
    forall t, i :: t in logs && 0 <= i < |logs[t]| ==> logs[t][i].hash != hash
  }

  predicate FollowsLatest(entry: Entry, rows: seq<Entry>) {
    if rows == [] then entry.prev == None
    else exists k :: 0 <= k < |rows| && entry.prev == Some(rows[k].hash) && IsLatest(rows[k], rows)
  }

  /** The first entry links to nothing, every other to one that no earlier entry is younger than. */
  lemma FollowsLatestMeans(entry: Entry, rows: seq<Entry>)
    ensures rows == [] ==> (FollowsLatest(entry, rows) <==> entry.prev == None)
    ensures rows != [] ==>
              (FollowsLatest(entry, rows) <==>
               exists k :: 0 <= k < |rows| && entry.prev == Some(rows[k].hash)
                           && forall j :: 0 <= j < |rows| ==> rows[j].occurredAt <= rows[k].occurredAt)
  {
  }

  lemma Appended(logs: Logs, ledger: Ledger, render: Rendering, tenant: int, rows: seq<Entry>, entry: Entry)
    requires Recorded(logs, ledger, render)
    requires rows == if tenant in logs then logs[tenant] else []
    requires entry.hash != "" && SeparatorFree(entry.hash)
    requires FreshHash(logs, entry.hash) && FollowsLatest(entry, rows)
    ensures Recorded(logs[tenant := rows + [entry]], ledger + {(Canonical(entry, render), entry.hash)}, render)
  {
    hide Canonical, Parts, SeparatorFree, DistinctHashes, SignedExactly, FollowsLatest;
    var after := logs[tenant := rows + [entry]];
    AppendedDistinct(logs, tenant, rows, entry);
    AppendedSigned(logs, ledger, render, tenant, rows, entry);
    forall t | t in after ensures OnTopOfLatest(after[t]) {
      if t == tenant { AppendedOnTop(rows, entry); }
    }
  }

  lemma AppendedOnTop(rows: seq<Entry>, entry: Entry)
    requires OnTopOfLatest(rows) && FollowsLatest(entry, rows)
    ensures OnTopOfLatest(rows + [entry])
  {
    hide FollowsLatest;
    var all := rows + [entry];
    forall i | 0 <= i < |all| ensures FollowsLatest(all[i], all[..i]) {
      if i < |rows| {
        assert all[..i] == rows[..i] && all[i] == rows[i];
      } else {
        assert all[..i] == rows;
      }
    }
  }

  lemma AppendedDistinct(logs: Logs, tenant: int, rows: seq<Entry>, entry: Entry)
    requires DistinctHashes(logs) && FreshHash(logs, entry.hash)
    requires rows == if tenant in logs then logs[tenant] else []
    ensures DistinctHashes(logs[tenant := rows + [entry]])
  {
  }

  lemma AppendedSigned(logs: Logs, ledger: Ledger, render: Rendering, tenant: int, rows: seq<Entry>, entry: Entry)
    requires SignedExactly(logs, ledger, render)
    requires rows == if tenant in logs then logs[tenant] else []
    ensures SignedExactly(logs[tenant := rows + [entry]], ledger + {(Canonical(entry, render), entry.hash)}, render)
  {
    hide Canonical;
    var after := logs[tenant := rows + [entry]];
    var more := ledger + {(Canonical(entry, render), entry.hash)};
    forall f, s | (f, s) in more
      ensures exists t, i :: (t in after && 0 <= i < |after[t]|
                              && f == Canonical(after[t][i], render) && s == after[t][i].hash)
    {
      if (f, s) in ledger {
        var t, i :| t in logs && 0 <= i < |logs[t]| && f == Canonical(logs[t][i], render) && s == logs[t][i].hash;
        assert after[t][i] == logs[t][i];
      } else {
        assert after[tenant][|rows|] == entry;
      }
    }
  }

  lemma AppendedClean(logs: Logs, render: Rendering, tenant: int, rows: seq<Entry>, entry: Entry)
    requires CleanRows(logs, render) && CleanHashes(logs) && rows == if tenant in logs then logs[tenant] else []
    requires AllFree(Parts(entry.(prev := None), render)) && FollowsLatest(entry, rows)
    ensures CleanRows(logs[tenant := rows + [entry]], render)
  {
    EntryIsClean(entry, rows, logs, tenant, render);
    hide Parts, FollowsLatest, AllFree, SeparatorFree;
  }

  lemma EntryIsClean(entry: Entry, rows: seq<Entry>, logs: Logs, tenant: int, render: Rendering)
    requires CleanHashes(logs) && rows == if tenant in logs then logs[tenant] else []
    requires AllFree(Parts(entry.(prev := None), render)) && FollowsLatest(entry, rows)
    ensures AllFree(Parts(entry, render))
  {
    var a, b := Parts(entry.(prev := None), render), Parts(entry, render);
    assert forall i :: 0 <= i < 8 ==> a[i] == b[i];
    PrevIsClean(entry, rows, logs, tenant);
  }

  lemma PrevIsClean(entry: Entry, rows: seq<Entry>, logs: Logs, tenant: int)
    requires CleanHashes(logs) && rows == if tenant in logs then logs[tenant] else []
    requires FollowsLatest(entry, rows)
    ensures SeparatorFree(OrEmpty(entry.prev))
  {
  }
}
