/** Which edits of a recorded entry the audit chain cannot see: those that move a separator. */
module AuditEdits {
  import opened AuditChain
  import opened AuditTamper

  /** The parts whose form leaves no room for a separator: timestamp, ids, channel, JSON (which
      escapes control characters) and the previous signature. */
  predicate TypedPartsFree(e: Entry, render: Rendering) {
    var p := Parts(e, render);
    SeparatorFree(p[0]) && SeparatorFree(p[1]) && SeparatorFree(p[2])
    && SeparatorFree(p[6]) && SeparatorFree(p[7]) && SeparatorFree(p[8])
  }

  predicate TextFree(e: Entry) {
    SeparatorFree(e.content.action) && SeparatorFree(e.content.summary) && SeparatorFree(e.content.resourceType)
  }

  /** `f` is `e` with another action, summary or resource type. */
  predicate OtherText(e: Entry, f: Entry) {
    && f != e
    && f == e.(content := e.content.(action := f.content.action, summary := f.content.summary,
                                     resourceType := f.content.resourceType))
  }

  lemma {:induction false} SplitAtSeparator(s: string) returns (x: string, y: string)
    requires !SeparatorFree(s)
    ensures s == x + [SEPARATOR] + y
  {
    if s[0] == SEPARATOR {
      x, y := "", s[1..];
    } else {
      x, y := SplitAtSeparator(s[1..]);
      x := [s[0]] + x;
    }
  }

  /** A separator may as well be the one behind the part that holds it. */
  lemma {:induction false} SeparatorMoves(parts: seq<string>, k: nat, x: string, y: string)
    requires k + 1 < |parts| && parts[k] == x + [SEPARATOR] + y
    ensures Join(parts[k := x][k + 1 := y + [SEPARATOR] + parts[k + 1]]) == Join(parts)
  {
    var moved := parts[k := x][k + 1 := y + [SEPARATOR] + parts[k + 1]];
    if k > 0 {
      SeparatorMoves(parts[1..], k - 1, x, y);
      assert moved[1..] == parts[1..][k - 1 := x][k := y + [SEPARATOR] + parts[1..][k]];
    } else {
      var z := y + [SEPARATOR] + parts[1];
      assert moved == [x, z] + parts[2..] && parts == [parts[0], parts[1]] + parts[2..];
      TwoParts(x, z, parts[2..]);
      TwoParts(parts[0], parts[1], parts[2..]);
      if parts[2..] == [] {
        assert x + [SEPARATOR] + z == parts[0] + [SEPARATOR] + parts[1];
      } else {
        var rest := [SEPARATOR] + Join(parts[2..]);
        assert x + [SEPARATOR] + z + rest == parts[0] + [SEPARATOR] + parts[1] + rest;
      }
    }
  }

  lemma TwoParts(a: string, b: string, rest: seq<string>)
    ensures Join([a, b] + rest) ==
            if rest == [] then a + [SEPARATOR] + b else a + [SEPARATOR] + b + ([SEPARATOR] + Join(rest))
  {
    var parts := [a, b] + rest;
    assert parts[1..] == [b] + rest && ([b] + rest)[1..] == rest;
    if rest != [] {
      assert Join(parts) == a + [SEPARATOR] + (b + [SEPARATOR] + Join(rest));
    }
  }

  /** An entry can be told from every other text in its place exactly if none of its three
      texts holds a separator. */
  lemma OtherTextCollidesIff(e: Entry, render: Rendering)
    requires TypedPartsFree(e, render)
    ensures (exists f :: OtherText(e, f) && Canonical(f, render) == Canonical(e, render)) <==> !TextFree(e)
  {
    if !TextFree(e) {
      var f := Colliding(e, render);
    } else {
      forall f | OtherText(e, f) ensures Canonical(f, render) != Canonical(e, render) {
        CleanIsTold(e, f, render);
      }
    }
  }

  lemma CleanIsTold(e: Entry, f: Entry, render: Rendering)
    requires TypedPartsFree(e, render) && TextFree(e) && OtherText(e, f)
    ensures Canonical(f, render) != Canonical(e, render)
  {
    var p, q := Parts(e, render), Parts(f, render);
    assert q[3] == f.content.action && q[4] == f.content.summary && q[5] == f.content.resourceType;
    assert AllFree(p) by { forall i | 0 <= i < |p| ensures SeparatorFree(p[i]) {} }
    hide SeparatorFree, Join;
    if Canonical(f, render) == Canonical(e, render) { SameTextSameParts(e, f, render); }
  }

  lemma Colliding(e: Entry, render: Rendering) returns (f: Entry)
    requires !TextFree(e)
    ensures OtherText(e, f) && Canonical(f, render) == Canonical(e, render)
  {
    var c, p := e.content, Parts(e, render);
    hide Join, Separators;
    if !SeparatorFree(c.action) {
      var x, y := SplitAtSeparator(c.action);
      f := e.(content := c.(action := x, summary := y + [SEPARATOR] + c.summary));
      SeparatorMoves(p, 3, x, y);
      assert Parts(f, render) == p[3 := x][4 := y + [SEPARATOR] + p[4]];
    } else if !SeparatorFree(c.summary) {
      var x, y := SplitAtSeparator(c.summary);
      f := e.(content := c.(summary := x, resourceType := y + [SEPARATOR] + c.resourceType));
      SeparatorMoves(p, 4, x, y);
      assert Parts(f, render) == p[4 := x][5 := y + [SEPARATOR] + p[5]];
    } else {
      var x, y := SplitAtSeparator(c.resourceType);
      f := e.(content := c.(summary := c.summary + [SEPARATOR] + x, resourceType := y));
      var q := Parts(f, render);
      assert q[4] == c.summary + [SEPARATOR] + x;
      SeparatorMoves(q, 4, c.summary, x);
      assert p == q[4 := c.summary][5 := x + [SEPARATOR] + q[5]];
    }
  }

  lemma ReplacedVerifiesIff(logs: Logs, ledger: Ledger, render: Rendering, t: int, i: nat, f: Entry)
    requires Recorded(logs, ledger, render) && AllStrict(logs) && t in logs && i < |logs[t]|
    requires f.prev == logs[t][i].prev && f.hash == logs[t][i].hash
    ensures HoldsTo(logs[t][i := f], |logs[t]|, ledger, render) <==>
            Canonical(f, render) == Canonical(logs[t][i], render)
  {
    hide Canonical, StrictClock, SignedExactly, CleanHashes, OnTopOfLatest, HoldsTo;
    var rows := logs[t];
    var table := rows[i := f];
    VerifiesIffSameText(table, |rows|, logs, ledger, render);
    if Canonical(f, render) == Canonical(rows[i], render) {
      assert SameText(table, rows, |rows|, render);
    }
    if HoldsTo(table, |rows|, ledger, render) {
      var u :| u in logs && SameText(table, logs[u], |rows|, render);
      assert logs[u][i].hash == table[i].hash == logs[t][i].hash;
      assert u == t;
    }
  }

  /** Exactly when a recorded entry's texts can be edited and its whole log still verifies: when
      one of them holds a separator. */
  lemma EditGoesUnseenIff(logs: Logs, ledger: Ledger, render: Rendering, t: int, i: nat)
    requires Recorded(logs, ledger, render) && AllStrict(logs) && t in logs && i < |logs[t]|
    requires TypedPartsFree(logs[t][i], render)
    ensures (exists f :: OtherText(logs[t][i], f) && HoldsTo(logs[t][i := f], |logs[t]|, ledger, render))
            <==> !TextFree(logs[t][i])
  {
    hide Recorded, AllStrict, HoldsTo, Canonical, TypedPartsFree, TextFree;
    var e := logs[t][i];
    OtherTextCollidesIff(e, render);
    forall f | OtherText(e, f)
      ensures HoldsTo(logs[t][i := f], |logs[t]|, ledger, render) <==> Canonical(f, render) == Canonical(e, render)
    {
      ReplacedVerifiesIff(logs, ledger, render, t, i, f);
    }
  }
}
