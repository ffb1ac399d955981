/** Password sign-in: the lockout counter, the default membership, and how many guesses a
    run of wrong passwords can get compared. */
module Lockout {
  import opened Wrappers

  /** `lockout` is in the unit of the clock. */
  datatype Settings = Settings(maxFailed: int, lockout: int)

  datatype Account = Account(failed: int, lockedUntil: Option<int>)

  datatype Outcome = SUCCESS | INVALID_CREDENTIALS | SSO_REQUIRED | LOCKED

  predicate IsLocked(a: Account, now: int) {
    a.lockedUntil.Some? && a.lockedUntil.value > now
  }

  /** What one wrong password, once compared, does to the account. */
  function Failed(a: Account, now: int, s: Settings): Account {
    Account(a.failed + 1, if a.failed + 1 >= s.maxFailed then Some(now + s.lockout) else a.lockedUntil)
  }

  // ---- Signing in ----

  datatype Membership = Membership(id: int, customer: Option<int>, isActive: bool, createdAt: int,
      requireWebauthn: bool)

  /** Whether the bank, and each of its customers, allow passwords. */
  datatype Tenant = Tenant(isActive: bool, passwordLogin: bool, customers: map<int, bool>)

  predicate ScopeAllowsPasswordLogin(tenant: Tenant, m: Membership) {
    || m.requireWebauthn
    || (if m.customer.None? then tenant.passwordLogin
        else m.customer.value in tenant.customers && tenant.customers[m.customer.value])
  }

  predicate Usable(tenant: Tenant, m: Membership) {
    m.isActive && ScopeAllowsPasswordLogin(tenant, m)
  }

  predicate CreatedBefore(a: Membership, b: Membership) {
    a.createdAt < b.createdAt || (a.createdAt == b.createdAt && a.id < b.id)
  }

  /** The membership a sign-in ends up in: tenant-wide if there is one, else the oldest. */
  predicate IsDefault(pick: Membership, all: seq<Membership>, tenant: Tenant) {
    && pick in all && Usable(tenant, pick)
    && (pick.customer.Some? ==>
          forall m :: m in all && Usable(tenant, m) ==> m.customer.Some? && !CreatedBefore(m, pick))
  }

  /** What may sign in with a password, field by field: an active membership that needs a key, or
      is tenant-wide where the bank allows passwords, or is of a known customer that does. */
  lemma UsableMeans(tenant: Tenant, m: Membership)
    ensures Usable(tenant, m) <==> (
              m.isActive
              && (m.requireWebauthn
                  || (m.customer == None && tenant.passwordLogin)
                  || exists c :: c in tenant.customers && tenant.customers[c] && m.customer == Some(c)))
  {
    if m.customer.Some? && m.customer.value in tenant.customers && tenant.customers[m.customer.value] {
      var c := m.customer.value;
      assert c in tenant.customers && tenant.customers[c] && m.customer == Some(c);
    }
  }

  /** The default, field by field: a usable membership; if it is a customer's, no usable one is
      tenant-wide, and none was created earlier or at the same time with a smaller id. */
  lemma DefaultMeans(pick: Membership, all: seq<Membership>, tenant: Tenant)
    ensures IsDefault(pick, all, tenant) <==> (
              && (exists i :: 0 <= i < |all| && all[i] == pick && Usable(tenant, all[i]))
              && (pick.customer.Some? ==>
                    forall i :: 0 <= i < |all| && Usable(tenant, all[i]) ==>
                      && all[i].customer.Some? && pick.createdAt <= all[i].createdAt
                      && (pick.createdAt == all[i].createdAt ==> pick.id <= all[i].id)))
  {
    hide Usable;
    if IsDefault(pick, all, tenant) {
      var i :| 0 <= i < |all| && all[i] == pick;
      assert Usable(tenant, all[i]);
      forall i | 0 <= i < |all| && Usable(tenant, all[i]) && pick.customer.Some?
        ensures !CreatedBefore(all[i], pick) && all[i].customer.Some?
      {
        assert all[i] in all;
      }
    }
  }

  class User {
    var isActive: bool
    var account: Account
    var password: string

    method AuthenticatePassword(tenant: Option<Tenant>, given: string, now: int, s: Settings,
        memberships: seq<Membership>)
      returns (outcome: Outcome, membership: Option<Membership>)
      modifies this`account
      ensures tenant.None? || !tenant.value.isActive || !isActive ==>
              outcome == INVALID_CREDENTIALS && account == old(account)
      ensures tenant.Some? && tenant.value.isActive && isActive ==>
                if IsLocked(old(account), now) then outcome == LOCKED && account == old(account)
                else if given != password then
                  && account == Failed(old(account), now, s)
                  && outcome == if old(account).failed + 1 >= s.maxFailed then LOCKED else INVALID_CREDENTIALS
                else
                  && account == Account(0, None)
                  && (outcome == INVALID_CREDENTIALS <==> !exists m :: m in memberships && m.isActive)
                  && (outcome == SUCCESS <==> exists m :: m in memberships && Usable(tenant.value, m))
                  && outcome != LOCKED
      ensures outcome == SUCCESS <==> membership.Some?
      ensures membership.Some? ==> tenant.Some? && IsDefault(membership.value, memberships, tenant.value)
      ensures membership.Some? ==>
                var m, t := membership.value, tenant.value;
                && m.isActive
                && (m.requireWebauthn
                    || if m.customer == None then t.passwordLogin
                       else m.customer.value in t.customers && t.customers[m.customer.value])
      ensures outcome == SSO_REQUIRED ==>
                && (exists m :: m in memberships && m.isActive)
                && forall m :: m in memberships && m.isActive ==>
                     && !m.requireWebauthn && tenant.Some?
                     && if m.customer == None then !tenant.value.passwordLogin
                        else m.customer.value !in tenant.value.customers || !tenant.value.customers[m.customer.value]
    {
      if tenant.None? || !tenant.value.isActive { return INVALID_CREDENTIALS, None; }
      if !isActive { return INVALID_CREDENTIALS, None; }
      if account.lockedUntil.Some? && account.lockedUntil.value > now { return LOCKED, None; }
      if given != password {
        account := account.(failed := account.failed + 1);
        if account.failed >= s.maxFailed {
          account := account.(lockedUntil := Some(now + s.lockout));
          return LOCKED, None;
        }
        return INVALID_CREDENTIALS, None;
      }
      if account.failed != 0 || account.lockedUntil.Some? { account := Account(0, None); }

      var anyActive := false;
      var pick: Option<Membership> := None;
      for i := 0 to |memberships|
        invariant anyActive <==> exists m :: m in memberships[..i] && m.isActive
        invariant pick.None? ==> forall m :: m in memberships[..i] ==> !Usable(tenant.value, m)
        invariant pick.Some? ==> IsDefault(pick.value, memberships[..i], tenant.value)
      {
        var m := memberships[i];
        assert memberships[..i + 1] == memberships[..i] + [m];
        anyActive := anyActive || m.isActive;
        if Usable(tenant.value, m) && (pick.None? || Preferred(m, pick.value)) { pick := Some(m); }
      }
      assert memberships[..|memberships|] == memberships;
      if !anyActive { return INVALID_CREDENTIALS, None; }
      if pick.None? { return SSO_REQUIRED, None; }
      return SUCCESS, pick;
    }

    /** The form that asks for the current password. It counts wrong ones but does not look
        at the lock. */
    method CheckCurrentPassword(given: string, now: int, s: Settings) returns (ok: bool)
      modifies this`account
      ensures ok <==> given == password
      ensures account == if ok then old(account) else Failed(old(account), now, s)
    {
      if given == password { return true; }
      account := account.(failed := account.failed + 1);
      if account.failed >= s.maxFailed {
        account := account.(lockedUntil := Some(now + s.lockout));
      }
      return false;
    }
  }

  predicate Preferred(m: Membership, pick: Membership) {
    pick.customer.Some? && (m.customer.None? || CreatedBefore(m, pick))
  }

  // ---- A run of wrong passwords ----

  datatype Door = SignIn | ChangePassword

  datatype Guess = Guess(door: Door, time: int)

  predicate IsCompared(a: Account, g: Guess) {
    g.door.ChangePassword? || !IsLocked(a, g.time)
  }

  function After(a: Account, g: Guess, s: Settings): Account {
    if IsCompared(a, g) then Failed(a, g.time, s) else a
  }

  /** How many guesses made at `door` are compared with the password. */
  function Compared(a: Account, guesses: seq<Guess>, s: Settings, door: Door): nat
    decreases |guesses|
  {
    if guesses == [] then 0
    else
      (if guesses[0].door == door && IsCompared(a, guesses[0]) then 1 else 0)
      + Compared(After(a, guesses[0], s), guesses[1..], s, door)
  }

  predicate InOrder(guesses: seq<Guess>, first: int, last: int) {
    forall i :: 0 <= i < |guesses| ==>
      first <= guesses[i].time <= last && (i > 0 ==> guesses[i - 1].time <= guesses[i].time)
  }

  function Max(a: int, b: int): int { if a < b then b else a }

  function Min(a: int, b: int): int { if a < b then a else b }

  /** When the next guess at the sign-in form can be compared at the earliest. A lock set under a
      longer setting may be replaced by one of the present length, through the other form. */
  function Reopens(a: Account, now: int, s: Settings): int {
    if a.lockedUntil.Some? then Max(now, Min(a.lockedUntil.value, now + s.lockout)) else now
  }

  function Allowance(a: Account, now: int, last: int, s: Settings): int
    requires s.lockout > 0
  {
    var start := Reopens(a, now, s);
    if start > last then 0 else Max(s.maxFailed - a.failed, 1) + (last - start) / s.lockout
  }

  lemma AtLeastOnce(k: int, d: int)
    requires k >= 1 && d >= 1
    ensures k * d >= d
  {
    assert k * d == (k - 1) * d + d;
  }

  lemma QuotientsCompare(p: int, q: int, d: int, r: int, t: int)
    requires d > 0 && 0 <= r < d && 0 <= t < d && p * d + r <= q * d + t
    ensures p <= q
  {
    if p > q {
      assert (p - q) * d == p * d - q * d;
      AtLeastOnce(p - q, d);
    }
  }

  lemma Divided(x: int, d: int)
    requires d > 0
    ensures x == (x / d) * d + x % d && 0 <= x % d < d
  {
  }

  lemma LaterIsFewer(a: int, b: int, lockout: int)
    requires lockout > 0 && a <= b
    ensures a / lockout <= b / lockout
  {
    Divided(a, lockout);
    Divided(b, lockout);
    QuotientsCompare(a / lockout, b / lockout, lockout, a % lockout, b % lockout);
  }

  lemma OneLockLess(span: int, lockout: int)
    requires lockout > 0
    ensures (span - lockout) / lockout == span / lockout - 1
    ensures span >= 0 ==> span / lockout >= 0
    ensures span < lockout ==> span / lockout <= 0
  {
    var p, q := (span - lockout) / lockout, span / lockout;
    var r, t := (span - lockout) % lockout, span % lockout;
    Divided(span, lockout);
    Divided(span - lockout, lockout);
    assert (p + 1) * lockout == p * lockout + lockout;
    QuotientsCompare(p + 1, q, lockout, r, t);
    QuotientsCompare(q, p + 1, lockout, t, r);
    if span >= 0 { QuotientsCompare(0, q, lockout, 0, t); }
    if span < lockout { QuotientsCompare(q, 0, lockout, t, lockout - 1); }
  }

  lemma AllowanceFalls(a: Account, now: int, g: Guess, last: int, s: Settings)
    requires s.lockout > 0 && now <= g.time <= last
    ensures Allowance(After(a, g, s), g.time, last, s)
            + (if g.door.SignIn? && IsCompared(a, g) then 1 else 0) <= Allowance(a, now, last, s)
  {
    var start, reopen := Reopens(a, now, s), Reopens(a, g.time, s);
    OneLockLess(last - g.time, s.lockout);
    if start <= last { LaterIsFewer(last - reopen, last - start, s.lockout); OneLockLess(last - start, s.lockout); }
    if g.time >= start { LaterIsFewer(last - g.time, last - start, s.lockout); }
    if start <= g.time + s.lockout && start <= last {
      LaterIsFewer(last - g.time - s.lockout, last - start, s.lockout);
    }
  }

  /** The bound, for any interleaving of the two forms from any state of the account. */
  lemma {:induction false} GuessesAreBounded(a: Account, guesses: seq<Guess>, now: int, last: int, s: Settings)
    requires s.lockout > 0 && InOrder(guesses, now, last)
    ensures Compared(a, guesses, s, SignIn) <= Allowance(a, now, last, s)
    decreases |guesses|
  {
    if guesses == [] {
      if Reopens(a, now, s) <= last { OneLockLess(last - Reopens(a, now, s), s.lockout); }
    } else {
      AllowanceFalls(a, now, guesses[0], last, s);
      forall i | 0 <= i < |guesses[1..]|
        ensures guesses[0].time <= guesses[1..][i].time
      {
        LaterGuess(guesses, now, last, i + 1);
      }
      hide Allowance;
      GuessesAreBounded(After(a, guesses[0], s), guesses[1..], guesses[0].time, last, s);
    }
  }

  lemma {:induction false} LaterGuess(guesses: seq<Guess>, first: int, last: int, i: nat)
    requires InOrder(guesses, first, last) && i < |guesses|
    ensures guesses[0].time <= guesses[i].time
  {
    if i > 0 { LaterGuess(guesses, first, last, i - 1); }
  }

  /** From a zero counter, wrong passwords within a span of time get at most the threshold
      plus one comparison per lockout period at the sign-in form. */
  lemma SignInGuessesAreBounded(guesses: seq<Guess>, first: int, last: int, s: Settings)
    requires s.lockout > 0 && first <= last && InOrder(guesses, first, last)
    ensures Compared(Account(0, None), guesses, s, SignIn) <= Max(s.maxFailed, 1) + (last - first) / s.lockout
  {
    GuessesAreBounded(Account(0, None), guesses, first, last, s);
  }

  // ---- The bound is reached ----

  function Burst(count: nat, time: int): seq<Guess> {
    if count == 0 then [] else [Guess(SignIn, time)] + Burst(count - 1, time)
  }

  /** One guess at the end of each of `count` lockouts. */
  function Spaced(count: nat, time: int, lockout: int): seq<Guess> {
    if count == 0 then [] else [Guess(SignIn, time)] + Spaced(count - 1, time + lockout, lockout)
  }

  lemma {:induction false} SpacedAllCompared(a: Account, count: nat, time: int, s: Settings)
    requires s.lockout > 0 && !IsLocked(a, time) && a.failed + 1 >= s.maxFailed
    ensures Compared(a, Spaced(count, time, s.lockout), s, SignIn) == count
    decreases count
  {
    if count > 0 {
      var rest := Spaced(count - 1, time + s.lockout, s.lockout);
      SpacedAllCompared(Failed(a, time, s), count - 1, time + s.lockout, s);
      assert Spaced(count, time, s.lockout)[1..] == rest;
    }
  }

  lemma {:induction false} SpacedInOrder(count: nat, time: int, last: int, lockout: int)
    requires lockout > 0 && count > 0 && time + (count - 1) * lockout <= last
    ensures InOrder(Spaced(count, time, lockout), time, last) && Spaced(count, time, lockout) != []
  {
    if count > 1 {
      assert (count - 1) * lockout == (count - 2) * lockout + lockout;
      AtLeastOnce(count - 1, lockout);
      SpacedInOrder(count - 1, time + lockout, last, lockout);
    } else {
      assert Spaced(1, time, lockout) == [Guess(SignIn, time)] by { assert Spaced(0, time + lockout, lockout) == []; }
    }
  }

  lemma {:induction false} BurstAllCompared(a: Account, count: nat, time: int, rest: seq<Guess>, s: Settings)
    requires !IsLocked(a, time) && 0 <= a.failed && a.failed + count < Max(s.maxFailed, 1)
    ensures Compared(a, Burst(count, time) + rest, s, SignIn)
            == count + Compared(Account(a.failed + count, a.lockedUntil), rest, s, SignIn)
    decreases count
  {
    if count == 0 {
      assert Burst(0, time) + rest == rest;
      assert a == Account(a.failed + 0, a.lockedUntil);
    } else {
      BurstAllCompared(Failed(a, time, s), count - 1, time, rest, s);
      assert (Burst(count, time) + rest)[1..] == Burst(count - 1, time) + rest;
    }
  }

  /** For every span there are times at which exactly that many guesses are compared. */
  lemma BoundIsReached(first: int, last: int, s: Settings) returns (guesses: seq<Guess>)
    requires s.lockout > 0 && first <= last
    ensures InOrder(guesses, first, last)
    ensures Compared(Account(0, None), guesses, s, SignIn) == Max(s.maxFailed, 1) + (last - first) / s.lockout
  {
    var burst := Max(s.maxFailed, 1) - 1;
    var locks := (last - first) / s.lockout;
    var spaced := Spaced(locks + 1, first, s.lockout);
    OneLockLess(last - first, s.lockout);
    Divided(last - first, s.lockout);
    guesses := Burst(burst, first) + spaced;
    BurstAllCompared(Account(0, None), burst, first, spaced, s);
    SpacedAllCompared(Account(burst, None), locks + 1, first, s);
    SpacedInOrder(locks + 1, first, last, s.lockout);
    BurstInOrder(burst, first, last, spaced);
  }

  lemma {:induction false} BurstInOrder(count: nat, time: int, last: int, rest: seq<Guess>)
    requires rest != [] && InOrder(rest, time, last)
    ensures InOrder(Burst(count, time) + rest, time, last)
  {
    if count > 0 {
      BurstInOrder(count - 1, time, last, rest);
      var later := Burst(count - 1, time) + rest;
      var all := Burst(count, time) + rest;
      assert all == [Guess(SignIn, time)] + later;
      assert all[0].time == time && time <= last by { assert time <= rest[0].time <= last; }
      forall i | 0 <= i < |all| ensures time <= all[i].time <= last && (i > 0 ==> all[i - 1].time <= all[i].time) {
        if i > 0 {
          assert all[i] == later[i - 1];
          if i > 1 { assert all[i - 1] == later[i - 2]; }
        }
      }
    } else {
      assert Burst(0, time) + rest == rest;
    }
  }

  /** The form that asks for the current password has no such bound: all its guesses are compared. */
  lemma {:induction false} CurrentPasswordIsAlwaysCompared(a: Account, guesses: seq<Guess>, s: Settings)
    requires forall i :: 0 <= i < |guesses| ==> guesses[i].door.ChangePassword?
    ensures Compared(a, guesses, s, ChangePassword) == |guesses|
    decreases |guesses|
  {
    if guesses != [] { CurrentPasswordIsAlwaysCompared(After(a, guesses[0], s), guesses[1..], s); }
  }
}
