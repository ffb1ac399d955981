/** Login sessions: tokens that carry their own expiry, a table of revoked sessions that is
    pruned as it goes, and a version number per user. Time is in whole seconds. */
module Sessions {
  import opened Wrappers

  type User = int
  type Sid = int

  datatype TokenType = Access | Refresh

  /** `sid` is absent only from tokens older than session claims. */
  datatype Token = Token(tokenType: TokenType, user: User, tenant: nat, sid: Option<Sid>, version: int, exp: int)

  /** A tenant's session settings in minutes; None falls back to the defaults. */
  datatype Timeouts = Timeouts(access: Option<nat>, refresh: Option<nat>)

  const DEFAULT_ACCESS_MINUTES := 30
  const DEFAULT_REFRESH_MINUTES := 60 * 24 * 7
  const MINUTE := 60

  function AccessMinutes(t: Timeouts): nat {
    if t.access.Some? then t.access.value else DEFAULT_ACCESS_MINUTES
  }

  function RefreshMinutes(t: Timeouts): nat {
    if t.refresh.Some? then t.refresh.value else DEFAULT_REFRESH_MINUTES
  }

  predicate ValidTimeouts(t: Timeouts) {
    && (t.access.Some? ==> t.access.value > 0)
    && (t.refresh.Some? ==> t.refresh.value > 0)
    && AccessMinutes(t) <= RefreshMinutes(t)
  }

  /** A bank's own settings hold where it has any, else half an hour and a week. */
  lemma TimeoutsMean(t: Timeouts)
    ensures t.access == None ==> AccessMinutes(t) == 30
    ensures forall n :: t.access == Some(n) ==> AccessMinutes(t) == n
    ensures t.refresh == None ==> RefreshMinutes(t) == 10080
    ensures forall n :: t.refresh == Some(n) ==> RefreshMinutes(t) == n
  {
  }

  function LongestOverride(tenants: seq<Timeouts>): nat {
    if tenants == [] then 0
    else
      var rest := LongestOverride(tenants[1..]);
      if tenants[0].refresh.Some? && tenants[0].refresh.value > rest then tenants[0].refresh.value else rest
  }

  /** The greatest of the banks' own session settings, 0 when no bank has one. */
  lemma {:induction false} LongestIsGreatest(tenants: seq<Timeouts>)
    ensures forall i :: 0 <= i < |tenants| && tenants[i].refresh.Some? ==>
              tenants[i].refresh.value <= LongestOverride(tenants)
    ensures LongestOverride(tenants) == 0
            || exists i :: 0 <= i < |tenants| && tenants[i].refresh == Some(LongestOverride(tenants))
  {
    if tenants != [] {
      var rest := tenants[1..];
      LongestIsGreatest(rest);
      if LongestOverride(tenants) != 0 && tenants[0].refresh != Some(LongestOverride(tenants)) {
        var i :| 0 <= i < |rest| && rest[i].refresh == Some(LongestOverride(rest));
        assert tenants[i + 1].refresh == Some(LongestOverride(tenants));
      }
    }
  }

  /** How long a revocation is kept, in seconds. */
  function Keep(tenants: seq<Timeouts>): nat {
    var longest := LongestOverride(tenants);
    MINUTE * (if longest > DEFAULT_REFRESH_MINUTES then longest else DEFAULT_REFRESH_MINUTES)
  }

  /** The database, the clock, and the history that no program variable holds: every token
      minted, when each session ends, and which sessions have been logged out. */
  datatype World = World(
    now: int, versions: map<User, int>, revoked: map<Sid, int>, tenants: seq<Timeouts>,
    minted: set<Token>, ends: map<Sid, int>, loggedOut: set<Sid>)

  predicate ClaimsAreCurrent(w: World, t: Token) {
    && t.user in w.versions && t.version == w.versions[t.user]
    && (t.sid.Some? ==> t.sid.value !in w.revoked)
  }

  /** What every request and every refresh checks of a genuine token. */
  predicate Accepts(w: World, t: Token) {
    t in w.minted && w.now < t.exp && ClaimsAreCurrent(w, t)
  }

  /** The two tokens of one session that ends at `end`. */
  function SessionTokens(now: int, user: User, tenant: nat, settings: Timeouts, version: int, sid: Sid,
      end: int): (Token, Token) {
    var idle := now + MINUTE * AccessMinutes(settings);
    (Token(Access, user, tenant, Some(sid), version, if idle < end then idle else end),
     Token(Refresh, user, tenant, Some(sid), version, end))
  }

  function Pruned(revoked: map<Sid, int>, now: int): map<Sid, int> {
    map s | s in revoked && revoked[s] >= now :: revoked[s]
  }

  datatype Step =
    | Wait(seconds: nat)
    | Login(user: User, tenant: nat, sid: Sid)
    | RefreshSession(token: Token, backed: bool, newSid: Sid)
    | Logout(token: Token)
    | RevokeAll(user: User)
    | SignOutOthers(token: Token)
    | SetTimeouts(tenant: nat, timeouts: Timeouts)

  function Mint(w: World, user: User, tenant: nat, sid: Sid, end: int): World
    requires user in w.versions && tenant < |w.tenants|
  {
    var tokens := SessionTokens(w.now, user, tenant, w.tenants[tenant], w.versions[user], sid, end);
    w.(minted := w.minted + {tokens.0, tokens.1}, ends := if sid in w.ends then w.ends else w.ends[sid := end])
  }

  function Revoke(w: World, sid: Sid): World {
    var kept := Pruned(w.revoked, w.now);
    w.(revoked := if sid in kept then kept else kept[sid := w.now + Keep(w.tenants)],
       loggedOut := w.loggedOut + {sid})
  }

  /** One step; a refused request changes nothing. */
  function Next(w: World, step: Step): World {
    match step
    case Wait(seconds) => w.(now := w.now + seconds)
    case Login(user, tenant, sid) =>
      if user in w.versions && tenant < |w.tenants| && sid !in w.ends
      then Mint(w, user, tenant, sid, w.now + MINUTE * RefreshMinutes(w.tenants[tenant])) else w
    case RefreshSession(token, backed, newSid) =>
      if Accepts(w, token) && token.tokenType.Refresh? && backed && token.tenant < |w.tenants|
         && (token.sid.None? ==> newSid !in w.ends)
      then Mint(w, token.user, token.tenant, if token.sid.Some? then token.sid.value else newSid, token.exp) else w
    case Logout(token) =>
      // The token of a logout may have expired, but it must be genuine.
      if token in w.minted && token.sid.Some? then Revoke(w, token.sid.value) else w
    case RevokeAll(user) =>
      if user in w.versions then w.(versions := w.versions[user := w.versions[user] + 1]) else w
    case SignOutOthers(token) =>
      if Accepts(w, token) && token.sid.Some? && token.sid.value in w.ends && token.tenant < |w.tenants| then
        var bumped := w.(versions := w.versions[token.user := w.versions[token.user] + 1]);
        Mint(bumped, token.user, token.tenant, token.sid.value, w.ends[token.sid.value])
      else w
    case SetTimeouts(tenant, timeouts) =>
      if tenant < |w.tenants| && ValidTimeouts(timeouts) then w.(tenants := w.tenants[tenant := timeouts]) else w
  }

  function Run(w: World, steps: seq<Step>): World
    decreases |steps|
  {
    if steps == [] then w else Run(Next(w, steps[0]), steps[1..])
  }

  // ---- The service's own methods, over mutable tables ----

  class SessionService {
    var versions: map<User, int>
    var revoked: map<Sid, int>
    var tenants: seq<Timeouts>
    ghost var minted: set<Token>
    ghost var ends: map<Sid, int>
    ghost var loggedOut: set<Sid>

    ghost function At(now: int): World
      reads this
    {
      World(now, versions, revoked, tenants, minted, ends, loggedOut)
    }

    method RevokeSession(now: int, ghost token: Token, sid: Sid)
      requires token in minted && token.sid == Some(sid)
      modifies this
      ensures At(now) == Next(old(At(now)), Logout(token))
    {
      revoked := map s | s in revoked && !(revoked[s] < now) :: revoked[s];
      if sid !in revoked {
        var longest := LongestTenantSessionMinutes();
        var keepMinutes := if longest > DEFAULT_REFRESH_MINUTES then longest else DEFAULT_REFRESH_MINUTES;
        revoked := revoked[sid := now + keepMinutes * MINUTE];
      }
      loggedOut := loggedOut + {sid};
    }

    method LongestTenantSessionMinutes() returns (longest: nat)
      ensures longest == LongestOverride(tenants)
    {
      longest := 0;
      for i := |tenants| downto 0
        invariant longest == LongestOverride(tenants[i..])
      {
        assert tenants[i..][1..] == tenants[i + 1..];
        var minutes := tenants[i].refresh;
        if minutes.Some? && minutes.value > longest { longest := minutes.value; }
      }
      assert tenants[0..] == tenants;
    }

    method RevokeAllSessions(now: int, user: User)
      requires user in versions
      modifies this
      ensures At(now) == Next(old(At(now)), RevokeAll(user))
      ensures versions == old(versions)[user := old(versions)[user] + 1]
    {
      versions := versions[user := versions[user] + 1];
    }

    method ClaimsCurrent(claims: Token) returns (current: bool)
      requires claims.user in versions
      ensures forall now :: current == ClaimsAreCurrent(At(now), claims)
    {
      if claims.version != versions[claims.user] { return false; }
      return !(claims.sid.Some? && claims.sid.value in revoked);
    }

    /** `decoded` is the refresh token's claims, None when it is not genuine or has expired;
        `backed` whether its user, membership and organization are still active. */
    method Refresh(now: int, decoded: Option<Token>, backed: bool, newSid: Sid)
      returns (tokens: Option<(Token, Token)>)
      requires decoded.Some? ==> decoded.value in minted && now < decoded.value.exp
      requires newSid !in ends
      modifies this
      ensures decoded.Some? ==> At(now) == Next(old(At(now)), RefreshSession(decoded.value, backed, newSid))
      ensures decoded.None? ==> At(now) == old(At(now))
      ensures tokens.Some? <==> (
                && decoded.Some? && old(Accepts(At(now), decoded.value)) && decoded.value.tokenType.Refresh?
                && backed && decoded.value.tenant < |old(tenants)|)
      ensures tokens.Some? ==> (
                var t := decoded.value;
                tokens.value == SessionTokens(now, t.user, t.tenant, old(tenants)[t.tenant], old(versions)[t.user],
                                              if t.sid.Some? then t.sid.value else newSid, t.exp))
    {
      if decoded.None? { return None; }
      var claims := decoded.value;
      if !claims.tokenType.Refresh? { return None; }
      if claims.user !in versions { return None; }
      var current := ClaimsCurrent(claims);
      assert current == ClaimsAreCurrent(At(now), claims);
      if !current { return None; }
      if !backed || claims.tenant >= |tenants| { return None; }
      var sid := if claims.sid.Some? then claims.sid.value else newSid;
      var pair := SessionTokens(now, claims.user, claims.tenant, tenants[claims.tenant], versions[claims.user], sid,
          claims.exp);
      minted := minted + {pair.0, pair.1};
      ends := if sid in ends then ends else ends[sid := claims.exp];
      return Some(pair);
    }
  }

  // ---- What every run keeps ----

  ghost predicate Inv(w: World) {
    && (forall t :: t in w.minted ==> t.user in w.versions && t.version <= w.versions[t.user])
    && (forall t :: t in w.minted && t.sid.Some? ==> t.sid.value in w.ends && t.exp <= w.ends[t.sid.value])
    && (forall s :: s in w.loggedOut ==> s in w.ends)
    && (forall s :: s in w.revoked ==> s in w.loggedOut)
  }

  /** Nothing in `after` undoes what `before` says: ends are fixed, the rest only grows. */
  ghost predicate Continues(before: World, after: World) {
    && before.now <= after.now
    && before.loggedOut <= after.loggedOut
    && before.minted <= after.minted
    && (forall s :: s in before.ends ==> s in after.ends && after.ends[s] == before.ends[s])
    && (forall u :: u in before.versions ==> u in after.versions && before.versions[u] <= after.versions[u])
  }

  lemma StepKeepsInv(w: World, step: Step)
    requires Inv(w)
    ensures Inv(Next(w, step)) && Continues(w, Next(w, step))
  {
    hide Keep, RefreshMinutes, AccessMinutes, ValidTimeouts;
  }

  /** The tokens of a session never outlive the end it was given at sign-in, however often
      it is refreshed. */
  lemma {:induction false} RunKeepsInv(w: World, steps: seq<Step>)
    requires Inv(w)
    ensures Inv(Run(w, steps)) && Continues(w, Run(w, steps))
    ensures forall t :: t in Run(w, steps).minted && t.sid.Some? && t.sid.value in w.ends ==>
            t.exp <= w.ends[t.sid.value]
    decreases |steps|
  {
    if steps != [] {
      hide Next;
      StepKeepsInv(w, steps[0]);
      RunKeepsInv(Next(w, steps[0]), steps[1..]);
    }
  }

  /** Every sign-in, refresh or re-issue gives one session two tokens: the idle timeout, capped
      by the session's end, and the end itself. */
  lemma NewTokensAreCapped(w: World, step: Step, t: Token)
    requires Inv(w) && t in Next(w, step).minted && t !in w.minted
    ensures t.sid.Some? && t.sid.value in Next(w, step).ends && t.tenant < |w.tenants|
    ensures t.exp <= Next(w, step).ends[t.sid.value]
    ensures t.tokenType.Access? ==> t.exp <= w.now + 60 * AccessMinutes(w.tenants[t.tenant])
    ensures t.version == Next(w, step).versions[t.user]
  {
    hide Keep, RefreshMinutes, ValidTimeouts, AccessMinutes;
    StepKeepsInv(w, step);
  }

  /** What a request must show to be given tokens: a sign-in starts a new session for its bank's
      time; a refresh shows an unexpired refresh token of the user's present version, whose session
      is not revoked, and its new tokens are of the same user, bank and session; signing out the
      others shows such a token of either type. */
  lemma TokensAreEarned(w: World, step: Step, t: Token)
    requires t in Next(w, step).minted && t !in w.minted
    ensures step.Login? || step.RefreshSession? || step.SignOutOthers?
    ensures step.Login? ==>
              && t.user == step.user && t.tenant == step.tenant && t.sid == Some(step.sid) && step.sid !in w.ends
              && Next(w, step).ends[step.sid] == w.now + 60 * RefreshMinutes(w.tenants[step.tenant])
    ensures step.RefreshSession? || step.SignOutOthers? ==>
              && step.token in w.minted && w.now < step.token.exp && step.token.user in w.versions
              && step.token.version == w.versions[step.token.user]
              && (step.token.sid.Some? ==> step.token.sid.value !in w.revoked && t.sid == step.token.sid)
              && t.user == step.token.user && t.tenant == step.token.tenant
    ensures step.RefreshSession? ==>
              step.token.tokenType == Refresh && step.backed && t.exp <= step.token.exp
  {
    hide Keep, RefreshMinutes, ValidTimeouts, AccessMinutes;
  }

  /** A bank's settings change exactly if both are positive and the idle timeout, with the
      defaults for what is absent, is no longer than the session. */
  lemma SettingsAreTaken(w: World, i: nat, t: Timeouts)
    requires i < |w.tenants|
    ensures var access, refresh :=
              if t.access == None then 30 else t.access.value, if t.refresh == None then 10080 else t.refresh.value;
            Next(w, SetTimeouts(i, t)).tenants ==
            if access > 0 && refresh > 0 && access <= refresh then w.tenants[i := t] else w.tenants
  {
  }

  /** A refresh that passes continues the same session: its new tokens pass too, the refresh
      token to the same end, the access token until it idles or the session ends. */
  lemma RefreshContinues(w: World, t: Token, newSid: Sid)
    requires Inv(w) && Accepts(w, t) && t.tokenType.Refresh? && t.sid.Some? && t.tenant < |w.tenants|
    requires AccessMinutes(w.tenants[t.tenant]) > 0
    ensures var after := Next(w, RefreshSession(t, true, newSid));
            var idle := w.now + MINUTE * AccessMinutes(w.tenants[t.tenant]);
            && after.ends == w.ends && Accepts(after, t)
            && exists u: Token :: u.tokenType.Access? && u.sid == t.sid
                 && u.exp == (if idle < t.exp then idle else t.exp) && Accepts(after, u)
  {
    hide AccessMinutes;
    var after := Next(w, RefreshSession(t, true, newSid));
    var pair := SessionTokens(w.now, t.user, t.tenant, w.tenants[t.tenant], w.versions[t.user], t.sid.value, t.exp);
    assert after.minted == w.minted + {pair.0, pair.1};
    assert Accepts(after, pair.0) && pair.1 == t;
  }

  // ---- Logged-out sessions ----

  /** Every logged-out session has ended or is listed until it will have. */
  ghost predicate Covered(w: World) {
    forall s :: s in w.loggedOut ==>
      s in w.ends && (w.ends[s] <= w.now || (s in w.revoked && w.ends[s] <= w.revoked[s]))
  }

  /** No token can outlive a revocation made now. */
  ghost predicate Fits(w: World) {
    && (forall t :: t in w.minted ==> t.exp <= w.now + Keep(w.tenants))
    && (forall s :: s in w.ends ==> w.ends[s] <= w.now + Keep(w.tenants))
  }

  /** No setting made during the run shortens how long revocations are kept. */
  predicate KeepNeverDrops(w: World, steps: seq<Step>)
    decreases |steps|
  {
    steps == [] || (Keep(w.tenants) <= Keep(Next(w, steps[0]).tenants) && KeepNeverDrops(Next(w, steps[0]), steps[1..]))
  }

  /** As in every run without a change of settings. */
  lemma {:induction false} UnchangedSettingsKeep(w: World, steps: seq<Step>)
    requires forall k :: 0 <= k < |steps| ==> !steps[k].SetTimeouts?
    ensures KeepNeverDrops(w, steps)
    decreases |steps|
  {
    if steps != [] {
      hide Keep;
      UnchangedSettingsKeep(Next(w, steps[0]), steps[1..]);
    }
  }

  lemma {:induction false} KeepOutlivesLogin(tenants: seq<Timeouts>, i: nat)
    requires i < |tenants|
    ensures 60 * RefreshMinutes(tenants[i]) <= Keep(tenants)
    ensures tenants[i].refresh.Some? ==> tenants[i].refresh.value <= LongestOverride(tenants)
  {
    if i > 0 {
      KeepOutlivesLogin(tenants[1..], i - 1);
      assert tenants[1..][i - 1] == tenants[i];
    }
  }

  lemma StepKeepsFits(w: World, step: Step)
    requires Inv(w) && Fits(w) && Keep(w.tenants) <= Keep(Next(w, step).tenants)
    ensures Fits(Next(w, step))
  {
    hide Keep;
    if step.Login? && step.tenant < |w.tenants| { KeepOutlivesLogin(w.tenants, step.tenant); }
  }

  lemma StepKeepsCovered(w: World, step: Step)
    requires Inv(w) && Covered(w) && Fits(w)
    ensures Covered(Next(w, step))
  {
    hide Keep;
  }

  lemma {:induction false} RunKeepsCovered(w: World, steps: seq<Step>)
    requires Inv(w) && Covered(w) && Fits(w) && KeepNeverDrops(w, steps)
    ensures Covered(Run(w, steps)) && Inv(Run(w, steps)) && Fits(Run(w, steps))
    decreases |steps|
  {
    if steps != [] {
      hide Next, Keep, Inv, Covered, Fits;
      StepKeepsInv(w, steps[0]);
      StepKeepsFits(w, steps[0]);
      StepKeepsCovered(w, steps[0]);
      RunKeepsCovered(Next(w, steps[0]), steps[1..]);
    }
  }

  lemma CoveredRefuses(w: World, t: Token)
    requires Inv(w) && Covered(w) && t.sid.Some? && t.sid.value in w.loggedOut
    ensures !Accepts(w, t)
  {
    var s := t.sid.value;
    assert w.ends[s] <= w.now || s in w.revoked;
    if t in w.minted { assert t.exp <= w.ends[s]; }
  }

  /** A session that was logged out stays out, in every run that never shortens the longest
      timeout: none of its tokens, old or new, passes a request or a refresh. */
  lemma LoggedOutStaysOut(w: World, steps: seq<Step>, t: Token)
    requires Inv(w) && Covered(w) && Fits(w) && KeepNeverDrops(w, steps)
    requires t.sid.Some? && t.sid.value in w.loggedOut
    ensures !Accepts(Run(w, steps), t)
  {
    hide Next, Keep;
    RunKeepsCovered(w, steps);
    RunKeepsInv(w, steps);
    CoveredRefuses(Run(w, steps), t);
  }

  /** So it is in every run from the first sign-in on. */
  lemma LoggedOutStaysOutFromStart(w: World, first: seq<Step>, later: seq<Step>, t: Token)
    requires w.minted == {} && w.revoked == map[] && w.ends == map[] && w.loggedOut == {}
    requires KeepNeverDrops(w, first) && KeepNeverDrops(Run(w, first), later)
    requires t.sid.Some? && t.sid.value in Run(w, first).loggedOut
    ensures !Accepts(Run(Run(w, first), later), t)
  {
    assert Inv(w) && Covered(w) && Fits(w);
    hide Next, Run;
    RunKeepsCovered(w, first);
    LoggedOutStaysOut(Run(w, first), later, t);
  }

  // ---- Exactly how long a revocation holds ----

  /** Some way to go on from `w` makes a token of session `s` pass again. */
  ghost predicate CanReturn(w: World, s: Sid) {
    exists steps: seq<Step>, t: Token :: t.sid == Some(s) && Accepts(Run(w, steps), t)
  }

  /** The row of `s` is in the table, or it was pruned after its time. */
  predicate ListedUntil(w: World, s: Sid, until: int) {
    (s in w.revoked && w.revoked[s] == until) || until < w.now
  }

  lemma {:induction false} RunKeepsListed(w: World, steps: seq<Step>, s: Sid, until: int)
    requires ListedUntil(w, s, until)
    ensures ListedUntil(Run(w, steps), s, until)
    decreases |steps|
  {
    if steps != [] {
      assert ListedUntil(Next(w, steps[0]), s, until) by { hide Keep; }
      hide Next;
      RunKeepsListed(Next(w, steps[0]), steps[1..], s, until);
    }
  }

  function Later(a: int, b: int): int { if a < b then b else a }

  /** Waiting past the row's time and logging out of some other session drops the row. */
  function PruneRun(w: World, s: Sid, t: Token, spare: Sid): seq<Step>
    requires s in w.revoked && t.tenant < |w.tenants|
  {
    var when := Later(w.now, w.revoked[s] + 1);
    var other := Token(Refresh, t.user, t.tenant, Some(spare), t.version,
        when + MINUTE * RefreshMinutes(w.tenants[t.tenant]));
    [Wait(when - w.now), Login(t.user, t.tenant, spare), Logout(other)]
  }

  lemma PruneRunWorks(w: World, s: Sid, t: Token, spare: Sid)
    requires Inv(w) && s in w.revoked && spare !in w.ends
    requires t in w.minted && t.sid == Some(s) && t.tenant < |w.tenants| && t.version == w.versions[t.user]
    requires Later(w.now, w.revoked[s] + 1) < t.exp
    ensures Accepts(Run(w, PruneRun(w, s, t, spare)), t)
  {
    hide Keep, RefreshMinutes;
    var steps := PruneRun(w, s, t, spare);
    var w1 := Next(w, steps[0]);
    var w2 := Next(w1, steps[1]);
    var w3 := Next(w2, steps[2]);
    assert steps[1..] == [steps[1], steps[2]] && steps[1..][1..] == [steps[2]];
    assert Run(w, steps) == Run(w1, [steps[1], steps[2]]) == Run(w2, [steps[2]]) == Run(w3, []) == w3;
    assert spare != s;
    assert steps[2].token in w2.minted;
    assert w2.revoked == w.revoked && w3.revoked.Keys <= Pruned(w.revoked, w2.now).Keys + {spare};
  }

  /** A revoked session comes back if and only if its row can be pruned before it ends:
      given its latest refresh token and a user not signed out everywhere, some run accepts
      it again exactly when the second after the row's time is before the session's end. */
  lemma RevocationHoldsIff(w: World, s: Sid, t: Token, spare: Sid)
    requires Inv(w) && s in w.revoked && spare !in w.ends
    requires t in w.minted && t.sid == Some(s) && t.tenant < |w.tenants| && t.version == w.versions[t.user]
    requires t.exp == w.ends[s]
    ensures CanReturn(w, s) <==> Later(w.now, w.revoked[s] + 1) < w.ends[s]
  {
    if Later(w.now, w.revoked[s] + 1) < w.ends[s] {
      PruneRunWorks(w, s, t, spare);
    }
    if CanReturn(w, s) {
      hide Next;
      var steps: seq<Step>, u: Token :| u.sid == Some(s) && Accepts(Run(w, steps), u);
      RunKeepsInv(w, steps);
      RunKeepsListed(w, steps, s, w.revoked[s]);
    }
  }

  /** The case the code's comment has in mind: right after a logout, that is when the
      settings have been lowered since the sign-in by more than the session has run. */
  lemma LogoutHoldsIff(w: World, t: Token, spare: Sid)
    requires Inv(w) && t in w.minted && t.sid.Some? && t.sid.value !in Pruned(w.revoked, w.now) && spare !in w.ends
    requires t.tenant < |w.tenants| && t.version == w.versions[t.user] && t.exp == w.ends[t.sid.value]
    ensures CanReturn(Next(w, Logout(t)), t.sid.value) <==> w.now + Keep(w.tenants) + 1 < t.exp
  {
    hide Keep, CanReturn;
    StepKeepsInv(w, Logout(t));
    RevocationHoldsIff(Next(w, Logout(t)), t.sid.value, t, spare);
  }

  // ---- Signing out everywhere ----

  /** A token older than its user's version never passes again. */
  lemma StaleVersionStaysOut(w: World, steps: seq<Step>, t: Token)
    requires Inv(w) && t.user in w.versions && t.version < w.versions[t.user]
    ensures !Accepts(Run(w, steps), t)
  {
    hide Next;
    RunKeepsInv(w, steps);
  }

  /** After signing out everywhere, nothing the user held before ever passes again. */
  lemma RevokeAllEndsEverySession(w: World, user: User, steps: seq<Step>, t: Token)
    requires Inv(w) && t in w.minted && t.user == user
    ensures !Accepts(Run(Next(w, RevokeAll(user)), steps), t)
  {
    StepKeepsInv(w, RevokeAll(user));
    StaleVersionStaysOut(Next(w, RevokeAll(user)), steps, t);
  }

  /** Signing out the others keeps exactly the one session: any token of this user that then
      passes is of that session, and its new tokens do. */
  lemma SignOutOthersKeepsOne(w: World, mine: Token, t: Token)
    requires Inv(w) && Accepts(w, mine) && mine.sid.Some? && mine.tenant < |w.tenants|
    requires w.tenants[mine.tenant].access.Some? ==> w.tenants[mine.tenant].access.value > 0
    ensures var after := Next(w, SignOutOthers(mine));
      && (Accepts(after, t) && t.user == mine.user ==> t.sid == mine.sid && t !in w.minted)
      && (exists u: Token :: u.sid == mine.sid && u.tokenType.Access? && Accepts(after, u))
      && (exists u: Token :: u.sid == mine.sid && u.tokenType.Refresh? && u.exp == w.ends[mine.sid.value]
           && Accepts(after, u))
  {
    var after := Next(w, SignOutOthers(mine));
    var pair := SessionTokens(w.now, mine.user, mine.tenant, w.tenants[mine.tenant], w.versions[mine.user] + 1,
                              mine.sid.value, w.ends[mine.sid.value]);
    assert after.minted == w.minted + {pair.0, pair.1};
    assert Accepts(after, pair.0) && Accepts(after, pair.1);
  }
}
