/** The life of an exception: recommended, decided, swept, withdrawn or added as a fraud
    example, by four services that change the same rows. */
module Decisions {
  import opened Wrappers

  type ExcId = int
  type ItemId = int
  type UserId = int
  type CustomerId = int
  type ReasonId = int

  datatype Network = CHECK | ACH
  datatype Outcome = PAY | RETURN
  datatype Status = OPEN | PENDING_APPROVAL | PAID_OUT | RETURNED_OUT | ESCALATED | WITHDRAWN
  datatype Origin = LIVE | TRAINING_BACKFILL
  datatype DecisionSource = HUMAN | AUTO_DEFAULT | AUTO_ML
  datatype Settlement = UNSETTLED | SETTLED_PAID | SETTLED_RETURNED | REVERSED

  datatype Reason = Reason(text: string, code: string, isActive: bool)

  /** A reason code as stored, with the catalog's posting code for an ACH return. */
  datatype Resolved = Resolved(reason: string, code: Option<string>)

  datatype Exc = Exc(
    network: Network, item: ItemId, customer: Option<CustomerId>, status: Status, origin: Origin,
    recommendedBy: Option<UserId>, recommended: Option<(Outcome, Resolved)>, isCorrection: bool, retracted: bool)

  /** `dual` is history: whether dual control was on when `decide` recorded it. */
  datatype Decision = Decision(
    outcome: Outcome, resolved: Resolved, submittedBy: Option<UserId>, decidedBy: Option<UserId>,
    source: DecisionSource, dual: bool)

  /** One bank's rows. `decisions` is keyed by exception, as its unique constraint demands.
      `swept` are the exceptions a sweep has selected and not yet come to; `lastMaker` is
      history: who last recommended on an exception. */
  datatype World = World(
    dual: bool, catalog: map<ReasonId, Reason>, ach: map<ItemId, Settlement>, checks: map<ItemId, Settlement>,
    exceptions: map<ExcId, Exc>, decisions: map<ExcId, Decision>, swept: set<ExcId>, lastMaker: map<ExcId, UserId>)

  datatype DecisionError =
    | NotFound | AlreadyDecided | RecommendationRequired | MakerCannotApproveOwnRecommendation
    | Withdrawn | ReturnReasonRequired | InvalidReturnReason

  datatype Ctx = Ctx(user: UserId, customer: Option<CustomerId>)

  /** What a maker or checker asks for. */
  datatype Choice = Choice(outcome: Outcome, reason: string, pick: Option<ReasonId>)

  predicate InScope(e: Exc, ctx: Ctx) {
    ctx.customer.None? || e.customer == ctx.customer
  }

  predicate IsDecided(s: Status) { s == PAID_OUT || s == RETURNED_OUT }
  predicate IsUndecided(s: Status) { s == OPEN || s == PENDING_APPROVAL }
  function StatusOf(o: Outcome): Status { if o == PAY then PAID_OUT else RETURNED_OUT }

  // ---- Reasons ----

  predicate NeedsCatalog(network: Network, outcome: Outcome) { network == ACH && outcome == RETURN }

  function FromCatalog(catalog: map<ReasonId, Reason>, pick: ReasonId): Option<Resolved> {
    if pick in catalog && catalog[pick].isActive then Some(Resolved(catalog[pick].text, Some(catalog[pick].code)))
    else None
  }

  function ResolveReason(catalog: map<ReasonId, Reason>, network: Network, c: Choice): Result<Resolved, DecisionError> {
    if !NeedsCatalog(network, c.outcome) then Success(Resolved(c.reason, None))
    else if c.pick.None? then Failure(ReturnReasonRequired)
    else
      var found := FromCatalog(catalog, c.pick.value);
      if found.None? then Failure(InvalidReturnReason) else Success(found.value)
  }

  // ---- The steps ----

  datatype Mode = NO_DISPOSITION | FIXED_PAY | FIXED_RETURN | ML_DETERMINED

  /** How a customer's exceptions are decided when nobody answers; `score` is what the model
      gives at that moment. */
  datatype Disposition = Disposition(mode: Mode, fallback: Option<ReasonId>, text: string, score: Option<real>)

  datatype Step =
    | SetDualControl(enabled: bool)
    | SetReason(id: ReasonId, entry: Reason)
    | Ingest(network: Network, item: ItemId, matched: bool, exc: ExcId, customer: Option<CustomerId>)
    | EscalateAfterOcr(item: ItemId, exc: ExcId, customer: Option<CustomerId>)
    | Recommend(exc: ExcId, ctx: Ctx, choice: Choice)
    | Decide(exc: ExcId, ctx: Ctx, choice: Choice)
    | SelectExpired(expired: set<ExcId>)
    | AutoDecide(exc: ExcId, disposition: Disposition)
    | LabelFraud(network: Network, item: ItemId, exc: ExcId, ctx: Ctx, customer: Option<CustomerId>, choice: Choice)
    | Retract(exc: ExcId, ctx: Ctx)
    | BackOutCheck(item: ItemId)

  function RecommendError(w: World, id: ExcId, ctx: Ctx, c: Choice): Option<DecisionError> {
    if id !in w.exceptions || !InScope(w.exceptions[id], ctx) then Some(NotFound)
    else
      var e := w.exceptions[id];
      if e.status == WITHDRAWN then Some(Withdrawn)
      else if !IsUndecided(e.status) then Some(AlreadyDecided)
      else
        var reason := ResolveReason(w.catalog, e.network, c);
        if reason.Failure? then Some(reason.error) else None
  }

  function DecideError(w: World, id: ExcId, ctx: Ctx, c: Choice): Option<DecisionError> {
    if id !in w.exceptions || !InScope(w.exceptions[id], ctx) then Some(NotFound)
    else
      var e := w.exceptions[id];
      if e.status == WITHDRAWN then Some(Withdrawn)
      else if IsDecided(e.status) then Some(AlreadyDecided)
      else if w.dual && e.status != PENDING_APPROVAL then Some(RecommendationRequired)
      else if w.dual && e.recommendedBy == Some(ctx.user) then Some(MakerCannotApproveOwnRecommendation)
      else
        var reason := ResolveReason(w.catalog, e.network, c);
        if reason.Failure? then Some(reason.error) else None
  }

  function AutoOutcome(d: Disposition): Option<Outcome> {
    match d.mode
    case NO_DISPOSITION => None
    case FIXED_PAY => Some(PAY)
    case FIXED_RETURN => Some(RETURN)
    case ML_DETERMINED => if d.score.None? then None else Some(if d.score.value >= 0.5 then PAY else RETURN)
  }

  /** What the sweep would decide, or None to leave the exception for the next sweep. */
  function AutoChoice(w: World, e: Exc, d: Disposition): Option<(Outcome, Resolved)> {
    var outcome := AutoOutcome(d);
    if e.customer.None? || outcome.None? then None
    else if !NeedsCatalog(e.network, outcome.value) then Some((outcome.value, Resolved(d.text, None)))
    else if d.fallback.None? then None
    else
      var found := FromCatalog(w.catalog, d.fallback.value);
      if found.None? then None else Some((outcome.value, found.value))
  }

  /** Record a decision: the row, the status, and the settlement of a returned ACH item. */
  function Finalized(w: World, id: ExcId, d: Decision): World
    requires id in w.exceptions
  {
    var e := w.exceptions[id];
    w.(decisions := w.decisions[id := d],
       exceptions := w.exceptions[id := e.(status := StatusOf(d.outcome))],
       ach := if NeedsCatalog(e.network, d.outcome) && e.item in w.ach then w.ach[e.item := SETTLED_RETURNED]
              else w.ach)
  }

  function NewExc(network: Network, item: ItemId, customer: Option<CustomerId>): Exc {
    Exc(network, item, customer, OPEN, LIVE, None, None, false, false)
  }

  predicate HasException(w: World, network: Network, item: ItemId) {
    exists e :: e in w.exceptions && w.exceptions[e].network == network && w.exceptions[e].item == item
  }

  predicate HasActiveLabel(exceptions: map<ExcId, Exc>, item: ItemId) {
    exists e :: e in exceptions && exceptions[e].item == item && exceptions[e].origin == TRAINING_BACKFILL
        && !exceptions[e].retracted
  }

  predicate IsLiveDecided(exceptions: map<ExcId, Exc>, item: ItemId) {
    exists e :: e in exceptions && exceptions[e].item == item && exceptions[e].origin == LIVE
        && IsDecided(exceptions[e].status)
  }

  function Settled(settlements: map<ItemId, Settlement>, mine: bool, item: ItemId,
      s: Settlement): map<ItemId, Settlement> {
    if mine then settlements[item := s] else settlements
  }

  function Settle(w: World, network: Network, item: ItemId, s: Settlement): World {
    w.(ach := Settled(w.ach, network == ACH, item, s), checks := Settled(w.checks, network == CHECK, item, s))
  }

  function AfterLabel(w: World, network: Network, item: ItemId, id: ExcId, ctx: Ctx, customer: Option<CustomerId>,
      c: Choice): World {
    var reason := ResolveReason(w.catalog, network, c);
    if id in w.exceptions || id in w.decisions || reason.Failure? || c.outcome != RETURN
        || HasActiveLabel(w.exceptions, item) then w
    else
      var settled := Settle(w, network, item, SETTLED_RETURNED);
      var e := Exc(network, item, customer, RETURNED_OUT, TRAINING_BACKFILL, None, None,
          IsLiveDecided(w.exceptions, item), false);
      settled.(exceptions := w.exceptions[id := e],
               decisions := w.decisions[id := Decision(RETURN, reason.value, None, Some(ctx.user), HUMAN, false)])
  }

  function AfterIngest(w: World, network: Network, item: ItemId, matched: bool, id: ExcId,
      customer: Option<CustomerId>): World {
    if item in w.ach || item in w.checks || id in w.exceptions then w
    else if matched then Settle(w, network, item, SETTLED_PAID)
    else Settle(w, network, item, UNSETTLED).(exceptions := w.exceptions[id := NewExc(network, item, customer)])
  }

  /** Two check exceptions of one paid item make the lookup fail. */
  predicate TwoExceptions(w: World, item: ItemId) {
    exists a, b :: a in w.exceptions && b in w.exceptions && a != b
      && w.exceptions[a].network == CHECK && w.exceptions[a].item == item
      && w.exceptions[b].network == CHECK && w.exceptions[b].item == item
  }

  lemma TwoExceptionsAre(w: World, item: ItemId)
    ensures !TwoExceptions(w, item) <==>
            forall a, b :: (a in w.exceptions && b in w.exceptions
                            && w.exceptions[a].network == CHECK && w.exceptions[b].network == CHECK
                            && w.exceptions[a].item == item && w.exceptions[b].item == item) ==> a == b
  {
  }

  function WithdrawnIfOpen(exceptions: map<ExcId, Exc>, item: ItemId): map<ExcId, Exc> {
    map e | e in exceptions ::
      if exceptions[e].network == CHECK && exceptions[e].item == item && IsUndecided(exceptions[e].status)
      then exceptions[e].(status := WITHDRAWN) else exceptions[e]
  }

  function AfterBackOut(w: World, item: ItemId): World {
    if item !in w.checks || w.checks[item] == REVERSED || w.checks[item] == SETTLED_RETURNED
        || TwoExceptions(w, item) then w
    else w.(checks := w.checks[item := REVERSED], exceptions := WithdrawnIfOpen(w.exceptions, item))
  }

  function AfterRecommend(w: World, id: ExcId, ctx: Ctx, c: Choice): World {
    if RecommendError(w, id, ctx, c).Some? then w
    else
      var e := w.exceptions[id];
      w.(exceptions := w.exceptions[id := e.(status := PENDING_APPROVAL, recommendedBy := Some(ctx.user),
           recommended := Some((c.outcome, ResolveReason(w.catalog, e.network, c).value)))],
         lastMaker := w.lastMaker[id := ctx.user])
  }

  function AfterDecide(w: World, id: ExcId, ctx: Ctx, c: Choice): World {
    if DecideError(w, id, ctx, c).Some? || id in w.decisions then w
    else
      var e := w.exceptions[id];
      Finalized(w, id, Decision(c.outcome, ResolveReason(w.catalog, e.network, c).value,
        if w.dual then e.recommendedBy else None, Some(ctx.user), HUMAN, w.dual))
  }

  /** The sweep looks at a row it selected earlier, not at its status now; only the unique
      constraint on decisions stops it, by undoing the whole row. */
  function AfterAutoDecide(w: World, id: ExcId, d: Disposition): World {
    if id !in w.swept || id !in w.exceptions then w
    else
      var rest := w.(swept := w.swept - {id});
      var choice := AutoChoice(w, w.exceptions[id], d);
      if choice.None? || id in w.decisions then rest
      else
        var source := if d.mode == ML_DETERMINED then AUTO_ML else AUTO_DEFAULT;
        Finalized(rest, id, Decision(choice.value.0, choice.value.1, None, None, source, false))
  }

  function Next(w: World, step: Step): World {
    match step
    case SetDualControl(enabled) => w.(dual := enabled)
    case SetReason(id, entry) => w.(catalog := w.catalog[id := entry])
    case Ingest(network, item, matched, id, customer) => AfterIngest(w, network, item, matched, id, customer)
    case EscalateAfterOcr(item, id, customer) =>
      if item !in w.checks || id in w.exceptions || HasException(w, CHECK, item) then w
      else w.(exceptions := w.exceptions[id := NewExc(CHECK, item, customer)])
    case Recommend(id, ctx, c) => AfterRecommend(w, id, ctx, c)
    case Decide(id, ctx, c) => AfterDecide(w, id, ctx, c)
    case SelectExpired(expired) =>
      w.(swept := set e | e in expired && e in w.exceptions && IsUndecided(w.exceptions[e].status))
    case AutoDecide(id, d) => AfterAutoDecide(w, id, d)
    case LabelFraud(network, item, id, ctx, customer, c) =>
      if (network == ACH && item in w.checks) || (network == CHECK && item in w.ach) then w
      else AfterLabel(w, network, item, id, ctx, customer, c)
    case Retract(id, ctx) =>
      if id in w.exceptions && InScope(w.exceptions[id], ctx) && w.exceptions[id].origin == TRAINING_BACKFILL
          && !w.exceptions[id].retracted
      then w.(exceptions := w.exceptions[id := w.exceptions[id].(retracted := true)]) else w
    case BackOutCheck(item) => AfterBackOut(w, item)
  }

  function Run(w: World, steps: seq<Step>): World
    decreases |steps|
  {
    if steps == [] then w else Next(Run(w, steps[..|steps| - 1]), steps[|steps| - 1])
  }

  // ---- What every step keeps ----

  /** A decision exists exactly for the exceptions paid or returned, and says the same. */
  predicate DecidedOnce(w: World, e: ExcId) {
    && (e in w.decisions <==> e in w.exceptions && IsDecided(w.exceptions[e].status))
    && (e in w.decisions ==> w.exceptions[e].status == StatusOf(w.decisions[e].outcome))
    && (e in w.exceptions ==> w.exceptions[e].status != ESCALATED)
  }

  /** A pending exception has a recorded maker, the last who recommended on it. */
  predicate MakerKnown(w: World, e: ExcId) {
    e in w.exceptions ==>
      && (w.exceptions[e].status == PENDING_APPROVAL ==> w.exceptions[e].recommendedBy.Some?)
      && (w.exceptions[e].recommendedBy.Some? ==>
           e in w.lastMaker && w.exceptions[e].recommendedBy.value == w.lastMaker[e])
  }

  /** A decision under dual control has two people: its last maker and somebody else. */
  predicate TwoPeople(w: World, e: ExcId) {
    e in w.decisions && w.decisions[e].dual ==>
      && w.decisions[e].source == HUMAN
      && e in w.lastMaker && w.decisions[e].submittedBy == Some(w.lastMaker[e])
      && w.decisions[e].decidedBy.Some? && w.decisions[e].decidedBy != w.decisions[e].submittedBy
  }

  predicate Sound(w: World, e: ExcId) {
    DecidedOnce(w, e) && MakerKnown(w, e) && TwoPeople(w, e)
  }

  predicate IsReturn(w: World, e: ExcId, item: ItemId) {
    && e in w.exceptions && e in w.decisions
    && w.exceptions[e].network == ACH && w.exceptions[e].item == item && w.decisions[e].outcome == RETURN
  }

  predicate HasItem(w: World, e: ExcId) {
    e in w.exceptions ==>
        if w.exceptions[e].network == ACH then w.exceptions[e].item in w.ach else w.exceptions[e].item in w.checks
  }

  /** An ACH item is settled as returned exactly when some exception of it was decided so. */
  ghost predicate ReturnsAgree(w: World, i: ItemId) {
    i in w.ach ==> (w.ach[i] == SETTLED_RETURNED <==> exists e :: IsReturn(w, e, i))
  }

  predicate IsOf(w: World, e: ExcId, item: ItemId, origin: Origin) {
    e in w.exceptions && w.exceptions[e].network == CHECK && w.exceptions[e].item == item
        && w.exceptions[e].origin == origin
  }

  /** A check has at most one live exception, and is settled as returned if it has a label. */
  predicate OneLive(w: World, a: ExcId, b: ExcId, item: ItemId) {
    && (IsOf(w, a, item, LIVE) && IsOf(w, b, item, LIVE) ==> a == b)
    && (IsOf(w, a, item, TRAINING_BACKFILL) ==> item in w.checks && w.checks[item] == SETTLED_RETURNED)
  }

  ghost predicate Inv(w: World) {
    && (forall e :: Sound(w, e))
    && (forall e :: HasItem(w, e))
    && (forall i :: ReturnsAgree(w, i))
    && (forall a, b, i :: OneLive(w, a, b, i))
  }

  // ---- What a step may do to one exception ----

  predicate SameDecision(w: World, v: World, e: ExcId) {
    (e in w.decisions <==> e in v.decisions) && (e in w.decisions ==> v.decisions[e] == w.decisions[e])
  }

  predicate SameMaker(w: World, v: World, e: ExcId) {
    (e in w.lastMaker <==> e in v.lastMaker) && (e in w.lastMaker ==> v.lastMaker[e] == w.lastMaker[e])
  }

  predicate Kept(w: World, v: World, e: ExcId) {
    && (e in w.exceptions <==> e in v.exceptions) && SameDecision(w, v, e) && SameMaker(w, v, e)
    && (e in w.exceptions ==> v.exceptions[e] == w.exceptions[e].(retracted := v.exceptions[e].retracted))
  }

  predicate Opened(w: World, v: World, e: ExcId) {
    && e !in w.exceptions && e in v.exceptions && SameDecision(w, v, e) && SameMaker(w, v, e)
    && v.exceptions[e] == NewExc(v.exceptions[e].network, v.exceptions[e].item, v.exceptions[e].customer)
    && !HasException(w, v.exceptions[e].network, v.exceptions[e].item)
    && HasItem(v, e)
  }

  predicate Recommended(w: World, v: World, e: ExcId) {
    && e in w.exceptions && e in v.exceptions && SameDecision(w, v, e) && e in v.lastMaker
    && IsUndecided(w.exceptions[e].status)
    && v.exceptions[e] == w.exceptions[e].(status := PENDING_APPROVAL, recommendedBy := Some(v.lastMaker[e]),
         recommended := v.exceptions[e].recommended)
  }

  predicate Concluded(w: World, v: World, e: ExcId) {
    && e in w.exceptions && e in v.exceptions && e !in w.decisions && e in v.decisions && SameMaker(w, v, e)
    && var d := v.decisions[e];
    && v.exceptions[e] == w.exceptions[e].(status := StatusOf(d.outcome))
    && (d.dual ==>
          && d.source == HUMAN && w.exceptions[e].status == PENDING_APPROVAL
          && d.submittedBy == w.exceptions[e].recommendedBy && d.decidedBy.Some? && d.decidedBy != d.submittedBy)
    && (NeedsCatalog(w.exceptions[e].network, d.outcome) && w.exceptions[e].item in v.ach ==>
          v.ach[w.exceptions[e].item] == SETTLED_RETURNED)
  }

  predicate Labelled(w: World, v: World, e: ExcId) {
    && e !in w.exceptions && e in v.exceptions && e !in w.decisions && e in v.decisions && SameMaker(w, v, e)
    && v.exceptions[e].status == RETURNED_OUT && v.exceptions[e].origin == TRAINING_BACKFILL
    && v.exceptions[e].recommendedBy.None?
    && v.decisions[e].outcome == RETURN && !v.decisions[e].dual
    && var settlements := if v.exceptions[e].network == ACH then v.ach else v.checks;
    && v.exceptions[e].item in settlements && settlements[v.exceptions[e].item] == SETTLED_RETURNED
  }

  predicate WithdrawnNow(w: World, v: World, e: ExcId) {
    && e in w.exceptions && e in v.exceptions && SameDecision(w, v, e) && SameMaker(w, v, e)
    && w.exceptions[e].network == CHECK && IsUndecided(w.exceptions[e].status)
    && v.exceptions[e] == w.exceptions[e].(status := WITHDRAWN)
  }

  predicate Evolves(w: World, v: World, e: ExcId) {
    Kept(w, v, e) || Opened(w, v, e) || Recommended(w, v, e) || Concluded(w, v, e) || Labelled(w, v, e)
        || WithdrawnNow(w, v, e)
  }

  predicate StaysReturned(before: map<ItemId, Settlement>, after: map<ItemId, Settlement>, i: ItemId) {
    i in before ==> i in after && (before[i] == SETTLED_RETURNED ==> after[i] == SETTLED_RETURNED)
  }

  /** A newly returned ACH item was returned by a decision of this step. */
  predicate Settles(w: World, v: World, step: Step, i: ItemId) {
    && StaysReturned(w.ach, v.ach, i) && StaysReturned(w.checks, v.checks, i)
    && (i in v.ach && v.ach[i] == SETTLED_RETURNED && !(i in w.ach && w.ach[i] == SETTLED_RETURNED) ==>
          (step.Decide? || step.AutoDecide? || step.LabelFraud?) && IsReturn(v, step.exc, i))
  }

  lemma RecommendEvolves(w: World, step: Step, e: ExcId)
    requires step.Recommend?
    ensures Evolves(w, Next(w, step), e)
  {
    MayRecommend(w, step.exc, step.ctx, step.choice);
    hide ResolveReason, RecommendError, HasException, HasItem;
    hide AfterDecide, AfterAutoDecide, AfterLabel, AfterIngest, AfterBackOut;
    hide Opened, Concluded, Labelled, WithdrawnNow;
    if e == step.exc && Next(w, step) != w {
      assert Recommended(w, Next(w, step), e);
    } else {
      assert Kept(w, Next(w, step), e);
    }
  }

  lemma MayRecommend(w: World, id: ExcId, ctx: Ctx, c: Choice)
    ensures RecommendError(w, id, ctx, c).None? ==> id in w.exceptions && IsUndecided(w.exceptions[id].status)
  {
    hide ResolveReason;
  }

  lemma MayDecide(w: World, id: ExcId, ctx: Ctx, c: Choice)
    ensures DecideError(w, id, ctx, c).None? ==> (
              && id in w.exceptions && !IsDecided(w.exceptions[id].status)
              && (w.dual ==> w.exceptions[id].status == PENDING_APPROVAL)
              && (w.dual ==> w.exceptions[id].recommendedBy != Some(ctx.user)))
  {
    hide ResolveReason;
  }

  lemma DecideEvolves(w: World, step: Step, e: ExcId)
    requires step.Decide? && (e in w.exceptions && w.exceptions[e].status == PENDING_APPROVAL ==>
             w.exceptions[e].recommendedBy.Some?)
    ensures Evolves(w, Next(w, step), e)
  {
    MayDecide(w, step.exc, step.ctx, step.choice);
    hide ResolveReason, DecideError, HasException, HasItem;
    hide AfterRecommend, AfterAutoDecide, AfterLabel, AfterIngest, AfterBackOut;
    hide Opened, Recommended, Labelled, WithdrawnNow;
    if e == step.exc && Next(w, step) != w {
      assert Concluded(w, Next(w, step), e);
    } else {
      assert Kept(w, Next(w, step), e);
    }
  }

  lemma AutoDecideEvolves(w: World, step: Step, e: ExcId)
    requires step.AutoDecide?
    ensures Evolves(w, Next(w, step), e)
  {
    hide AfterRecommend, AfterDecide, AfterLabel, AfterIngest, AfterBackOut;
    var id := step.exc;
    if id in w.swept && id in w.exceptions {
      var rest := w.(swept := w.swept - {id});
      var choice := AutoChoice(w, w.exceptions[id], step.disposition);
      hide AutoChoice, Evolves;
      KeptEvolves(w, rest, e);
      if choice.Some? && id !in w.decisions {
        var source := if step.disposition.mode == ML_DETERMINED then AUTO_ML else AUTO_DEFAULT;
        FinalizedEvolves(w, rest, id, Decision(choice.value.0, choice.value.1, None, None, source, false), e);
      }
    } else {
      hide AutoChoice;
    }
  }

  lemma KeptEvolves(w: World, v: World, e: ExcId)
    requires v == w.(swept := v.swept)
    ensures Evolves(w, v, e)
  {
  }

  lemma FinalizedEvolves(w: World, rest: World, id: ExcId, d: Decision, e: ExcId)
    requires rest == w.(swept := rest.swept) && id in w.exceptions && id !in w.decisions && !d.dual
    ensures Evolves(w, Finalized(rest, id, d), e)
  {
    hide HasException;
  }

  lemma AfterLabelEvolves(w: World, network: Network, item: ItemId, id: ExcId, ctx: Ctx, customer: Option<CustomerId>,
      c: Choice, e: ExcId)
    ensures Evolves(w, AfterLabel(w, network, item, id, ctx, customer, c), e)
  {
    hide ResolveReason, HasActiveLabel, IsLiveDecided, Opened, Recommended, Concluded, WithdrawnNow;
    var v := AfterLabel(w, network, item, id, ctx, customer, c);
    if v != w && e == id {
      hide Kept;
      assert Labelled(w, v, e);
    } else {
      hide Labelled;
      assert Kept(w, v, e);
    }
  }

  lemma LabelEvolves(w: World, step: Step, e: ExcId)
    requires step.LabelFraud?
    ensures Evolves(w, Next(w, step), e)
  {
    if (step.network == ACH && step.item in w.checks) || (step.network == CHECK && step.item in w.ach) {
      hide AfterLabel, Opened, Labelled, Recommended, Concluded, WithdrawnNow;
      assert Kept(w, w, e);
    } else {
      AfterLabelEvolves(w, step.network, step.item, step.exc, step.ctx, step.customer, step.choice, e);
      hide AfterLabel, Evolves;
    }
  }

  lemma BackOutEvolves(w: World, step: Step, e: ExcId)
    requires step.BackOutCheck?
    ensures Evolves(w, Next(w, step), e)
  {
    hide AfterRecommend, AfterDecide, AfterAutoDecide, AfterLabel, AfterIngest;
    hide TwoExceptions;
  }

  lemma NoneYet(w: World, network: Network, item: ItemId)
    requires item !in w.ach && item !in w.checks && forall x :: HasItem(w, x)
    ensures !HasException(w, network, item)
  {
    forall x | x in w.exceptions ensures w.exceptions[x].item != item { assert HasItem(w, x); }
  }

  lemma IngestedEvolves(w: World, network: Network, item: ItemId, matched: bool, id: ExcId,
      customer: Option<CustomerId>, e: ExcId)
    requires forall x :: HasItem(w, x)
    ensures Evolves(w, AfterIngest(w, network, item, matched, id, customer), e)
  {
    hide Labelled, Recommended, Concluded, WithdrawnNow;
    var v := AfterIngest(w, network, item, matched, id, customer);
    if item !in w.ach && item !in w.checks { NoneYet(w, network, item); }
    hide HasException;
    if v == w || matched {
      hide Opened, HasItem;
      assert Kept(w, v, e);
    } else if e == id {
      hide Kept;
      assert Opened(w, v, e);
    } else {
      hide Opened, HasItem;
      assert Kept(w, v, e);
    }
  }

  lemma IngestEvolves(w: World, step: Step, e: ExcId)
    requires step.Ingest? && forall x :: HasItem(w, x)
    ensures Evolves(w, Next(w, step), e)
  {
    IngestedEvolves(w, step.network, step.item, step.matched, step.exc, step.customer, e);
  }

  lemma EscalateEvolves(w: World, step: Step, e: ExcId)
    requires step.EscalateAfterOcr?
    ensures Evolves(w, Next(w, step), e)
  {
    hide AfterRecommend, AfterDecide, AfterAutoDecide, AfterLabel, AfterIngest, AfterBackOut;
    hide HasException;
  }

  lemma RetractEvolves(w: World, step: Step, e: ExcId)
    requires step.Retract?
    ensures Evolves(w, Next(w, step), e)
  {
    hide AfterRecommend, AfterDecide, AfterAutoDecide, AfterLabel, AfterIngest, AfterBackOut;
    hide Opened, Labelled, Recommended, Concluded, WithdrawnNow;
    assert Kept(w, Next(w, step), e);
  }

  lemma OtherEvolves(w: World, step: Step, e: ExcId)
    requires step.SetDualControl? || step.SetReason? || step.SelectExpired?
    ensures Evolves(w, Next(w, step), e)
  {
    hide AfterRecommend, AfterDecide, AfterAutoDecide, AfterLabel, AfterIngest, AfterBackOut;
    hide Opened, Labelled, Recommended, Concluded, WithdrawnNow;
    assert Next(w, step).exceptions == w.exceptions && Next(w, step).decisions == w.decisions
        && Next(w, step).lastMaker == w.lastMaker;
    assert Kept(w, Next(w, step), e);
  }

  lemma IngestSettles(w: World, step: Step, i: ItemId)
    requires step.Ingest?
    ensures Settles(w, Next(w, step), step, i)
  {
    hide IsReturn, AfterRecommend, AfterDecide, AfterAutoDecide, AfterLabel, AfterBackOut;
  }

  lemma BackOutSettles(w: World, step: Step, i: ItemId)
    requires step.BackOutCheck?
    ensures Settles(w, Next(w, step), step, i)
  {
    hide IsReturn, TwoExceptions, AfterRecommend, AfterDecide, AfterAutoDecide, AfterLabel, AfterIngest;
  }

  lemma OtherSettles(w: World, step: Step, i: ItemId)
    requires step.SetDualControl? || step.SetReason? || step.SelectExpired? || step.Retract? || step.EscalateAfterOcr?
             || step.Recommend?
    ensures Settles(w, Next(w, step), step, i)
  {
    hide IsReturn, HasException, RecommendError, AfterDecide, AfterAutoDecide, AfterLabel, AfterIngest, AfterBackOut;
    assert Next(w, step).ach == w.ach && Next(w, step).checks == w.checks;
  }

  lemma StepSettles(w: World, step: Step, i: ItemId)
    ensures Settles(w, Next(w, step), step, i)
  {
    hide Next, Settles;
    match step
    case Decide(_, _, _) => DecideSettles(w, step, i);
    case AutoDecide(_, _) => AutoDecideSettles(w, step, i);
    case LabelFraud(_, _, _, _, _, _) => LabelSettles(w, step, i);
    case Ingest(network, item, matched, id, customer) => IngestSettles(w, step, i);
    case BackOutCheck(item) => BackOutSettles(w, step, i);
    case _ => OtherSettles(w, step, i);
  }

  lemma DecideSettles(w: World, step: Step, i: ItemId)
    requires step.Decide?
    ensures Settles(w, Next(w, step), step, i)
  {
    hide ResolveReason, AfterRecommend, AfterAutoDecide, AfterLabel, AfterIngest, AfterBackOut;
  }

  lemma LabelSettles(w: World, step: Step, i: ItemId)
    requires step.LabelFraud?
    ensures Settles(w, Next(w, step), step, i)
  {
    hide AfterRecommend, AfterDecide, AfterAutoDecide, AfterIngest, AfterBackOut;
    hide ResolveReason, HasActiveLabel, IsLiveDecided;
  }

  lemma AutoDecideSettles(w: World, step: Step, i: ItemId)
    requires step.AutoDecide?
    ensures Settles(w, Next(w, step), step, i)
  {
    hide AfterRecommend, AfterDecide, AfterLabel, AfterIngest, AfterBackOut;
    hide AutoChoice;
  }

  lemma StepEvolves(w: World, step: Step, e: ExcId)
    requires Inv(w)
    ensures Evolves(w, Next(w, step), e)
  {
    hide Next, Evolves, HasItem, OneLive, ReturnsAgree;
    assert Sound(w, e);
    match step
    case Recommend(_, _, _) => RecommendEvolves(w, step, e);
    case Decide(_, _, _) => DecideEvolves(w, step, e);
    case AutoDecide(_, _) => AutoDecideEvolves(w, step, e);
    case LabelFraud(_, _, _, _, _, _) => LabelEvolves(w, step, e);
    case BackOutCheck(_) => BackOutEvolves(w, step, e);
    case Ingest(_, _, _, _, _) => IngestEvolves(w, step, e);
    case EscalateAfterOcr(_, _, _) => EscalateEvolves(w, step, e);
    case Retract(_, _) => RetractEvolves(w, step, e);
    case _ => OtherEvolves(w, step, e);
  }

  // ---- What every step keeps ----

  lemma StepKeepsSound(w: World, step: Step, e: ExcId)
    requires Inv(w)
    ensures Sound(Next(w, step), e)
  {
    assert Sound(w, e);
    hide Sound, Evolves;
    StepEvolves(w, step, e);
    EvolvesSoundly(w, Next(w, step), e);
  }

  lemma EvolvesSoundly(w: World, v: World, e: ExcId)
    requires Sound(w, e) && Evolves(w, v, e)
    ensures Sound(v, e)
  {
    hide HasException, HasItem;
  }

  lemma StepKeepsItem(w: World, step: Step, e: ExcId)
    requires Inv(w)
    ensures HasItem(Next(w, step), e)
  {
    StepEvolves(w, step, e);
    if e in w.exceptions { StepSettles(w, step, w.exceptions[e].item); }
    hide Next, Sound, OneLive, ReturnsAgree, HasException, IsReturn;
    assert HasItem(w, e);
  }

  /** Once decided, an exception keeps its status and its decision for ever. */
  lemma StepKeepsDecided(w: World, step: Step, e: ExcId)
    requires Inv(w) && e in w.decisions
    ensures var v := Next(w, step);
            && e in v.decisions && v.decisions[e] == w.decisions[e]
            && e in w.exceptions && e in v.exceptions && v.exceptions[e].status == w.exceptions[e].status
            && v.exceptions[e].network == w.exceptions[e].network && v.exceptions[e].item == w.exceptions[e].item
  {
    StepEvolves(w, step, e);
    hide Next, HasItem, OneLive, ReturnsAgree, HasException;
    assert Sound(w, e);
  }

  lemma EvolvesToReturn(w: World, v: World, e: ExcId, i: ItemId)
    requires Sound(w, e) && HasItem(w, e) && ReturnsAgree(w, i) && Evolves(w, v, e) && StaysReturned(w.ach, v.ach, i)
    requires i in v.ach && IsReturn(v, e, i)
    ensures v.ach[i] == SETTLED_RETURNED
  {
    hide HasException;
    if IsReturn(w, e, i) { assert w.ach[i] == SETTLED_RETURNED; }
  }

  lemma ReturnSettles(w: World, step: Step, e: ExcId, i: ItemId)
    requires Inv(w) && i in Next(w, step).ach && IsReturn(Next(w, step), e, i)
    ensures Next(w, step).ach[i] == SETTLED_RETURNED
  {
    hide Next, OneLive, Sound, HasItem, Evolves, IsReturn;
    assert Sound(w, e) && HasItem(w, e) && ReturnsAgree(w, i);
    StepEvolves(w, step, e);
    StepSettles(w, step, i);
    EvolvesToReturn(w, Next(w, step), e, i);
  }

  lemma StepReturnsAgree(w: World, step: Step, i: ItemId)
    requires Inv(w)
    ensures ReturnsAgree(Next(w, step), i)
  {
    var v := Next(w, step);
    hide Next, Sound, HasItem, OneLive, Evolves, IsReturn;
    if i in v.ach {
      forall e | IsReturn(v, e, i) ensures v.ach[i] == SETTLED_RETURNED { ReturnSettles(w, step, e, i); }
      if v.ach[i] == SETTLED_RETURNED {
        assert ReturnsAgree(w, i);
        if i in w.ach && w.ach[i] == SETTLED_RETURNED {
          var e :| IsReturn(w, e, i);
          ReturnStays(w, step, e, i);
        } else {
          StepSettles(w, step, i);
        }
      }
    }
  }

  lemma ReturnStays(w: World, step: Step, e: ExcId, i: ItemId)
    requires Inv(w) && IsReturn(w, e, i)
    ensures IsReturn(Next(w, step), e, i)
  {
    StepKeepsDecided(w, step, e);
  }

  lemma EvolvesOneLive(w: World, v: World, a: ExcId, b: ExcId, i: ItemId)
    requires OneLive(w, a, b, i) && HasItem(w, a) && Evolves(w, v, a) && Evolves(w, v, b)
    requires StaysReturned(w.checks, v.checks, i)
    requires a !in w.exceptions && b !in w.exceptions && a in v.exceptions && b in v.exceptions ==> a == b
    ensures OneLive(v, a, b, i)
  {
    KeepsPlace(w, v, a);
    KeepsPlace(w, v, b);
    hide Evolves, HasItem;
  }

  /** What a step never changes, and what a new exception starts as. */
  lemma KeepsPlace(w: World, v: World, e: ExcId)
    requires Evolves(w, v, e)
    ensures e in w.exceptions ==> (
              && e in v.exceptions && v.exceptions[e].network == w.exceptions[e].network
              && v.exceptions[e].item == w.exceptions[e].item && v.exceptions[e].origin == w.exceptions[e].origin)
    ensures e !in w.exceptions && e in v.exceptions ==> (
              if v.exceptions[e].origin == LIVE then !HasException(w, v.exceptions[e].network, v.exceptions[e].item)
              else (v.exceptions[e].network == CHECK ==>
                v.exceptions[e].item in v.checks && v.checks[v.exceptions[e].item] == SETTLED_RETURNED))
  {
    hide HasException;
  }

  lemma StepKeepsOneLive(w: World, step: Step, a: ExcId, b: ExcId, i: ItemId)
    requires Inv(w)
    ensures OneLive(Next(w, step), a, b, i)
  {
    hide Next, OneLive, Evolves, Sound, ReturnsAgree, HasItem;
    assert OneLive(w, a, b, i) && HasItem(w, a);
    StepEvolves(w, step, a);
    StepEvolves(w, step, b);
    StepSettles(w, step, i);
    if a !in w.exceptions && b !in w.exceptions && a in Next(w, step).exceptions && b in Next(w, step).exceptions {
      OneOpensAtATime(w, step, a, b);
    }
    EvolvesOneLive(w, Next(w, step), a, b, i);
  }

  lemma OneOpensAtATime(w: World, step: Step, a: ExcId, b: ExcId)
    requires a !in w.exceptions && b !in w.exceptions && a in Next(w, step).exceptions && b in Next(w, step).exceptions
    ensures a == b
  {
    hide ResolveReason, AutoChoice, HasActiveLabel, IsLiveDecided;
    hide TwoExceptions, HasException, RecommendError, DecideError;
    hide Settled;
  }

  lemma StepKeepsInv(w: World, step: Step)
    requires Inv(w)
    ensures Inv(Next(w, step))
  {
    hide Next, Sound, HasItem, ReturnsAgree, OneLive;
    forall e ensures Sound(Next(w, step), e) { StepKeepsSound(w, step, e); }
    forall e ensures HasItem(Next(w, step), e) { StepKeepsItem(w, step, e); }
    forall i ensures ReturnsAgree(Next(w, step), i) { StepReturnsAgree(w, step, i); }
    forall a, b, i ensures OneLive(Next(w, step), a, b, i) { StepKeepsOneLive(w, step, a, b, i); }
  }

  // ---- Whole runs ----

  /** Before anything was ingested. */
  predicate Fresh(w: World) {
    w.exceptions == map[] && w.decisions == map[] && w.ach == map[] && w.checks == map[]
  }

  lemma {:induction false} RunKeepsInv(w: World, steps: seq<Step>)
    requires Inv(w)
    ensures Inv(Run(w, steps))
    decreases |steps|
  {
    if steps != [] {
      hide Inv, Next;
      RunKeepsInv(w, steps[..|steps| - 1]);
      StepKeepsInv(Run(w, steps[..|steps| - 1]), steps[|steps| - 1]);
    }
  }

  /** In every reachable state: one decision exactly for what was paid or returned, a known
      maker behind every pending one, two people behind every decision under dual control. */
  lemma ReachableIsSound(w: World, steps: seq<Step>, e: ExcId)
    requires Fresh(w)
    ensures var v := Run(w, steps);
            && (e in v.decisions <==> e in v.exceptions && v.exceptions[e].status in {PAID_OUT, RETURNED_OUT})
            && (e in v.decisions ==> (v.exceptions[e].status == PAID_OUT <==> v.decisions[e].outcome == PAY))
            && (e in v.exceptions && v.exceptions[e].status == PENDING_APPROVAL ==>
                  e in v.lastMaker && v.exceptions[e].recommendedBy == Some(v.lastMaker[e]))
            && (e in v.decisions && v.decisions[e].dual ==>
                  var d := v.decisions[e];
                  && d.source == HUMAN && e in v.lastMaker && d.submittedBy == Some(v.lastMaker[e])
                  && d.decidedBy != None && d.decidedBy != d.submittedBy)
  {
    FreshIsSound(w);
    hide Run;
    RunKeepsInv(w, steps);
    assert Sound(Run(w, steps), e);
  }

  lemma FreshIsSound(w: World)
    requires Fresh(w)
    ensures Inv(w)
  {
  }

  /** In every reachable state an ACH item is returned exactly when some exception of it was. */
  lemma AchReturnsAgree(w: World, steps: seq<Step>, i: ItemId)
    requires Fresh(w) && i in Run(w, steps).ach
    ensures var v := Run(w, steps);
            v.ach[i] == SETTLED_RETURNED <==>
            exists e :: e in v.exceptions && v.exceptions[e].network == ACH && v.exceptions[e].item == i
                        && e in v.decisions && v.decisions[e].outcome == RETURN
  {
    FreshIsSound(w);
    hide Run, Sound, HasItem, OneLive;
    RunKeepsInv(w, steps);
    var v := Run(w, steps);
    assert ReturnsAgree(v, i);
    if e :| e in v.exceptions && v.exceptions[e].network == ACH && v.exceptions[e].item == i
            && e in v.decisions && v.decisions[e].outcome == RETURN { assert IsReturn(v, e, i); }
  }

  /** Nothing that happens later changes a decision or reopens its exception. */
  lemma {:induction false} DecidedForever(w: World, steps: seq<Step>, e: ExcId)
    requires Inv(w) && e in w.decisions
    ensures var v := Run(w, steps);
            && e in v.decisions && v.decisions[e] == w.decisions[e]
            && e in w.exceptions && e in v.exceptions && v.exceptions[e].status == w.exceptions[e].status
    decreases |steps|
  {
    if steps == [] {
      assert Sound(w, e);
    } else {
      hide Inv, Next;
      RunKeepsInv(w, steps[..|steps| - 1]);
      DecidedForever(w, steps[..|steps| - 1], e);
      StepKeepsDecided(Run(w, steps[..|steps| - 1]), steps[|steps| - 1], e);
    }
  }

  /** The unique constraint on decisions never stops `decide`. */
  lemma DecideMeetsNoDecision(w: World, id: ExcId, ctx: Ctx, c: Choice)
    requires Inv(w) && DecideError(w, id, ctx, c).None?
    ensures id !in w.decisions && id in Next(w, Decide(id, ctx, c)).decisions
  {
    hide ResolveReason;
    assert Sound(w, id);
  }

  /** The exception lookup of a back-out never meets two rows. */
  lemma LookupMeetsOne(w: World, item: ItemId)
    requires Inv(w) && item in w.checks && w.checks[item] != SETTLED_RETURNED
    ensures !TwoExceptions(w, item)
  {
    hide Sound, HasItem, ReturnsAgree;
    forall a, b | a in w.exceptions && b in w.exceptions && w.exceptions[a].network == CHECK
        && w.exceptions[a].item == item
                  && w.exceptions[b].network == CHECK && w.exceptions[b].item == item
      ensures a == b
    {
      assert OneLive(w, a, b, item) && OneLive(w, b, a, item);
    }
  }

  // ---- The lookup after character recognition ----

  /** A check that has an exception already is labelled as fraud. */
  predicate LabelsAgain(w: World, step: Step, item: ItemId) {
    && step.LabelFraud? && step.network == CHECK && step.item == item && step.exc !in w.exceptions
    && HasException(w, CHECK, item) && step.exc in Next(w, step).exceptions
  }

  lemma NewLabelBy(w: World, step: Step, a: ExcId)
    requires a !in w.exceptions && a in Next(w, step).exceptions
    requires Next(w, step).exceptions[a].origin == TRAINING_BACKFILL
    ensures step.LabelFraud? && step.exc == a
    ensures Next(w, step).exceptions[a].network == step.network && Next(w, step).exceptions[a].item == step.item
  {
    hide ResolveReason, AutoChoice, HasActiveLabel, IsLiveDecided, TwoExceptions, HasException;
    hide Settled;
  }

  lemma NewLabel(w: World, step: Step)
    requires step.LabelFraud? && step.exc !in w.exceptions && step.exc in Next(w, step).exceptions
    ensures var e := Next(w, step).exceptions[step.exc];
            e.network == step.network && e.item == step.item && e.origin == TRAINING_BACKFILL
  {
    hide ResolveReason, HasActiveLabel, IsLiveDecided, HasException, Settled;
    hide AfterRecommend, AfterDecide, AfterAutoDecide, AfterIngest, AfterBackOut;
  }

  /** A row of the lookup: a check exception of the item. */
  predicate IsRow(w: World, e: ExcId, item: ItemId) {
    e in w.exceptions && w.exceptions[e].network == CHECK && w.exceptions[e].item == item
  }

  lemma TwoRows(w: World, item: ItemId)
    ensures TwoExceptions(w, item) <==> exists a, b :: a != b && IsRow(w, a, item) && IsRow(w, b, item)
    ensures HasException(w, CHECK, item) <==> exists a :: IsRow(w, a, item)
  {
    if TwoExceptions(w, item) {
      var a, b :| a in w.exceptions && b in w.exceptions && a != b
        && w.exceptions[a].network == CHECK && w.exceptions[a].item == item
        && w.exceptions[b].network == CHECK && w.exceptions[b].item == item;
      assert IsRow(w, a, item) && IsRow(w, b, item);
    }
    if a, b :| a != b && IsRow(w, a, item) && IsRow(w, b, item) {
      assert w.exceptions[a].item == w.exceptions[b].item == item;
    }
    if HasException(w, CHECK, item) {
      var a :| a in w.exceptions && w.exceptions[a].network == CHECK && w.exceptions[a].item == item;
      assert IsRow(w, a, item);
    }
    if a :| IsRow(w, a, item) {
      assert w.exceptions[a].network == CHECK;
    }
  }

  lemma RowStays(w: World, step: Step, e: ExcId, item: ItemId)
    requires Inv(w) && e in w.exceptions
    ensures IsRow(w, e, item) <==> IsRow(Next(w, step), e, item)
  {
    StepEvolves(w, step, e);
    KeepsPlace(w, Next(w, step), e);
  }

  /** A row that is new beside another one is a label. */
  lemma NewRowIsLabel(w: World, step: Step, a: ExcId, b: ExcId, item: ItemId)
    requires Inv(w) && a != b && a !in w.exceptions && IsRow(Next(w, step), a, item) && IsRow(Next(w, step), b, item)
    ensures LabelsAgain(w, step, item)
  {
    hide Next, Evolves;
    if b !in w.exceptions { OneOpensAtATime(w, step, a, b); }
    RowStays(w, step, b, item);
    TwoRows(w, item);
    StepEvolves(w, step, a);
    KeepsPlace(w, Next(w, step), a);
    NewLabelBy(w, step, a);
  }

  lemma TwoRowsAriseIff(w: World, step: Step, item: ItemId)
    requires Inv(w)
    ensures TwoExceptions(Next(w, step), item) <==> TwoExceptions(w, item) || LabelsAgain(w, step, item)
  {
    hide Next, TwoExceptions, HasException, LabelsAgain, Inv, IsRow;
    var v := Next(w, step);
    TwoRows(w, item);
    TwoRows(v, item);
    if TwoExceptions(w, item) {
      var a, b :| a != b && IsRow(w, a, item) && IsRow(w, b, item);
      TwoStay(w, step, a, b, item);
    } else if LabelsAgain(w, step, item) {
      LabelMakesTwo(w, step, item);
    }
    if TwoExceptions(v, item) {
      var a, b :| a != b && IsRow(v, a, item) && IsRow(v, b, item);
      TwoWereOrLabelled(w, step, a, b, item);
    }
  }

  lemma TwoStay(w: World, step: Step, a: ExcId, b: ExcId, item: ItemId)
    requires Inv(w) && IsRow(w, a, item) && IsRow(w, b, item)
    ensures IsRow(Next(w, step), a, item) && IsRow(Next(w, step), b, item)
  {
    RowStays(w, step, a, item);
    RowStays(w, step, b, item);
  }

  lemma LabelMakesTwo(w: World, step: Step, item: ItemId)
    requires Inv(w) && LabelsAgain(w, step, item)
    ensures TwoExceptions(Next(w, step), item)
  {
    TwoRows(w, item);
    TwoRows(Next(w, step), item);
    hide Next, HasException, TwoExceptions;
    var a :| IsRow(w, a, item);
    RowStays(w, step, a, item);
    NewLabel(w, step);
    assert IsRow(Next(w, step), step.exc, item);
  }

  lemma TwoWereOrLabelled(w: World, step: Step, a: ExcId, b: ExcId, item: ItemId)
    requires Inv(w) && a != b && IsRow(Next(w, step), a, item) && IsRow(Next(w, step), b, item)
    ensures (IsRow(w, a, item) && IsRow(w, b, item)) || LabelsAgain(w, step, item)
  {
    hide Next, LabelsAgain;
    if a !in w.exceptions {
      NewRowIsLabel(w, step, a, b, item);
    } else if b !in w.exceptions {
      NewRowIsLabel(w, step, b, a, item);
    } else {
      RowStays(w, step, a, item);
      RowStays(w, step, b, item);
    }
  }

  ghost predicate EverLabelledAgain(w: World, steps: seq<Step>, item: ItemId) {
    exists k :: 0 <= k < |steps| && LabelsAgain(Run(w, steps[..k]), steps[k], item)
  }

  /** Exactly when the lookup meets two rows in a reachable state: when the check was labelled as
      fraud while it had an exception, live or a retracted label. */
  lemma {:induction false} OcrLookupMeetsTwoIff(w: World, steps: seq<Step>, item: ItemId)
    requires Fresh(w)
    ensures TwoExceptions(Run(w, steps), item) <==> EverLabelledAgain(w, steps, item)
    decreases |steps|
  {
    if steps == [] {
      TwoRows(w, item);
    } else {
      var n := |steps| - 1;
      FreshIsSound(w);
      RunKeepsInv(w, steps[..n]);
      hide Next, TwoExceptions, LabelsAgain, EverLabelledAgain, Fresh, Inv;
      OcrLookupMeetsTwoIff(w, steps[..n], item);
      TwoRowsAriseIff(Run(w, steps[..n]), steps[n], item);
      LabelledYet(w, steps, item);
    }
  }

  lemma LabelledYet(w: World, steps: seq<Step>, item: ItemId)
    requires steps != []
    ensures var n := |steps| - 1;
            EverLabelledAgain(w, steps, item) <==>
            EverLabelledAgain(w, steps[..n], item) || LabelsAgain(Run(w, steps[..n]), steps[n], item)
  {
    hide Run, LabelsAgain;
    var n := |steps| - 1;
    forall k | 0 <= k < n ensures steps[..n][..k] == steps[..k] && steps[..n][k] == steps[k] {}
    if k: nat :| k < n && LabelsAgain(Run(w, steps[..n][..k]), steps[..n][k], item) {
      assert LabelsAgain(Run(w, steps[..k]), steps[k], item);
    }
    if k: nat :| k < |steps| && LabelsAgain(Run(w, steps[..k]), steps[k], item) {
      if k < n { assert LabelsAgain(Run(w, steps[..n][..k]), steps[..n][k], item); }
    }
  }

  // ---- Withdrawn exceptions and the sweep ----

  /** The sweep comes to a row it selected while open, which has been withdrawn since. */
  predicate StaleSweep(w: World, step: Step, e: ExcId) {
    step.AutoDecide? && step.exc == e && e in w.swept && e in w.exceptions
        && AutoChoice(w, w.exceptions[e], step.disposition).Some?
  }

  /** A withdrawn exception is reopened by no step but a sweep that selected it before. */
  lemma WithdrawnLeavesIff(w: World, step: Step, e: ExcId)
    requires Inv(w) && e in w.exceptions && w.exceptions[e].status == WITHDRAWN
    ensures e in Next(w, step).exceptions
    ensures Next(w, step).exceptions[e].status != WITHDRAWN <==> StaleSweep(w, step, e)
    ensures StaleSweep(w, step, e) ==> e in Next(w, step).decisions
  {
    assert Sound(w, e);
    if step.AutoDecide? && step.exc == e {
      hide AutoChoice;
    } else {
      StepEvolves(w, step, e);
      if Concluded(w, Next(w, step), e) { OnlyItsOwnDecides(w, step, e); }
      hide Next, HasException, HasItem, OneLive, ReturnsAgree, AutoChoice;
    }
  }

  lemma OnlyItsOwnDecides(w: World, step: Step, e: ExcId)
    requires e in w.exceptions && w.exceptions[e].status == WITHDRAWN && e !in w.decisions
             && e in Next(w, step).decisions
    ensures step.AutoDecide? && step.exc == e
  {
    hide ResolveReason, AutoChoice, HasActiveLabel, IsLiveDecided, TwoExceptions, HasException;
  }

  predicate IsWithdrawn(w: World, e: ExcId) {
    e in w.exceptions && w.exceptions[e].status == WITHDRAWN
  }

  ghost predicate NoStaleSweep(w: World, steps: seq<Step>, e: ExcId) {
    forall k :: 0 <= k < |steps| && IsWithdrawn(Run(w, steps[..k]), e) ==> !StaleSweep(Run(w, steps[..k]), steps[k], e)
  }

  lemma NoStaleSweepYet(w: World, steps: seq<Step>, e: ExcId)
    requires steps != []
    ensures var n := |steps| - 1;
            NoStaleSweep(w, steps, e) <==>
            NoStaleSweep(w, steps[..n], e)
            && (IsWithdrawn(Run(w, steps[..n]), e) ==> !StaleSweep(Run(w, steps[..n]), steps[n], e))
  {
    hide Run, StaleSweep, IsWithdrawn;
    var n := |steps| - 1;
    assert forall k :: 0 <= k < n ==> steps[..n][..k] == steps[..k] && steps[..n][k] == steps[k];
  }

  lemma DecidedIsNotWithdrawn(w: World, e: ExcId)
    requires Inv(w) && e in w.decisions
    ensures !IsWithdrawn(w, e)
  {
    assert Sound(w, e);
  }

  /** Over a run, a withdrawn exception stays withdrawn if and only if no such sweep happens. */
  lemma {:induction false} WithdrawnStaysIff(w: World, steps: seq<Step>, e: ExcId)
    requires Inv(w) && IsWithdrawn(w, e)
    ensures IsWithdrawn(Run(w, steps), e) <==> NoStaleSweep(w, steps, e)
    ensures IsWithdrawn(Run(w, steps), e) || e in Run(w, steps).decisions
    decreases |steps|
  {
    if steps != [] {
      var n := |steps| - 1;
      hide Next, NoStaleSweep, StaleSweep, Inv;
      WithdrawnStaysIff(w, steps[..n], e);
      NoStaleSweepYet(w, steps, e);
      RunKeepsInv(w, steps[..n]);
      if IsWithdrawn(Run(w, steps[..n]), e) {
        WithdrawnLeavesIff(Run(w, steps[..n]), steps[n], e);
      } else {
        StepKeepsDecided(Run(w, steps[..n]), steps[n], e);
        DecidedIsNotWithdrawn(Next(Run(w, steps[..n]), steps[n]), e) by { StepKeepsInv(Run(w, steps[..n]), steps[n]); }
      }
    }
  }

  /** Such a sweep exists: select, back out, decide. The paid item ends reversed and its
      exception paid. */
  lemma StaleSweepDecidesWithdrawn(w: World, item: ItemId, e: ExcId, text: string)
    requires Inv(w) && IsOf(w, e, item, LIVE) && w.exceptions[e].status == OPEN && w.exceptions[e].customer.Some?
    requires item in w.checks && w.checks[item] == UNSETTLED
    ensures var selected := Next(w, SelectExpired({e}));
            var backedOut := Next(selected, BackOutCheck(item));
            var v := Next(backedOut, AutoDecide(e, Disposition(FIXED_PAY, None, text, None)));
            && IsWithdrawn(backedOut, e)
            && item in v.checks && v.checks[item] == REVERSED && e in v.exceptions && v.exceptions[e].status == PAID_OUT
  {
    LookupMeetsOne(w, item);
    assert Sound(w, e);
    hide HasException, TwoExceptions;
    var selected := Next(w, SelectExpired({e}));
    assert TwoExceptions(selected, item) == TwoExceptions(w, item) by { SameLookup(w, selected, item); }
    var backedOut := Next(selected, BackOutCheck(item));
    assert backedOut.exceptions[e] == w.exceptions[e].(status := WITHDRAWN);
  }

  lemma SameLookup(w: World, v: World, item: ItemId)
    requires v.exceptions == w.exceptions
    ensures TwoExceptions(v, item) == TwoExceptions(w, item)
  {
  }

  // ---- Where return reasons come from ----

  /** The reason is, letter by letter, a catalog entry that was active at that moment. */
  predicate IsActiveReason(catalog: map<ReasonId, Reason>, r: Resolved) {
    exists p :: p in catalog && FromCatalog(catalog, p) == Some(r)
  }

  lemma ChosenReason(catalog: map<ReasonId, Reason>, c: Choice)
    requires c.outcome == RETURN && ResolveReason(catalog, ACH, c).Success?
    ensures IsActiveReason(catalog, ResolveReason(catalog, ACH, c).value)
  {
  }

  lemma SweptReason(w: World, e: Exc, d: Disposition)
    requires e.network == ACH && AutoChoice(w, e, d).Some? && AutoChoice(w, e, d).value.0 == RETURN
    ensures IsActiveReason(w.catalog, AutoChoice(w, e, d).value.1)
  {
    hide AutoOutcome;
  }

  predicate NewAchReturn(w: World, v: World, e: ExcId) {
    && e !in w.decisions && e in v.decisions && e in v.exceptions
    && v.exceptions[e].network == ACH && v.decisions[e].outcome == RETURN
  }

  lemma DecideReturnsFromCatalog(w: World, step: Step, e: ExcId)
    requires step.Decide? && NewAchReturn(w, Next(w, step), e)
    ensures IsActiveReason(w.catalog, Next(w, step).decisions[e].resolved)
  {
    hide ResolveReason, IsActiveReason, AfterRecommend, AfterAutoDecide, AfterLabel, AfterIngest, AfterBackOut;
    ChosenReason(w.catalog, step.choice);
  }

  lemma SweepReturnsFromCatalog(w: World, step: Step, e: ExcId)
    requires step.AutoDecide? && NewAchReturn(w, Next(w, step), e)
    ensures IsActiveReason(w.catalog, Next(w, step).decisions[e].resolved)
  {
    hide AutoChoice, IsActiveReason, AfterRecommend, AfterDecide, AfterLabel, AfterIngest, AfterBackOut;
    SweptReason(w, w.exceptions[e], step.disposition);
  }

  lemma LabelReturnsFromCatalog(w: World, step: Step, e: ExcId)
    requires step.LabelFraud? && NewAchReturn(w, Next(w, step), e)
    ensures IsActiveReason(w.catalog, Next(w, step).decisions[e].resolved)
  {
    hide ResolveReason, IsActiveReason, HasActiveLabel, IsLiveDecided, Settle;
    hide AfterRecommend, AfterAutoDecide, AfterDecide, AfterIngest, AfterBackOut;
    ChosenReason(w.catalog, step.choice);
  }

  lemma NewReturnIsFromCatalog(w: World, step: Step, e: ExcId)
    requires NewAchReturn(w, Next(w, step), e)
    ensures IsActiveReason(w.catalog, Next(w, step).decisions[e].resolved)
  {
    if step.Decide? {
      DecideReturnsFromCatalog(w, step, e);
    } else if step.AutoDecide? {
      SweepReturnsFromCatalog(w, step, e);
    } else if step.LabelFraud? {
      LabelReturnsFromCatalog(w, step, e);
    } else {
      hide AfterDecide, AfterAutoDecide, AfterLabel, HasException, TwoExceptions, ResolveReason, Settle, RecommendError;
    }
  }

  ghost predicate WasActiveReason(w: World, steps: seq<Step>, r: Resolved) {
    exists k :: 0 <= k < |steps| && IsActiveReason(Run(w, steps[..k]).catalog, r)
  }

  /** In every reachable state each ACH return, by a person, the sweep or a fraud label, has
      the text and code of a catalog entry that was active when it was decided. */
  lemma {:induction false} ReturnReasonsAreFromCatalog(w: World, steps: seq<Step>, e: ExcId, item: ItemId)
    requires Fresh(w) && IsReturn(Run(w, steps), e, item)
    ensures WasActiveReason(w, steps, Run(w, steps).decisions[e].resolved)
    decreases |steps|
  {
    FreshIsSound(w);
    if steps != [] {
      hide IsActiveReason, Fresh, Inv, Next;
      var n := |steps| - 1;
      var before := Run(w, steps[..n]);
      RunKeepsInv(w, steps[..n]);
      if e in before.decisions {
        StepKeepsDecided(before, steps[n], e);
        ReturnReasonsAreFromCatalog(w, steps[..n], e, item);
        StillWasActive(w, steps, before.decisions[e].resolved);
      } else {
        NewReturnIsFromCatalog(before, steps[n], e);
      }
    }
  }

  lemma StillWasActive(w: World, steps: seq<Step>, r: Resolved)
    requires steps != [] && WasActiveReason(w, steps[..|steps| - 1], r)
    ensures WasActiveReason(w, steps, r)
  {
    hide IsActiveReason, Run;
    var n := |steps| - 1;
    var k :| 0 <= k < n && IsActiveReason(Run(w, steps[..n][..k]).catalog, r);
    assert steps[..n][..k] == steps[..k];
  }

  // ---- What is recorded ----

  /** An accepted recommendation records its outcome with the reason given or, for an ACH return,
      the picked entry of the catalog. */
  lemma RecommendationIsRecorded(w: World, id: ExcId, ctx: Ctx, c: Choice)
    requires RecommendError(w, id, ctx, c) == None
    ensures var v := Next(w, Recommend(id, ctx, c));
            && id in w.exceptions && id in v.exceptions && v.exceptions[id].recommended.Some?
            && v.exceptions[id].recommendedBy == Some(ctx.user)
            && var said := v.exceptions[id].recommended.value;
            && said.0 == c.outcome
            && (w.exceptions[id].network == ACH && c.outcome == RETURN ==> (
                  && c.pick.Some? && c.pick.value in w.catalog && w.catalog[c.pick.value].isActive
                  && said.1 == Resolved(w.catalog[c.pick.value].text, Some(w.catalog[c.pick.value].code))))
            && (w.exceptions[id].network == CHECK || c.outcome == PAY ==> said.1 == Resolved(c.reason, None))
  {
  }

  /** What a disposition decides, in its own terms. */
  predicate SaysSo(d: Disposition, outcome: Outcome, source: DecisionSource) {
    || (source == AUTO_DEFAULT && d.mode == FIXED_PAY && outcome == PAY)
    || (source == AUTO_DEFAULT && d.mode == FIXED_RETURN && outcome == RETURN)
    || (source == AUTO_ML && d.mode == ML_DETERMINED && d.score.Some? && outcome == PAY && d.score.value >= 0.5)
    || (source == AUTO_ML && d.mode == ML_DETERMINED && d.score.Some? && outcome == RETURN && d.score.value < 0.5)
  }

  lemma PeopleDecideElsewhere(w: World, step: Step, e: ExcId)
    requires !step.AutoDecide? && e !in w.decisions && e in Next(w, step).decisions
    ensures Next(w, step).decisions[e].source == HUMAN
  {
    hide ResolveReason, HasActiveLabel, IsLiveDecided, TwoExceptions, HasException, Settled;
    hide AfterAutoDecide, DecideError, RecommendError, InScope;
  }

  lemma SweptAsSet(w: World, id: ExcId, d: Disposition, e: ExcId)
    requires e !in w.decisions && e in AfterAutoDecide(w, id, d).decisions
    ensures id == e
    ensures SaysSo(d, AfterAutoDecide(w, id, d).decisions[e].outcome, AfterAutoDecide(w, id, d).decisions[e].source)
  {
    hide FromCatalog, NeedsCatalog;
  }

  /** A decision that no person made is the sweep's, and is what the disposition says. */
  lemma SweepDecidesAsSet(w: World, step: Step, e: ExcId)
    requires e !in w.decisions && e in Next(w, step).decisions && Next(w, step).decisions[e].source != HUMAN
    ensures step.AutoDecide? && step.exc == e
    ensures SaysSo(step.disposition, Next(w, step).decisions[e].outcome, Next(w, step).decisions[e].source)
  {
    hide AfterAutoDecide, SaysSo;
    if step.AutoDecide? {
      SweptAsSet(w, step.exc, step.disposition, e);
    } else {
      hide Next;
      PeopleDecideElsewhere(w, step, e);
    }
  }

  ghost predicate DecidedAsSet(w: World, steps: seq<Step>, e: ExcId, made: Decision) {
    exists k :: 0 <= k < |steps| && steps[k].AutoDecide? && steps[k].exc == e
                && SaysSo(steps[k].disposition, made.outcome, made.source)
  }

  /** Over every run: whatever no person decided was decided as its customer's disposition said. */
  lemma {:induction false} AutomaticDecisionsAreAsSet(w: World, steps: seq<Step>, e: ExcId)
    requires Fresh(w) && e in Run(w, steps).decisions && Run(w, steps).decisions[e].source != HUMAN
    ensures DecidedAsSet(w, steps, e, Run(w, steps).decisions[e])
    decreases |steps|
  {
    FreshIsSound(w);
    if steps != [] {
      hide Next, Fresh, Inv, SaysSo;
      var n := |steps| - 1;
      var before := Run(w, steps[..n]);
      RunKeepsInv(w, steps[..n]);
      if e in before.decisions {
        StepKeepsDecided(before, steps[n], e);
        AutomaticDecisionsAreAsSet(w, steps[..n], e);
        var k :| 0 <= k < n && steps[..n][k].AutoDecide? && steps[..n][k].exc == e
                 && SaysSo(steps[..n][k].disposition, before.decisions[e].outcome, before.decisions[e].source);
        assert steps[k] == steps[..n][k];
      } else {
        SweepDecidesAsSet(before, steps[n], e);
      }
    }
  }

  /** Exactly when the sweep decides a row it selected: its exception has a customer, the
      disposition says something, and an ACH return has an active fallback reason. */
  lemma SweepDecidesIff(w: World, e: ExcId, d: Disposition)
    requires Inv(w) && e in w.swept && e in w.exceptions && e !in w.decisions
    ensures e in Next(w, AutoDecide(e, d)).decisions <==> (
              && w.exceptions[e].customer.Some? && d.mode != NO_DISPOSITION
              && (d.mode == ML_DETERMINED ==> d.score.Some?)
              && (w.exceptions[e].network == ACH
                  && (d.mode == FIXED_RETURN || (d.mode == ML_DETERMINED && d.score.value < 0.5)) ==>
                    d.fallback.Some? && d.fallback.value in w.catalog && w.catalog[d.fallback.value].isActive))
  {
  }

  // ---- The sweep decides as a person would ----

  /** For the same outcome and reason the sweep leaves the same exception, settlement and
      reason as `decide` without dual control; only the people and the source differ. */
  lemma SweepDecidesLikeAPerson(w: World, e: ExcId, d: Disposition, ctx: Ctx)
    requires Inv(w) && e in w.swept && e in w.exceptions && IsUndecided(w.exceptions[e].status)
             && InScope(w.exceptions[e], ctx)
    requires AutoChoice(w, w.exceptions[e], d).Some?
    ensures var choice := Choice(AutoChoice(w, w.exceptions[e], d).value.0, d.text, d.fallback);
            var swept := Next(w, AutoDecide(e, d));
            var decided := Next(w.(dual := false), Decide(e, ctx, choice));
            && swept.exceptions == decided.exceptions && swept.ach == decided.ach && swept.checks == decided.checks
            && e in swept.decisions && e in decided.decisions
            && swept.decisions[e].outcome == decided.decisions[e].outcome
            && swept.decisions[e].resolved == decided.decisions[e].resolved
            && swept.decisions[e].submittedBy.None? && decided.decisions[e].submittedBy.None?
            && swept.decisions[e].decidedBy.None? && decided.decisions[e].decidedBy == Some(ctx.user)
  {
    assert Sound(w, e);
  }
}
