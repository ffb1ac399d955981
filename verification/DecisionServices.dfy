/** The services that recommend, decide, sweep and label, as they change their tables row by row. */
module DecisionServices {
  import opened Wrappers
  import opened Decisions

  class Cases {
    var dual: bool
    var catalog: map<ReasonId, Reason>
    var ach: map<ItemId, Settlement>
    var checks: map<ItemId, Settlement>
    var exceptions: map<ExcId, Exc>
    var decisions: map<ExcId, Decision>
    var swept: set<ExcId>
    ghost var lastMaker: map<ExcId, UserId>

    ghost function At(): World
      reads this
    {
      World(dual, catalog, ach, checks, exceptions, decisions, swept, lastMaker)
    }

    method SubmitRecommendation(id: ExcId, ctx: Ctx, c: Choice) returns (error: Option<DecisionError>)
      modifies this
      ensures At() == Next(old(At()), Recommend(id, ctx, c))
      ensures error == old(RecommendError(At(), id, ctx, c))
    {
      if id !in exceptions || !(ctx.customer.None? || exceptions[id].customer == ctx.customer) {
        return Some(NotFound);
      }
      var exception := exceptions[id];
      if exception.status == WITHDRAWN { return Some(Withdrawn); }
      if exception.status != OPEN && exception.status != PENDING_APPROVAL { return Some(AlreadyDecided); }
      var resolved := ResolveReason(catalog, exception.network, c);
      if resolved.Failure? { return Some(resolved.error); }
      exception := exception.(recommended := Some((c.outcome, resolved.value)));
      exception := exception.(recommendedBy := Some(ctx.user));
      exceptions := exceptions[id := exception.(status := PENDING_APPROVAL)];
      lastMaker := lastMaker[id := ctx.user];
      return None;
    }

    /** `stored` is false when the unique constraint undid everything. */
    method Decide(id: ExcId, ctx: Ctx, c: Choice) returns (error: Option<DecisionError>, stored: bool)
      modifies this
      ensures At() == Next(old(At()), Step.Decide(id, ctx, c))
      ensures error == old(DecideError(At(), id, ctx, c))
      ensures stored <==> error.None? && id !in old(decisions)
    {
      stored := false;
      if id !in exceptions || !(ctx.customer.None? || exceptions[id].customer == ctx.customer) {
        return Some(NotFound), false;
      }
      var exception := exceptions[id];
      if exception.status == WITHDRAWN { return Some(Withdrawn), false; }
      if exception.status == PAID_OUT || exception.status == RETURNED_OUT { return Some(AlreadyDecided), false; }
      var submittedBy: Option<UserId> := None;
      if dual {
        if exception.status != PENDING_APPROVAL { return Some(RecommendationRequired), false; }
        if exception.recommendedBy == Some(ctx.user) { return Some(MakerCannotApproveOwnRecommendation), false; }
        submittedBy := exception.recommendedBy;
      }
      var resolved := ResolveReason(catalog, exception.network, c);
      if resolved.Failure? { return Some(resolved.error), false; }
      if id in decisions { return None, false; }
      decisions := decisions[id := Decision(c.outcome, resolved.value, submittedBy, Some(ctx.user), HUMAN, dual)];
      exceptions := exceptions[id := exception.(status := if c.outcome == PAY then PAID_OUT else RETURNED_OUT)];
      if c.outcome == RETURN && exception.network == ACH && exception.item in ach {
        ach := ach[exception.item := SETTLED_RETURNED];
      }
      return None, true;
    }

    /** One row of the sweep. */
    method AutoDecideException(id: ExcId, d: Disposition) returns (decision: Option<Decision>)
      requires id in swept && id in exceptions
      modifies this
      ensures At() == Next(old(At()), AutoDecide(id, d))
      ensures decision.Some? <==> id !in old(decisions) && old(AutoChoice(At(), exceptions[id], d)).Some?
      ensures decision.Some? ==> decision.value.submittedBy.None? && decision.value.decidedBy.None?
    {
      swept := swept - {id};
      var exception := exceptions[id];
      if exception.customer.None? { return None; }
      var outcome, source, reason, code := PAY, AUTO_DEFAULT, d.text, None;
      match d.mode
      {
        case NO_DISPOSITION => return None;
        case FIXED_PAY =>
        case FIXED_RETURN => outcome := RETURN;
        case ML_DETERMINED =>
          if d.score.None? { return None; }
          outcome := if d.score.value >= 0.5 then PAY else RETURN;
          source := AUTO_ML;
      }
      if outcome == RETURN && exception.network == ACH {
        if d.fallback.None? { return None; }
        if d.fallback.value !in catalog || !catalog[d.fallback.value].isActive { return None; }
        reason := catalog[d.fallback.value].text;
        code := Some(catalog[d.fallback.value].code);
      }
      if id in decisions { return None; }
      var made := Decision(outcome, Resolved(reason, code), None, None, source, false);
      decisions := decisions[id := made];
      exceptions := exceptions[id := exception.(status := if outcome == PAY then PAID_OUT else RETURNED_OUT)];
      if outcome == RETURN && exception.network == ACH && exception.item in ach {
        ach := ach[exception.item := SETTLED_RETURNED];
      }
      return Some(made);
    }

    /** A fraud example for an ACH item, known or new. */
    method SubmitAchFraudExample(item: ItemId, id: ExcId, ctx: Ctx, customer: Option<CustomerId>, reasonId: ReasonId)
        returns (ok: bool)
      requires item !in checks && id !in exceptions && id !in decisions
      modifies this
      ensures At() == Next(old(At()), LabelFraud(ACH, item, id, ctx, customer, Choice(RETURN, "", Some(reasonId))))
      ensures ok <==> old(FromCatalog(catalog, reasonId).Some? && !HasActiveLabel(exceptions, item))
    {
      if reasonId !in catalog || !catalog[reasonId].isActive { return false; }
      if HasActiveLabel(exceptions, item) { return false; }
      var isCorrection := IsLiveDecided(exceptions, item);
      ach := ach[item := SETTLED_RETURNED];
      var example := Exc(ACH, item, customer, RETURNED_OUT, TRAINING_BACKFILL, None, None, isCorrection, false);
      exceptions := exceptions[id := example];
      var reason := catalog[reasonId];
      var resolved := Resolved(reason.text, Some(reason.code));
      decisions := decisions[id := Decision(RETURN, resolved, None, Some(ctx.user), HUMAN, false)];
      return true;
    }
  }
}
