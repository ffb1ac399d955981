/** What each service demands and what it leaves behind, said on the columns of the rows. */
module DecisionRules {
  import opened Wrappers
  import opened Decisions

  // ---- Deciding ----

  /** The exception exists and belongs to who asks. */
  predicate IsReached(w: World, id: ExcId, ctx: Ctx) {
    id in w.exceptions && (ctx.customer == None || w.exceptions[id].customer == ctx.customer)
  }

  /** Returning an ACH item takes an active entry of the catalog; nothing else takes one. */
  predicate HasReason(w: World, id: ExcId, c: Choice)
    requires id in w.exceptions
  {
    w.exceptions[id].network == ACH && c.outcome == RETURN ==>
      c.pick.Some? && c.pick.value in w.catalog && w.catalog[c.pick.value].isActive
  }

  /** A decision is made exactly if the exception is reached and open or pending, an ACH return
      has its reason, and under dual control somebody else has recommended before. */
  lemma DecidesIff(w: World, id: ExcId, ctx: Ctx, c: Choice)
    requires Inv(w) && id !in w.decisions
    ensures id in Next(w, Decide(id, ctx, c)).decisions <==> (
              && IsReached(w, id, ctx) && HasReason(w, id, c)
              && (w.exceptions[id].status == OPEN || w.exceptions[id].status == PENDING_APPROVAL)
              && (w.dual ==>
                    && w.exceptions[id].status == PENDING_APPROVAL
                    && w.exceptions[id].recommendedBy != Some(ctx.user)))
  {
    assert Sound(w, id);
  }

  /** What it then says, and what it moves: the exception's status, and the settlement of an ACH
      item that is returned. */
  lemma DecisionIsRecorded(w: World, id: ExcId, ctx: Ctx, c: Choice)
    requires id in w.exceptions && id !in w.decisions && id in Next(w, Decide(id, ctx, c)).decisions
    ensures var v := Next(w, Decide(id, ctx, c));
            var d, e := v.decisions[id], w.exceptions[id];
            && d.outcome == c.outcome && d.source == HUMAN && d.decidedBy == Some(ctx.user)
            && d.submittedBy == (if w.dual then e.recommendedBy else None) && d.dual == w.dual
            && (if e.network == ACH && c.outcome == RETURN
                then && c.pick.Some? && c.pick.value in w.catalog
                     && d.resolved.reason == w.catalog[c.pick.value].text
                     && d.resolved.code == Some(w.catalog[c.pick.value].code)
                else d.resolved.reason == c.reason && d.resolved.code == None)
            && v.exceptions == w.exceptions[id := e.(status := if c.outcome == PAY then PAID_OUT else RETURNED_OUT)]
            && v.ach == (if e.network == ACH && c.outcome == RETURN && e.item in w.ach
                         then w.ach[e.item := SETTLED_RETURNED] else w.ach)
            && v.checks == w.checks
  {
  }

  /** Which refusal a checker is given. */
  lemma DecideRefusals(w: World, id: ExcId, ctx: Ctx, c: Choice)
    ensures DecideError(w, id, ctx, c) == Some(NotFound) <==> !IsReached(w, id, ctx)
    ensures IsReached(w, id, ctx) ==>
              var e, told := w.exceptions[id], DecideError(w, id, ctx, c);
              && (e.status == WITHDRAWN <==> told == Some(Withdrawn))
              && (e.status == PAID_OUT || e.status == RETURNED_OUT <==> told == Some(AlreadyDecided))
              && (e.status in {OPEN, ESCALATED} && w.dual <==> told == Some(RecommendationRequired))
              && (e.status == PENDING_APPROVAL && w.dual && e.recommendedBy == Some(ctx.user) <==>
                  told == Some(MakerCannotApproveOwnRecommendation))
              && (told == Some(ReturnReasonRequired) ==> !HasReason(w, id, c) && c.pick == None)
              && (told == Some(InvalidReturnReason) ==> !HasReason(w, id, c) && c.pick != None)
              && (told == None ==> HasReason(w, id, c))
              && told != Some(NotFound)
  {
  }

  /** And a maker: a recommendation is taken exactly for an exception that is reached, open or
      pending, with a reason where one is needed, and leaves it pending. */
  lemma RecommendRefusals(w: World, id: ExcId, ctx: Ctx, c: Choice)
    ensures RecommendError(w, id, ctx, c) == Some(NotFound) <==> !IsReached(w, id, ctx)
    ensures IsReached(w, id, ctx) ==>
              var e, told := w.exceptions[id], RecommendError(w, id, ctx, c);
              && (e.status == WITHDRAWN <==> told == Some(Withdrawn))
              && (e.status in {PAID_OUT, RETURNED_OUT, ESCALATED} <==> told == Some(AlreadyDecided))
              && (told == Some(ReturnReasonRequired) ==> !HasReason(w, id, c) && c.pick == None)
              && (told == Some(InvalidReturnReason) ==> !HasReason(w, id, c) && c.pick != None)
              && (told == None ==> HasReason(w, id, c))
              && told in {None, Some(Withdrawn), Some(AlreadyDecided), Some(ReturnReasonRequired),
                          Some(InvalidReturnReason)}
    ensures RecommendError(w, id, ctx, c) == None ==>
              var v := Next(w, Recommend(id, ctx, c));
              && v.exceptions.Keys == w.exceptions.Keys && v.exceptions[id].status == PENDING_APPROVAL
              && v.exceptions[id].recommendedBy == Some(ctx.user)
              && forall e :: e in w.exceptions && e != id ==> v.exceptions[e] == w.exceptions[e]
  {
  }

  // ---- Ingesting, labelling, retracting, backing out ----

  /** A new item is settled as paid if it matched; else it stays unsettled and has one open
      exception. An item that is there already is left alone. */
  lemma Ingests(w: World, network: Network, item: ItemId, matched: bool, id: ExcId, customer: Option<CustomerId>)
    ensures var v := Next(w, Ingest(network, item, matched, id, customer));
            if item in w.ach || item in w.checks || id in w.exceptions then v == w
            else
              var first := Exc(network, item, customer, OPEN, LIVE, None, None, false, false);
              var s := if matched then SETTLED_PAID else UNSETTLED;
              && v.ach == (if network == ACH then w.ach[item := s] else w.ach)
              && v.checks == (if network == CHECK then w.checks[item := s] else w.checks)
              && v.exceptions == (if matched then w.exceptions else w.exceptions[id := first])
              && v.decisions == w.decisions
  {
  }

  /** A check is escalated to one open exception unless it has one of whatever kind. */
  lemma Escalates(w: World, item: ItemId, id: ExcId, customer: Option<CustomerId>)
    ensures var v := Next(w, EscalateAfterOcr(item, id, customer));
            && (v.exceptions != w.exceptions <==> (
                  && item in w.checks && id !in w.exceptions
                  && forall e :: e in w.exceptions ==> w.exceptions[e].network == ACH || w.exceptions[e].item != item))
            && (v.exceptions != w.exceptions ==>
                  v.exceptions == w.exceptions[id := Exc(CHECK, item, customer, OPEN, LIVE, None, None, false, false)])
            && v.(exceptions := w.exceptions) == w
  {
    var v := Next(w, EscalateAfterOcr(item, id, customer));
    if id !in w.exceptions && id in v.exceptions { assert v.exceptions != w.exceptions; }
  }

  /** A fraud example is a decided return with an exception of its own, taken unless the item has
      one that was not retracted; it corrects a live decision if there is one. */
  lemma Labels(w: World, network: Network, item: ItemId, id: ExcId, ctx: Ctx, customer: Option<CustomerId>, c: Choice)
    requires id !in w.exceptions && id !in w.decisions
    requires if network == ACH then item !in w.checks else item !in w.ach
    ensures var v := Next(w, LabelFraud(network, item, id, ctx, customer, c));
            && (id in v.exceptions <==> (
                  && c.outcome == RETURN
                  && (network == ACH ==> c.pick.Some? && c.pick.value in w.catalog && w.catalog[c.pick.value].isActive)
                  && forall e :: e in w.exceptions && w.exceptions[e].item == item ==>
                       w.exceptions[e].origin == LIVE || w.exceptions[e].retracted))
            && (id in v.exceptions ==>
                  && v.exceptions.Keys == w.exceptions.Keys + {id}
                  && v.exceptions[id].status == RETURNED_OUT && v.exceptions[id].origin == TRAINING_BACKFILL
                  && v.exceptions[id].network == network && v.exceptions[id].item == item
                  && v.exceptions[id].customer == customer && !v.exceptions[id].retracted
                  && (v.exceptions[id].isCorrection <==>
                      exists e :: e in w.exceptions && w.exceptions[e].item == item && w.exceptions[e].origin == LIVE
                                  && w.exceptions[e].status in {PAID_OUT, RETURNED_OUT})
                  && id in v.decisions && v.decisions[id].outcome == RETURN && v.decisions[id].source == HUMAN
                  && v.decisions[id].decidedBy == Some(ctx.user)
                  && v.ach == (if network == ACH then w.ach[item := SETTLED_RETURNED] else w.ach)
                  && v.checks == (if network == CHECK then w.checks[item := SETTLED_RETURNED] else w.checks))
  {
  }

  /** Only a fraud example that was not retracted can be, by somebody it belongs to, and nothing
      but that mark changes. */
  lemma Retracts(w: World, id: ExcId, ctx: Ctx)
    ensures var v := Next(w, Retract(id, ctx));
            && (v != w <==> (
                  && IsReached(w, id, ctx) && w.exceptions[id].origin == TRAINING_BACKFILL
                  && !w.exceptions[id].retracted))
            && (v != w ==> v == w.(exceptions := w.exceptions[id := w.exceptions[id].(retracted := true)]))
  {
    var v := Next(w, Retract(id, ctx));
    if IsReached(w, id, ctx) && w.exceptions[id].origin == TRAINING_BACKFILL && !w.exceptions[id].retracted {
      assert v.exceptions[id].retracted;
    }
  }

  /** A check that is neither reversed nor returned is reversed, and its open and pending
      exceptions are withdrawn. */
  lemma BacksOut(w: World, item: ItemId)
    requires Inv(w)
    ensures var v := Next(w, BackOutCheck(item));
            if item !in w.checks || w.checks[item] in {REVERSED, SETTLED_RETURNED} then v == w
            else
              && v.checks == w.checks[item := REVERSED] && v.ach == w.ach && v.decisions == w.decisions
              && v.exceptions.Keys == w.exceptions.Keys
              && forall e :: e in w.exceptions ==>
                   v.exceptions[e] ==
                   if w.exceptions[e].network == CHECK && w.exceptions[e].item == item
                      && w.exceptions[e].status in {OPEN, PENDING_APPROVAL}
                   then w.exceptions[e].(status := WITHDRAWN) else w.exceptions[e]
  {
    if item in w.checks && w.checks[item] != REVERSED && w.checks[item] != SETTLED_RETURNED {
      LookupMeetsOne(w, item);
    }
  }

  /** The sweep takes up exactly the open and pending ones among those whose time is over. */
  lemma Selects(w: World, expired: set<ExcId>, e: ExcId)
    ensures e in Next(w, SelectExpired(expired)).swept <==>
            e in expired && e in w.exceptions && w.exceptions[e].status in {OPEN, PENDING_APPROVAL}
    ensures Next(w, SelectExpired(expired)).(swept := w.swept) == w
  {
  }
}
