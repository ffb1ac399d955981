/** Banks that left the shared model: whether their decisions are noticed inside it. */
module ModelLeaks {
  import opened Wrappers
  import opened ModelRegistry
  import opened ModelProvenance

  /** The check that forces a retraining: has a bank left since the active model's time? */
  predicate BankLeftSince(w: World, since: int) {
    exists b :: b in w.banks && w.banks[b].source == PRIVATE && w.banks[b].changedAt.Some?
        && w.banks[b].changedAt.value > since
  }

  function TrainedTime(r: Row): int {
    if r.activatedAt.Some? then r.activatedAt.value else r.createdAt
  }

  predicate BankLeftSinceSharedTrained(w: World, n: Network) {
    var i := ActiveRow(w.rows, n, Shared);
    i.Some? && BankLeftSince(w, TrainedTime(w.rows[i.value]))
  }

  predicate OfPrivateBank(w: World, d: DecisionId) {
    d in w.examples && w.examples[d].bank in w.banks && w.banks[w.examples[d].bank].source == PRIVATE
  }

  predicate HasPrivateData(w: World, i: nat)
    requires i < |w.rows|
  {
    exists d :: d in w.rows[i].learnedFrom && OfPrivateBank(w, d)
  }

  /** The active shared model holds decisions of a bank that is bank-only now, unnoticed. */
  predicate UndetectedLeak(w: World, n: Network) {
    var i := ActiveRow(w.rows, n, Shared);
    i.Some? && HasPrivateData(w, i.value) && !BankLeftSinceSharedTrained(w, n)
  }

  predicate IsSharedActive(r: Row) {
    r.status == ACTIVE && SlotOf(r) == Shared
  }

  predicate ActivatedNow(w: World, i: nat) {
    i < |w.rows| && IsSharedActive(w.rows[i]) && w.rows[i].activatedAt == Some(w.now)
  }

  /** Every bank-only contributor to an active shared model left after it was activated. */
  ghost predicate Clean(w: World) {
    forall i, d :: (0 <= i < |w.rows| && IsSharedActive(w.rows[i])
                    && d in w.rows[i].learnedFrom && OfPrivateBank(w, d)) ==>
      w.banks[w.examples[d].bank].changedAt.Some? && w.rows[i].activatedAt.Some?
      && w.banks[w.examples[d].bank].changedAt.value > w.rows[i].activatedAt.value
  }

  ghost predicate CleanActivations(w: World) {
    forall i :: ActivatedNow(w, i) ==> !HasPrivateData(w, i)
  }

  lemma CleanIsDetected(w: World, n: Network)
    requires Inv(w) && Clean(w)
    ensures !UndetectedLeak(w, n)
  {
    hide ActiveFrom;
    var i := ActiveRow(w.rows, n, Shared);
    if i.Some? && HasPrivateData(w, i.value) {
      var d :| d in w.rows[i.value].learnedFrom && OfPrivateBank(w, d);
      var b := w.examples[d].bank;
      assert w.banks[b].changedAt.value > TrainedTime(w.rows[i.value]);
    }
  }

  lemma UncleanActivationLeaks(w: World, i: nat)
    requires Inv(w) && ActivatedNow(w, i) && HasPrivateData(w, i)
    ensures UndetectedLeak(w, w.rows[i].network) && !Clean(w)
  {
    hide ActiveRow;
    ActiveRowIs(w.rows, w.rows[i].network, Shared, i);
  }

  lemma BanksStep(w: World, step: Step, d: DecisionId)
    requires Inv(w) && d in w.examples && OfPrivateBank(Next(w, step), d)
    ensures Next(w, step).examples[d].bank == w.examples[d].bank
    ensures var b := w.examples[d].bank;
            var now := Next(w, step).banks[b].changedAt;
            now == Some(Next(w, step).now) || (OfPrivateBank(w, d) && now == w.banks[b].changedAt)
  {
    hide RowsAfter, LoadsAfter;
  }

  lemma StepKeepsClean(w: World, step: Step)
    requires Inv(w) && Clean(w) && CleanActivations(Next(w, step))
    ensures Clean(Next(w, step))
  {
    var next := Next(w, step);
    RowsGrow(w, step, next.now);
    StepKeepsInv(w, step);
    forall i, d | 0 <= i < |next.rows| && IsSharedActive(next.rows[i]) && d in next.rows[i].learnedFrom
        && OfPrivateBank(next, d)
      ensures next.banks[next.examples[d].bank].changedAt.Some? && next.rows[i].activatedAt.Some?
      ensures next.banks[next.examples[d].bank].changedAt.value > next.rows[i].activatedAt.value
    {
      hide Next, ActiveRow, AtMostOneActive;
      assert !ActivatedNow(next, i);
      assert i < |w.rows| && next.rows[i] == w.rows[i];
      BanksStep(w, step, d);
    }
  }

  lemma {:induction false} CleanOverRun(w: World, steps: seq<Step>)
    requires Inv(w) && Clean(w) && forall k :: 0 <= k <= |steps| ==> CleanActivations(Run(w, steps[..k]))
    ensures Clean(Run(w, steps))
    decreases |steps|
  {
    if steps != [] {
      var n := |steps| - 1;
      hide Clean, CleanActivations, Inv, Next;
      forall k | 0 <= k <= n ensures CleanActivations(Run(w, steps[..n][..k])) { assert steps[..n][..k] == steps[..k]; }
      CleanOverRun(w, steps[..n]);
      SlotsOverRuns(w, steps[..n]);
      assert steps[..|steps|] == steps;
      StepKeepsClean(Run(w, steps[..n]), steps[n]);
    }
  }

  /** Exactly when the check is right over a whole run: a bank-only bank's decisions are never
      in the active shared model unnoticed if and only if no shared model is ever activated
      while one of its contributors is bank-only. */
  lemma LeaksAreDetectedIff(w: World, steps: seq<Step>)
    requires Inv(w) && Clean(w)
    ensures (forall k, n :: 0 <= k <= |steps| ==> !UndetectedLeak(Run(w, steps[..k]), n)) <==>
            (forall k :: 0 <= k <= |steps| ==> CleanActivations(Run(w, steps[..k])))
  {
    hide Run, UndetectedLeak, Clean;
    if forall k :: 0 <= k <= |steps| ==> CleanActivations(Run(w, steps[..k])) {
      hide CleanActivations;
      forall k, n | 0 <= k <= |steps| ensures !UndetectedLeak(Run(w, steps[..k]), n) {
        forall j | 0 <= j <= k
          ensures CleanActivations(Run(w, steps[..k][..j]))
        {
          assert steps[..k][..j] == steps[..j];
        }
        CleanOverRun(w, steps[..k]);
        SlotsOverRuns(w, steps[..k]);
        CleanIsDetected(Run(w, steps[..k]), n);
      }
    } else {
      var k :| 0 <= k <= |steps| && !CleanActivations(Run(w, steps[..k]));
      var i :| ActivatedNow(Run(w, steps[..k]), i) && HasPrivateData(Run(w, steps[..k]), i);
      SlotsOverRuns(w, steps[..k]);
      UncleanActivationLeaks(Run(w, steps[..k]), i);
    }
  }

  /** A run of steps between reading the decisions and storing the model in which no bank
      leaves the shared model. */
  predicate Undisturbed(steps: seq<Step>, run: int) {
    forall k :: 0 <= k < |steps| ==>
      !steps[k].SwitchToBankOnly? && steps[k] != FailTraining(run) && !(steps[k].FinishTraining? && steps[k].run == run)
  }

  /** Other runs may begin, finish and fail meanwhile, and models may be activated. */
  lemma OthersDoNotDisturb(step: Step, run: int)
    requires step.BeginTraining? || step.ActivateByHand? || (step.FinishTraining? && step.run != run)
             || (step.FailTraining? && step.run != run)
    ensures Undisturbed([step], run)
  {
  }

  predicate LoadIsShared(w: World, run: int, n: Network) {
    && run in w.loads && w.loads[run].network == n && w.loads[run].slot == Shared
    && forall d :: d in Fitted(w.loads[run].order) ==>
         d in w.examples && w.examples[d].bank in w.banks && w.banks[w.examples[d].bank].source == SHARED
  }

  lemma QuietStep(w: World, step: Step, run: int, n: Network)
    requires LoadIsShared(w, run, n) && Undisturbed([step], run)
    ensures LoadIsShared(Next(w, step), run, n)
  {
    hide RowsAfter, TrainingSet, CoolingDown;
    assert [step][0] == step;
  }

  lemma {:induction false} QuietRun(w: World, steps: seq<Step>, run: int, n: Network)
    requires LoadIsShared(w, run, n) && Undisturbed(steps, run)
    ensures LoadIsShared(Run(w, steps), run, n)
    decreases |steps|
  {
    if steps != [] {
      var k := |steps| - 1;
      hide LoadIsShared, Next;
      QuietRun(w, steps[..k], run, n);
      QuietStep(Run(w, steps[..k]), steps[k], run, n);
    }
  }

  lemma BeginReadsShared(w: World, run: int, n: Network, order: seq<DecisionId>)
    requires run !in w.loads && run in Next(w, BeginTraining(run, n, Shared, order)).loads
    ensures LoadIsShared(Next(w, BeginTraining(run, n, Shared, order)), run, n)
  {
    hide CoolingDown;
    assert forall d :: d in Fitted(order) ==> d in order;
  }

  /** Training is a clean activation as long as no bank leaves between its two halves. */
  lemma UndisturbedTrainingIsClean(w: World, run: int, n: Network, order: seq<DecisionId>, steps: seq<Step>,
      finish: Step)
    requires Inv(w) && run !in w.loads && run in Next(w, BeginTraining(run, n, Shared, order)).loads
    requires Undisturbed(steps, run) && finish.FinishTraining? && finish.run == run
    ensures CleanActivations(Next(Run(Next(w, BeginTraining(run, n, Shared, order)), steps), finish))
  {
    var begun := Next(w, BeginTraining(run, n, Shared, order));
    BeginReadsShared(w, run, n, order);
    StepKeepsInv(w, BeginTraining(run, n, Shared, order));
    hide Next, LoadIsShared;
    QuietRun(begun, steps, run, n);
    SlotsOverRuns(begun, steps);
    FinishIsClean(Run(begun, steps), run, n, finish);
  }

  lemma FinishIsClean(w: World, run: int, n: Network, finish: Step)
    requires Inv(w) && LoadIsShared(w, run, n) && finish.FinishTraining? && finish.run == run
    ensures CleanActivations(Next(w, finish))
  {
    var next := Next(w, finish);
    RowsGrow(w, finish, next.now);
    TrainedRow(w, w.loads[run], finish.challenger, finish.championAgain, finish.force, next.now);
    hide RowsAfter, AtMostOneActive, ActiveRow, Trained;
    forall i | ActivatedNow(next, i) ensures !HasPrivateData(next, i) {
      assert i == |w.rows|;
    }
  }

  /** Activating a model again hides a bank that has left: right after the bank leaves the
      check sees it, and after the same model is activated by hand it no longer does. */
  lemma ReactivationHidesLeak(w: World, n: Network, i: nat, d: DecisionId, intact: set<Network>)
    requires Inv(w) && ActiveRow(w.rows, n, Shared) == Some(i)
    requires d in w.rows[i].learnedFrom && MayGoPrivate(w, w.examples[d].bank, w.now + 1)
    ensures var left := Next(w, SwitchToBankOnly(w.examples[d].bank, intact));
            var again := Next(left, ActivateByHand(i, None, None));
            && BankLeftSinceSharedTrained(left, n) && !UndetectedLeak(left, n)
            && UndetectedLeak(again, n)
  {
    var left := Next(w, SwitchToBankOnly(w.examples[d].bank, intact));
    LeavingIsSeen(w, n, i, d, intact);
    ReactivationLeaks(left, n, i, d);
  }

  lemma LeavingIsSeen(w: World, n: Network, i: nat, d: DecisionId, intact: set<Network>)
    requires Inv(w) && ActiveRow(w.rows, n, Shared) == Some(i)
    requires d in w.rows[i].learnedFrom && MayGoPrivate(w, w.examples[d].bank, w.now + 1)
    ensures var left := Next(w, SwitchToBankOnly(w.examples[d].bank, intact));
            && Inv(left) && BankLeftSinceSharedTrained(left, n)
            && i < |left.rows| && IsActiveIn(left.rows[i], n, Shared)
            && d in left.rows[i].learnedFrom && OfPrivateBank(left, d)
  {
    var bank := w.examples[d].bank;
    var left := Next(w, SwitchToBankOnly(bank, intact));
    StepKeepsInv(w, SwitchToBankOnly(bank, intact));
    SeededGrows(w.rows, w.networks, bank, intact, left.now);
    hide AtMostOneActive, ActiveRow, Seeded, Grows;
    assert left.rows[i] == w.rows[i];
    assert left.banks[bank].changedAt == Some(left.now);
  }

  lemma ReactivationLeaks(left: World, n: Network, i: nat, d: DecisionId)
    requires Inv(left) && i < |left.rows| && IsActiveIn(left.rows[i], n, Shared)
    requires d in left.rows[i].learnedFrom && OfPrivateBank(left, d)
    ensures UndetectedLeak(Next(left, ActivateByHand(i, None, None)), n)
  {
    var again := Next(left, ActivateByHand(i, None, None));
    StepKeepsInv(left, ActivateByHand(i, None, None));
    ActivatedRows(left.rows, i, again.now);
    hide AtMostOneActive, ActiveRow, Activated;
    assert ActivatedNow(again, i) && OfPrivateBank(again, d);
    UncleanActivationLeaks(again, i);
  }

  // ---- A check that would miss nothing ----

  /** A bank-only bank whose decisions are in a shared model, or about to be, left after they
      were read. */
  ghost predicate LeftAfterReading(w: World) {
    && (forall i, d :: 0 <= i < |w.rows| && SlotOf(w.rows[i]) == Shared && d in w.rows[i].learnedFrom ==>
          LeftAfter(w, d, w.rows[i].readAt))
    && (forall r, d :: r in w.loads && w.loads[r].slot == Shared && d in Fitted(w.loads[r].order) ==>
          LeftAfter(w, d, w.loads[r].readAt))
  }

  predicate LeftAfter(w: World, d: DecisionId, time: int) {
    OfPrivateBank(w, d) ==>
      w.banks[w.examples[d].bank].changedAt.Some? && w.banks[w.examples[d].bank].changedAt.value > time
  }

  lemma StaysLeftAfter(w: World, step: Step, d: DecisionId, time: int)
    requires Inv(w) && d in w.examples && LeftAfter(w, d, time) && time <= w.now
    ensures LeftAfter(Next(w, step), d, time)
  {
    hide RowsAfter, LoadsAfter;
    if OfPrivateBank(Next(w, step), d) { BanksStep(w, step, d); }
  }

  lemma StepKeepsLeftAfterReading(w: World, step: Step)
    requires Inv(w) && LeftAfterReading(w)
    ensures LeftAfterReading(Next(w, step))
  {
    hide Next, AtMostOneActive, OfPrivateBank, LeftAfter;
    var next := Next(w, step);
    forall i, d | 0 <= i < |next.rows| && SlotOf(next.rows[i]) == Shared && d in next.rows[i].learnedFrom
      ensures LeftAfter(next, d, next.rows[i].readAt)
    {
      RowLeftAfter(w, step, i, d);
    }
    forall r, d | r in next.loads && next.loads[r].slot == Shared && d in Fitted(next.loads[r].order)
      ensures LeftAfter(next, d, next.loads[r].readAt)
    {
      LoadLeftAfter(w, step, r, d);
    }
  }

  lemma RowLeftAfter(w: World, step: Step, i: nat, d: DecisionId)
    requires Inv(w) && LeftAfterReading(w)
    requires var next := Next(w, step);
             i < |next.rows| && SlotOf(next.rows[i]) == Shared && d in next.rows[i].learnedFrom
    ensures LeftAfter(Next(w, step), d, Next(w, step).rows[i].readAt)
  {
    var next := Next(w, step);
    RowsGrow(w, step, next.now);
    if i >= |w.rows| { AddedRow(w, step, next.now, i); }
    hide RowsAfter, BanksAfter, ExamplesAfter, AtMostOneActive, OfPrivateBank, LeftAfter;
    StaysLeftAfter(w, step, d, next.rows[i].readAt);
  }

  lemma LoadLeftAfter(w: World, step: Step, r: int, d: DecisionId)
    requires Inv(w) && LeftAfterReading(w)
    requires var next := Next(w, step);
             r in next.loads && next.loads[r].slot == Shared && d in Fitted(next.loads[r].order)
    ensures LeftAfter(Next(w, step), d, Next(w, step).loads[r].readAt)
  {
    hide RowsAfter, AtMostOneActive, CoolingDown;
    if r in w.loads && Next(w, step).loads[r] == w.loads[r] {
      hide Next, LeftAfter;
      StaysLeftAfter(w, step, d, w.loads[r].readAt);
    } else {
      assert d in Next(w, step).loads[r].order;
      assert d in TrainingSet(w, Next(w, step).loads[r].network, Shared);
    }
  }

  lemma {:induction false} LeftAfterReadingOverRun(w: World, steps: seq<Step>)
    requires Inv(w) && LeftAfterReading(w)
    ensures Inv(Run(w, steps)) && LeftAfterReading(Run(w, steps))
    decreases |steps|
  {
    if steps != [] {
      hide Inv, Next, LeftAfterReading;
      var n := |steps| - 1;
      LeftAfterReadingOverRun(w, steps[..n]);
      StepKeepsInv(Run(w, steps[..n]), steps[n]);
      StepKeepsLeftAfterReading(Run(w, steps[..n]), steps[n]);
    }
  }

  /** Compared with the time the model's data was read, instead of the time it was activated,
      the check misses nothing: in every reachable state, with any reactivations and any
      interleaving of training and leaving, a shared model with a bank-only bank's decisions
      is one that a bank has left since. */
  lemma ReadTimeCheckMissesNothing(w: World, steps: seq<Step>, i: nat)
    requires Inv(w) && w.rows == [] && w.loads == map[]
    requires var v := Run(w, steps); i < |v.rows| && SlotOf(v.rows[i]) == Shared && HasPrivateData(v, i)
    ensures BankLeftSince(Run(w, steps), Run(w, steps).rows[i].readAt)
  {
    hide Run, OfPrivateBank;
    LeftAfterReadingOverRun(w, steps);
    var v := Run(w, steps);
    var d :| d in v.rows[i].learnedFrom && OfPrivateBank(v, d);
    PrivateHasLeft(v, d, v.rows[i].readAt);
  }

  lemma PrivateHasLeft(w: World, d: DecisionId, time: int)
    requires OfPrivateBank(w, d) && LeftAfter(w, d, time)
    ensures BankLeftSince(w, time)
  {
    var b := w.examples[d].bank;
    assert b in w.banks && w.banks[b].source == PRIVATE;
  }

  /** Every shared model is activated only if no bank has left since its data was read. */
  ghost predicate Guarded(w: World, steps: seq<Step>) {
    forall k: nat, i: nat :: k <= |steps| && ActivatedNow(Run(w, steps[..k]), i) ==>
      !BankLeftSince(Run(w, steps[..k]), Run(w, steps[..k]).rows[i].readAt)
  }

  /** An operator who asks that before every activation, by hand or not, is never misled by
      the check as it is. */
  lemma GuardedRunsAreDetected(w: World, steps: seq<Step>, k: nat, n: Network)
    requires Inv(w) && w.rows == [] && w.loads == map[] && Guarded(w, steps) && k <= |steps|
    ensures !UndetectedLeak(Run(w, steps[..k]), n)
  {
    hide Run, BankLeftSince, HasPrivateData, UndetectedLeak;
    forall j | 0 <= j <= |steps| ensures CleanActivations(Run(w, steps[..j])) {
      forall i | ActivatedNow(Run(w, steps[..j]), i) ensures !HasPrivateData(Run(w, steps[..j]), i) {
        if HasPrivateData(Run(w, steps[..j]), i) { ReadTimeCheckMissesNothing(w, steps[..j], i); }
      }
    }
    LeaksAreDetectedIff(w, steps);
  }

  /** The other way to miss one: a bank leaves after its decisions were read and before the
      model is stored. */
  lemma LeavingDuringTrainingHidesLeak(w: World, run: int, n: Network, order: seq<DecisionId>, d: DecisionId,
      intact: set<Network>)
    requires Inv(w) && run !in w.loads && run in Next(w, BeginTraining(run, n, Shared, order)).loads
    requires d in Fitted(order) && d in w.examples && MayGoPrivate(w, w.examples[d].bank, w.now + 2)
    ensures var begun := Next(w, BeginTraining(run, n, Shared, order));
            var left := Next(begun, SwitchToBankOnly(w.examples[d].bank, intact));
            UndetectedLeak(Next(left, FinishTraining(run, None, None, true)), n)
  {
    var begin, leave := BeginTraining(run, n, Shared, order), SwitchToBankOnly(w.examples[d].bank, intact);
    var begun := Next(w, begin);
    var left := Next(begun, leave);
    StepKeepsInv(w, begin);
    StepKeepsInv(begun, leave);
    hide Seeded, CoolingDown, OldestFirst, AtMostOneActive, ActiveRow;
    assert left.loads == begun.loads && begun.loads[run] == Load(n, Shared, order, begun.now);
    assert OfPrivateBank(left, d);
    FinishLeaks(left, run, n, d);
  }

  lemma FinishLeaks(w: World, run: int, n: Network, d: DecisionId)
    requires Inv(w) && run in w.loads && w.loads[run].network == n && w.loads[run].slot == Shared
    requires d in Fitted(w.loads[run].order) && OfPrivateBank(w, d)
    ensures UndetectedLeak(Next(w, FinishTraining(run, None, None, true)), n)
  {
    var next := Next(w, FinishTraining(run, None, None, true));
    StepKeepsInv(w, FinishTraining(run, None, None, true));
    TrainedRow(w, w.loads[run], None, None, true, next.now);
    hide AtMostOneActive, ActiveRow, Trained, Fitted;
    assert ActivatedNow(next, |w.rows|) && OfPrivateBank(next, d);
    UncleanActivationLeaks(next, |w.rows|);
  }
}
