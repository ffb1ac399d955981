/** What a decision must be like to be learned from, said on the example's own fields. */
module ModelEligibility {
  import opened Wrappers
  import opened ModelRegistry
  import opened ModelProvenance

  /** A training run begins exactly if none of that name is under way, the slot had no new row
      for a minute, and at least ten decisions were read, oldest first. */
  lemma TrainingBeginsIff(w: World, run: int, n: Network, slot: Slot, order: seq<DecisionId>)
    requires run !in w.loads
    ensures run in Next(w, BeginTraining(run, n, slot, order)).loads <==> (
              && |order| >= 10 && OldestFirst(w, order, n, slot)
              && forall i :: 0 <= i < |w.rows| && w.rows[i].network == n && SlotOf(w.rows[i]) == slot ==>
                   w.now + 1 - w.rows[i].createdAt >= 60_000_000)
  {
    hide OldestFirst;
  }

  /** Of two or more decisions the older four fifths are learned from. */
  lemma FourFifths(order: seq<DecisionId>, i: nat)
    requires i < |order| && |order| >= 2 && forall j, k :: 0 <= j < k < |order| ==> order[j] != order[k]
    ensures order[i] in Fitted(order) <==> 5 * (i + 1) <= 4 * |order|
  {
    if order[i] in Fitted(order) {
      var j :| 0 <= j < |order| && j < SplitIndex(|order|) && order[j] == order[i];
      assert i == j;
    }
  }

  lemma OneOf<T>(data: set<T>) returns (d: T)
    requires data != {}
    ensures d in data
  {
    d :| d in data;
  }

  lemma {:induction false} Youngest(w: World, data: set<DecisionId>) returns (d: DecisionId)
    requires data != {} && data <= w.examples.Keys
    ensures d in data && forall e :: e in data ==> w.examples[e].decidedAt <= w.examples[d].decidedAt
    decreases data
  {
    d := OneOf(data);
    if data != {d} {
      var other := Youngest(w, data - {d});
      if w.examples[other].decidedAt > w.examples[d].decidedAt { d := other; }
    }
  }

  lemma {:induction false} Sorted(w: World, data: set<DecisionId>) returns (order: seq<DecisionId>)
    requires data <= w.examples.Keys
    ensures |order| == |data| && forall d :: d in order <==> d in data
    ensures forall i, j :: 0 <= i < j < |order| ==>
              order[i] != order[j] && order[i] in w.examples && order[j] in w.examples
              && w.examples[order[i]].decidedAt <= w.examples[order[j]].decidedAt
    decreases data
  {
    if data == {} {
      order := [];
    } else {
      var d := Youngest(w, data);
      var before := Sorted(w, data - {d});
      order := before + [d];
      forall i | 0 <= i < |before| ensures before[i] in data && before[i] != d { assert before[i] in before; }
    }
  }

  /** In every state the query for a slot's data has an answer, with every decision that qualifies. */
  lemma SomethingIsRead(w: World, n: Network, slot: Slot) returns (order: seq<DecisionId>)
    ensures OldestFirst(w, order, n, slot) && |order| == |TrainingSet(w, n, slot)|
  {
    assert TrainingSet(w, n, slot) <= w.examples.Keys;
    order := Sorted(w, TrainingSet(w, n, slot));
    hide TrainingSet;
  }

  /** Each decision is read once, and none before an older one. */
  lemma ReadOnceOldestFirst(w: World, order: seq<DecisionId>, n: Network, slot: Slot, i: nat, j: nat)
    requires OldestFirst(w, order, n, slot) && i < j < |order|
    ensures order[i] != order[j] && order[i] in w.examples && order[j] in w.examples
    ensures w.examples[order[i]].decidedAt <= w.examples[order[j]].decidedAt
  {
    assert forall d :: d in order ==> d in TrainingSet(w, n, slot);
    assert order[i] in order && order[j] in order;
    hide OldestFirst;
  }

  /** What is read for the shared model, for a bank's and for a customer's: exactly the decisions
      that qualify. */
  lemma ReadIsExactlyTheEligible(w: World, order: seq<DecisionId>, n: Network, slot: Slot, d: DecisionId)
    requires OldestFirst(w, order, n, slot)
    ensures d in order <==> (
              && d in w.examples
              && var e := w.examples[d];
                 && e.network == n && e.hasFeatures && e.retracted == false
                 && (slot == Shared ==>
                       && e.bank in w.banks && w.banks[e.bank].source == SHARED
                       && (e.backfill ==> e.approved))
                 && (forall b :: slot == OfBank(b) ==> e.bank == b)
                 && (forall c :: slot == OfCustomer(c) ==> e.customer == Some(c)))
  {
    assert d in TrainingSet(w, n, slot) <==> d in w.examples && Contributes(w.examples[d], n, slot, w.banks);
  }

  /** A decision is approved and retracted by the step that says so, and by no other. */
  lemma ExampleAfter(w: World, step: Step, d: DecisionId)
    ensures d in w.examples ==>
              && d in Next(w, step).examples
              && Next(w, step).examples[d] ==
                 if step == Approve(d) then w.examples[d].(approved := true)
                 else if step == Retract(d) then w.examples[d].(retracted := true) else w.examples[d]
    ensures d !in w.examples && d in Next(w, step).examples ==>
              step.Record? && step.decision == d && step.example == Next(w, step).examples[d]
  {
  }

  lemma {:induction false} StaysRetracted(w: World, steps: seq<Step>, d: DecisionId)
    requires d in w.examples && w.examples[d].retracted
    ensures d in Run(w, steps).examples && Run(w, steps).examples[d].retracted
    decreases |steps|
  {
    if steps != [] {
      hide Next;
      var n := |steps| - 1;
      StaysRetracted(w, steps[..n], d);
      ExampleAfter(Run(w, steps[..n]), steps[n], d);
    }
  }

  /** Once retracted, a decision is never read for any model again, whatever happens later. */
  lemma RetractedIsNeverRead(w: World, d: DecisionId, steps: seq<Step>, order: seq<DecisionId>, n: Network, slot: Slot)
    requires d in w.examples && OldestFirst(Run(Next(w, Retract(d)), steps), order, n, slot)
    ensures d !in order
  {
    var retracted := Next(w, Retract(d));
    ExampleAfter(w, Retract(d), d);
    StaysRetracted(retracted, steps, d);
    ReadIsExactlyTheEligible(Run(retracted, steps), order, n, slot, d);
  }

  /** What a bank's choice becomes: bank-only from shared, not before the lock ends; shared from
      bank-only, with consent; the time of the change is kept; only its own steps touch it. */
  lemma BankAfter(w: World, step: Step, b: BankId)
    requires b in w.banks
    ensures b in Next(w, step).banks
    ensures var was, now := w.banks[b], Next(w, step).banks[b];
            var lockEnded := was.privateAllowedAt == None || was.privateAllowedAt.value <= w.now + 1;
            var leaves := step.SwitchToBankOnly? && step.bank == b && was.source == SHARED && lockEnded;
            var joins := step.SwitchToShared? && step.bank == b && was.source == PRIVATE && step.consented;
            && now.source == (if leaves then PRIVATE else if joins then SHARED else was.source)
            && now.changedAt == (if leaves || joins then Some(w.now + 1) else was.changedAt)
            && now.privateAllowedAt == (if step == ClearSwitchLock(b) then None else was.privateAllowedAt)
  {
    hide RowsAfter, LoadsAfter, ExamplesAfter;
  }

  /** The moment a row's decisions were read: the step that began the training. */
  lemma ReadingStep(w: World, steps: seq<Step>, data: set<DecisionId>, n: Network, slot: Slot, time: int)
    returns (k: nat)
    requires WasTrainingData(w, steps, data, n, slot, time)
    ensures k < |steps| && steps[k].BeginTraining? && Run(w, steps[..k + 1]).now == time
    ensures IsTrainingData(Run(w, steps[..k]), data, n, slot)
  {
    hide IsTrainingData, Run;
    var j :| 0 <= j < |steps| && ReadBy(w, steps, j, data, n, slot, time);
    k := j;
    assert steps[..k + 1] == steps[..k] + [steps[k]];
    RunOn(w, steps[..k], steps[k]);
  }

  lemma ReadWasEligible(w: World, data: set<DecisionId>, n: Network, slot: Slot, d: DecisionId)
    requires IsTrainingData(w, data, n, slot) && d in data
    ensures d in w.examples && var e := w.examples[d];
            && e.network == n && e.hasFeatures && e.retracted == false
            && (slot == Shared ==>
                  e.bank in w.banks && w.banks[e.bank].source == SHARED && (e.backfill ==> e.approved))
            && (forall b :: slot == OfBank(b) ==> e.bank == b)
            && (forall c :: slot == OfCustomer(c) ==> e.customer == Some(c))
  {
    var order :| OldestFirst(w, order, n, slot) && data == Fitted(order);
    assert d in order;
    ReadIsExactlyTheEligible(w, order, n, slot, d);
  }

  /** In every run from an empty registry: whatever a shared model learned from was, when it was
      read, a decision of its network with features, not retracted, of a bank then on the shared
      model, and approved by the operator if it was a fraud example. */
  lemma SharedModelLearnedFrom(w: World, steps: seq<Step>, i: nat, d: DecisionId) returns (k: nat)
    requires Inv(w) && w.rows == [] && w.loads == map[] && i < |Run(w, steps).rows|
    requires var row := Run(w, steps).rows[i]; row.bank == None && row.customer == None && d in row.learnedFrom
    ensures k < |steps| && steps[k].BeginTraining?
    ensures var row, past := Run(w, steps).rows[i], Run(w, steps[..k]);
            && Run(w, steps[..k + 1]).now == row.readAt && d in past.examples
            && var e := past.examples[d];
               && e.network == row.network && e.hasFeatures && e.retracted == false
               && e.bank in past.banks && past.banks[e.bank].source == SHARED
               && (e.backfill ==> e.approved)
  {
    ModelsLearnFromEligibleData(w, steps);
    hide Run, WasTrainingData, IsTrainingData;
    var row := Run(w, steps).rows[i];
    assert Explained(w, steps, row);
    k := ReadingStep(w, steps, row.learnedFrom, row.network, Shared, row.readAt);
    ReadWasEligible(Run(w, steps[..k]), row.learnedFrom, row.network, Shared, d);
  }

  /** A customer's model learned from that customer's decisions only. */
  lemma CustomerModelLearnedFrom(w: World, steps: seq<Step>, i: nat, d: DecisionId) returns (k: nat)
    requires Inv(w) && w.rows == [] && w.loads == map[] && i < |Run(w, steps).rows|
    requires var row := Run(w, steps).rows[i]; row.customer.Some? && d in row.learnedFrom
    ensures k < |steps| && steps[k].BeginTraining?
    ensures var row, past := Run(w, steps).rows[i], Run(w, steps[..k]);
            && Run(w, steps[..k + 1]).now == row.readAt && d in past.examples
            && var e := past.examples[d];
               && e.network == row.network && e.hasFeatures && e.retracted == false
               && e.customer == row.customer
  {
    ModelsLearnFromEligibleData(w, steps);
    hide Run, WasTrainingData, IsTrainingData;
    var row := Run(w, steps).rows[i];
    assert Explained(w, steps, row);
    k := ReadingStep(w, steps, row.learnedFrom, row.network, OfCustomer(row.customer.value), row.readAt);
    ReadWasEligible(Run(w, steps[..k]), row.learnedFrom, row.network, OfCustomer(row.customer.value), d);
  }

  /** A bank's own model learned from that bank's decisions, fraud examples included; a copy of
      a shared model from what that one learned from. */
  lemma BankModelLearnedFrom(w: World, steps: seq<Step>, i: nat, d: DecisionId) returns (k: nat)
    requires Inv(w) && w.rows == [] && w.loads == map[] && i < |Run(w, steps).rows|
    requires var row := Run(w, steps).rows[i]; row.bank.Some? && row.customer == None && d in row.learnedFrom
    ensures k < |steps| && steps[k].BeginTraining?
    ensures var row, past := Run(w, steps).rows[i], Run(w, steps[..k]);
            && Run(w, steps[..k + 1]).now == row.readAt && d in past.examples
            && var e := past.examples[d];
               && e.network == row.network && e.hasFeatures && e.retracted == false
               && (|| row.bank == Some(e.bank)
                   || (e.bank in past.banks && past.banks[e.bank].source == SHARED && (e.backfill ==> e.approved)))
  {
    ModelsLearnFromEligibleData(w, steps);
    hide Run, WasTrainingData, IsTrainingData;
    var row := Run(w, steps).rows[i];
    assert Explained(w, steps, row);
    var slot := if WasTrainingData(w, steps, row.learnedFrom, row.network, OfBank(row.bank.value), row.readAt)
                then OfBank(row.bank.value) else Shared;
    k := ReadingStep(w, steps, row.learnedFrom, row.network, slot, row.readAt);
    ReadWasEligible(Run(w, steps[..k]), row.learnedFrom, row.network, slot, d);
  }
}
