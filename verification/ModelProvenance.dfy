/** Training, activating and switching over time: whose decisions are inside which model. */
module ModelProvenance {
  import opened Wrappers
  import opened ModelRegistry

  /** A bank's model choice; the times are on one clock that moves at every step. */
  datatype Bank = Bank(source: Source, changedAt: Option<int>, privateAllowedAt: Option<int>)

  /** A decision with its exception. `backfill` marks a fraud-training example. */
  datatype Example = Example(
    network: Network, bank: BankId, customer: Option<CustomerId>,
    decidedAt: int, hasFeatures: bool, backfill: bool, approved: bool, retracted: bool)

  /** A training run that has read its decisions, oldest first, and not yet stored its model. */
  datatype Load = Load(network: Network, slot: Slot, order: seq<DecisionId>, readAt: int)

  datatype World = World(
    now: int, networks: seq<Network>, rows: seq<Row>, banks: map<BankId, Bank>,
    customers: map<CustomerId, BankId>, examples: map<DecisionId, Example>, loads: map<int, Load>)

  const MIN_DECISIONS_TO_TRAIN := 10
  const RETRAIN_COOLDOWN := 60_000_000

  // ---- Training data ----

  predicate Contributes(e: Example, network: Network, slot: Slot, banks: map<BankId, Bank>) {
    && e.network == network && e.hasFeatures && !e.retracted
    && match slot
       case OfCustomer(c) => e.customer == Some(c)
       case OfBank(b) => e.bank == b
       case Shared => e.bank in banks && banks[e.bank].source == SHARED && (!e.backfill || e.approved)
  }

  function TrainingSet(w: World, network: Network, slot: Slot): set<DecisionId> {
    set d | d in w.examples && Contributes(w.examples[d], network, slot, w.banks)
  }

  /** `order` is what the query for a slot's training data may return. */
  predicate OldestFirst(w: World, order: seq<DecisionId>, network: Network, slot: Slot) {
    && (forall i, j :: 0 <= i < j < |order| ==> order[i] != order[j])
    && (forall d :: d in TrainingSet(w, network, slot) ==> d in order)
    && (forall d :: d in order ==> d in TrainingSet(w, network, slot))
    && (forall i, j :: 0 <= i < j < |order| && order[i] in w.examples && order[j] in w.examples ==>
          w.examples[order[i]].decidedAt <= w.examples[order[j]].decidedAt)
  }

  /** How many of `n` decisions, at least two, the model is fitted on: four fifths of them, the
      rest being held out for the comparison. */
  function SplitIndex(n: nat): (k: nat)
    ensures n >= 2 ==> 1 <= k < n
  {
    var most := if n * 4 / 5 < 1 then 1 else n * 4 / 5;
    if most <= n - 1 then most else if n == 0 then 0 else n - 1
  }

  function Fitted(order: seq<DecisionId>): set<DecisionId> {
    set i | 0 <= i < |order| && i < SplitIndex(|order|) :: order[i]
  }

  predicate CoolingDown(w: World, network: Network, slot: Slot, now: int) {
    exists i :: 0 <= i < |w.rows| && w.rows[i].network == network && SlotOf(w.rows[i]) == slot
                && now - w.rows[i].createdAt < RETRAIN_COOLDOWN
  }

  // ---- Steps ----

  datatype Step =
    | Wait(time: nat)
    | Record(decision: DecisionId, example: Example)
    | Approve(decision: DecisionId)
    | Retract(decision: DecisionId)
    | BeginTraining(run: int, network: Network, slot: Slot, order: seq<DecisionId>)
    | FinishTraining(run: int, challenger: Option<real>, championAgain: Option<real>, force: bool)
    | FailTraining(run: int)
    | ActivateByHand(id: nat, owner: Option<CustomerId>, ownerBank: Option<BankId>)
    | SwitchToBankOnly(bank: BankId, intact: set<Network>)
    | SwitchToShared(bank: BankId, consented: bool)
    | ClearSwitchLock(bank: BankId)

  function After(w: World, step: Step): int {
    w.now + 1 + if step.Wait? then step.time else 0
  }

  predicate MayGoPrivate(w: World, bank: BankId, now: int) {
    && bank in w.banks && w.banks[bank].source == SHARED
    && (w.banks[bank].privateAllowedAt.Some? ==> w.banks[bank].privateAllowedAt.value <= now)
  }

  function NewRow(customers: map<CustomerId, BankId>, load: Load, status: ModelStatus, auc: Option<real>,
      examples: set<DecisionId>, now: int): Row {
    var customer := if load.slot.OfCustomer? then Some(load.slot.customer) else None;
    var bank := match load.slot
                case OfBank(b) => Some(b)
                case OfCustomer(c) => if c in customers then Some(customers[c]) else None
                case Shared => None;
    Row(load.network, bank, customer, status, now, None, auc, examples, load.readAt)
  }

  function Trained(w: World, load: Load, challenger: Option<real>, championAgain: Option<real>, force: bool,
      now: int): seq<Row> {
    var row := NewRow(w.customers, load, TRAINING, challenger, Fitted(load.order), now);
    var found := ActiveRow(w.rows, load.network, load.slot);
    var champion := if found.Some? then Some(w.rows[found.value]) else None;
    if force || Promotes(champion, challenger, championAgain, |load.order|, load.slot.OfBank?)
    then Activated(w.rows + [row], |w.rows|, now) else w.rows + [row.(status := RETIRED)]
  }

  function RowsAfter(w: World, step: Step, now: int): seq<Row> {
    match step
    case FinishTraining(run, challenger, championAgain, force) =>
      if run in w.loads then Trained(w, w.loads[run], challenger, championAgain, force, now) else w.rows
    case FailTraining(run) =>
      if run in w.loads then w.rows + [NewRow(w.customers, w.loads[run], FAILED, None, {}, now)] else w.rows
    case ActivateByHand(id, customer, bank) =>
      if MayActivate(w.rows, id, customer, bank) then Activated(w.rows, id, now) else w.rows
    case SwitchToBankOnly(bank, intact) =>
      if MayGoPrivate(w, bank, now) then Seeded(w.rows, w.networks, bank, intact, now) else w.rows
    case _ => w.rows
  }

  function BanksAfter(w: World, step: Step, now: int): map<BankId, Bank> {
    match step
    case SwitchToBankOnly(bank, intact) =>
      if MayGoPrivate(w, bank, now)
      then w.banks[bank := w.banks[bank].(source := PRIVATE, changedAt := Some(now))] else w.banks
    case SwitchToShared(bank, consented) =>
      if bank in w.banks && w.banks[bank].source == PRIVATE && consented
      then w.banks[bank := w.banks[bank].(source := SHARED, changedAt := Some(now))] else w.banks
    case ClearSwitchLock(bank) =>
      if bank in w.banks then w.banks[bank := w.banks[bank].(privateAllowedAt := None)] else w.banks
    case _ => w.banks
  }

  function ExamplesAfter(w: World, step: Step): map<DecisionId, Example> {
    match step
    case Record(d, e) => if d !in w.examples && e.bank in w.banks then w.examples[d := e] else w.examples
    case Approve(d) => if d in w.examples then w.examples[d := w.examples[d].(approved := true)] else w.examples
    case Retract(d) => if d in w.examples then w.examples[d := w.examples[d].(retracted := true)] else w.examples
    case _ => w.examples
  }

  function LoadsAfter(w: World, step: Step, now: int): map<int, Load> {
    match step
    case BeginTraining(run, network, slot, order) =>
      if run in w.loads || CoolingDown(w, network, slot, now) || |order| < MIN_DECISIONS_TO_TRAIN
         || !OldestFirst(w, order, network, slot) then w.loads
      else w.loads[run := Load(network, slot, order, now)]
    case FinishTraining(run, _, _, _) => w.loads - {run}
    case FailTraining(run) => w.loads - {run}
    case _ => w.loads
  }

  function Next(w: World, step: Step): World {
    var now := After(w, step);
    w.(now := now, rows := RowsAfter(w, step, now), banks := BanksAfter(w, step, now),
       examples := ExamplesAfter(w, step), loads := LoadsAfter(w, step, now))
  }

  function Run(w: World, steps: seq<Step>): World
    decreases |steps|
  {
    if steps == [] then w else Next(Run(w, steps[..|steps| - 1]), steps[|steps| - 1])
  }

  lemma RunOn(w: World, steps: seq<Step>, step: Step)
    ensures Run(w, steps + [step]) == Next(Run(w, steps), step)
  {
    hide Next;
    assert (steps + [step])[..|steps|] == steps;
  }

  // ---- The service's own methods, over mutable tables ----

  class MlService {
    const registry: Registry
    const networks: seq<Network>
    var banks: map<BankId, Bank>
    var customers: map<CustomerId, BankId>
    var examples: map<DecisionId, Example>
    var loads: map<int, Load>

    constructor (networks: seq<Network>)
      ensures this.networks == networks && At(0) == World(0, networks, [], map[], map[], map[], map[])
      ensures fresh(registry)
    {
      registry := new Registry();
      this.networks := networks;
      banks, customers, examples, loads := map[], map[], map[], map[];
    }

    ghost function At(now: int): World
      reads this, registry
    {
      World(now, networks, registry.rows, banks, customers, examples, loads)
    }

    method SwitchToBankOnly(bank: BankId, intact: set<Network>, ghost was: int, now: int) returns (ok: bool)
      requires bank in banks && now == was + 1
      modifies this, registry
      ensures At(now) == Next(old(At(was)), Step.SwitchToBankOnly(bank, intact))
      ensures ok <==> old(MayGoPrivate(At(was), bank, now))
    {
      var tenant := banks[bank];
      if tenant.source == PRIVATE { return false; }
      if tenant.privateAllowedAt.Some? && tenant.privateAllowedAt.value > now { return false; }
      registry.SeedBankModels(networks, bank, intact, now);
      banks := banks[bank := tenant.(source := PRIVATE, changedAt := Some(now))];
      return true;
    }

    method SwitchToShared(bank: BankId, consented: bool, ghost was: int, now: int) returns (ok: bool)
      requires bank in banks && now == was + 1
      modifies this
      ensures At(now) == Next(old(At(was)), Step.SwitchToShared(bank, consented))
      ensures ok <==> old(banks[bank]).source == PRIVATE && consented
    {
      if banks[bank].source == SHARED { return false; }
      if !consented { return false; }
      banks := banks[bank := banks[bank].(source := SHARED, changedAt := Some(now))];
      return true;
    }

    /** The second half of a training run: store the model and activate or retire it. */
    method StoreModel(run: int, challenger: Option<real>, championAgain: Option<real>, force: bool, ghost was: int,
        now: int)
        returns (promoted: bool)
      requires run in loads && now == was + 1
      modifies this, registry
      ensures At(now) == Next(old(At(was)), FinishTraining(run, challenger, championAgain, force))
      ensures |registry.rows| == |old(registry.rows)| + 1
      ensures promoted <==> registry.rows[|old(registry.rows)|].status == ACTIVE
    {
      hide Promotes, Fitted;
      var load := loads[run];
      var found := ActiveRow(registry.rows, load.network, load.slot);
      var champion := if found.Some? then Some(registry.rows[found.value]) else None;
      promoted := force || Promotes(champion, challenger, championAgain, |load.order|, load.slot.OfBank?);
      var row := NewRow(customers, load, TRAINING, challenger, Fitted(load.order), now);
      hide ActiveRow, NewRow, Activated;
      registry.StoreRow(row, promoted, now);
      loads := loads - {run};
    }
  }

  // ---- What every run keeps ----

  ghost predicate Inv(w: World) {
    && AtMostOneActive(w.rows)
    && (forall i :: 0 <= i < |w.rows| && w.rows[i].status == ACTIVE ==>
          w.rows[i].activatedAt.Some? && w.rows[i].activatedAt.value <= w.now)
    && (forall b :: b in w.banks && w.banks[b].source == PRIVATE ==>
          w.banks[b].changedAt.Some? && w.banks[b].changedAt.value <= w.now)
    && (forall i :: 0 <= i < |w.rows| ==> w.rows[i].learnedFrom <= w.examples.Keys)
    && (forall r :: r in w.loads ==> Fitted(w.loads[r].order) <= w.examples.Keys)
    && (forall r :: r in w.loads ==> w.loads[r].readAt <= w.now)
    && (forall i :: 0 <= i < |w.rows| ==> w.rows[i].readAt <= w.now)
    && (forall d :: d in w.examples ==> w.examples[d].bank in w.banks)
  }

  lemma RowsGrow(w: World, step: Step, now: int)
    requires AtMostOneActive(w.rows)
    ensures Grows(w.rows, RowsAfter(w, step, now), now)
  {
    hide Grows, Activated, Seeded, Promotes, AtMostOneActive, ActiveRow;
    NothingGrows(w.rows, now);
    match step
    case FinishTraining(run, challenger, championAgain, force) =>
      if run in w.loads { TrainedGrows(w, w.loads[run], challenger, championAgain, force, now); }
    case FailTraining(run) =>
      if run in w.loads { AppendGrows(w.rows, NewRow(w.customers, w.loads[run], FAILED, None, {}, now), now); }
    case ActivateByHand(id, customer, bank) =>
      if MayActivate(w.rows, id, customer, bank) { ActivatedGrows(w.rows, id, now); }
    case SwitchToBankOnly(bank, intact) =>
      SeededGrows(w.rows, w.networks, bank, intact, now);
    case _ =>
  }

  lemma TrainedGrows(w: World, load: Load, challenger: Option<real>, championAgain: Option<real>, force: bool, now: int)
    requires AtMostOneActive(w.rows)
    ensures Grows(w.rows, Trained(w, load, challenger, championAgain, force, now), now)
  {
    hide Grows, Activated, Promotes, AtMostOneActive, ActiveRow;
    var row := NewRow(w.customers, load, TRAINING, challenger, Fitted(load.order), now);
    AppendGrows(w.rows, row, now);
    AppendGrows(w.rows, row.(status := RETIRED), now);
    assert AtMostOneActive(w.rows + [row]) by { GrowsKeepsOne(w.rows, w.rows + [row], now); }
    ActivatedGrows(w.rows + [row], |w.rows|, now);
    GrowsTwice(w.rows, w.rows + [row], Activated(w.rows + [row], |w.rows|, now), now);
  }

  lemma GrowsKeepsOne(before: seq<Row>, after: seq<Row>, now: int)
    requires Grows(before, after, now) && AtMostOneActive(before)
    ensures AtMostOneActive(after)
  {
  }

  predicate IsCopyOf(row: Row, shared: Row) {
    && SlotOf(row).OfBank? && SlotOf(shared) == Shared
    && row.network == shared.network && row.learnedFrom == shared.learnedFrom && row.readAt == shared.readAt
  }

  /** Rows that seeding adds are copies of shared rows that were there before. */
  lemma {:induction false} SeededRows(rows: seq<Row>, networks: seq<Network>, bank: BankId, intact: set<Network>,
      now: int, i: nat)
    requires AtMostOneActive(rows) && |rows| <= i < |Seeded(rows, networks, bank, intact, now)|
    ensures var row := Seeded(rows, networks, bank, intact, now)[i];
            && SlotOf(row) == OfBank(bank)
            && exists j :: 0 <= j < |rows| && IsCopyOf(row, rows[j])
  {
    hide AtMostOneActive, ActiveRow;
    var k := |networks| - 1;
    var before := Seeded(rows, networks[..k], bank, intact, now);
    var shared := ActiveRow(before, networks[k], Shared);
    SeededGrows(rows, networks[..k], bank, intact, now);
    if shared.Some? && networks[k] in intact {
      var copy := CopyFor(before[shared.value], bank, now);
      GrowsKeepsOne(rows, before, now);
      AppendGrows(before, copy, now);
      GrowsKeepsOne(before, before + [copy], now);
      ActivatedRows(before + [copy], |before|, now);
      assert SameModel((before + [copy])[i], Seeded(rows, networks, bank, intact, now)[i]);
      if i < |before| {
        SeededRows(rows, networks[..k], bank, intact, now, i);
      } else {
        assert shared == ActiveRow(rows, networks[k], Shared);
        assert SameModel(rows[shared.value], before[shared.value]);
        assert IsCopyOf(Seeded(rows, networks, bank, intact, now)[i], rows[shared.value]);
      }
    } else {
      SeededRows(rows, networks[..k], bank, intact, now, i);
    }
  }

  predicate FinishedBy(w: World, step: Step, row: Row) {
    && step.FinishTraining? && step.run in w.loads
    && row.network == w.loads[step.run].network && SlotOf(row) == w.loads[step.run].slot
    && row.learnedFrom == Fitted(w.loads[step.run].order) && row.readAt == w.loads[step.run].readAt
  }

  predicate AddedBy(w: World, step: Step, row: Row) {
    || (row.learnedFrom == {} && row.readAt <= w.now)
    || FinishedBy(w, step, row)
    || exists j :: 0 <= j < |w.rows| && IsCopyOf(row, w.rows[j])
  }

  /** A row that a step adds is a finished training run, a failed one, or a seeded copy. */
  lemma AddedRow(w: World, step: Step, now: int, i: nat)
    requires Inv(w) && |w.rows| <= i < |RowsAfter(w, step, now)|
    ensures AddedBy(w, step, RowsAfter(w, step, now)[i])
  {
    hide Activated, AtMostOneActive, ActiveRow, Promotes, Seeded;
    if step.SwitchToBankOnly? {
      SeededRows(w.rows, w.networks, step.bank, step.intact, now, i);
    } else if step.FinishTraining? {
      TrainedRow(w, w.loads[step.run], step.challenger, step.championAgain, step.force, now);
    }
  }

  lemma TrainedRow(w: World, load: Load, challenger: Option<real>, championAgain: Option<real>, force: bool, now: int)
    requires AtMostOneActive(w.rows)
    ensures var after := Trained(w, load, challenger, championAgain, force, now);
            && |after| == |w.rows| + 1
            && after[|w.rows|].network == load.network && SlotOf(after[|w.rows|]) == load.slot
            && after[|w.rows|].learnedFrom == Fitted(load.order) && after[|w.rows|].readAt == load.readAt
            && (force ==> ActiveRow(after, load.network, load.slot) == Some(|w.rows|)
                          && after[|w.rows|].activatedAt == Some(now))
  {
    hide AtMostOneActive, ActiveRow, Activated, Promotes;
    var row := NewRow(w.customers, load, TRAINING, challenger, Fitted(load.order), now);
    AppendGrows(w.rows, row, now);
    GrowsKeepsOne(w.rows, w.rows + [row], now);
    ActivatedRows(w.rows + [row], |w.rows|, now);
    ActivatesOneSlot(w.rows + [row], |w.rows|, now);
  }

  lemma RowKeepsHistory(w: World, step: Step, i: nat)
    requires Inv(w) && i < |Next(w, step).rows|
    ensures var next := Next(w, step);
            next.rows[i].learnedFrom <= next.examples.Keys && next.rows[i].readAt <= next.now
  {
    var next := Next(w, step);
    RowsGrow(w, step, next.now);
    if i >= |w.rows| { AddedRow(w, step, next.now, i); }
    hide RowsAfter, BanksAfter, LoadsAfter, AtMostOneActive, Fitted;
    if i < |w.rows| { assert SameModel(w.rows[i], next.rows[i]); }
  }

  lemma LoadKeepsHistory(w: World, step: Step, r: int)
    requires Inv(w) && r in Next(w, step).loads
    ensures var next := Next(w, step);
            Fitted(next.loads[r].order) <= next.examples.Keys && next.loads[r].readAt <= next.now
  {
    hide RowsAfter, BanksAfter, AtMostOneActive, CoolingDown;
    var next := Next(w, step);
    if !(r in w.loads && w.loads[r] == next.loads[r]) {
      var order := next.loads[r].order;
      forall d | d in Fitted(order) ensures d in next.examples {
        assert d in order && d in TrainingSet(w, next.loads[r].network, next.loads[r].slot);
      }
    }
  }

  lemma BanksKeepInv(w: World, step: Step)
    requires Inv(w)
    ensures var next := Next(w, step);
            && (forall b :: b in next.banks && next.banks[b].source == PRIVATE ==>
                  next.banks[b].changedAt.Some? && next.banks[b].changedAt.value <= next.now)
            && (forall d :: d in next.examples ==> next.examples[d].bank in next.banks)
  {
    hide RowsAfter, LoadsAfter, AtMostOneActive;
  }

  lemma StepKeepsInv(w: World, step: Step)
    requires Inv(w)
    ensures Inv(Next(w, step))
    ensures forall n, s :: ActiveRow(w.rows, n, s).Some? ==> ActiveRow(Next(w, step).rows, n, s).Some?
  {
    var next := Next(w, step);
    RowsGrow(w, step, next.now);
    GrowsKeepsOne(w.rows, next.rows, next.now);
    BanksKeepInv(w, step);
    hide RowsAfter, BanksAfter, ExamplesAfter, LoadsAfter, AtMostOneActive, ActiveRow, Fitted;
    forall i | 0 <= i < |next.rows|
      ensures next.rows[i].learnedFrom <= next.examples.Keys && next.rows[i].readAt <= next.now
    {
      RowKeepsHistory(w, step, i);
    }
    forall r | r in next.loads
      ensures Fitted(next.loads[r].order) <= next.examples.Keys && next.loads[r].readAt <= next.now
    {
      LoadKeepsHistory(w, step, r);
    }
  }

  /** In every run each slot keeps at most one active model, and one that has an active model
      never loses it. */
  lemma {:induction false} SlotsOverRuns(w: World, steps: seq<Step>)
    requires Inv(w)
    ensures Inv(Run(w, steps)) && AtMostOneActive(Run(w, steps).rows)
    ensures forall n, s :: ActiveRow(w.rows, n, s).Some? ==> ActiveRow(Run(w, steps).rows, n, s).Some?
    decreases |steps|
  {
    hide Next, ActiveRow, AtMostOneActive;
    if steps != [] {
      SlotsOverRuns(w, steps[..|steps| - 1]);
      StepKeepsInv(Run(w, steps[..|steps| - 1]), steps[|steps| - 1]);
    }
  }

  /** The slot whose active model a step may change. */
  function Target(w: World, step: Step): Option<Slot> {
    match step
    case FinishTraining(run, _, _, _) => if run in w.loads then Some(w.loads[run].slot) else None
    case ActivateByHand(_, owner, ownerBank) =>
      Some(if owner.Some? then OfCustomer(owner.value) else if ownerBank.Some? then OfBank(ownerBank.value) else Shared)
    case SwitchToBankOnly(bank, _) => Some(OfBank(bank))
    case _ => None
  }

  /** No step changes the active model of any slot but the one its caller named. */
  lemma OtherSlotsUntouched(w: World, step: Step, n: Network, s: Slot)
    requires Inv(w) && Target(w, step) != Some(s)
    ensures ActiveRow(Next(w, step).rows, n, s) == ActiveRow(w.rows, n, s)
  {
    hide Activated, AtMostOneActive, ActiveRow, Promotes, Seeded;
    var now := After(w, step);
    match step
    case FinishTraining(run, challenger, championAgain, force) =>
      if run in w.loads {
        var row := NewRow(w.customers, w.loads[run], TRAINING, challenger, Fitted(w.loads[run].order), now);
        AppendGrows(w.rows, row, now);
        AppendGrows(w.rows, row.(status := RETIRED), now);
        GrowsKeepsOne(w.rows, w.rows + [row], now);
        ActivatesOneSlot(w.rows + [row], |w.rows|, now);
      }
    case FailTraining(run) =>
      if run in w.loads { AppendGrows(w.rows, NewRow(w.customers, w.loads[run], FAILED, None, {}, now), now); }
    case ActivateByHand(id, customer, bank) =>
      if MayActivate(w.rows, id, customer, bank) { ActivatesOneSlot(w.rows, id, now); }
    case SwitchToBankOnly(bank, intact) =>
      SeededGrows(w.rows, w.networks, bank, intact, now);
    case _ =>
  }

  /** Scoring has no gap: a bank that leaves while a shared model is active and readable has a
      model for every exception of that network from then on, wherever it switches later. */
  lemma NoScoringGap(w: World, bank: BankId, intact: set<Network>, steps: seq<Step>, n: Network, modes: Modes,
      customer: Option<CustomerId>)
    requires Inv(w) && MayGoPrivate(w, bank, w.now + 1)
    requires n in w.networks && n in intact && ActiveRow(w.rows, n, Shared).Some?
    ensures var later := Run(Next(w, SwitchToBankOnly(bank, intact)), steps);
            bank in later.banks
                && ResolveScoringSource(later.rows, modes, later.banks[bank].source, bank, n, customer).Some?
  {
    var step := SwitchToBankOnly(bank, intact);
    var next := Next(w, step);
    assert ActiveRow(next.rows, n, Shared).Some? && ActiveRow(next.rows, n, OfBank(bank)).Some? by {
      hide AtMostOneActive, ActiveRow, Seeded;
      SeededGrows(w.rows, w.networks, bank, intact, next.now);
    }
    StepKeepsInv(w, step);
    assert bank in next.banks;
    hide Next, ActiveRow;
    SlotsOverRuns(next, steps);
    BanksStay(next, steps);
  }

  lemma {:induction false} BanksStay(w: World, steps: seq<Step>)
    ensures w.banks.Keys <= Run(w, steps).banks.Keys
    decreases |steps|
  {
    if steps != [] {
      hide RowsAfter, LoadsAfter, ExamplesAfter;
      BanksStay(w, steps[..|steps| - 1]);
    }
  }

  // ---- Where training data comes from ----

  /** `data` are the older four fifths of the slot's training data. */
  ghost predicate IsTrainingData(w: World, data: set<DecisionId>, n: Network, s: Slot) {
    exists order :: OldestFirst(w, order, n, s) && data == Fitted(order)
  }

  /** The `k`th step of the run is the one that read it, and it did so at `time`. */
  ghost predicate ReadBy(w: World, steps: seq<Step>, k: nat, data: set<DecisionId>, n: Network, s: Slot, time: int)
    requires k < |steps|
  {
    var before := Run(w, steps[..k]);
    steps[k].BeginTraining? && After(before, steps[k]) == time && IsTrainingData(before, data, n, s)
  }

  /** `data` was the slot's training data when the clock of the run stood at `time`. */
  ghost predicate WasTrainingData(w: World, steps: seq<Step>, data: set<DecisionId>, n: Network, s: Slot, time: int) {
    exists k :: 0 <= k < |steps| && ReadBy(w, steps, k, data, n, s, time)
  }

  lemma StillWas(w: World, steps: seq<Step>, step: Step, data: set<DecisionId>, n: Network, s: Slot, time: int)
    requires WasTrainingData(w, steps, data, n, s, time)
    ensures WasTrainingData(w, steps + [step], data, n, s, time)
  {
    hide IsTrainingData, Run;
    var k :| 0 <= k < |steps| && ReadBy(w, steps, k, data, n, s, time);
    assert (steps + [step])[..k] == steps[..k];
    assert ReadBy(w, steps + [step], k, data, n, s, time);
  }

  lemma WasJustNow(w: World, steps: seq<Step>, step: Step, order: seq<DecisionId>, n: Network, s: Slot)
    requires step.BeginTraining? && OldestFirst(Run(w, steps), order, n, s)
    ensures WasTrainingData(w, steps + [step], Fitted(order), n, s, After(Run(w, steps), step))
  {
    hide OldestFirst, Fitted, Run;
    assert (steps + [step])[..|steps|] == steps;
    assert ReadBy(w, steps + [step], |steps|, Fitted(order), n, s, After(Run(w, steps), step));
  }

  /** A model learned from what its own slot's training data was when it was read; a bank's own
      model may be a copy of a shared one instead, and a failed run learned nothing. */
  ghost predicate Explained(w: World, steps: seq<Step>, r: Row) {
    || r.learnedFrom == {}
    || WasTrainingData(w, steps, r.learnedFrom, r.network, SlotOf(r), r.readAt)
    || (SlotOf(r).OfBank? && WasTrainingData(w, steps, r.learnedFrom, r.network, Shared, r.readAt))
  }

  lemma StillExplained(w: World, steps: seq<Step>, step: Step, a: Row, b: Row)
    requires Explained(w, steps, a) && SameModel(a, b)
    ensures Explained(w, steps + [step], b)
  {
    hide WasTrainingData;
    if WasTrainingData(w, steps, a.learnedFrom, a.network, SlotOf(a), a.readAt) {
      StillWas(w, steps, step, a.learnedFrom, a.network, SlotOf(a), a.readAt);
    } else if a.learnedFrom != {} {
      StillWas(w, steps, step, a.learnedFrom, a.network, Shared, a.readAt);
    }
  }

  ghost predicate AllExplained(w: World, steps: seq<Step>) {
    && (forall i :: 0 <= i < |Run(w, steps).rows| ==> Explained(w, steps, Run(w, steps).rows[i]))
    && (forall r :: r in Run(w, steps).loads ==>
          var load := Run(w, steps).loads[r];
          WasTrainingData(w, steps, Fitted(load.order), load.network, load.slot, load.readAt))
  }

  lemma StepExplains(w: World, steps: seq<Step>, step: Step)
    requires Inv(w) && AllExplained(w, steps)
    ensures AllExplained(w, steps + [step])
  {
    var was, now := Run(w, steps), Run(w, steps + [step]);
    RunOn(w, steps, step);
    SlotsOverRuns(w, steps);
    RowsGrow(was, step, now.now);
    hide Run, AtMostOneActive, ActiveRow;
    forall i | 0 <= i < |now.rows| ensures Explained(w, steps + [step], now.rows[i]) {
      if i < |was.rows| {
        StillExplained(w, steps, step, was.rows[i], now.rows[i]);
      } else {
        AddedRow(was, step, now.now, i);
        AddedExplained(w, steps, step, now.rows[i]);
      }
    }
    hide RowsAfter, BanksAfter, ExamplesAfter;
    forall r | r in now.loads
      ensures var load := now.loads[r];
              WasTrainingData(w, steps + [step], Fitted(load.order), load.network, load.slot, load.readAt)
    {
      var load := now.loads[r];
      if r in was.loads && was.loads[r] == load {
        StillWas(w, steps, step, Fitted(load.order), load.network, load.slot, load.readAt);
      } else {
        WasJustNow(w, steps, step, load.order, load.network, load.slot);
      }
    }
  }

  lemma AddedExplained(w: World, steps: seq<Step>, step: Step, row: Row)
    requires AllExplained(w, steps)
    requires AddedBy(Run(w, steps), step, row)
    ensures Explained(w, steps + [step], row)
  {
    hide Run, WasTrainingData;
    var was := Run(w, steps);
    if FinishedBy(was, step, row) {
      StillWas(w, steps, step, row.learnedFrom, row.network, SlotOf(row), row.readAt);
    } else if row.learnedFrom != {} {
      var j :| 0 <= j < |was.rows| && IsCopyOf(row, was.rows[j]);
      assert Explained(w, steps, was.rows[j]);
      StillWas(w, steps, step, row.learnedFrom, row.network, Shared, row.readAt);
    }
  }

  /** In every run from an empty registry, a shared model learned only from decisions that were
      eligible together at the time they were read: of banks then on the shared model, not retracted, and
      approved where they are fraud examples. */
  lemma {:induction false} ModelsLearnFromEligibleData(w: World, steps: seq<Step>)
    requires Inv(w) && w.rows == [] && w.loads == map[]
    ensures AllExplained(w, steps)
    decreases |steps|
  {
    if steps != [] {
      var n := |steps| - 1;
      hide Run;
      ModelsLearnFromEligibleData(w, steps[..n]);
      StepExplains(w, steps[..n], steps[n]);
      assert steps == steps[..n] + [steps[n]];
    }
  }
}
