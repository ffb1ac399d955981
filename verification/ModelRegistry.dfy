/** Which fraud-scoring model is active where: the slots, activation, and scoring. */
module ModelRegistry {
  import opened Wrappers

  type BankId = int
  type CustomerId = int
  type DecisionId = int
  type Network = string

  datatype Slot = Shared | OfBank(bank: BankId) | OfCustomer(customer: CustomerId)

  datatype ModelStatus = TRAINING | ACTIVE | RETIRED | FAILED

  /** A row's id is its index. Two fields are history: `learnedFrom` are the decisions the model
      in the file was fitted on, `readAt` is when they were read. */
  datatype Row = Row(
    network: Network, bank: Option<BankId>, customer: Option<CustomerId>,
    status: ModelStatus, createdAt: int, activatedAt: Option<int>, auc: Option<real>,
    learnedFrom: set<DecisionId>, readAt: int)

  function SlotOf(r: Row): Slot {
    if r.customer.Some? then OfCustomer(r.customer.value)
    else if r.bank.Some? then OfBank(r.bank.value) else Shared
  }

  predicate IsActiveIn(r: Row, network: Network, slot: Slot) {
    r.status == ACTIVE && r.network == network && SlotOf(r) == slot
  }

  /** The first active row the query meets at or after position `i`. */
  function ActiveFrom(rows: seq<Row>, network: Network, slot: Slot, i: nat): (found: Option<nat>)
    requires i <= |rows|
    ensures found.Some? ==> i <= found.value < |rows| && IsActiveIn(rows[found.value], network, slot)
    ensures found.None? ==> forall j :: i <= j < |rows| ==> !IsActiveIn(rows[j], network, slot)
    decreases |rows| - i
  {
    if i == |rows| then None
    else if IsActiveIn(rows[i], network, slot) then Some(i)
    else ActiveFrom(rows, network, slot, i + 1)
  }

  function ActiveRow(rows: seq<Row>, network: Network, slot: Slot): (found: Option<nat>)
    ensures found.Some? ==> found.value < |rows| && IsActiveIn(rows[found.value], network, slot)
    ensures found.None? ==> forall j :: 0 <= j < |rows| ==> !IsActiveIn(rows[j], network, slot)
  {
    ActiveFrom(rows, network, slot, 0)
  }

  ghost predicate AtMostOneActive(rows: seq<Row>) {
    forall i, j :: 0 <= i < j < |rows| && rows[i].status == ACTIVE && rows[j].status == ACTIVE ==>
      rows[i].network != rows[j].network || SlotOf(rows[i]) != SlotOf(rows[j])
  }

  /** With one active row a slot, the unordered query has one answer. */
  lemma ActiveRowIs(rows: seq<Row>, network: Network, slot: Slot, i: nat)
    requires AtMostOneActive(rows)
    ensures ActiveRow(rows, network, slot) == Some(i) <==> i < |rows| && IsActiveIn(rows[i], network, slot)
  {
  }

  // ---- Changing the registry ----

  function Activated(rows: seq<Row>, id: nat, now: int): (after: seq<Row>)
    requires id < |rows|
    ensures |after| == |rows|
  {
    var previous := ActiveRow(rows, rows[id].network, SlotOf(rows[id]));
    var retired := if previous.Some? && previous.value != id
                   then rows[previous.value := rows[previous.value].(status := RETIRED)] else rows;
    retired[id := retired[id].(status := ACTIVE, activatedAt := Some(now))]
  }

  /** The slot a caller names: its customer, else its bank, else the shared one. */
  predicate MayActivate(rows: seq<Row>, id: nat, customer: Option<CustomerId>, bank: Option<BankId>) {
    id < |rows| && rows[id].customer == customer && (customer.None? ==> rows[id].bank == bank)
  }

  class Registry {
    var rows: seq<Row>

    constructor ()
      ensures rows == []
    {
      rows := [];
    }

    method CreateModelRow(row: Row, now: int) returns (id: nat)
      requires row.status != ACTIVE && row.activatedAt.None?
      modifies this
      ensures id == |old(rows)| && rows == old(rows) + [row]
    {
      id := |rows|;
      rows := rows + [row];
    }

    method ActivateModel(id: nat, expectedCustomer: Option<CustomerId>, expectedBank: Option<BankId>, now: int)
        returns (ok: bool)
      modifies this
      ensures ok <==> MayActivate(old(rows), id, expectedCustomer, expectedBank)
      ensures rows == if ok then Activated(old(rows), id, now) else old(rows)
    {
      if id >= |rows| { return false; }
      if rows[id].customer != expectedCustomer { return false; }
      if expectedCustomer.None? && rows[id].bank != expectedBank { return false; }
      var previous := ActiveRow(rows, rows[id].network, SlotOf(rows[id]));
      if previous.Some? && previous.value != id {
        rows := rows[previous.value := rows[previous.value].(status := RETIRED)];
      }
      rows := rows[id := rows[id].(status := ACTIVE, activatedAt := Some(now))];
      return true;
    }

    /** A trained model is stored, and then activated in its slot or retired at once. */
    method StoreRow(row: Row, promoted: bool, now: int)
      requires row.status == TRAINING && row.activatedAt.None?
      modifies this
      ensures rows == if promoted then Activated(old(rows) + [row], |old(rows)|, now)
                      else old(rows) + [row.(status := RETIRED)]
      ensures |rows| == |old(rows)| + 1 && (promoted <==> rows[|old(rows)|].status == ACTIVE)
    {
      hide ActiveFrom;
      var id := CreateModelRow(row, now);
      if promoted {
        var ok := ActivateModel(id, row.customer, row.bank, now);
      } else {
        rows := rows[id := rows[id].(status := RETIRED)];
      }
    }

    /** Copies the active shared model of every network into a bank's own slots; `intact`
        are the networks whose model file exists and passes its fingerprint check. */
    method SeedBankModels(networks: seq<Network>, bank: BankId, intact: set<Network>, now: int)
      modifies this
      ensures rows == Seeded(old(rows), networks, bank, intact, now)
    {
      for k := 0 to |networks|
        invariant rows == Seeded(old(rows), networks[..k], bank, intact, now)
      {
        assert networks[..k + 1][..k] == networks[..k];
        var shared := ActiveRow(rows, networks[k], Shared);
        if shared.Some? && networks[k] in intact {
          var id := CreateModelRow(CopyFor(rows[shared.value], bank, now), now);
          var ok := ActivateModel(id, None, Some(bank), now);
        }
      }
      assert networks[..|networks|] == networks;
    }
  }

  function CopyFor(shared: Row, bank: BankId, now: int): Row {
    Row(shared.network, Some(bank), None, TRAINING, now, None, shared.auc, shared.learnedFrom, shared.readAt)
  }

  function Seeded(rows: seq<Row>, networks: seq<Network>, bank: BankId, intact: set<Network>, now: int): seq<Row> {
    if networks == [] then rows
    else
      var network := networks[|networks| - 1];
      var before := Seeded(rows, networks[..|networks| - 1], bank, intact, now);
      var shared := ActiveRow(before, network, Shared);
      if shared.Some? && network in intact
      then Activated(before + [CopyFor(before[shared.value], bank, now)], |before|, now) else before
  }

  // ---- What activation keeps ----

  /** A change of the registry at time `now`: rows keep what they were trained on, active rows
      are unchanged or activated now, and no slot loses its model. */
  ghost predicate Grows(before: seq<Row>, after: seq<Row>, now: int) {
    && |before| <= |after|
    && (forall i :: 0 <= i < |before| ==> SameModel(before[i], after[i]))
    && (forall i :: 0 <= i < |after| && after[i].status == ACTIVE ==>
          after[i].activatedAt == Some(now) || (i < |before| && after[i] == before[i]))
    && (forall n, s :: ActiveRow(before, n, s).Some? ==> ActiveRow(after, n, s).Some?)
    && (AtMostOneActive(before) ==> AtMostOneActive(after))
  }

  predicate SameModel(a: Row, b: Row) {
    && a.network == b.network && a.bank == b.bank && a.customer == b.customer
    && a.learnedFrom == b.learnedFrom && a.readAt == b.readAt
  }

  lemma GrowsTwice(a: seq<Row>, b: seq<Row>, c: seq<Row>, now: int)
    requires Grows(a, b, now) && Grows(b, c, now)
    ensures Grows(a, c, now)
  {
    hide AtMostOneActive, ActiveRow;
  }

  lemma AppendGrows(rows: seq<Row>, row: Row, now: int)
    requires row.status != ACTIVE
    ensures Grows(rows, rows + [row], now)
    ensures forall n, s :: AtMostOneActive(rows) ==> ActiveRow(rows + [row], n, s) == ActiveRow(rows, n, s)
  {
    forall n, s ensures ActiveRow(rows, n, s).Some? ==> ActiveRow(rows + [row], n, s).Some? {
      var i := ActiveRow(rows, n, s);
      if i.Some? { assert IsActiveIn((rows + [row])[i.value], n, s); }
    }
    forall n, s | AtMostOneActive(rows) ensures ActiveRow(rows + [row], n, s) == ActiveRow(rows, n, s) {
      SameActive(rows, rows + [row], n, s);
    }
  }

  /** Two registries with the same active rows in a slot answer the query alike. */
  lemma SameActive(a: seq<Row>, b: seq<Row>, n: Network, s: Slot)
    requires AtMostOneActive(a) && AtMostOneActive(b) && |a| <= |b|
    requires forall i :: 0 <= i < |b| ==> (IsActiveIn(b[i], n, s) <==> i < |a| && IsActiveIn(a[i], n, s))
    ensures ActiveRow(a, n, s) == ActiveRow(b, n, s)
  {
    var i := ActiveRow(b, n, s);
    if i.Some? { ActiveRowIs(a, n, s, i.value); }
  }

  /** Activation makes the row its slot's only active one and touches no other slot. */
  lemma ActivatesOneSlot(rows: seq<Row>, id: nat, now: int)
    requires AtMostOneActive(rows) && id < |rows|
    ensures AtMostOneActive(Activated(rows, id, now))
    ensures ActiveRow(Activated(rows, id, now), rows[id].network, SlotOf(rows[id])) == Some(id)
    ensures forall n, s :: n != rows[id].network || s != SlotOf(rows[id]) ==>
              ActiveRow(Activated(rows, id, now), n, s) == ActiveRow(rows, n, s)
    ensures forall i :: 0 <= i < |rows| ==>
              Activated(rows, id, now)[i] ==
              if i == id then rows[i].(status := ACTIVE, activatedAt := Some(now))
              else if rows[i].status == ACTIVE && rows[i].network == rows[id].network
                      && SlotOf(rows[i]) == SlotOf(rows[id]) then rows[i].(status := RETIRED)
              else rows[i]
  {
    var after := Activated(rows, id, now);
    var net, slot := rows[id].network, SlotOf(rows[id]);
    ActivatedRows(rows, id, now);
    ActiveRowIs(after, net, slot, id);
    forall n, s | n != net || s != slot ensures ActiveRow(after, n, s) == ActiveRow(rows, n, s) {
      SameActive(rows, after, n, s);
    }
  }

  lemma ActivatedRows(rows: seq<Row>, id: nat, now: int)
    requires AtMostOneActive(rows) && id < |rows|
    ensures var after := Activated(rows, id, now);
            && AtMostOneActive(after) && IsActiveIn(after[id], rows[id].network, SlotOf(rows[id]))
            && after[id].activatedAt == Some(now)
            && forall i :: 0 <= i < |rows| ==>
                 && SameModel(rows[i], after[i])
                 && (i != id && after[i].status == ACTIVE ==> after[i] == rows[i])
                 && (i != id && after[i].status != ACTIVE && rows[i].status == ACTIVE ==>
                       rows[i].network == rows[id].network && SlotOf(rows[i]) == SlotOf(rows[id]))
                 && (SlotOf(rows[i]) != SlotOf(rows[id]) ==> after[i] == rows[i])
  {
    hide ActiveFrom;
  }

  lemma ActivatedGrows(rows: seq<Row>, id: nat, now: int)
    requires AtMostOneActive(rows) && id < |rows|
    ensures Grows(rows, Activated(rows, id, now), now)
  {
    var after := Activated(rows, id, now);
    ActivatedRows(rows, id, now);
    ActivatesOneSlot(rows, id, now);
    forall n, s | ActiveRow(rows, n, s).Some? ensures ActiveRow(after, n, s).Some? {
      assert n != rows[id].network || s != SlotOf(rows[id]) ==> ActiveRow(after, n, s) == ActiveRow(rows, n, s);
    }
  }

  lemma NothingGrows(rows: seq<Row>, now: int)
    ensures Grows(rows, rows, now)
  {
  }

  /** Seeding activates the copies in the bank's own slots and leaves every other slot alone. */
  lemma {:induction false} SeededGrows(rows: seq<Row>, networks: seq<Network>, bank: BankId, intact: set<Network>,
      now: int)
    requires AtMostOneActive(rows)
    ensures var after := Seeded(rows, networks, bank, intact, now);
            && Grows(rows, after, now)
            && (forall i :: 0 <= i < |rows| && SlotOf(rows[i]) != OfBank(bank) ==> after[i] == rows[i])
            && (forall n, s :: s != OfBank(bank) ==> ActiveRow(after, n, s) == ActiveRow(rows, n, s))
            && (forall n :: n in networks && n in intact && ActiveRow(rows, n, Shared).Some? ==>
                  ActiveRow(after, n, OfBank(bank)).Some?)
  {
    var after := Seeded(rows, networks, bank, intact, now);
    hide Activated, ActiveRow, AtMostOneActive;
    if networks == [] {
      NothingGrows(rows, now);
    } else {
      var k := |networks| - 1;
      var network := networks[k];
      SeededGrows(rows, networks[..k], bank, intact, now);
      assert networks == networks[..k] + [network];
      var before := Seeded(rows, networks[..k], bank, intact, now);
      OneSeedGrows(before, network, bank, intact, now);
      hide Seeded;
      GrowsTwice(rows, before, after, now);
    }
  }

  lemma OneSeedGrows(before: seq<Row>, network: Network, bank: BankId, intact: set<Network>, now: int)
    requires AtMostOneActive(before)
    ensures var shared := ActiveRow(before, network, Shared);
            var after := if shared.Some? && network in intact
                         then Activated(before + [CopyFor(before[shared.value], bank, now)], |before|, now) else before;
            && Grows(before, after, now) && AtMostOneActive(after)
            && (forall i :: 0 <= i < |before| && SlotOf(before[i]) != OfBank(bank) ==> after[i] == before[i])
            && (forall n, s :: s != OfBank(bank) ==> ActiveRow(after, n, s) == ActiveRow(before, n, s))
            && (network in intact && shared.Some? ==> ActiveRow(after, network, OfBank(bank)).Some?)
  {
    hide Activated, ActiveRow, AtMostOneActive;
    var shared := ActiveRow(before, network, Shared);
    if shared.Some? && network in intact {
      assert IsActiveIn(before[shared.value], network, Shared);
      var copy := CopyFor(before[shared.value], bank, now);
      AppendGrows(before, copy, now);
      ActivatedGrows(before + [copy], |before|, now);
      ActivatesOneSlot(before + [copy], |before|, now);
      ActivatedRows(before + [copy], |before|, now);
      GrowsTwice(before, before + [copy], Activated(before + [copy], |before|, now), now);
    } else {
      NothingGrows(before, now);
    }
  }

  // ---- Champion against challenger ----

  const BANK_MODEL_MIN_DECISIONS := 200

  /** `challenger` and `championAgain` are the two models' AUC on the same recent decisions,
      None when it is undefined there or the champion's file does not load. */
  function Promotes(champion: Option<Row>, challenger: Option<real>, championAgain: Option<real>, decisions: nat,
      isBankModel: bool): bool {
    if champion.None? then true
    else if isBankModel && decisions < BANK_MODEL_MIN_DECISIONS then false
    else if challenger.Some? && championAgain.Some? then challenger.value >= championAgain.value
    else OrZero(challenger) >= OrZero(champion.value.auc)
  }

  function OrZero(auc: Option<real>): real {
    if auc.None? then 0.0 else auc.value
  }

  /** Which model wins: the first of a slot always; a bank's own never below 200 decisions; the
      one no worse on the same recent decisions; where the two cannot be compared on those, the
      one no worse than what the active model's row records, an absent figure counting as 0. */
  lemma WinnerIs(champion: Option<Row>, challenger: Option<real>, again: Option<real>, n: nat, isBankModel: bool)
    ensures champion == None ==> Promotes(champion, challenger, again, n, isBankModel)
    ensures champion != None && isBankModel && n < 200 ==> !Promotes(champion, challenger, again, n, isBankModel)
    ensures champion != None && !(isBankModel && n < 200) ==>
              (Promotes(champion, challenger, again, n, isBankModel) <==>
               match (challenger, again, champion.value.auc)
               case (Some(a), Some(b), _) => b <= a
               case (Some(a), None, Some(r)) => r <= a
               case (Some(a), None, None) => 0.0 <= a
               case (None, _, Some(r)) => r <= 0.0
               case (None, _, None) => true)
  {
  }

  // ---- Scoring ----

  datatype Source = SHARED | PRIVATE
  datatype Mode = AUTO | GLOBAL | CUSTOMER

  /** A customer's mode for a network; no entry means AUTO. */
  type Modes = map<(CustomerId, Network), Mode>

  function BankLevelModel(rows: seq<Row>, source: Source, bank: BankId, network: Network): Option<nat> {
    if source == PRIVATE then ActiveRow(rows, network, OfBank(bank)) else ActiveRow(rows, network, Shared)
  }

  function ResolveScoringSource(rows: seq<Row>, modes: Modes, source: Source, bank: BankId, network: Network,
      customer: Option<CustomerId>): Option<nat> {
    if customer.None? then BankLevelModel(rows, source, bank, network)
    else
      var key := (customer.value, network);
      var mode := if key in modes then modes[key] else AUTO;
      var own := ActiveRow(rows, network, OfCustomer(customer.value));
      if mode != GLOBAL && own.Some? then own else BankLevelModel(rows, source, bank, network)
  }

  /** The row that scores an exception is, and is only, the active one of the slot that the
      customer's mode and the bank's choice point at. */
  lemma ScoresFromOwnSlots(rows: seq<Row>, modes: Modes, source: Source, bank: BankId, network: Network,
      customer: Option<CustomerId>, i: nat)
    requires AtMostOneActive(rows)
    ensures ResolveScoringSource(rows, modes, source, bank, network, customer) == Some(i) <==>
            var isGlobal := customer.Some? && (customer.value, network) in modes
                            && modes[(customer.value, network)] == GLOBAL;
            var usesOwn := customer.Some? && !isGlobal;
            var own := usesOwn
                       && exists j :: 0 <= j < |rows| && IsActiveIn(rows[j], network, OfCustomer(customer.value));
            var slot := if own then OfCustomer(customer.value) else if source == PRIVATE then OfBank(bank) else Shared;
            i < |rows| && IsActiveIn(rows[i], network, slot)
  {
    hide ActiveRow;
    ActiveRowIs(rows, network, Shared, i);
    ActiveRowIs(rows, network, OfBank(bank), i);
    if customer.Some? {
      ActiveRowIs(rows, network, OfCustomer(customer.value), i);
    }
  }
}
