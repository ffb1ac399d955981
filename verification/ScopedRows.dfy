/** Every table whose rows carry a bank and a customer in their own columns: what a read by those
    columns answers, against what the row's account would say. */
module ScopedRows {
  import opened Wrappers
  import BulkRows

  type Caller = BulkRows.Caller

  datatype Table = ISSUED_ITEM | STOP_PAYMENT | PAID_ITEM | CHECK_IMAGE | ACH_RULE | ACH_TRANSACTION | EXCEPTION_ITEM

  /** A row of an account, a row of an earlier row, or an image uploaded for no paid item. */
  datatype Parent = OfAccount(account: nat) | OfRow(row: nat) | Loose(uploader: Caller)

  datatype Child = Child(table: Table, tenant: BulkRows.TenantId, customer: Option<BulkRows.CustomerId>, parent: Parent)

  /** Accounts and issued items are those of the bulk files; `children` are all other rows. */
  datatype Store = Store(db: BulkRows.Db, children: seq<Child>)

  const EMPTY := Store(BulkRows.Db([], []), [])

  /** Exceptions and images belong to what they are about; every other row is created under an
      account that its creator looks up in scope. */
  datatype Step =
    | Bulk(step: BulkRows.Step)
    | Create(table: Table, who: Caller, account: nat)
    | OpenException(source: nat)
    | UploadImage(who: Caller, paidItem: Option<nat>)

  predicate HasAccount(t: Table) {
    t == STOP_PAYMENT || t == PAID_ITEM || t == ACH_RULE || t == ACH_TRANSACTION
  }

  /** The row a step adds to `children`, if it is not refused. */
  function Added(s: Store, step: Step): Option<Child> {
    match step
    case Bulk(_) => None
    case Create(table, who, account) =>
      if !HasAccount(table) || account >= |s.db.accounts| then None
      else
        var a := s.db.accounts[account];
        if !BulkRows.Sees(who, a.tenant, a.customer) then None
        else Some(Child(table, who.tenant, a.customer, OfAccount(account)))
    case OpenException(source) =>
      if source >= |s.children| then None
      else
        var about := s.children[source];
        if about.table != PAID_ITEM && about.table != ACH_TRANSACTION then None
        else Some(Child(EXCEPTION_ITEM, about.tenant, about.customer, OfRow(source)))
    case UploadImage(who, paidItem) =>
      if paidItem.None? then Some(Child(CHECK_IMAGE, who.tenant, who.scope, Loose(who)))
      else if paidItem.value >= |s.children| then None
      else
        var paid := s.children[paidItem.value];
        if paid.table != PAID_ITEM || !BulkRows.Sees(who, paid.tenant, paid.customer) then None
        else Some(Child(CHECK_IMAGE, who.tenant, paid.customer, OfRow(paidItem.value)))
  }

  function Next(s: Store, step: Step): Store {
    var added := Added(s, step);
    Store(if step.Bulk? then BulkRows.Next(s.db, step.step) else s.db,
          if added.Some? then s.children + [added.value] else s.children)
  }

  function Run(s: Store, steps: seq<Step>): Store
    decreases |steps|
  {
    if steps == [] then s else Next(Run(s, steps[..|steps| - 1]), steps[|steps| - 1])
  }

  // ---- The join ----

  /** The account above a row, through as many rows as it takes; a loose image has none. */
  function AccountOf(s: Store, p: Parent, depth: nat): (a: Option<nat>)
    ensures a.Some? ==> a.value < |s.db.accounts|
    decreases depth
  {
    match p
    case OfAccount(a) => if a < |s.db.accounts| then Some(a) else None
    case OfRow(j) => if j < depth && j < |s.children| then AccountOf(s, s.children[j].parent, j) else None
    case Loose(_) => None
  }

  /** The rows of a table; those of other tables in between are skipped by every read. */
  function RowsOf(s: Store, table: Table): seq<Child> {
    if table == ISSUED_ITEM
    then seq(|s.db.items|, i requires 0 <= i < |s.db.items| =>
               Child(ISSUED_ITEM, s.db.items[i].tenant, s.db.items[i].customer, OfAccount(s.db.items[i].account)))
    else s.children
  }

  predicate Sees(who: Caller, row: Child) {
    BulkRows.Sees(who, row.tenant, row.customer)
  }

  predicate SeesByJoin(s: Store, who: Caller, row: Child, i: nat) {
    var a := AccountOf(s, row.parent, i);
    a.Some? && BulkRows.Sees(who, s.db.accounts[a.value].tenant, s.db.accounts[a.value].customer)
  }

  /** An image uploaded for no paid item, by a caller whose bank and scope the reader sees. */
  predicate SeesLoose(who: Caller, row: Child) {
    row.parent.Loose? && BulkRows.Sees(who, row.parent.uploader.tenant, row.parent.uploader.scope)
  }

  /** A row has the owner of its account, or is a loose image and has that of its uploader. */
  predicate IsOwned(s: Store, row: Child, i: nat) {
    if row.parent.Loose? then
      row.table == CHECK_IMAGE && row.tenant == row.parent.uploader.tenant && row.customer == row.parent.uploader.scope
    else
      var a := AccountOf(s, row.parent, i);
      a.Some? && BulkRows.IsOwnedLike(row.tenant, row.customer, s.db.accounts[a.value])
  }

  ghost predicate Owned(s: Store) {
    && BulkRows.Inv(s.db)
    && (forall i :: 0 <= i < |s.children| ==> IsOwned(s, s.children[i], i) && s.children[i].table != ISSUED_ITEM)
  }

  lemma {:induction false} AccountStays(s: Store, v: Store, p: Parent, depth: nat, more: nat)
    requires s.db.accounts <= v.db.accounts && s.children <= v.children && depth <= more
    requires AccountOf(s, p, depth).Some?
    ensures AccountOf(v, p, more) == AccountOf(s, p, depth)
    decreases depth
  {
    if p.OfRow? { AccountStays(s, v, s.children[p.row].parent, p.row, p.row); }
  }

  lemma OwnerStays(s: Store, v: Store, row: Child, i: nat)
    requires s.db.accounts <= v.db.accounts && s.children <= v.children && IsOwned(s, row, i)
    ensures IsOwned(v, row, i)
  {
    if !row.parent.Loose? { AccountStays(s, v, row.parent, i, i); }
  }

  lemma BulkKeepsAccounts(db: BulkRows.Db, step: BulkRows.Step)
    requires BulkRows.Inv(db)
    ensures BulkRows.Inv(BulkRows.Next(db, step)) && db.accounts <= BulkRows.Next(db, step).accounts
  {
    BulkRows.StepKeepsInv(db, step);
    hide BulkRows.Inv, BulkRows.ImportAll;
    if step.Upload? { BulkRows.FileAddsInScope(db, step.who, step.auto, step.rows); }
  }

  lemma AddedIsOwned(s: Store, v: Store, step: Step)
    requires Owned(s) && Added(s, step).Some? && s.db.accounts <= v.db.accounts && s.children <= v.children
    ensures IsOwned(v, Added(s, step).value, |s.children|) && Added(s, step).value.table != ISSUED_ITEM
  {
    hide BulkRows.Inv;
    var source := if step.OpenException? then Some(step.source) else if step.UploadImage? then step.paidItem else None;
    if source.Some? {
      var above := s.children[source.value];
      assert IsOwned(s, above, source.value);
      AccountStays(s, v, above.parent, source.value, source.value);
    }
  }

  lemma StepKeepsOwned(s: Store, step: Step)
    requires Owned(s)
    ensures Owned(Next(s, step))
  {
    var v := Next(s, step);
    if step.Bulk? { BulkKeepsAccounts(s.db, step.step); }
    if Added(s, step).Some? { AddedIsOwned(s, v, step); }
    hide BulkRows.Inv, BulkRows.Next, IsOwned, Added;
    forall i | 0 <= i < |s.children| ensures IsOwned(v, s.children[i], i) { OwnerStays(s, v, s.children[i], i); }
  }

  /** In every reachable state every row of every table has the owner of its account, but for
      loose images, which have their uploader's. */
  lemma {:induction false} RowsAreOwned(steps: seq<Step>)
    ensures Owned(Run(EMPTY, steps))
    decreases |steps|
  {
    if steps != [] {
      hide Owned, Next;
      RowsAreOwned(steps[..|steps| - 1]);
      StepKeepsOwned(Run(EMPTY, steps[..|steps| - 1]), steps[|steps| - 1]);
    }
  }

  /** The same on the columns themselves, row by row. */
  lemma OwnersMatch(steps: seq<Step>, i: nat)
    requires i < |Run(EMPTY, steps).children|
    ensures var s := Run(EMPTY, steps);
            var row := s.children[i];
            match row.parent
            case OfAccount(a) =>
              && row.table in {STOP_PAYMENT, PAID_ITEM, ACH_RULE, ACH_TRANSACTION} && a < |s.db.accounts|
              && row.tenant == s.db.accounts[a].tenant && row.customer == s.db.accounts[a].customer
            case OfRow(j) =>
              && row.table in {CHECK_IMAGE, EXCEPTION_ITEM} && j < i
              && s.children[j].table in {PAID_ITEM, ACH_TRANSACTION}
              && (row.table == CHECK_IMAGE ==> s.children[j].table == PAID_ITEM)
              && row.tenant == s.children[j].tenant && row.customer == s.children[j].customer
            case Loose(uploader) =>
              row.table == CHECK_IMAGE && row.tenant == uploader.tenant && row.customer == uploader.scope
  {
    RowsAreOwned(steps);
    ParentsFit(steps);
    var s := Run(EMPTY, steps);
    hide Run, BulkRows.Inv;
    assert IsOwned(s, s.children[i], i) && ParentFits(s, i);
    if s.children[i].parent.OfRow? {
      var j := s.children[i].parent.row;
      assert IsOwned(s, s.children[j], j);
    }
  }

  predicate ParentFits(s: Store, i: nat)
    requires i < |s.children|
  {
    var row := s.children[i];
    match row.parent
    case OfAccount(_) => row.table in {STOP_PAYMENT, PAID_ITEM, ACH_RULE, ACH_TRANSACTION}
    case OfRow(j) =>
      && j < i
      && if row.table == CHECK_IMAGE then s.children[j].table == PAID_ITEM
         else row.table == EXCEPTION_ITEM && s.children[j].table in {PAID_ITEM, ACH_TRANSACTION}
    case Loose(_) => row.table == CHECK_IMAGE
  }

  predicate AllFit(s: Store) {
    forall i :: 0 <= i < |s.children| ==> ParentFits(s, i)
  }

  lemma StepKeepsFit(s: Store, step: Step)
    requires AllFit(s)
    ensures AllFit(Next(s, step))
  {
    var v := Next(s, step);
    forall i | 0 <= i < |v.children| ensures ParentFits(v, i) {
      if i < |s.children| { assert ParentFits(s, i); }
    }
  }

  lemma {:induction false} ParentsFit(steps: seq<Step>)
    ensures AllFit(Run(EMPTY, steps))
    decreases |steps|
  {
    if steps != [] {
      hide AllFit, Next;
      ParentsFit(steps[..|steps| - 1]);
      StepKeepsFit(Run(EMPTY, steps[..|steps| - 1]), steps[|steps| - 1]);
    }
  }

  /** Which rows can be created, and by whom. */
  lemma CreationsAre(s: Store, who: Caller, table: Table, i: nat)
    ensures Added(s, Create(table, who, i)).Some? <==> (
              && table in {STOP_PAYMENT, PAID_ITEM, ACH_RULE, ACH_TRANSACTION}
              && i < |s.db.accounts| && s.db.accounts[i].tenant == who.tenant
              && (who.scope == None || s.db.accounts[i].customer == who.scope))
    ensures Added(s, Create(table, who, i)).Some? ==> Added(s, Create(table, who, i)).value.table == table
    ensures Added(s, OpenException(i)).Some? <==>
            i < |s.children| && s.children[i].table in {PAID_ITEM, ACH_TRANSACTION}
    ensures Added(s, UploadImage(who, Some(i))).Some? <==> (
              && i < |s.children| && s.children[i].table == PAID_ITEM && s.children[i].tenant == who.tenant
              && (who.scope == None || s.children[i].customer == who.scope))
  {
  }

  lemma TableIsOwned(s: Store, table: Table, i: nat)
    requires Owned(s) && i < |RowsOf(s, table)|
    ensures IsOwned(s, RowsOf(s, table)[i], i)
    ensures RowsOf(s, table)[i].parent.Loose? ==> RowsOf(s, table)[i].table == CHECK_IMAGE
  {
    if table == ISSUED_ITEM { assert BulkRows.OwnedLikeAccount(s.db, s.db.items[i]); }
  }

  // ---- The repository's reads ----

  function Get(s: Store, who: Caller, table: Table, i: nat): Option<Child> {
    var rows := RowsOf(s, table);
    if i < |rows| && rows[i].table == table && Sees(who, rows[i]) then Some(rows[i]) else None
  }

  /** A read finds the rows of its table that carry the reader's bank, and customer if it has one. */
  lemma ReadsStayInScope(s: Store, who: Caller, table: Table, i: nat)
    ensures table == ISSUED_ITEM ==>
              (Get(s, who, table, i).Some? <==> (
                 && i < |s.db.items| && s.db.items[i].tenant == who.tenant
                 && (who.scope == None || s.db.items[i].customer == who.scope)))
    ensures table != ISSUED_ITEM ==>
              (Get(s, who, table, i).Some? <==> (
                 && i < |s.children| && s.children[i].table == table && s.children[i].tenant == who.tenant
                 && (who.scope == None || s.children[i].customer == who.scope)))
  {
  }

  /** `keep` stands for any further filter. */
  function List(s: Store, who: Caller, table: Table, keep: nat -> bool, n: nat): seq<nat>
    requires n <= |RowsOf(s, table)|
  {
    if n == 0 then []
    else
      var row := RowsOf(s, table)[n - 1];
      List(s, who, table, keep, n - 1) + if row.table == table && keep(n - 1) && Sees(who, row) then [n - 1] else []
  }

  function ListByJoin(s: Store, who: Caller, table: Table, keep: nat -> bool, n: nat): seq<nat>
    requires n <= |RowsOf(s, table)|
  {
    if n == 0 then []
    else
      var row := RowsOf(s, table)[n - 1];
      ListByJoin(s, who, table, keep, n - 1)
      + if row.table == table && keep(n - 1) && SeesByJoin(s, who, row, n - 1) then [n - 1] else []
  }

  function Count(s: Store, who: Caller, table: Table, keep: nat -> bool, n: nat): nat
    requires n <= |RowsOf(s, table)|
  {
    if n == 0 then 0
    else
      var row := RowsOf(s, table)[n - 1];
      Count(s, who, table, keep, n - 1) + if row.table == table && keep(n - 1) && Sees(who, row) then 1 else 0
  }

  /** Among the first `n` rows there is a loose image that the read returns. */
  predicate ReadsLoose(s: Store, who: Caller, table: Table, keep: nat -> bool, n: nat)
    requires n <= |RowsOf(s, table)|
  {
    exists i :: 0 <= i < n && keep(i) && RowsOf(s, table)[i].table == table && SeesLoose(who, RowsOf(s, table)[i])
  }

  lemma RowSeenIff(s: Store, who: Caller, row: Child, i: nat)
    requires IsOwned(s, row, i)
    ensures Sees(who, row) <==> SeesByJoin(s, who, row, i) || SeesLoose(who, row)
    ensures !(SeesByJoin(s, who, row, i) && SeesLoose(who, row))
  {
  }

  lemma {:induction false} CountIsLength(s: Store, who: Caller, table: Table, keep: nat -> bool, n: nat)
    requires n <= |RowsOf(s, table)|
    ensures Count(s, who, table, keep, n) == |List(s, who, table, keep, n)|
  {
    hide RowsOf, Sees;
    if n > 0 { CountIsLength(s, who, table, keep, n - 1); }
  }

  lemma {:induction false} ReadsDiffer(s: Store, who: Caller, table: Table, keep: nat -> bool, n: nat)
    requires Owned(s) && n <= |RowsOf(s, table)|
    ensures |List(s, who, table, keep, n)| >= |ListByJoin(s, who, table, keep, n)|
    ensures ReadsLoose(s, who, table, keep, n) <==>
            |List(s, who, table, keep, n)| > |ListByJoin(s, who, table, keep, n)|
    ensures !ReadsLoose(s, who, table, keep, n) ==>
            List(s, who, table, keep, n) == ListByJoin(s, who, table, keep, n)
  {
    if n > 0 {
      hide Owned, RowsOf, SeesByJoin, SeesLoose, Sees, IsOwned;
      ReadsDiffer(s, who, table, keep, n - 1);
      TableIsOwned(s, table, n - 1);
      RowSeenIff(s, who, RowsOf(s, table)[n - 1], n - 1);
      LooseYet(s, who, table, keep, n);
      hide ReadsLoose;
    }
  }

  lemma LooseYet(s: Store, who: Caller, table: Table, keep: nat -> bool, n: nat)
    requires 0 < n <= |RowsOf(s, table)|
    ensures var row := RowsOf(s, table)[n - 1];
            ReadsLoose(s, who, table, keep, n) <==>
            ReadsLoose(s, who, table, keep, n - 1) || (keep(n - 1) && row.table == table && SeesLoose(who, row))
  {
    hide RowsOf, SeesLoose;
  }

  /** After any run, `get` finds a row exactly if its account is seen, or it is an image uploaded
      for no paid item by a caller whose bank and scope the reader sees. */
  lemma GetEqualsJoinOrLoose(steps: seq<Step>, who: Caller, table: Table, i: nat)
    ensures var s := Run(EMPTY, steps);
            Get(s, who, table, i).Some? <==> (
              && i < |RowsOf(s, table)| && RowsOf(s, table)[i].table == table
              && (SeesByJoin(s, who, RowsOf(s, table)[i], i) || SeesLoose(who, RowsOf(s, table)[i])))
  {
    hide Run, IsOwned;
    RowsAreOwned(steps);
    var s := Run(EMPTY, steps);
    if i < |RowsOf(s, table)| {
      TableIsOwned(s, table, i);
      RowSeenIff(s, who, RowsOf(s, table)[i], i);
    }
  }

  /** After any run, `list` and `count` on a row's own columns answer what they would through the
      row's account, for every table, caller and further filter, exactly if no such image is
      among the rows read; so for every table but the images they always do. */
  lemma ReadsEqualJoinIff(steps: seq<Step>, who: Caller, table: Table, keep: nat -> bool)
    ensures var s := Run(EMPTY, steps);
            var n := |RowsOf(s, table)|;
            && (List(s, who, table, keep, n) == ListByJoin(s, who, table, keep, n) <==>
                  !ReadsLoose(s, who, table, keep, n))
            && (Count(s, who, table, keep, n) == |ListByJoin(s, who, table, keep, n)| <==>
                  !ReadsLoose(s, who, table, keep, n))
            && (table != CHECK_IMAGE ==> !ReadsLoose(s, who, table, keep, n))
  {
    hide Run, IsOwned;
    RowsAreOwned(steps);
    var s := Run(EMPTY, steps);
    ReadsDiffer(s, who, table, keep, |RowsOf(s, table)|);
    CountIsLength(s, who, table, keep, |RowsOf(s, table)|);
    forall i | 0 <= i < |RowsOf(s, table)| && RowsOf(s, table)[i].parent.Loose?
      ensures RowsOf(s, table)[i].table == CHECK_IMAGE
    {
      TableIsOwned(s, table, i);
    }
  }

  /** One upload without a paid item is enough: its uploader reads it, and no account leads to it. */
  lemma LooseImageIsRead(who: Caller)
    ensures var s := Run(EMPTY, [UploadImage(who, None)]);
            && Get(s, who, CHECK_IMAGE, 0).Some?
            && !exists reader: Caller :: SeesByJoin(s, reader, s.children[0], 0)
  {
    var steps := [UploadImage(who, None)];
    assert steps[..0] == [];
    assert Run(EMPTY, steps) == Next(EMPTY, steps[0]);
  }
}
