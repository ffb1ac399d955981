/** Bulk files of issued checks: one transaction a row, over accounts and items that carry
    their owner in their own columns. */
module BulkRows {
  import opened Wrappers

  type TenantId = int
  type CustomerId = int

  /** Ids are positions: the n-th account, the n-th item. */
  datatype Account = Account(tenant: TenantId, customer: Option<CustomerId>, number: string, external: Option<string>)

  datatype Item = Item(tenant: TenantId, customer: Option<CustomerId>, account: nat, check: string, details: Details)

  datatype Details = Details(amount: real, payee: string, issued: int)

  datatype Db = Db(accounts: seq<Account>, items: seq<Item>)

  /** The fields of one line of the file; None stands for missing or unreadable. */
  datatype Row = Row(number: Option<string>, check: Option<string>, amount: Option<real>, payee: Option<string>,
      issued: Option<int>)

  datatype RowError = BadField | NoAccount | AccountNotFound | DuplicateAccount | DuplicateCheck

  /** Who uploads: a bank, and within it one customer or everybody. */
  datatype Caller = Caller(tenant: TenantId, scope: Option<CustomerId>)

  predicate Sees(who: Caller, tenant: TenantId, customer: Option<CustomerId>) {
    tenant == who.tenant && (who.scope.Some? ==> customer == who.scope)
  }

  // ---- Lookup ----

  predicate Matches(a: Account, who: Caller, key: string, external: bool) {
    Sees(who, a.tenant, a.customer) && if external then a.external == Some(key) else a.number == key
  }

  function FirstMatch(accounts: seq<Account>, who: Caller, key: string, external: bool): (found: Option<nat>)
    ensures found.Some? ==> found.value < |accounts| && Matches(accounts[found.value], who, key, external)
    ensures found.Some? ==> forall j :: 0 <= j < found.value ==> !Matches(accounts[j], who, key, external)
    ensures found.None? ==> forall j :: 0 <= j < |accounts| ==> !Matches(accounts[j], who, key, external)
  {
    if accounts == [] then None
    else
      var n := |accounts| - 1;
      var earlier := FirstMatch(accounts[..n], who, key, external);
      if earlier.Some? then earlier else if Matches(accounts[n], who, key, external) then Some(n) else None
  }

  /** The account number first, then the customer's own reference. */
  function Lookup(accounts: seq<Account>, who: Caller, key: string): Option<nat> {
    var found := FirstMatch(accounts, who, key, false);
    if found.Some? then found else FirstMatch(accounts, who, key, true)
  }

  /** Some account of the caller's bank, and of its customer if it has one, carries this key. */
  predicate HasKey(accounts: seq<Account>, who: Caller, key: string, external: bool) {
    exists i :: 0 <= i < |accounts| && accounts[i].tenant == who.tenant
        && (who.scope == None || accounts[i].customer == who.scope)
        && (if external then accounts[i].external == Some(key) else accounts[i].number == key)
  }

  /** A number is looked for among all the caller's accounts before any reference is. */
  lemma NumberComesFirst(accounts: seq<Account>, who: Caller, key: string)
    ensures var found := Lookup(accounts, who, key);
            && (found.None? <==> !HasKey(accounts, who, key, false) && !HasKey(accounts, who, key, true))
            && (found.Some? ==>
                  && found.value < |accounts| && accounts[found.value].tenant == who.tenant
                  && (who.scope.Some? ==> accounts[found.value].customer == who.scope)
                  && (accounts[found.value].number == key <==> HasKey(accounts, who, key, false))
                  && (accounts[found.value].number == key || accounts[found.value].external == Some(key)))
  {
    var number, reference := FirstMatch(accounts, who, key, false), FirstMatch(accounts, who, key, true);
    assert number.None? ==> forall j :: 0 <= j < |accounts| ==> !Matches(accounts[j], who, key, false);
    assert reference.None? ==> forall j :: 0 <= j < |accounts| ==> !Matches(accounts[j], who, key, true);
    hide FirstMatch;
    forall j | 0 <= j < |accounts|
      ensures number.None? ==> !Matches(accounts[j], who, key, false)
      ensures reference.None? ==> !Matches(accounts[j], who, key, true)
    {
    }
  }

  // ---- Inserting, under the unique constraints ----

  predicate SameAccountKey(a: Account, b: Account) {
    a.tenant == b.tenant && (a.number == b.number || (a.external.Some? && a.external == b.external))
  }

  predicate SameItemKey(a: Item, b: Item) {
    a.tenant == b.tenant && a.account == b.account && a.check == b.check
  }

  function InsertAccount(db: Db, a: Account): Result<Db, RowError> {
    if exists i :: 0 <= i < |db.accounts| && SameAccountKey(db.accounts[i], a) then Failure(DuplicateAccount)
    else Success(db.(accounts := db.accounts + [a]))
  }

  /** The account is resolved within the caller's scope and lends the item its customer. */
  function InsertItem(db: Db, who: Caller, account: nat, check: string, details: Details): Result<Db, RowError> {
    if account >= |db.accounts|
        || !Sees(who, db.accounts[account].tenant, db.accounts[account].customer) then Failure(AccountNotFound)
    else
      var item := Item(who.tenant, db.accounts[account].customer, account, check, details);
      if exists i :: 0 <= i < |db.items| && SameItemKey(db.items[i], item) then Failure(DuplicateCheck)
      else Success(db.(items := db.items + [item]))
  }

  /** The account a row names, created on the way if that was asked for. */
  function AccountFor(db: Db, who: Caller, auto: bool, number: string): Result<(Db, nat), RowError> {
    var found := Lookup(db.accounts, who, number);
    if found.Some? then Success((db, found.value))
    else if !auto then Failure(NoAccount)
    else
      var made := InsertAccount(db, Account(who.tenant, who.scope, number, None));
      if made.Failure? then Failure(made.error) else Success((made.value, |db.accounts|))
  }

  /** One row as one atomic insert. */
  function ImportRow(db: Db, who: Caller, auto: bool, row: Row): Result<Db, RowError> {
    if row.number.None? then Failure(BadField)
    else
      var account := AccountFor(db, who, auto, row.number.value);
      if account.Failure? then Failure(account.error)
      else if row.check.None? || row.amount.None? || row.payee.None? || row.issued.None? then Failure(BadField)
      else InsertItem(account.value.0, who, account.value.1, row.check.value,
          Details(row.amount.value, row.payee.value, row.issued.value))
  }

  /** The rows one after the other, a failing row counting for nothing. */
  function ImportAll(db: Db, who: Caller, auto: bool, rows: seq<Row>): Db {
    if rows == [] then db
    else
      var before := ImportAll(db, who, auto, rows[..|rows| - 1]);
      var outcome := ImportRow(before, who, auto, rows[|rows| - 1]);
      if outcome.Success? then outcome.value else before
  }

  function Outcomes(db: Db, who: Caller, auto: bool, rows: seq<Row>): (r: seq<bool>)
    ensures |r| == |rows|
  {
    if rows == [] then []
    else
      var n := |rows| - 1;
      Outcomes(db, who, auto, rows[..n]) + [ImportRow(ImportAll(db, who, auto, rows[..n]), who, auto, rows[n]).Success?]
  }

  // ---- The service: a session with a working and a committed copy ----

  class Session {
    var working: Db
    var committed: Db

    method Commit()
      modifies this
      ensures committed == old(working) && working == old(working)
    { committed := working; }

    method Rollback()
      modifies this
      ensures working == old(committed) && committed == old(committed)
    { working := committed; }

    /** On an error the working copy may be left with a new account and no item. */
    method ResolveAccount(who: Caller, auto: bool, number: string) returns (account: Result<nat, RowError>)
      modifies this`working
      ensures var spec := AccountFor(old(working), who, auto, number);
              if spec.Success? then working == spec.value.0 && account == Success(spec.value.1)
              else account == Failure(spec.error)
    {
      var found := Lookup(working.accounts, who, number);
      if found.Some? { return Success(found.value); }
      if !auto { return Failure(NoAccount); }
      var made := InsertAccount(working, Account(who.tenant, who.scope, number, None));
      if made.Failure? { return Failure(made.error); }
      account := Success(|working.accounts|);
      working := made.value;
    }

    method TryRow(who: Caller, auto: bool, row: Row) returns (error: Option<RowError>)
      modifies this`working
      ensures var spec := ImportRow(old(working), who, auto, row);
              if spec.Success? then error.None? && working == spec.value else error == Some(spec.error)
    {
      if row.number.None? { return Some(BadField); }
      var account := ResolveAccount(who, auto, row.number.value);
      if account.Failure? { return Some(account.error); }
      if row.check.None? { return Some(BadField); }
      if row.amount.None? { return Some(BadField); }
      if row.payee.None? { return Some(BadField); }
      if row.issued.None? { return Some(BadField); }
      var made := InsertItem(working, who, account.value, row.check.value,
          Details(row.amount.value, row.payee.value, row.issued.value));
      if made.Failure? { return Some(made.error); }
      working := made.value;
      return None;
    }

    method CreateIssuedItemsFromRows(who: Caller, auto: bool, rows: seq<Row>) returns (results: seq<bool>)
      requires working == committed
      modifies this
      ensures working == committed == ImportAll(old(committed), who, auto, rows)
      ensures results == Outcomes(old(committed), who, auto, rows)
    {
      results := [];
      for i := 0 to |rows|
        invariant working == committed == ImportAll(old(committed), who, auto, rows[..i])
        invariant results == Outcomes(old(committed), who, auto, rows[..i])
      {
        assert rows[..i + 1][..i] == rows[..i];
        var error := TryRow(who, auto, rows[i]);
        if error.None? {
          Commit();
        } else {
          Rollback();
        }
        results := results + [error.None?];
      }
      assert rows[..|rows|] == rows;
    }
  }

  // ---- Only the successful rows count ----

  function Successes(db: Db, who: Caller, auto: bool, rows: seq<Row>): seq<Row> {
    if rows == [] then []
    else
      var n := |rows| - 1;
      Successes(db, who, auto, rows[..n])
      + if ImportRow(ImportAll(db, who, auto, rows[..n]), who, auto, rows[n]).Success? then [rows[n]] else []
  }

  lemma PrefixOfPrefix(rows: seq<Row>, n: nat, i: nat)
    requires i <= n <= |rows|
    ensures rows[..n][..i] == rows[..i]
  {
  }

  /** A row's result says whether it brought the file one more item. */
  lemma {:induction false} ResultMeansItem(db: Db, who: Caller, auto: bool, rows: seq<Row>, i: nat)
    requires i < |rows|
    ensures Outcomes(db, who, auto, rows)[i] <==>
            |ImportAll(db, who, auto, rows[..i + 1]).items| == |ImportAll(db, who, auto, rows[..i]).items| + 1
  {
    hide ImportRow;
    var n := |rows| - 1;
    if i < n {
      ResultMeansItem(db, who, auto, rows[..n], i);
      PrefixOfPrefix(rows, n, i);
      PrefixOfPrefix(rows, n, i + 1);
    } else {
      assert rows[..n + 1] == rows;
      var before := ImportAll(db, who, auto, rows[..n]);
      if ImportRow(before, who, auto, rows[n]).Success? { OneItem(before, who, auto, rows[n]); }
    }
  }

  ghost predicate AllSucceed(db: Db, who: Caller, auto: bool, rows: seq<Row>) {
    forall i :: 0 <= i < |rows| ==> ImportRow(ImportAll(db, who, auto, rows[..i]), who, auto, rows[i]).Success?
  }

  /** A file does what its successful rows do alone, and those all succeed alone: a failing row
      leaves nothing behind, not even the account created for it. */
  lemma {:induction false} FailuresLeaveNoTrace(db: Db, who: Caller, auto: bool, rows: seq<Row>)
    ensures ImportAll(db, who, auto, rows) == ImportAll(db, who, auto, Successes(db, who, auto, rows))
    ensures AllSucceed(db, who, auto, Successes(db, who, auto, rows))
    ensures |ImportAll(db, who, auto, rows).items| == |db.items| + |Successes(db, who, auto, rows)|
  {
    hide ImportRow;
    if rows != [] {
      var n := |rows| - 1;
      FailuresLeaveNoTrace(db, who, auto, rows[..n]);
      var kept := Successes(db, who, auto, rows[..n]);
      if ImportRow(ImportAll(db, who, auto, rows[..n]), who, auto, rows[n]).Success? {
        var more := kept + [rows[n]];
        assert more[..|kept|] == kept;
        forall i | 0 <= i < |more| ensures ImportRow(ImportAll(db, who, auto, more[..i]), who, auto, more[i]).Success? {
          if i < |kept| { assert more[..i] == kept[..i]; }
        }
        OneItem(ImportAll(db, who, auto, rows[..n]), who, auto, rows[n]);
      } else {
        assert kept + [] == kept;
      }
    }
  }

  lemma OneItem(db: Db, who: Caller, auto: bool, row: Row)
    requires ImportRow(db, who, auto, row).Success?
    ensures |ImportRow(db, who, auto, row).value.items| == |db.items| + 1
  {
  }

  /** The item a row adds has the row's own check number, amount, payee and date, and stands on
      an account of that number or reference. */
  lemma RowIsStored(db: Db, who: Caller, auto: bool, row: Row)
    requires ImportRow(db, who, auto, row).Success?
    ensures var after := ImportRow(db, who, auto, row).value;
            && |after.items| == |db.items| + 1 && after.items[..|db.items|] == db.items
            && var item := after.items[|db.items|];
               && row.check == Some(item.check) && row.amount == Some(item.details.amount)
               && row.payee == Some(item.details.payee) && row.issued == Some(item.details.issued)
               && item.account < |after.accounts|
               && (row.number == Some(after.accounts[item.account].number)
                   || row.number == after.accounts[item.account].external)
  {
    NumberComesFirst(db.accounts, who, row.number.value);
    hide Lookup, HasKey;
  }

  // ---- What every run keeps ----

  /** Numbers and references are unique in a bank, check numbers in an account, and every item
      carries the bank and customer of its account. */
  ghost predicate Inv(db: Db) {
    && (forall i, j :: 0 <= i < j < |db.accounts| ==> !SameAccountKey(db.accounts[i], db.accounts[j]))
    && (forall i, j :: 0 <= i < j < |db.items| ==> !SameItemKey(db.items[i], db.items[j]))
    && (forall i :: 0 <= i < |db.items| ==> OwnedLikeAccount(db, db.items[i]))
  }

  predicate IsOwnedLike(tenant: TenantId, customer: Option<CustomerId>, a: Account) {
    tenant == a.tenant && customer == a.customer
  }

  predicate OwnedLikeAccount(db: Db, item: Item) {
    item.account < |db.accounts| && IsOwnedLike(item.tenant, item.customer, db.accounts[item.account])
  }

  lemma InsertAccountKeepsInv(db: Db, a: Account)
    requires Inv(db) && InsertAccount(db, a).Success?
    ensures Inv(InsertAccount(db, a).value)
  {
    var after := InsertAccount(db, a).value;
    forall i | 0 <= i < |after.items| ensures OwnedLikeAccount(after, after.items[i]) {
      assert OwnedLikeAccount(db, db.items[i]);
    }
  }

  lemma InsertItemKeepsInv(db: Db, who: Caller, account: nat, check: string, details: Details)
    requires Inv(db) && InsertItem(db, who, account, check, details).Success?
    ensures Inv(InsertItem(db, who, account, check, details).value)
  {
  }

  lemma RowKeepsInv(db: Db, who: Caller, auto: bool, row: Row)
    requires Inv(db) && ImportRow(db, who, auto, row).Success?
    ensures Inv(ImportRow(db, who, auto, row).value)
  {
    hide Inv, Lookup, InsertAccount, InsertItem;
    var account := AccountFor(db, who, auto, row.number.value);
    if Lookup(db.accounts, who, row.number.value).None? {
      InsertAccountKeepsInv(db, Account(who.tenant, who.scope, row.number.value, None));
    }
    InsertItemKeepsInv(account.value.0, who, account.value.1, row.check.value,
        Details(row.amount.value, row.payee.value, row.issued.value));
  }

  /** Uploads by any callers, single items and new accounts, in any order. */
  datatype Step =
    | AddAccount(account: Account)
    | AddItem(who: Caller, accountId: nat, check: string, details: Details)
    | Upload(who: Caller, auto: bool, rows: seq<Row>)

  function Next(db: Db, step: Step): Db {
    match step
    case AddAccount(a) => var made := InsertAccount(db, a); if made.Success? then made.value else db
    case AddItem(who, account, check, details) =>
      var made := InsertItem(db, who, account, check, details); if made.Success? then made.value else db
    case Upload(who, auto, rows) => ImportAll(db, who, auto, rows)
  }

  function Run(db: Db, steps: seq<Step>): Db
    decreases |steps|
  {
    if steps == [] then db else Run(Next(db, steps[0]), steps[1..])
  }

  lemma {:induction false} FileKeepsInv(db: Db, who: Caller, auto: bool, rows: seq<Row>)
    requires Inv(db)
    ensures Inv(ImportAll(db, who, auto, rows))
  {
    hide ImportRow, Inv;
    if rows != [] {
      var n := |rows| - 1;
      FileKeepsInv(db, who, auto, rows[..n]);
      var before := ImportAll(db, who, auto, rows[..n]);
      if ImportRow(before, who, auto, rows[n]).Success? { RowKeepsInv(before, who, auto, rows[n]); }
    }
  }

  lemma StepKeepsInv(db: Db, step: Step)
    requires Inv(db)
    ensures Inv(Next(db, step))
  {
    hide Inv, ImportAll, InsertAccount, InsertItem;
    match step
    case AddAccount(a) => if InsertAccount(db, a).Success? { InsertAccountKeepsInv(db, a); }
    case AddItem(who, account, check, details) =>
      if InsertItem(db, who, account, check, details).Success? { InsertItemKeepsInv(db, who, account, check, details); }
    case Upload(who, auto, rows) => FileKeepsInv(db, who, auto, rows);
  }

  lemma {:induction false} RunKeepsInv(db: Db, steps: seq<Step>)
    requires Inv(db)
    ensures Inv(Run(db, steps))
    decreases |steps|
  {
    if steps != [] {
      hide Inv, Next;
      StepKeepsInv(db, steps[0]);
      RunKeepsInv(Next(db, steps[0]), steps[1..]);
    }
  }

  /** In every reachable state: two accounts of a bank differ in number, and in reference if they
      have one; two items of an account differ in check number; an item has the owner of its
      account. */
  lemma ReachableRows(steps: seq<Step>)
    ensures var db := Run(Db([], []), steps);
            && (forall i, j :: 0 <= i < j < |db.accounts| && db.accounts[i].tenant == db.accounts[j].tenant ==>
                 && db.accounts[i].number != db.accounts[j].number
                 && (db.accounts[i].external == None || db.accounts[i].external != db.accounts[j].external))
            && (forall i, j :: 0 <= i < j < |db.items| && db.items[i].account == db.items[j].account ==>
                 db.items[i].check != db.items[j].check)
            && (forall i :: 0 <= i < |db.items| ==>
                 && db.items[i].account < |db.accounts|
                 && db.items[i].tenant == db.accounts[db.items[i].account].tenant
                 && db.items[i].customer == db.accounts[db.items[i].account].customer)
  {
    hide Run;
    RunKeepsInv(Db([], []), steps);
    var db := Run(Db([], []), steps);
    forall i | 0 <= i < |db.items| ensures OwnedLikeAccount(db, db.items[i]) {}
    forall i, j | 0 <= i < j < |db.items| ensures !SameItemKey(db.items[i], db.items[j]) {}
    forall i, j | 0 <= i < j < |db.accounts| ensures !SameAccountKey(db.accounts[i], db.accounts[j]) {}
  }

  // ---- A caller stays within its scope ----

  /** `after` is `before` with rows added at the end, all of them within the caller's scope. */
  ghost predicate AddsOnlyIn(before: Db, after: Db, who: Caller) {
    && before.accounts <= after.accounts && before.items <= after.items
    && (forall i :: |before.accounts| <= i < |after.accounts| ==>
          after.accounts[i].tenant == who.tenant && after.accounts[i].customer == who.scope)
    && (forall i :: |before.items| <= i < |after.items| ==>
          && after.items[i].tenant == who.tenant && (who.scope == None || after.items[i].customer == who.scope)
          && OwnedLikeAccount(after, after.items[i]))
  }

  lemma RowAddsInScope(db: Db, who: Caller, auto: bool, row: Row)
    requires ImportRow(db, who, auto, row).Success?
    ensures AddsOnlyIn(db, ImportRow(db, who, auto, row).value, who)
  {
    hide Lookup;
  }

  lemma AddsOnlyTwice(a: Db, b: Db, c: Db, who: Caller)
    requires AddsOnlyIn(a, b, who) && AddsOnlyIn(b, c, who)
    ensures AddsOnlyIn(a, c, who)
  {
    forall i | |a.items| <= i < |c.items|
      ensures c.items[i].tenant == who.tenant && (who.scope == None || c.items[i].customer == who.scope)
      ensures OwnedLikeAccount(c, c.items[i])
    {
      if i < |b.items| { assert c.items[i] == b.items[i] && OwnedLikeAccount(b, b.items[i]); }
    }
  }

  lemma {:induction false} FileAdds(db: Db, who: Caller, auto: bool, rows: seq<Row>)
    ensures AddsOnlyIn(db, ImportAll(db, who, auto, rows), who)
  {
    if rows != [] {
      hide ImportRow, AddsOnlyIn;
      var n := |rows| - 1;
      var before := ImportAll(db, who, auto, rows[..n]);
      FileAdds(db, who, auto, rows[..n]);
      if ImportRow(before, who, auto, rows[n]).Success? {
        RowAddsInScope(before, who, auto, rows[n]);
        AddsOnlyTwice(db, before, ImportRow(before, who, auto, rows[n]).value, who);
      }
    }
  }

  /** A file changes and removes nothing, and adds accounts and items only for its uploader's
      bank and customer. */
  lemma FileAddsInScope(db: Db, who: Caller, auto: bool, rows: seq<Row>)
    ensures var after := ImportAll(db, who, auto, rows);
            && db.accounts <= after.accounts && db.items <= after.items
            && (forall i :: |db.accounts| <= i < |after.accounts| ==>
                 after.accounts[i].tenant == who.tenant && after.accounts[i].customer == who.scope)
            && (forall i :: |db.items| <= i < |after.items| ==>
                 && after.items[i].tenant == who.tenant
                 && (who.scope.Some? ==> after.items[i].customer == who.scope))
  {
    hide ImportAll;
    FileAdds(db, who, auto, rows);
  }

  // ---- The same file again ----

  lemma LookupAppended(accounts: seq<Account>, a: Account, who: Caller, key: string)
    ensures Lookup(accounts, who, key).Some? && a.number != key ==>
            Lookup(accounts + [a], who, key) == Lookup(accounts, who, key)
    ensures Lookup(accounts, who, key).None? && a.number != key && a.external.None? ==>
            Lookup(accounts + [a], who, key).None?
    ensures Lookup(accounts, who, key).None? && a.number == key && Sees(who, a.tenant, a.customer) ==>
              Lookup(accounts + [a], who, key) == Some(|accounts|)
  {
    assert (accounts + [a])[..|accounts|] == accounts;
  }

  /** What an imported row leaves behind. */
  lemma RowLeaves(db: Db, who: Caller, auto: bool, row: Row)
    requires ImportRow(db, who, auto, row).Success?
    ensures var after := ImportRow(db, who, auto, row).value;
            && row.number.Some? && row.check.Some?
            && db.items <= after.items
            && (after.accounts == db.accounts
                || (auto && Lookup(db.accounts, who, row.number.value).None?
                    && (forall i :: 0 <= i < |db.accounts| ==>
                         !SameAccountKey(db.accounts[i], after.accounts[|db.accounts|]))
                    && after.accounts == db.accounts + [Account(who.tenant, who.scope, row.number.value, None)]))
            && Lookup(after.accounts, who, row.number.value) == Some(after.items[|db.items|].account)
            && |after.items| == |db.items| + 1
            && after.items[|db.items|].tenant == who.tenant && after.items[|db.items|].check == row.check.value
  {
    hide Lookup;
    LookupAppended(db.accounts, Account(who.tenant, who.scope, row.number.value, None), who, row.number.value);
  }

  predicate HasCheck(db: Db, tenant: TenantId, account: nat, check: string) {
    exists i :: 0 <= i < |db.items| && db.items[i].tenant == tenant && db.items[i].account == account
        && db.items[i].check == check
  }

  predicate HasNumber(db: Db, tenant: TenantId, number: string) {
    exists i :: 0 <= i < |db.accounts| && db.accounts[i].tenant == tenant && db.accounts[i].number == number
  }

  /** Why a row is refused, in terms that later rows of the same upload cannot change. */
  predicate Blocked(db: Db, who: Caller, auto: bool, row: Row) {
    || row.number.None?
    || row.check.None? || row.amount.None? || row.payee.None? || row.issued.None?
    || (var found := Lookup(db.accounts, who, row.number.value);
        if found.Some? then HasCheck(db, who.tenant, found.value, row.check.value)
        else !auto || HasNumber(db, who.tenant, row.number.value))
  }

  lemma BlockedIsRefused(db: Db, who: Caller, auto: bool, row: Row)
    requires Inv(db)
    ensures ImportRow(db, who, auto, row).Failure? <==> Blocked(db, who, auto, row)
  {
    hide FirstMatch;
    if row.number.Some? {
      var found := Lookup(db.accounts, who, row.number.value);
      if found.Some? {
        LookupSees(db.accounts, who, row.number.value);
        if row.check.Some? && row.amount.Some? && row.payee.Some? && row.issued.Some? {
          FoundRefused(db, who, found.value, row.check.value,
              Details(row.amount.value, row.payee.value, row.issued.value));
        }
      } else if auto {
        MadeRefused(db, who, row);
      }
    }
  }

  lemma LookupSees(accounts: seq<Account>, who: Caller, key: string)
    ensures var found := Lookup(accounts, who, key);
            found.Some? ==>
                found.value < |accounts| && Sees(who, accounts[found.value].tenant, accounts[found.value].customer)
  {
  }

  lemma FoundRefused(db: Db, who: Caller, account: nat, check: string, details: Details)
    requires account < |db.accounts| && Sees(who, db.accounts[account].tenant, db.accounts[account].customer)
    ensures InsertItem(db, who, account, check, details).Failure? <==> HasCheck(db, who.tenant, account, check)
  {
  }

  lemma MadeRefused(db: Db, who: Caller, row: Row)
    requires Inv(db) && row.number.Some? && Lookup(db.accounts, who, row.number.value).None?
    ensures ImportRow(db, who, true, row).Failure? <==> Blocked(db, who, true, row)
  {
    hide Lookup;
    var a := Account(who.tenant, who.scope, row.number.value, None);
    if InsertAccount(db, a).Success? {
      var made := InsertAccount(db, a).value;
      forall i | 0 <= i < |made.items|
        ensures made.items[i].account != |db.accounts|
      {
        assert OwnedLikeAccount(db, db.items[i]);
      }
      if row.check.Some? { assert !HasCheck(made, who.tenant, |db.accounts|, row.check.value); }
    }
  }

  /** What a refused row is told. A missing field is noticed after the account was looked for,
      and the account is never out of the caller's reach. */
  lemma RefusalReasons(db: Db, who: Caller, auto: bool, row: Row)
    requires Inv(db) && ImportRow(db, who, auto, row).Failure?
    ensures var told := ImportRow(db, who, auto, row).error;
            var lacks := row.check.None? || row.amount.None? || row.payee.None? || row.issued.None?;
            if row.number.None? then told == BadField
            else if Lookup(db.accounts, who, row.number.value).Some? then
              told == if lacks then BadField else DuplicateCheck
            else if !auto then told == NoAccount
            else told == if HasNumber(db, who.tenant, row.number.value) then DuplicateAccount else BadField
  {
    hide FirstMatch;
    if row.number.Some? {
      LookupSees(db.accounts, who, row.number.value);
      if Lookup(db.accounts, who, row.number.value).None? && auto { MadeRefused(db, who, row); }
    }
  }

  /** A single item is refused for its account exactly if that is unknown or out of reach. */
  lemma ItemIsRefused(db: Db, who: Caller, account: nat, check: string, details: Details)
    ensures InsertItem(db, who, account, check, details) == Failure(AccountNotFound) <==>
            !(&& account < |db.accounts| && db.accounts[account].tenant == who.tenant
              && (who.scope == None || db.accounts[account].customer == who.scope))
    ensures InsertItem(db, who, account, check, details).Failure? ==>
              InsertItem(db, who, account, check, details).error in {AccountNotFound, DuplicateCheck}
  {
  }

  lemma ImportedIsBlocked(db: Db, who: Caller, auto: bool, row: Row)
    requires ImportRow(db, who, auto, row).Success?
    ensures Blocked(ImportRow(db, who, auto, row).value, who, auto, row)
  {
    hide Lookup, ImportRow;
    RowLeaves(db, who, auto, row);
  }

  lemma BlockedStays(db: Db, who: Caller, auto: bool, row: Row, later: Row)
    requires Blocked(db, who, auto, row) && ImportRow(db, who, auto, later).Success?
    ensures Blocked(ImportRow(db, who, auto, later).value, who, auto, row)
  {
    hide Lookup, ImportRow;
    RowLeaves(db, who, auto, later);
    var after := ImportRow(db, who, auto, later).value;
    if row.number.Some? && row.check.Some? {
      var found := Lookup(db.accounts, who, row.number.value);
      if after.accounts != db.accounts {
        LookupAppended(db.accounts, Account(who.tenant, who.scope, later.number.value, None), who, row.number.value);
      }
      if found.Some? && HasCheck(db, who.tenant, found.value, row.check.value) {
        CheckStays(db, after, who.tenant, found.value, row.check.value);
      }
      if HasNumber(db, who.tenant, row.number.value) {
        NumberStays(db, after, who.tenant, row.number.value);
      }
    }
  }

  lemma NumberStays(db: Db, after: Db, tenant: TenantId, number: string)
    requires db.accounts <= after.accounts && HasNumber(db, tenant, number)
    ensures HasNumber(after, tenant, number)
  {
    var i :| 0 <= i < |db.accounts| && db.accounts[i].tenant == tenant && db.accounts[i].number == number;
    assert after.accounts[i] == db.accounts[i];
  }

  lemma CheckStays(db: Db, after: Db, tenant: TenantId, account: nat, check: string)
    requires db.items <= after.items && HasCheck(db, tenant, account, check)
    ensures HasCheck(after, tenant, account, check)
  {
    var i :| 0 <= i < |db.items| && db.items[i].tenant == tenant && db.items[i].account == account
        && db.items[i].check == check;
    assert after.items[i] == db.items[i];
  }

  lemma {:induction false} FileIsBlocked(db: Db, who: Caller, auto: bool, rows: seq<Row>)
    requires Inv(db)
    ensures Inv(ImportAll(db, who, auto, rows))
    ensures forall i :: 0 <= i < |rows| ==> Blocked(ImportAll(db, who, auto, rows), who, auto, rows[i])
  {
    FileKeepsInv(db, who, auto, rows);
    if rows != [] {
      hide ImportRow, Blocked, Inv;
      var n := |rows| - 1;
      var before, after := ImportAll(db, who, auto, rows[..n]), ImportAll(db, who, auto, rows);
      FileIsBlocked(db, who, auto, rows[..n]);
      BlockedIsRefused(before, who, auto, rows[n]);
      if ImportRow(before, who, auto, rows[n]).Success? {
        ImportedIsBlocked(before, who, auto, rows[n]);
        forall i | 0 <= i < n ensures Blocked(after, who, auto, rows[i]) {
          assert rows[..n][i] == rows[i];
          BlockedStays(before, who, auto, rows[i], rows[n]);
        }
      } else {
        forall i | 0 <= i < n ensures Blocked(after, who, auto, rows[i]) { assert rows[..n][i] == rows[i]; }
      }
    }
  }

  lemma {:induction false} BlockedRowsDoNothing(db: Db, who: Caller, auto: bool, rows: seq<Row>)
    requires Inv(db) && forall i :: 0 <= i < |rows| ==> Blocked(db, who, auto, rows[i])
    ensures ImportAll(db, who, auto, rows) == db && Successes(db, who, auto, rows) == []
  {
    hide ImportRow, Blocked, Inv;
    if rows != [] {
      var n := |rows| - 1;
      forall i | 0 <= i < n ensures Blocked(db, who, auto, rows[..n][i]) { assert rows[..n][i] == rows[i]; }
      BlockedRowsDoNothing(db, who, auto, rows[..n]);
      BlockedIsRefused(db, who, auto, rows[n]);
    }
  }

  /** Uploading the same file again adds nothing: whatever failed fails again, and whatever
      succeeded is now a duplicate. */
  lemma ReuploadAddsNothing(db: Db, who: Caller, auto: bool, rows: seq<Row>)
    requires Inv(db)
    ensures var once := ImportAll(db, who, auto, rows);
            ImportAll(once, who, auto, rows) == once && Successes(once, who, auto, rows) == []
  {
    hide ImportAll, Inv, Blocked;
    FileIsBlocked(db, who, auto, rows);
    BlockedRowsDoNothing(ImportAll(db, who, auto, rows), who, auto, rows);
  }
}
