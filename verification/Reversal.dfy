/** Backing out a bulk upload: every group of records it created, one transaction a group. */
module Reversal {
  import opened Wrappers
  import Decisions

  datatype Resource = ISSUED_ITEM | MEMBERSHIP | PAID_ITEM | CHECK_IMAGE | RECORD_ONLY

  /** What an upload created; records of one line of the file share it. */
  datatype Record = Record(resource: Resource, id: int, line: string, reversed: bool)

  datatype IssuedStatus = OUTSTANDING | PAID | VOIDED | STOPPED | STALE
  datatype MatchStatus = PENDING | MATCHED | EXCEPTION

  datatype Issued = Issued(status: IssuedStatus, customer: Option<int>)
  datatype Paid = Paid(matching: MatchStatus, issued: Option<int>, customer: Option<int>)

  /** `cases` holds the settlement of paid items and their exceptions. */
  datatype Db = Db(issued: map<int, Issued>, members: map<int, bool>, paid: map<int, Paid>, cases: Decisions.World)

  datatype Refusal =
    | NoLongerExists | AlreadyVoided | AlreadyPaid | AlreadyDeactivated | AlreadyBackedOut | ProcessedAsReturn | TwoRows

  datatype Note = Nothing | LinkedItemChanged | ExceptionLeftAs(status: Decisions.Status)

  predicate Sees(scope: Option<int>, customer: Option<int>) {
    scope.Some? ==> customer == scope
  }

  // ---- One resource ----

  function BackOutIssued(db: Db, scope: Option<int>, id: int): Result<Db, Refusal> {
    if id !in db.issued || !Sees(scope, db.issued[id].customer) then Failure(NoLongerExists)
    else if db.issued[id].status == VOIDED then Failure(AlreadyVoided)
    else if db.issued[id].status == PAID then Failure(AlreadyPaid)
    else Success(db.(issued := db.issued[id := db.issued[id].(status := VOIDED)]))
  }

  function BackOutMembership(db: Db, id: int): Result<Db, Refusal> {
    if id !in db.members then Failure(NoLongerExists)
    else if !db.members[id] then Failure(AlreadyDeactivated)
    else Success(db.(members := db.members[id := false]))
  }

  /** The linked issued item is put back only if nothing else has changed it. */
  predicate Releases(db: Db, scope: Option<int>, link: int) {
    link in db.issued && Sees(scope, db.issued[link].customer) && db.issued[link].status == PAID
  }

  function BackOutPaid(db: Db, scope: Option<int>, id: int): Result<Db, Refusal> {
    if id !in db.paid || id !in db.cases.checks || !Sees(scope, db.paid[id].customer) then Failure(NoLongerExists)
    else if db.cases.checks[id] == Decisions.REVERSED then Failure(AlreadyBackedOut)
    else if db.cases.checks[id] == Decisions.SETTLED_RETURNED then Failure(ProcessedAsReturn)
    else
      var item := db.paid[id];
      if item.matching == EXCEPTION then
        if Decisions.TwoExceptions(db.cases, id) then Failure(TwoRows)
        else Success(db.(cases := Decisions.AfterBackOut(db.cases, id)))
      else
        var link := item.issued;
        var released := if item.matching == MATCHED && link.Some? && Releases(db, scope, link.value)
                        then db.issued[link.value := db.issued[link.value].(status := OUTSTANDING)] else db.issued;
        Success(db.(issued := released, cases := db.cases.(checks := db.cases.checks[id := Decisions.REVERSED])))
  }

  function BackOutResource(db: Db, scope: Option<int>, r: Record): Result<Db, Refusal> {
    match r.resource
    case ISSUED_ITEM => BackOutIssued(db, scope, r.id)
    case MEMBERSHIP => BackOutMembership(db, r.id)
    case PAID_ITEM => BackOutPaid(db, scope, r.id)
    case _ => Success(db)
  }

  predicate IsBackedOut(db: Db, r: Record) {
    match r.resource
    case ISSUED_ITEM => r.id in db.issued && db.issued[r.id].status == VOIDED
    case MEMBERSHIP => r.id in db.members && !db.members[r.id]
    case PAID_ITEM => r.id in db.cases.checks && db.cases.checks[r.id] == Decisions.REVERSED
    case _ => true
  }

  /** The note that goes with a paid item's back-out: a linked item or an exception that had
      moved on and was left as it was. */
  ghost predicate NoteIs(db: Db, scope: Option<int>, id: int, note: Note)
    requires id in db.paid
  {
    var item, all := db.paid[id], db.cases.exceptions;
    if item.matching == MATCHED && item.issued.Some? then
      note == if Releases(db, scope, item.issued.value) then Nothing else LinkedItemChanged
    else if item.matching == EXCEPTION then
      && note != LinkedItemChanged
      && (note.ExceptionLeftAs? ==>
            exists e :: e in all && IsCheckOf(all[e], id) && all[e].status == note.status
                && !Decisions.IsUndecided(note.status))
      && (note == Nothing ==> forall e :: e in all && IsCheckOf(all[e], id) ==> Decisions.IsUndecided(all[e].status))
    else note == Nothing
  }

  predicate IsCheckOf(e: Decisions.Exc, id: int) {
    e.network == Decisions.CHECK && e.item == id
  }

  /** There is one such note: it says that the linked item was no longer paid, or out of reach; or
      names the status of the item's one exception, if that was neither open nor pending. */
  lemma NoteMeans(db: Db, scope: Option<int>, id: int, note: Note, e: Decisions.ExcId)
    requires id in db.paid && NoteIs(db, scope, id, note) && !Decisions.TwoExceptions(db.cases, id)
    requires e in db.cases.exceptions && db.cases.exceptions[e].network == Decisions.CHECK
    requires db.cases.exceptions[e].item == id
    ensures var item, status := db.paid[id], db.cases.exceptions[e].status;
            if item.matching == MATCHED && item.issued.Some? then
              var j := item.issued.value;
              note == if && j in db.issued && (scope == None || db.issued[j].customer == scope)
                         && db.issued[j].status == PAID then Nothing else LinkedItemChanged
            else if item.matching == EXCEPTION then
              note == if status in {Decisions.OPEN, Decisions.PENDING_APPROVAL} then Nothing
                      else ExceptionLeftAs(status)
            else note == Nothing
  {
    assert IsCheckOf(db.cases.exceptions[e], id);
    if note.ExceptionLeftAs? && db.paid[id].matching == EXCEPTION {
      var x :| x in db.cases.exceptions && IsCheckOf(db.cases.exceptions[x], id)
               && db.cases.exceptions[x].status == note.status;
      assert x == e;
    }
  }

  /** What a back-out does to an issued item: voids the one named, unless paid; puts a paid one
      back that the reversed paid item is linked to; leaves every other alone. */
  lemma IssuedAfter(db: Db, scope: Option<int>, r: Record, j: int)
    requires BackOutResource(db, scope, r).Success? && j in db.issued
    ensures var now := BackOutResource(db, scope, r).value.issued;
            && now.Keys == db.issued.Keys && now[j].customer == db.issued[j].customer
            && now[j].status == (
                 if r.resource.ISSUED_ITEM? && r.id == j then VOIDED
                 else if r.resource.PAID_ITEM? && db.paid[r.id].matching == MATCHED && db.paid[r.id].issued == Some(j)
                   && (scope == None || db.issued[j].customer == scope) && db.issued[j].status == PAID then OUTSTANDING
                 else db.issued[j].status)
    ensures r.resource.ISSUED_ITEM? && r.id == j ==> db.issued[j].status !in {PAID, VOIDED}
  {
    hide Decisions.TwoExceptions, Decisions.AfterBackOut;
  }

  /** What else it changes: a membership ends, a paid item is reversed and, if it was an exception,
      its open and pending exceptions are withdrawn. Images and bare records change nothing. */
  lemma RestAfter(db: Db, scope: Option<int>, r: Record)
    requires BackOutResource(db, scope, r).Success?
    ensures var now := BackOutResource(db, scope, r).value;
            && now.members == (if r.resource.MEMBERSHIP? then db.members[r.id := false] else db.members)
            && now.paid == db.paid
            && (if r.resource.PAID_ITEM?
                then && now.cases.checks == db.cases.checks[r.id := Decisions.REVERSED]
                     && now.cases.exceptions.Keys == db.cases.exceptions.Keys
                     && forall e :: e in db.cases.exceptions ==>
                          var x := db.cases.exceptions[e];
                          now.cases.exceptions[e] ==
                          if db.paid[r.id].matching == EXCEPTION && x.network == Decisions.CHECK && x.item == r.id
                             && x.status in {Decisions.OPEN, Decisions.PENDING_APPROVAL}
                          then x.(status := Decisions.WITHDRAWN) else x
                else now.cases == db.cases)
            && (r.resource.CHECK_IMAGE? || r.resource.RECORD_ONLY? ==> now == db)
  {
  }

  /** Why a resource is left as it is. */
  lemma RefusalsAre(db: Db, scope: Option<int>, r: Record)
    ensures var told := BackOutResource(db, scope, r);
            && (r.resource.ISSUED_ITEM? ==>
                  var seen := r.id in db.issued && (scope == None || db.issued[r.id].customer == scope);
                  && (told == Failure(NoLongerExists) <==> !seen)
                  && (told == Failure(AlreadyVoided) <==> seen && db.issued[r.id].status == VOIDED)
                  && (told == Failure(AlreadyPaid) <==> seen && db.issued[r.id].status == PAID)
                  && (told.Failure? ==> told.error in {NoLongerExists, AlreadyVoided, AlreadyPaid}))
            && (r.resource.MEMBERSHIP? ==>
                  && (told == Failure(NoLongerExists) <==> r.id !in db.members)
                  && (told == Failure(AlreadyDeactivated) <==> r.id in db.members && !db.members[r.id])
                  && (told.Failure? ==> told.error in {NoLongerExists, AlreadyDeactivated}))
            && (r.resource.CHECK_IMAGE? || r.resource.RECORD_ONLY? ==> told.Success?)
  {
  }

  lemma PaidRefusalsAre(db: Db, scope: Option<int>, r: Record)
    requires r.resource.PAID_ITEM? && Decisions.Inv(db.cases)
    ensures var told := BackOutResource(db, scope, r);
            var seen := && r.id in db.paid && r.id in db.cases.checks
                        && (scope == None || db.paid[r.id].customer == scope);
            && (told == Failure(NoLongerExists) <==> !seen)
            && (told == Failure(AlreadyBackedOut) <==> seen && db.cases.checks[r.id] == Decisions.REVERSED)
            && (told == Failure(ProcessedAsReturn) <==> seen && db.cases.checks[r.id] == Decisions.SETTLED_RETURNED)
            && (told.Failure? ==> told.error in {NoLongerExists, AlreadyBackedOut, ProcessedAsReturn})
  {
    hide Decisions.Inv, Decisions.TwoExceptions, Decisions.AfterBackOut;
    if r.id in db.cases.checks && db.cases.checks[r.id] != Decisions.SETTLED_RETURNED {
      Decisions.LookupMeetsOne(db.cases, r.id);
    }
  }

  // ---- Groups ----

  /** The labels in the order they first appear. */
  function Labels(records: seq<Record>): seq<string> {
    if records == [] then []
    else
      var n := |records| - 1;
      var before := Labels(records[..n]);
      if records[n].line in before then before else before + [records[n].line]
  }

  /** The first record of the group that is not an image, if there is one. */
  function FirstOf(records: seq<Record>, line: string, images: bool): (found: Option<nat>)
    ensures found.Some? ==>
            found.value < |records| && records[found.value].line == line
                && (images || !records[found.value].resource.CHECK_IMAGE?)
    ensures found.None? ==>
            forall i :: 0 <= i < |records| && records[i].line == line ==> !images && records[i].resource.CHECK_IMAGE?
  {
    if records == [] then None
    else
      var n := |records| - 1;
      var before := FirstOf(records[..n], line, images);
      if before.Some? then before
      else if records[n].line == line && (images || !records[n].resource.CHECK_IMAGE?) then Some(n) else None
  }

  function Driver(records: seq<Record>, line: string): (found: Option<nat>)
    ensures found.Some? ==> found.value < |records| && records[found.value].line == line
  {
    var found := FirstOf(records, line, false);
    if found.Some? then found else FirstOf(records, line, true)
  }

  function Marked(records: seq<Record>, line: string): (after: seq<Record>)
    ensures |after| == |records|
    ensures forall i :: 0 <= i < |records| ==>
              after[i] == if records[i].line == line then records[i].(reversed := true) else records[i]
  {
    if records == [] then []
    else
      var n := |records| - 1;
      Marked(records[..n], line) + [if records[n].line == line then records[n].(reversed := true) else records[n]]
  }

  datatype State = State(db: Db, records: seq<Record>)

  function Outcome(s: State, scope: Option<int>, line: string): Result<Db, Refusal> {
    var driver := Driver(s.records, line);
    if driver.None? then Failure(NoLongerExists) else BackOutResource(s.db, scope, s.records[driver.value])
  }

  /** One group as one transaction; a refused group changes nothing. */
  function Group(s: State, scope: Option<int>, line: string): State {
    var outcome := Outcome(s, scope, line);
    if outcome.Success? then State(outcome.value, Marked(s.records, line)) else s
  }

  function Groups(s: State, scope: Option<int>, labels: seq<string>): State {
    if labels == [] then s else Group(Groups(s, scope, labels[..|labels| - 1]), scope, labels[|labels| - 1])
  }

  datatype RowResult = RowResult(line: string, success: bool)

  function Results(s: State, scope: Option<int>, labels: seq<string>): (r: seq<RowResult>)
    ensures |r| == |labels|
  {
    if labels == [] then []
    else
      var n := |labels| - 1;
      Results(s, scope, labels[..n])
      + [RowResult(labels[n], Outcome(Groups(s, scope, labels[..n]), scope, labels[n]).Success?)]
  }

  // ---- The service ----

  class Upload {
    var db: Db
    var records: seq<Record>
    var committed: State
    var backedOut: bool

    ghost predicate Settled()
      reads this
    {
      committed == State(db, records)
    }

    method Commit()
      modifies this`committed
      ensures Settled()
    { committed := State(db, records); }

    method Rollback()
      modifies this`db, this`records
      ensures Settled() && db == committed.db && records == committed.records
    { db, records := committed.db, committed.records; }

    method BackOutPaidItem(scope: Option<int>, id: int) returns (refusal: Option<Refusal>, note: Note)
      modifies this`db
      ensures var spec := BackOutPaid(old(db), scope, id);
              if spec.Success? then refusal.None? && db == spec.value else refusal == Some(spec.error)
      ensures refusal.None? ==> id in old(db).paid && NoteIs(old(db), scope, id, note)
    {
      note := Nothing;
      if id !in db.paid || id !in db.cases.checks || !Sees(scope, db.paid[id].customer) {
        return Some(NoLongerExists), Nothing;
      }
      if db.cases.checks[id] == Decisions.REVERSED { return Some(AlreadyBackedOut), Nothing; }
      if db.cases.checks[id] == Decisions.SETTLED_RETURNED { return Some(ProcessedAsReturn), Nothing; }
      var item := db.paid[id];
      if item.matching == MATCHED && item.issued.Some? {
        var link := item.issued.value;
        if link in db.issued && Sees(scope, db.issued[link].customer) && db.issued[link].status == PAID {
          db := db.(issued := db.issued[link := db.issued[link].(status := OUTSTANDING)]);
        } else {
          note := LinkedItemChanged;
        }
      } else if item.matching == EXCEPTION {
        if Decisions.TwoExceptions(db.cases, id) { return Some(TwoRows), Nothing; }
        if e :| e in db.cases.exceptions && IsCheckOf(db.cases.exceptions[e], id) {
          var status := db.cases.exceptions[e].status;
          if !Decisions.IsUndecided(status) { note := ExceptionLeftAs(status); }
        }
        db := db.(cases := db.cases.(exceptions := Decisions.WithdrawnIfOpen(db.cases.exceptions, id)));
      }
      db := db.(cases := db.cases.(checks := db.cases.checks[id := Decisions.REVERSED]));
      return None, note;
    }

    method BackOutOne(scope: Option<int>, driver: Record) returns (refusal: Option<Refusal>)
      modifies this`db
      ensures var spec := BackOutResource(old(db), scope, driver);
              if spec.Success? then refusal.None? && db == spec.value else refusal == Some(spec.error)
    {
      var id := driver.id;
      match driver.resource
      {
        case ISSUED_ITEM =>
          if id !in db.issued || !Sees(scope, db.issued[id].customer) { return Some(NoLongerExists); }
          if db.issued[id].status == VOIDED { return Some(AlreadyVoided); }
          if db.issued[id].status == PAID { return Some(AlreadyPaid); }
          db := db.(issued := db.issued[id := db.issued[id].(status := VOIDED)]);
        case MEMBERSHIP =>
          if id !in db.members { return Some(NoLongerExists); }
          if !db.members[id] { return Some(AlreadyDeactivated); }
          db := db.(members := db.members[id := false]);
        case PAID_ITEM =>
          var note;
          refusal, note := BackOutPaidItem(scope, id);
          return;
        case _ =>
      }
      return None;
    }

    /** One group: commit what its driver's step did and mark every record, or undo it all. */
    method BackOutLine(scope: Option<int>, line: string) returns (ok: bool)
      requires Settled()
      modifies this`db, this`records, this`committed
      ensures Settled() && committed == Group(old(committed), scope, line)
      ensures ok == Outcome(old(committed), scope, line).Success?
    {
      hide BackOutResource;
      var driver := Driver(records, line);
      if driver.None? { return false; }
      var refusal := BackOutOne(scope, records[driver.value]);
      if refusal.Some? {
        Rollback();
        return false;
      }
      records := Marked(records, line);
      Commit();
      return true;
    }

    method BackOutUpload(scope: Option<int>) returns (results: Option<seq<RowResult>>)
      requires Settled()
      modifies this
      ensures Settled()
      ensures results.None? <==> old(backedOut) || old(records) == []
      ensures results.None? ==> db == old(db) && records == old(records) && backedOut == old(backedOut)
      ensures results.Some? ==>
                var was := State(old(db), old(records));
                && committed == Groups(was, scope, Labels(was.records))
                && results.value == Results(was, scope, Labels(was.records))
                && backedOut
    {
      hide Group, Outcome;
      if backedOut { return None; }
      if records == [] { return None; }
      ghost var was := State(db, records);

      var labels: seq<string> := [];
      for i := 0 to |records|
        invariant labels == Labels(records[..i]) && db == was.db && records == was.records && Settled()
      {
        assert records[..i + 1][..i] == records[..i];
        if records[i].line !in labels { labels := labels + [records[i].line]; }
      }
      assert records[..|records|] == records;

      var rows: seq<RowResult> := [];
      for k := 0 to |labels|
        invariant Settled() && committed == Groups(was, scope, labels[..k])
        invariant rows == Results(was, scope, labels[..k])
      {
        assert labels[..k + 1][..k] == labels[..k];
        var ok := BackOutLine(scope, labels[k]);
        rows := rows + [RowResult(labels[k], ok)];
      }
      assert labels[..|labels|] == labels;
      backedOut := true;
      return Some(rows);
    }
  }

  // ---- One result a line ----

  /** Every line of the file has exactly one result. */
  lemma {:induction false} LabelsAreDistinct(records: seq<Record>)
    ensures forall i, j :: 0 <= i < j < |Labels(records)| ==> Labels(records)[i] != Labels(records)[j]
    ensures forall l :: l in Labels(records) <==> exists i :: 0 <= i < |records| && records[i].line == l
  {
    if records != [] {
      var n := |records| - 1;
      LabelsAreDistinct(records[..n]);
      forall l ensures l in Labels(records) <==> exists i :: 0 <= i < |records| && records[i].line == l {
        if l in Labels(records[..n]) {
          var i :| 0 <= i < n && records[..n][i].line == l;
          assert records[i].line == l;
        }
        if i: nat :| i < |records| && records[i].line == l {
          if i < n { assert records[..n][i].line == l; }
        }
      }
    }
  }

  // ---- Marks tell the truth ----

  predicate HasSucceeded(results: seq<RowResult>, line: string) {
    exists k :: 0 <= k < |results| && results[k] == RowResult(line, true)
  }

  predicate SameButMark(a: Record, b: Record) {
    a == b.(reversed := a.reversed)
  }

  /** After the back-out a record is marked exactly if it was before or its line succeeded. */
  lemma {:induction false} MarkedIffSucceeded(s: State, scope: Option<int>, labels: seq<string>, i: nat)
    requires i < |s.records|
    ensures var after := Groups(s, scope, labels).records;
            && |after| == |s.records| && SameButMark(after[i], s.records[i])
            && (after[i].reversed <==>
                 s.records[i].reversed || HasSucceeded(Results(s, scope, labels), s.records[i].line))
  {
    hide Outcome;
    if labels != [] {
      var n := |labels| - 1;
      MarkedIffSucceeded(s, scope, labels[..n], i);
      var before, results := Results(s, scope, labels[..n]), Results(s, scope, labels);
      assert results[..n] == before;
      forall l ensures HasSucceeded(results, l) <==> HasSucceeded(before, l) || results[n] == RowResult(l, true) {
        if HasSucceeded(before, l) {
          var k :| 0 <= k < n && before[k] == RowResult(l, true);
          assert results[k] == before[k];
        }
        if HasSucceeded(results, l) {
          var k :| 0 <= k < |results| && results[k] == RowResult(l, true);
          if k < n { assert before[k] == results[k]; }
        }
      }
    }
  }

  lemma BackOutDone(db: Db, scope: Option<int>, r: Record)
    requires BackOutResource(db, scope, r).Success?
    ensures IsBackedOut(BackOutResource(db, scope, r).value, r)
  {
    hide Decisions.TwoExceptions, Decisions.WithdrawnIfOpen;
  }

  /** Backing out one thing never brings back another. */
  lemma BackedOutStays(db: Db, scope: Option<int>, r: Record, other: Record)
    requires BackOutResource(db, scope, r).Success? && IsBackedOut(db, other)
    ensures IsBackedOut(BackOutResource(db, scope, r).value, other)
  {
    hide Decisions.TwoExceptions, Decisions.WithdrawnIfOpen;
  }

  /** What is backed out cannot be backed out again. */
  lemma BackedOutIsRefused(db: Db, scope: Option<int>, r: Record)
    requires IsBackedOut(db, r) && (r.resource.ISSUED_ITEM? || r.resource.MEMBERSHIP? || r.resource.PAID_ITEM?)
    ensures BackOutResource(db, scope, r).Failure?
  {
  }

  /** In its group, a record is the only one that is not an image. */
  predicate IsOnlyOne(records: seq<Record>, i: nat)
    requires i < |records|
  {
    && !records[i].resource.CHECK_IMAGE?
    && forall j :: 0 <= j < |records| && records[j].line == records[i].line && !records[j].resource.CHECK_IMAGE? ==>
         j == i
  }

  /** Any number of images may share its line. */
  lemma ImagesDoNotCount(records: seq<Record>, i: nat)
    requires i < |records| && !records[i].resource.CHECK_IMAGE?
    requires forall j :: 0 <= j < |records| && j != i && records[j].line == records[i].line ==>
               records[j].resource == CHECK_IMAGE
    ensures IsOnlyOne(records, i)
  {
  }

  lemma DriverIs(records: seq<Record>, i: nat)
    requires i < |records| && IsOnlyOne(records, i)
    ensures Driver(records, records[i].line) == Some(i)
  {
  }

  /** A marked record stands for something that really is backed out. */
  lemma {:induction false} MarkedIsBackedOut(s: State, scope: Option<int>, labels: seq<string>, i: nat)
    requires i < |s.records| && IsOnlyOne(s.records, i) && (s.records[i].reversed ==> IsBackedOut(s.db, s.records[i]))
    ensures var after := Groups(s, scope, labels);
            i < |after.records| && (after.records[i].reversed ==> IsBackedOut(after.db, s.records[i]))
  {
    MarkedIffSucceeded(s, scope, labels, i);
    if labels != [] {
      hide BackOutResource, IsBackedOut, Driver;
      var n := |labels| - 1;
      var before := Groups(s, scope, labels[..n]);
      MarkedIsBackedOut(s, scope, labels[..n], i);
      MarkedIffSucceeded(s, scope, labels[..n], i);
      if Outcome(before, scope, labels[n]).Success? {
        var driver := before.records[Driver(before.records, labels[n]).value];
        if labels[n] == s.records[i].line {
          forall j | 0 <= j < |s.records|
            ensures SameButMark(before.records[j], s.records[j])
          {
            MarkedIffSucceeded(s, scope, labels[..n], j);
          }
          DriverIs(before.records, i);
          BackOutDone(before.db, scope, driver);
          SameThing(Groups(s, scope, labels).db, driver, s.records[i]);
        } else if IsBackedOut(before.db, s.records[i]) {
          BackedOutStays(before.db, scope, driver, s.records[i]);
        }
      }
    }
  }

  // ---- Nothing twice ----

  lemma {:induction false} MarksDoNotLead(a: seq<Record>, b: seq<Record>, line: string, images: bool)
    requires |a| == |b| && forall i :: 0 <= i < |a| ==> SameButMark(a[i], b[i])
    ensures FirstOf(a, line, images) == FirstOf(b, line, images)
  {
    if a != [] { MarksDoNotLead(a[..|a| - 1], b[..|b| - 1], line, images); }
  }

  lemma SameDriver(s: State, scope: Option<int>, labels: seq<string>, line: string)
    ensures Driver(Groups(s, scope, labels).records, line) == Driver(s.records, line)
    ensures |Groups(s, scope, labels).records| == |s.records|
    ensures forall i :: 0 <= i < |s.records| ==> SameButMark(Groups(s, scope, labels).records[i], s.records[i])
  {
    hide Groups;
    var after := Groups(s, scope, labels).records;
    if s.records == [] {
      GroupsKeepLength(s, scope, labels);
    } else {
      MarkedIffSucceeded(s, scope, labels, 0);
    }
    forall i | 0 <= i < |s.records|
      ensures SameButMark(after[i], s.records[i])
    {
      MarkedIffSucceeded(s, scope, labels, i);
    }
    MarksDoNotLead(after, s.records, line, false);
    MarksDoNotLead(after, s.records, line, true);
  }

  lemma {:induction false} GroupsKeepLength(s: State, scope: Option<int>, labels: seq<string>)
    ensures |Groups(s, scope, labels).records| == |s.records|
  {
    if labels != [] { GroupsKeepLength(s, scope, labels[..|labels| - 1]); }
  }

  lemma {:induction false} StaysOverGroups(s: State, scope: Option<int>, labels: seq<string>, j: nat, k: nat, r: Record)
    requires j <= k <= |labels| && IsBackedOut(Groups(s, scope, labels[..j]).db, r)
    ensures IsBackedOut(Groups(s, scope, labels[..k]).db, r)
    decreases k
  {
    hide BackOutResource, IsBackedOut, Driver;
    if j < k {
      StaysOverGroups(s, scope, labels, j, k - 1, r);
      assert labels[..k][..k - 1] == labels[..k - 1];
      var before := Groups(s, scope, labels[..k - 1]);
      if Outcome(before, scope, labels[k - 1]).Success? {
        BackedOutStays(before.db, scope, before.records[Driver(before.records, labels[k - 1]).value], r);
      }
    }
  }

  /** Nothing is backed out twice, even if two lines of a file name the same thing: the second
      of them is refused. */
  lemma NothingBackedOutTwice(s: State, scope: Option<int>, labels: seq<string>, j: nat, k: nat, a: nat, b: nat)
    requires j < k < |labels| && Driver(s.records, labels[j]) == Some(a) && Driver(s.records, labels[k]) == Some(b)
    requires s.records[a].resource in {ISSUED_ITEM, MEMBERSHIP, PAID_ITEM}
    requires s.records[a].resource == s.records[b].resource && s.records[a].id == s.records[b].id
    requires Outcome(Groups(s, scope, labels[..j]), scope, labels[j]).Success?
    ensures Outcome(Groups(s, scope, labels[..k]), scope, labels[k]).Failure?
  {
    hide Driver, BackOutResource, IsBackedOut, Groups;
    var first, second := Groups(s, scope, labels[..j]), Groups(s, scope, labels[..k]);
    SameDriver(s, scope, labels[..j], labels[j]);
    SameDriver(s, scope, labels[..k], labels[k]);
    BackOutDone(first.db, scope, first.records[a]);
    OneGroupMore(s, scope, labels, j);
    StaysOverGroups(s, scope, labels, j + 1, k, first.records[a]);
    SameThing(second.db, first.records[a], second.records[b]);
    BackedOutIsRefused(second.db, scope, second.records[b]);
  }

  lemma OneGroupMore(s: State, scope: Option<int>, labels: seq<string>, j: nat)
    requires j < |labels|
    ensures Groups(s, scope, labels[..j + 1]) == Group(Groups(s, scope, labels[..j]), scope, labels[j])
  {
    assert labels[..j + 1][..j] == labels[..j];
  }

  lemma SameThing(db: Db, a: Record, b: Record)
    requires a.resource == b.resource && a.id == b.id
    ensures IsBackedOut(db, a) == IsBackedOut(db, b)
  {
  }

  // ---- The exceptions of what is backed out ----

  lemma SettlingKeepsInv(w: Decisions.World, item: int)
    requires Decisions.Inv(w) && item in w.checks && w.checks[item] != Decisions.SETTLED_RETURNED
    ensures Decisions.Inv(w.(checks := w.checks[item := Decisions.REVERSED]))
  {
    var v := w.(checks := w.checks[item := Decisions.REVERSED]);
    hide Decisions.IsReturn;
    forall e ensures Decisions.Sound(v, e) { assert Decisions.Sound(w, e); }
    forall e ensures Decisions.HasItem(v, e) { assert Decisions.HasItem(w, e); }
    forall i ensures Decisions.ReturnsAgree(v, i) { assert Decisions.ReturnsAgree(w, i); SameReturns(w, v, i); }
    forall a, b, i ensures Decisions.OneLive(v, a, b, i) { assert Decisions.OneLive(w, a, b, i); }
  }

  lemma SameReturns(w: Decisions.World, v: Decisions.World, i: int)
    requires v == w.(checks := v.checks)
    ensures forall e :: Decisions.IsReturn(v, e, i) == Decisions.IsReturn(w, e, i)
  {
  }

  lemma ResourceKeepsInv(db: Db, scope: Option<int>, r: Record)
    requires Decisions.Inv(db.cases)
    ensures var outcome := BackOutResource(db, scope, r);
            (outcome.Success? ==> Decisions.Inv(outcome.value.cases)) && outcome != Failure(TwoRows)
  {
    hide Decisions.Inv, Decisions.TwoExceptions, Decisions.AfterBackOut;
    if r.resource.PAID_ITEM? && r.id in db.paid && r.id in db.cases.checks
        && db.cases.checks[r.id] != Decisions.SETTLED_RETURNED {
      Decisions.LookupMeetsOne(db.cases, r.id);
      Decisions.StepKeepsInv(db.cases, Decisions.BackOutCheck(r.id));
      SettlingKeepsInv(db.cases, r.id);
    }
  }

  /** Over a whole back-out the exceptions stay consistent, and the lookup of a paid item's
      exception never meets two rows. */
  lemma {:induction false} BackOutKeepsInv(s: State, scope: Option<int>, labels: seq<string>)
    requires Decisions.Inv(s.db.cases)
    ensures Decisions.Inv(Groups(s, scope, labels).db.cases)
    ensures NeverTwoRows(s, scope, labels)
  {
    if labels != [] {
      hide Outcome, Group, Decisions.Inv, NeverTwoRows;
      var n := |labels| - 1;
      BackOutKeepsInv(s, scope, labels[..n]);
      GroupKeepsInv(Groups(s, scope, labels[..n]), scope, labels[n]);
      NeverTwoRowsYet(s, scope, labels);
    }
  }

  /** So no line of any back-out stops at a lookup that meets two exceptions. */
  lemma NoLookupMeetsTwo(s: State, scope: Option<int>, labels: seq<string>, k: nat)
    requires Decisions.Inv(s.db.cases) && k < |labels|
    ensures Outcome(Groups(s, scope, labels[..k]), scope, labels[k]) != Failure(TwoRows)
  {
    hide Outcome, Groups, Decisions.Inv;
    BackOutKeepsInv(s, scope, labels);
  }

  ghost predicate NeverTwoRows(s: State, scope: Option<int>, labels: seq<string>) {
    forall k :: 0 <= k < |labels| ==> Outcome(Groups(s, scope, labels[..k]), scope, labels[k]) != Failure(TwoRows)
  }

  lemma NeverTwoRowsYet(s: State, scope: Option<int>, labels: seq<string>)
    requires labels != [] && NeverTwoRows(s, scope, labels[..|labels| - 1])
    requires Outcome(Groups(s, scope, labels[..|labels| - 1]), scope, labels[|labels| - 1]) != Failure(TwoRows)
    ensures NeverTwoRows(s, scope, labels)
  {
    hide Outcome, Groups;
    var n := |labels| - 1;
    assert forall k :: 0 <= k < n ==> labels[..n][..k] == labels[..k] && labels[..n][k] == labels[k];
  }

  lemma GroupKeepsInv(s: State, scope: Option<int>, line: string)
    requires Decisions.Inv(s.db.cases)
    ensures Decisions.Inv(Group(s, scope, line).db.cases) && Outcome(s, scope, line) != Failure(TwoRows)
  {
    hide BackOutResource, Driver, Decisions.Inv;
    var driver := Driver(s.records, line);
    if driver.Some? { ResourceKeepsInv(s.db, scope, s.records[driver.value]); }
  }

  // ---- What a back-out leaves alone ----

  /** An exception is untouched, or it was undecided and is withdrawn with its paid item. */
  predicate LeftOrWithdrawn(before: Db, after: Db, e: int) {
    && (e in before.cases.exceptions <==> e in after.cases.exceptions)
    && (e in before.cases.exceptions ==>
          var was, now := before.cases.exceptions[e], after.cases.exceptions[e];
          was == now
          || (Decisions.IsUndecided(was.status) && now == was.(status := Decisions.WITHDRAWN)
               && was.network == Decisions.CHECK
              && was.item in after.cases.checks && after.cases.checks[was.item] == Decisions.REVERSED))
    && after.cases.decisions == before.cases.decisions && after.cases.ach == before.cases.ach
  }

  predicate StaysReversed(before: Db, after: Db, item: int) {
    item in before.cases.checks && before.cases.checks[item] == Decisions.REVERSED ==>
      item in after.cases.checks && after.cases.checks[item] == Decisions.REVERSED
  }

  lemma ResourceLeaves(db: Db, scope: Option<int>, r: Record, e: int, item: int)
    requires BackOutResource(db, scope, r).Success?
    ensures LeftOrWithdrawn(db, BackOutResource(db, scope, r).value, e)
            && StaysReversed(db, BackOutResource(db, scope, r).value, item)
  {
    hide Decisions.TwoExceptions;
  }

  lemma LeavesTwice(a: Db, b: Db, c: Db, e: int)
    requires LeftOrWithdrawn(a, b, e) && LeftOrWithdrawn(b, c, e)
    requires e in a.cases.exceptions ==> StaysReversed(b, c, a.cases.exceptions[e].item)
    ensures LeftOrWithdrawn(a, c, e)
  {
  }

  lemma {:induction false} BackOutLeaves(s: State, scope: Option<int>, labels: seq<string>, e: int)
    ensures LeftOrWithdrawn(s.db, Groups(s, scope, labels).db, e)
  {
    if labels != [] {
      hide BackOutResource, Driver, LeftOrWithdrawn, StaysReversed;
      var n := |labels| - 1;
      var before := Groups(s, scope, labels[..n]);
      BackOutLeaves(s, scope, labels[..n], e);
      if Outcome(before, scope, labels[n]).Success? {
        var driver := before.records[Driver(before.records, labels[n]).value];
        var item := if e in s.db.cases.exceptions then s.db.cases.exceptions[e].item else 0;
        ResourceLeaves(before.db, scope, driver, e, item);
        LeavesTwice(s.db, before.db, Groups(s, scope, labels).db, e);
      }
    } else {
      assert LeftOrWithdrawn(s.db, s.db, e);
    }
  }

  /** A back-out decides nothing, returns nothing, and withdraws only open and pending exceptions
      of paid items it reversed. */
  lemma BackOutOnlyWithdraws(s: State, scope: Option<int>, labels: seq<string>, e: int)
    ensures var was, now := s.db.cases, Groups(s, scope, labels).db.cases;
            && now.decisions == was.decisions && now.ach == was.ach
            && (e in was.exceptions <==> e in now.exceptions)
            && (e in was.exceptions && was.exceptions[e] != now.exceptions[e] ==>
                  var x := was.exceptions[e];
                  && x.status in {Decisions.OPEN, Decisions.PENDING_APPROVAL} && x.network == Decisions.CHECK
                  && now.exceptions[e] == x.(status := Decisions.WITHDRAWN)
                  && x.item in now.checks && now.checks[x.item] == Decisions.REVERSED)
  {
    hide Groups;
    BackOutLeaves(s, scope, labels, e);
  }
}
