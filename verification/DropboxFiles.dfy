/** Where dropped files end up: none lost, none called processed unread, some stuck. */
module DropboxFiles {
  import opened Wrappers
  import opened Dropbox
  import opened DropboxImports

  // ---- No file is lost ----

  predicate IsAt(w: World, place: (Dir, Path), id: int) {
    place in w.files && w.files[place].id == id
  }

  ghost predicate Somewhere(w: World, id: int) {
    exists place :: IsAt(w, place, id)
  }

  /** No drop is in two places, and every file is one that was dropped. */
  predicate OnePlace(w: World, a: (Dir, Path), b: (Dir, Path)) {
    && (a in w.files && b in w.files && w.files[a].id == w.files[b].id ==> a == b)
    && (a in w.files ==> 0 <= w.files[a].id < w.dropped)
  }

  ghost predicate Placed(w: World) {
    forall a, b :: OnePlace(w, a, b)
  }

  datatype Move = Move(path: Path, to: Dir, stamp: string)

  /** The move a step makes, if it makes one. */
  function MoveOf(w: World, step: Step): (m: Option<Move>)
    ensures m.Some? ==> (INBOX, m.value.path) in w.files && m.value.to != INBOX
  {
    match step
    case Begin(worker, path, stamp) =>
      if worker !in w.busy && (INBOX, path) in w.files && |w.files[(INBOX, path)].content| > MAX_FILE_BYTES
      then Some(Move(path, FAILED, stamp)) else None
    case Finish(worker, stamp) =>
      if worker in w.busy && w.busy[worker].Ingested? && (INBOX, w.busy[worker].path) in w.files
      then Some(Move(w.busy[worker].path, if w.busy[worker].ok then PROCESSED else FAILED, stamp)) else None
    case _ => None
  }

  predicate MovesFreshly(w: World, step: Step) {
    var m := MoveOf(w, step);
    m.Some? ==> StampIsFresh(w.files, m.value.path, m.value.to, m.value.stamp)
  }

  /** A step leaves the files alone, moves one, or adds one. */
  lemma FilesAfter(w: World, step: Step)
    ensures var v, m := Next(w, step), MoveOf(w, step);
            if m.Some? then v.files == Moved(w.files, m.value.path, m.value.to, m.value.stamp) && v.dropped == w.dropped
            else if step.Drop? && (INBOX, step.path) !in w.files then
              v.files == w.files[(INBOX, step.path) := File(w.dropped, step.content)] && v.dropped == w.dropped + 1
            else v.files == w.files && v.dropped == w.dropped
  {
    hide Moved, IsKnown;
  }

  lemma StepKeepsOnePlace(w: World, step: Step, a: (Dir, Path), b: (Dir, Path))
    requires Placed(w)
    ensures OnePlace(Next(w, step), a, b)
  {
    FilesAfter(w, step);
    hide Next, MoveOf, Target;
    var m := MoveOf(w, step);
    assert OnePlace(w, a, b) && OnePlace(w, b, a);
    if m.Some? {
      var from := (INBOX, m.value.path);
      assert OnePlace(w, from, a) && OnePlace(w, from, b);
    }
  }

  /** A move loses a file exactly when its target's name is taken. */
  lemma MoveLosesIff(w: World, step: Step)
    requires Placed(w)
    ensures MovesFreshly(w, step) <==> forall id :: Somewhere(w, id) ==> Somewhere(Next(w, step), id)
  {
    FilesAfter(w, step);
    hide Next, MoveOf, Target;
    var v, m := Next(w, step), MoveOf(w, step);
    if MovesFreshly(w, step) {
      forall id | Somewhere(w, id) ensures Somewhere(v, id) { StaysSomewhere(w, step, id); }
    } else {
      Overwrites(w, step);
    }
  }

  lemma StaysSomewhere(w: World, step: Step, id: int)
    requires MovesFreshly(w, step) && Somewhere(w, id)
    ensures Somewhere(Next(w, step), id)
  {
    FilesAfter(w, step);
    hide Next, MoveOf, Target;
    var v, m := Next(w, step), MoveOf(w, step);
    var place :| IsAt(w, place, id);
    if m.Some? && place == (INBOX, m.value.path) {
      assert IsAt(v, (m.value.to, Target(w.files, m.value.path, m.value.to, m.value.stamp)), id);
    } else {
      assert IsAt(v, place, id);
    }
  }

  lemma Overwrites(w: World, step: Step)
    requires Placed(w) && !MovesFreshly(w, step)
    ensures exists id :: Somewhere(w, id) && !Somewhere(Next(w, step), id)
  {
    FilesAfter(w, step);
    hide Next, MoveOf, Target;
    var v, m := Next(w, step), MoveOf(w, step).value;
    var from, to := (INBOX, m.path), (m.to, Target(w.files, m.path, m.to, m.stamp));
    var id := w.files[to].id;
    assert IsAt(w, to, id);
    forall place ensures !IsAt(v, place, id) {
      assert OnePlace(w, place, to) && OnePlace(w, from, to);
    }
    assert Somewhere(w, id) && !Somewhere(v, id);
  }

  lemma NeverComesBack(w: World, step: Step, id: int)
    requires id < w.dropped && !Somewhere(w, id)
    ensures !Somewhere(Next(w, step), id)
  {
    FilesAfter(w, step);
    hide Next, MoveOf, Target;
    var v := Next(w, step);
    forall place ensures !IsAt(v, place, id) {
      var m := MoveOf(w, step);
      assert !IsAt(w, place, id);
      if m.Some? { assert !IsAt(w, (INBOX, m.value.path), id); }
    }
  }

  ghost predicate AllMoveFreshly(w: World, steps: seq<Step>) {
    forall k :: 0 <= k < |steps| ==> MovesFreshly(Run(w, steps[..k]), steps[k])
  }

  lemma AllMoveFreshlyYet(w: World, steps: seq<Step>)
    requires steps != []
    ensures var n := |steps| - 1;
            AllMoveFreshly(w, steps) <==> AllMoveFreshly(w, steps[..n]) && MovesFreshly(Run(w, steps[..n]), steps[n])
  {
    hide Run, MovesFreshly;
    var n := |steps| - 1;
    assert forall k :: 0 <= k < n ==> steps[..n][..k] == steps[..k] && steps[..n][k] == steps[k];
  }

  ghost predicate NoneLost(w: World) {
    forall id :: 0 <= id < w.dropped ==> Somewhere(w, id)
  }

  lemma NoneLostIff(w: World, step: Step)
    requires Placed(w)
    ensures Placed(Next(w, step))
    ensures NoneLost(Next(w, step)) <==> NoneLost(w) && MovesFreshly(w, step)
  {
    var v := Next(w, step);
    FilesAfter(w, step);
    MoveLosesIff(w, step);
    hide Next, MoveOf, Moved, OnePlace, MovesFreshly;
    forall a, b ensures OnePlace(v, a, b) { StepKeepsOnePlace(w, step, a, b); }
    if NoneLost(v) {
      forall id | 0 <= id < w.dropped ensures Somewhere(w, id) {
        if !Somewhere(w, id) { NeverComesBack(w, step, id); }
      }
      forall id | Somewhere(w, id) ensures Somewhere(v, id) { WasDropped(w, id); }
    }
    if NoneLost(w) && MovesFreshly(w, step) && v.dropped > w.dropped {
      assert IsAt(v, (INBOX, step.path), w.dropped);
    }
  }

  lemma WasDropped(w: World, id: int)
    requires Placed(w) && Somewhere(w, id)
    ensures 0 <= id < w.dropped
  {
    var place :| IsAt(w, place, id);
    assert OnePlace(w, place, place);
  }

  /** Over every run, whatever overlaps or fails: each dropped file is in exactly one place of
      inbox, processed and failed, if and only if every move's target name was free. */
  lemma {:induction false} FilesAreConservedIff(w: World, steps: seq<Step>)
    requires Fresh(w)
    ensures Placed(Run(w, steps))
    ensures NoneLost(Run(w, steps)) <==> AllMoveFreshly(w, steps)
    decreases |steps|
  {
    if steps != [] {
      var n := |steps| - 1;
      hide Next, NoneLost, Placed, AllMoveFreshly, MovesFreshly;
      FilesAreConservedIff(w, steps[..n]);
      AllMoveFreshlyYet(w, steps);
      NoneLostIff(Run(w, steps[..n]), steps[n]);
    }
  }

  // ---- Processed means ingested ----

  /** Some file in a processed folder was never given to an ingestion. */
  predicate UningestedProcessed(w: World) {
    exists place :: place in w.files && place.0 == PROCESSED && w.files[place].content !in w.started
  }

  /** A worker takes up a file at a path that another one is still at work on. */
  predicate SharesPath(w: World, step: Step) {
    Takes(w, step) && exists k :: k in w.busy && w.busy[k].path == step.path
  }

  /** Nobody shares a path, and every worker's file is where the worker read it. */
  ghost predicate Apart(w: World) {
    && (forall j, k :: j in w.busy && k in w.busy && j != k ==> w.busy[j].path != w.busy[k].path)
    && (forall k :: k in w.busy ==> StillThere(w, k))
    && !UningestedProcessed(w)
  }

  predicate StillThere(w: World, k: Worker)
    requires k in w.busy
  {
    && (INBOX, w.busy[k].path) in w.files && w.files[(INBOX, w.busy[k].path)] == w.busy[k].file
    && |w.busy[k].file.content| <= MAX_FILE_BYTES
    && (w.busy[k].Ingested? ==> w.busy[k].file.content in w.started)
  }

  lemma StepKeepsApart(w: World, step: Step)
    requires Apart(w) && !SharesPath(w, step)
    ensures Apart(Next(w, step))
  {
    FilesAfter(w, step);
    OthersStayThere(w, step);
    hide IsKnown, Target;
    var v, m := Next(w, step), MoveOf(w, step);
    forall place | place in v.files && place.0 == PROCESSED ensures v.files[place].content in v.started {
      if place in w.files && v.files[place] == w.files[place] {
        assert w.files[place].content in w.started;
      } else {
        assert m.Some? && step.Finish? && StillThere(w, step.worker);
      }
    }
  }

  lemma OthersStayThere(w: World, step: Step)
    requires Apart(w) && !SharesPath(w, step)
    ensures forall k :: k in Next(w, step).busy ==> StillThere(Next(w, step), k)
  {
    FilesAfter(w, step);
    hide Target, UningestedProcessed;
    forall k | k in Next(w, step).busy ensures StillThere(Next(w, step), k) {
      if k in w.busy { assert StillThere(w, k); }
    }
  }

  ghost predicate EverSharesPath(w: World, steps: seq<Step>) {
    exists k :: 0 <= k < |steps| && SharesPath(Run(w, steps[..k]), steps[k])
  }

  lemma SharesPathYet(w: World, steps: seq<Step>)
    requires steps != [] && !EverSharesPath(w, steps)
    ensures var n := |steps| - 1;
            !EverSharesPath(w, steps[..n]) && !SharesPath(Run(w, steps[..n]), steps[n])
  {
    hide Run, SharesPath;
    var n := |steps| - 1;
    assert forall k :: 0 <= k < n ==> steps[..n][..k] == steps[..k] && steps[..n][k] == steps[k];
  }

  lemma {:induction false} ApartOverRun(w: World, steps: seq<Step>, k: nat)
    requires Apart(w) && !EverSharesPath(w, steps) && k <= |steps|
    ensures Apart(Run(w, steps[..k]))
    decreases |steps|
  {
    hide Apart, EverSharesPath, SharesPath, Next;
    if steps == [] {
      assert steps[..k] == [];
    } else {
      var n := |steps| - 1;
      SharesPathYet(w, steps);
      if k <= n {
        ApartOverRun(w, steps[..n], k);
        assert steps[..n][..k] == steps[..k];
      } else {
        ApartOverRun(w, steps[..n], n);
        assert steps[..n][..n] == steps[..n] && steps[..k] == steps;
        StepKeepsApart(Run(w, steps[..n]), steps[n]);
      }
    }
  }

  lemma {:induction false} ApartGoesOn(w: World, more: seq<Step>)
    requires Apart(w) && BeginFree(more)
    ensures Apart(Run(w, more))
    decreases |more|
  {
    if more != [] {
      var n := |more| - 1;
      hide Apart, Next;
      ApartGoesOn(w, more[..n]);
      StepKeepsApart(Run(w, more[..n]), more[n]);
    }
  }

  /** At some moment of the run, the scans then under way can end with a file processed that
      was never ingested. */
  ghost predicate CanProcessUningested(w: World, steps: seq<Step>) {
    exists k, more :: 0 <= k <= |steps| && BeginFree(more) && UningestedProcessed(Run(Run(w, steps[..k]), more))
  }

  function FinishUp(k: Worker): seq<Step> {
    [Record(k), Ingest(k, true), Finish(k, "")]
  }

  /** Whatever a worker has still to do, it ends by moving the file at its path. */
  lemma FinishesUp(w: World, k: Worker)
    requires k in w.busy && (INBOX, w.busy[k].path) in w.files
    ensures var v, to := Run(w, FinishUp(k)), if w.busy[k].Ingested? && !w.busy[k].ok then FAILED else PROCESSED;
            && v.files == Moved(w.files, w.busy[k].path, to, "") && v.busy == w.busy - {k}
            && (forall c :: c in v.started ==> c in w.started || c == w.busy[k].file.content)
  {
    var a, b, c := Record(k), Ingest(k, true), Finish(k, "");
    assert FinishUp(k)[..2] == [a, b] && [a, b][..1] == [a] && [a][..0] == [];
    LastStep(w, FinishUp(k));
    LastStep(w, [a, b]);
    LastStep(w, [a]);
    assert Run(w, FinishUp(k)) == Next(Next(Next(w, a), b), c);
    hide Run, Moved;
    assert Next(Next(w, a), b).files == w.files;
  }

  lemma {:induction false} NewContent(s: seq<Content>) returns (g: Content)
    ensures forall c :: c in s ==> |c| < |g|
  {
    if s == [] {
      g := [0];
    } else {
      var n := |s| - 1;
      var h := NewContent(s[..n]);
      g := h + s[n] + [0];
      forall c | c in s ensures |c| < |g| { assert c in s[..n] || c == s[n]; }
    }
  }

  lemma SharedPathSwaps(w: World, j: Worker, k: Worker) returns (more: seq<Step>)
    requires j != k && j in w.busy && k in w.busy && w.busy[j].path == w.busy[k].path
    requires w.busy[k].Checked? && (INBOX, w.busy[k].path) in w.files
    ensures BeginFree(more) && UningestedProcessed(Run(w, more))
  {
    var path := w.busy[k].path;
    var g := NewContent(w.started + [w.busy[j].file.content, w.busy[k].file.content]);
    more := FinishUp(j) + [Drop(path, g)] + FinishUp(k);
    var first := Run(w, FinishUp(j));
    var second := Next(first, Drop(path, g));
    FinishesUp(w, j);
    assert (FinishUp(j) + [Drop(path, g)])[..3] == FinishUp(j);
    LastStep(w, FinishUp(j) + [Drop(path, g)]);
    RunOn(w, FinishUp(j) + [Drop(path, g)], FinishUp(k));
    FinishesUp(second, k);
    var place := (PROCESSED, Target(second.files, path, PROCESSED, ""));
    assert Run(w, more).files[place].content == g;
    forall c | c in Run(w, more).started ensures |c| < |g| {
      assert c in w.started + [w.busy[j].file.content, w.busy[k].file.content];
    }
  }

  /** Exactly when a file can end processed without having been ingested: when a worker takes
      up a path that another is still at work on. */
  lemma ProcessedUningestedIff(w: World, steps: seq<Step>)
    requires Fresh(w)
    ensures CanProcessUningested(w, steps) <==> EverSharesPath(w, steps)
  {
    assert Apart(w);
    hide Run, Next, Apart, Moved, UningestedProcessed;
    if EverSharesPath(w, steps) {
      SharingCanSwap(w, steps);
    } else {
      forall k, more | 0 <= k <= |steps| && BeginFree(more)
        ensures !UningestedProcessed(Run(Run(w, steps[..k]), more))
      {
        ApartHasNone(w, steps, k, more);
      }
    }
  }

  lemma ApartHasNone(w: World, steps: seq<Step>, k: nat, more: seq<Step>)
    requires Apart(w) && !EverSharesPath(w, steps) && k <= |steps| && BeginFree(more)
    ensures !UningestedProcessed(Run(Run(w, steps[..k]), more))
  {
    hide Run, EverSharesPath, UningestedProcessed;
    ApartOverRun(w, steps, k);
    ApartGoesOn(Run(w, steps[..k]), more);
  }

  lemma SharingCanSwap(w: World, steps: seq<Step>)
    requires EverSharesPath(w, steps)
    ensures CanProcessUningested(w, steps)
  {
    var i :| 0 <= i < |steps| && SharesPath(Run(w, steps[..i]), steps[i]);
    var before, after := Run(w, steps[..i]), Run(w, steps[..i + 1]);
    LastStep(w, steps[..i + 1]);
    assert steps[..i + 1][..i] == steps[..i];
    hide Run, Moved, UningestedProcessed;
    var j :| j in before.busy && before.busy[j].path == steps[i].path;
    var more := SharedPathSwaps(after, j, steps[i].worker);
  }

  // ---- An interrupted import ----

  /** A file whose content is on record, with nobody at work on it. */
  ghost predicate Stuck(w: World, path: Path, f: File) {
    && (INBOX, path) in w.files && w.files[(INBOX, path)] == f
    && IsKnown(w, f.content) && |f.content| <= MAX_FILE_BYTES
    && forall k :: k in w.busy ==> w.busy[k].path != path && w.busy[k].file.content != f.content
  }

  lemma StepKeepsStuck(w: World, step: Step, path: Path, f: File)
    requires Stuck(w, path, f)
    ensures Stuck(Next(w, step), path, f) && Count(Next(w, step).started, f.content) == Count(w.started, f.content)
  {
    hide Count;
    if step.Ingest? && step.worker in w.busy && w.busy[step.worker].Recorded? {
      CountMore(w.started, w.busy[step.worker].file.content, f.content);
    }
  }

  lemma {:induction false} StuckForever(w: World, steps: seq<Step>, path: Path, f: File)
    requires Stuck(w, path, f)
    ensures Stuck(Run(w, steps), path, f) && Count(Run(w, steps).started, f.content) == Count(w.started, f.content)
    decreases |steps|
  {
    if steps != [] {
      hide Next, Count, Stuck;
      StuckForever(w, steps[..|steps| - 1], path, f);
      StepKeepsStuck(Run(w, steps[..|steps| - 1]), steps[|steps| - 1], path, f);
    }
  }

  /** The other side of "at most once": a scan that ends between recording a file and ingesting
      it leaves the file in the inbox for ever, taken for a duplicate and never ingested. */
  lemma InterruptedIsNeverImported(w: World, worker: Worker, path: Path, stamp: string, later: seq<Step>)
    requires w.busy == map[] && (INBOX, path) in w.files
    requires var f := w.files[(INBOX, path)];
             !IsKnown(w, f.content) && |f.content| <= MAX_FILE_BYTES && Count(w.started, f.content) == 0
    ensures var f := w.files[(INBOX, path)];
            var broken := Next(Next(Next(w, Begin(worker, path, stamp)), Record(worker)), Fail(worker));
            var after := Run(broken, later);
            && (INBOX, path) in after.files && after.files[(INBOX, path)] == f
            && Count(after.started, f.content) == 0
  {
    var f := w.files[(INBOX, path)];
    var broken := Next(Next(Next(w, Begin(worker, path, stamp)), Record(worker)), Fail(worker));
    hide Moved, Count, Run;
    assert broken.recorded[|w.recorded|] == f.content;
    assert Stuck(broken, path, f);
    StuckForever(broken, later, path, f);
  }
}
