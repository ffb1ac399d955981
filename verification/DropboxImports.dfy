/** How often a dropped content is imported, over scans that overlap and fail. */
module DropboxImports {
  import opened Dropbox

  function Count(s: seq<Content>, c: Content): nat {
    if s == [] then 0 else Count(s[..|s| - 1], c) + if s[|s| - 1] == c then 1 else 0
  }

  lemma CountMore(s: seq<Content>, x: Content, c: Content)
    ensures Count(s + [x], c) == Count(s, c) + if x == c then 1 else 0
  {
    assert (s + [x])[..|s|] == s;
  }

  lemma SmallerSet(a: set<Worker>, b: set<Worker>)
    requires a <= b
    ensures |a| <= |b|
  {
    assert b == a + (b - a);
  }

  lemma OneOf<T>(s: set<T>) returns (k: T)
    requires |s| > 0
    ensures k in s
  {
    k :| k in s;
  }

  // ---- Imported only as recorded ----

  /** The workers that have recorded `c` and not begun to ingest it. */
  ghost function Pending(w: World, c: Content): set<Worker> {
    set k | k in w.busy && w.busy[k].Recorded? && w.busy[k].file.content == c
  }

  ghost predicate Backed(w: World, c: Content) {
    Count(w.started, c) + |Pending(w, c)| <= Count(w.recorded, c)
  }

  lemma StepKeepsBacked(w: World, step: Step, c: Content)
    requires Backed(w, c)
    ensures Backed(Next(w, step), c)
  {
    hide Moved, Count, IsKnown;
    if step.Record? && step.worker in w.busy && w.busy[step.worker].Checked? {
      RecordKeepsBacked(w, step.worker, c);
    } else if step.Ingest? && step.worker in w.busy && w.busy[step.worker].Recorded? {
      IngestKeepsBacked(w, step.worker, step.ok, c);
    } else {
      SmallerSet(Pending(Next(w, step), c), Pending(w, c));
    }
  }

  lemma RecordKeepsBacked(w: World, worker: Worker, c: Content)
    requires Backed(w, c) && worker in w.busy && w.busy[worker].Checked?
    ensures Backed(AfterRecord(w, worker), c)
  {
    hide Count;
    var x, v := w.busy[worker].file.content, AfterRecord(w, worker);
    CountMore(w.recorded, x, c);
    assert Pending(v, c) == if x == c then Pending(w, c) + {worker} else Pending(w, c);
  }

  lemma IngestKeepsBacked(w: World, worker: Worker, ok: bool, c: Content)
    requires Backed(w, c) && worker in w.busy && w.busy[worker].Recorded?
    ensures Backed(AfterIngest(w, worker, ok), c)
  {
    hide Count;
    var x, v := w.busy[worker].file.content, AfterIngest(w, worker, ok);
    CountMore(w.started, x, c);
    if x == c {
      assert worker in Pending(w, c) && Pending(v, c) == Pending(w, c) - {worker};
    } else {
      assert Pending(v, c) == Pending(w, c);
    }
  }

  /** However scans overlap and wherever they fail, a content is never ingested more often
      than it was recorded first. */
  lemma {:induction false} IngestedOnlyAsRecorded(w: World, steps: seq<Step>, c: Content)
    requires Fresh(w)
    ensures Backed(Run(w, steps), c) && Count(Run(w, steps).started, c) <= Count(Run(w, steps).recorded, c)
    decreases |steps|
  {
    if steps == [] {
      assert Pending(w, c) == {};
    } else {
      hide Next, Count;
      IngestedOnlyAsRecorded(w, steps[..|steps| - 1], c);
      StepKeepsBacked(Run(w, steps[..|steps| - 1]), steps[|steps| - 1], c);
    }
  }

  // ---- Contents in flight ----

  /** The workers that have found `c` new and not begun to ingest it. */
  function InFlight(w: World, c: Content): set<Worker> {
    set k | k in w.busy && (w.busy[k].Checked? || w.busy[k].Recorded?) && w.busy[k].file.content == c
  }

  /** The imports of `c` begun, and those still to come from the workers that hold it. */
  ghost function Imports(w: World, c: Content): nat {
    Count(w.started, c) + |InFlight(w, c)|
  }

  /** A Begin that is taken up: the file is there, not too large, and looks new. */
  predicate Takes(w: World, step: Step) {
    && step.Begin? && step.worker !in w.busy && (INBOX, step.path) in w.files
    && |w.files[(INBOX, step.path)].content| <= MAX_FILE_BYTES
    && !IsKnown(w, w.files[(INBOX, step.path)].content)
  }

  predicate TakesContent(w: World, step: Step, c: Content) {
    Takes(w, step) && w.files[(INBOX, step.path)].content == c
  }

  lemma OnlyBeginAdds(w: World, step: Step, c: Content)
    requires !TakesContent(w, step, c)
    ensures Imports(Next(w, step), c) <= Imports(w, c)
  {
    hide Moved, Count;
    var v := Next(w, step);
    if step.Ingest? && step.worker in w.busy && w.busy[step.worker].Recorded? {
      IngestMovesOver(w, step.worker, step.ok, c);
    } else {
      SmallerSet(InFlight(v, c), InFlight(w, c));
    }
  }

  lemma IngestMovesOver(w: World, worker: Worker, ok: bool, c: Content)
    requires worker in w.busy && w.busy[worker].Recorded?
    ensures Imports(AfterIngest(w, worker, ok), c) == Imports(w, c)
  {
    hide Count;
    var x, v := w.busy[worker].file.content, AfterIngest(w, worker, ok);
    CountMore(w.started, x, c);
    if x == c {
      assert worker in InFlight(w, c) && InFlight(v, c) == InFlight(w, c) - {worker};
    } else {
      assert InFlight(v, c) == InFlight(w, c);
    }
  }

  lemma TakingAdds(w: World, step: Step, c: Content)
    requires TakesContent(w, step, c)
    ensures InFlight(Next(w, step), c) == InFlight(w, c) + {step.worker} && step.worker !in InFlight(w, c)
    ensures Next(w, step).started == w.started
  {
    hide Moved;
  }

  // ---- What can still be imported ----

  /** Nobody looks at another file: scans that are under way go on, or fail. */
  predicate BeginFree(steps: seq<Step>) {
    forall i :: 0 <= i < |steps| ==> !steps[i].Begin?
  }

  lemma {:induction false} BeginFreeAddsNothing(w: World, more: seq<Step>, c: Content)
    requires BeginFree(more)
    ensures Imports(Run(w, more), c) <= Imports(w, c)
    decreases |more|
  {
    if more != [] {
      var n := |more| - 1;
      hide Next, Imports;
      BeginFreeAddsNothing(w, more[..n], c);
      OnlyBeginAdds(Run(w, more[..n]), more[n], c);
    }
  }

  lemma {:induction false} RunOn(w: World, a: seq<Step>, b: seq<Step>)
    ensures Run(w, a + b) == Run(Run(w, a), b)
    decreases |b|
  {
    hide Next;
    if b == [] {
      assert a + b == a;
    } else {
      var n := |b| - 1;
      RunOn(w, a, b[..n]);
      assert (a + b)[..|a + b| - 1] == a + b[..n];
    }
  }

  function Through(k: Worker): seq<Step> {
    [Record(k), Ingest(k, true)]
  }

  /** A worker that holds `c` can go on to import it. */
  lemma GoesThrough(w: World, k: Worker, c: Content)
    requires k in InFlight(w, c)
    ensures var v := Run(w, Through(k));
            Count(v.started, c) == Count(w.started, c) + 1 && InFlight(w, c) - {k} <= InFlight(v, c)
  {
    var half := Next(w, Record(k));
    assert Through(k)[..1] == [Record(k)] && [Record(k)][..0] == [];
    LastStep(w, Through(k));
    LastStep(w, [Record(k)]);
    assert Run(w, Through(k)) == Next(half, Ingest(k, true));
    hide Count, Run;
    CountMore(w.started, c, c);
  }

  /** The scans under way can import `c` twice if and only if it was imported, or is held, at
      least twice. */
  lemma TwiceFromHereIff(w: World, c: Content)
    ensures (exists more :: BeginFree(more) && Count(Run(w, more).started, c) >= 2) <==> Imports(w, c) >= 2
  {
    hide Next, Count, InFlight, Through;
    if more :| BeginFree(more) && Count(Run(w, more).started, c) >= 2 {
      BeginFreeAddsNothing(w, more, c);
    }
    if Imports(w, c) >= 2 {
      var more := TwiceFromHere(w, c);
    }
  }

  lemma TwiceFromHere(w: World, c: Content) returns (more: seq<Step>)
    requires Imports(w, c) >= 2
    ensures BeginFree(more) && Count(Run(w, more).started, c) >= 2
  {
    hide Next, Count, InFlight;
    more := [];
    if Count(w.started, c) < 2 {
      var k := OneOf(InFlight(w, c));
      more := Through(k);
      GoesThrough(w, k, c);
      if Count(w.started, c) == 0 {
        assert InFlight(w, c) == InFlight(w, c) - {k} + {k};
        var j := OneOf(InFlight(w, c) - {k});
        GoesThrough(Run(w, more), j, c);
        RunOn(w, more, Through(j));
        more := more + Through(j);
      }
    }
  }

  // ---- Over whole runs ----

  /** A worker takes up a content that another one holds. The worker could see it beforehand. */
  predicate Clashes(w: World, step: Step, c: Content) {
    TakesContent(w, step, c) && InFlight(w, c) != {}
  }

  ghost predicate EverClashes(w: World, steps: seq<Step>, c: Content) {
    exists k :: 0 <= k < |steps| && Clashes(Run(w, steps[..k]), steps[k], c)
  }

  /** At some moment of the run, the scans then under way can import `c` twice. */
  ghost predicate CanImportTwice(w: World, steps: seq<Step>, c: Content) {
    exists k, more :: 0 <= k <= |steps| && BeginFree(more) && Count(Run(Run(w, steps[..k]), more).started, c) >= 2
  }

  lemma ClashesYet(w: World, steps: seq<Step>, c: Content)
    requires steps != []
    ensures var n := |steps| - 1;
            EverClashes(w, steps, c) <==> EverClashes(w, steps[..n], c) || Clashes(Run(w, steps[..n]), steps[n], c)
  {
    hide Run, Clashes;
    var n := |steps| - 1;
    assert forall k :: 0 <= k < n ==> steps[..n][..k] == steps[..k] && steps[..n][k] == steps[k];
    if EverClashes(w, steps[..n], c) {
      var k :| 0 <= k < n && Clashes(Run(w, steps[..n][..k]), steps[..n][k], c);
      assert Clashes(Run(w, steps[..k]), steps[k], c);
    }
  }

  lemma UnknownIsNotStarted(w: World, c: Content)
    requires Backed(w, c) && !IsKnown(w, c)
    ensures Count(w.started, c) == 0
  {
    NotIn(w.recorded, c);
  }

  lemma {:induction false} NotIn(s: seq<Content>, c: Content)
    requires c !in s
    ensures Count(s, c) == 0
  {
    if s != [] { NotIn(s[..|s| - 1], c); }
  }

  /** Without a clash there is never more than one import of a content, begun or to come. */
  lemma {:induction false} OneImport(w: World, steps: seq<Step>, c: Content)
    requires Fresh(w) && !EverClashes(w, steps, c)
    ensures Imports(Run(w, steps), c) <= 1
    decreases |steps|
  {
    if steps == [] {
      assert InFlight(w, c) == {};
    } else {
      var n := |steps| - 1;
      var before := Run(w, steps[..n]);
      hide Next, EverClashes;
      ClashesYet(w, steps, c);
      OneImport(w, steps[..n], c);
      if TakesContent(before, steps[n], c) {
        hide Count;
        IngestedOnlyAsRecorded(w, steps[..n], c);
        UnknownIsNotStarted(before, c);
        TakingAdds(before, steps[n], c);
        assert InFlight(before, c) == {};
      } else {
        hide TakesContent, Imports;
        OnlyBeginAdds(before, steps[n], c);
      }
    }
  }

  lemma {:induction false} EarlierToo(w: World, steps: seq<Step>, k: nat, c: Content)
    requires k <= |steps| && !EverClashes(w, steps, c)
    ensures !EverClashes(w, steps[..k], c)
    decreases |steps|
  {
    hide EverClashes, Run;
    if k < |steps| {
      ClashesYet(w, steps, c);
      EarlierToo(w, steps[..|steps| - 1], k, c);
      assert steps[..|steps| - 1][..k] == steps[..k];
    } else {
      assert steps[..k] == steps;
    }
  }

  lemma ClashImportsTwice(w: World, steps: seq<Step>, c: Content)
    requires EverClashes(w, steps, c)
    ensures CanImportTwice(w, steps, c)
  {
    hide Run, Count, Next;
    var k :| 0 <= k < |steps| && Clashes(Run(w, steps[..k]), steps[k], c);
    var before, after := Run(w, steps[..k]), Run(w, steps[..k + 1]);
    assert after == Next(before, steps[k]) by {
      LastStep(w, steps[..k + 1]);
      assert steps[..k + 1][..k] == steps[..k];
    }
    TakingAdds(before, steps[k], c);
    var j := OneOf(InFlight(before, c));
    SmallerSet({j, steps[k].worker}, InFlight(after, c));
    var more := TwiceFromHere(after, c);
  }

  /** Exactly when a content can be imported twice: when a worker takes it up while another
      holds it. */
  lemma ImportedTwiceIff(w: World, steps: seq<Step>, c: Content)
    requires Fresh(w)
    ensures CanImportTwice(w, steps, c) <==> EverClashes(w, steps, c)
  {
    hide Run, Count, Next, EverClashes;
    if EverClashes(w, steps, c) {
      ClashImportsTwice(w, steps, c);
    } else if CanImportTwice(w, steps, c) {
      var k, more :| 0 <= k <= |steps| && BeginFree(more) && Count(Run(Run(w, steps[..k]), more).started, c) >= 2;
      EarlierToo(w, steps, k, c);
      OneImport(w, steps[..k], c);
      BeginFreeAddsNothing(Run(w, steps[..k]), more, c);
    }
  }

  /** Scans one after the other, by any workers and failing anywhere: a file is begun only
      when nobody is at work. */
  ghost predicate OneAfterTheOther(w: World, steps: seq<Step>) {
    forall k :: 0 <= k < |steps| && steps[k].Begin? ==> Run(w, steps[..k]).busy == map[]
  }

  /** As when one worker takes a file from beginning to end. */
  lemma OneFileAlone(w: World, worker: Worker, path: Path, parses: bool, stamp: string)
    requires w.busy == map[]
    ensures var steps := [Begin(worker, path, stamp), Record(worker), Ingest(worker, parses), Finish(worker, stamp)];
            OneAfterTheOther(w, steps)
  {
    assert [Begin(worker, path, stamp), Record(worker), Ingest(worker, parses), Finish(worker, stamp)][..0] == [];
  }

  /** Such scans import every content at most once. */
  lemma SequentialScansImportOnce(w: World, steps: seq<Step>, c: Content)
    requires Fresh(w) && OneAfterTheOther(w, steps)
    ensures Count(Run(w, steps).started, c) <= 1
  {
    hide Run, Count;
    forall k | 0 <= k < |steps| ensures !Clashes(Run(w, steps[..k]), steps[k], c) {
      if steps[k].Begin? { assert Run(w, steps[..k]).busy == map[]; }
    }
    OneImport(w, steps, c);
  }

  /** Two overlapping scans of one file: both find it new, both record it, both import it. */
  lemma TwoScansImportTwice(w: World, path: Path, j: Worker, k: Worker, stamp: string)
    requires w.busy == map[] && j != k && (INBOX, path) in w.files
    requires var c := w.files[(INBOX, path)].content; !IsKnown(w, c) && |c| <= MAX_FILE_BYTES
    ensures var c := w.files[(INBOX, path)].content;
            var steps := [Begin(j, path, stamp), Begin(k, path, stamp), Record(j), Record(k), Ingest(j, true),
                Ingest(k, true)];
            Run(w, steps).started == w.started + [c, c]
  {
    hide Moved;
    var c := w.files[(INBOX, path)].content;
    var steps := [Begin(j, path, stamp), Begin(k, path, stamp), Record(j), Record(k), Ingest(j, true), Ingest(k, true)];
    SixSteps(w, steps);
    hide Run;
    var both := Next(Next(w, steps[0]), steps[1]);
    var recorded := Next(Next(both, steps[2]), steps[3]);
    assert recorded.busy[j].Recorded? && recorded.busy[k].Recorded? && recorded.started == w.started;
    assert w.started + [c] + [c] == w.started + [c, c];
  }

  lemma SixSteps(w: World, s: seq<Step>)
    requires |s| == 6
    ensures Run(w, s) == Next(Next(Next(Next(Next(Next(w, s[0]), s[1]), s[2]), s[3]), s[4]), s[5])
  {
    hide Next;
    assert s[..6] == s && s[..6][..5] == s[..5] && s[..5][..4] == s[..4] && s[..4][..3] == s[..3];
    FourSteps(w, s[0], s[1], s[2], s[3]);
    assert s[..4] == [s[0], s[1], s[2], s[3]];
    LastStep(w, s[..5]);
    LastStep(w, s);
  }
}
