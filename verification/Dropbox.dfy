/** The auto-import dropbox: scans that may overlap, fail anywhere, and share one record of
    what was imported. */
module Dropbox {
  import opened Wrappers

  type Content = seq<int>
  type Worker = int

  /** Every folder has an inbox and, beside it, processed and failed. */
  datatype Path = Path(folder: int, name: string)
  datatype Dir = INBOX | PROCESSED | FAILED

  /** The id is history: which drop this file is. */
  datatype File = File(id: int, content: Content)

  datatype Phase =
    | Checked(path: Path, file: File)
    | Recorded(path: Path, file: File)
    | Ingested(path: Path, file: File, ok: bool)

  /** `recorded` and `started` are the dropbox's upload records and the ingestions it has
      begun, in order; `manual` is what was uploaded by hand. A fingerprint is as good as
      the content it is of. */
  datatype World = World(
    files: map<(Dir, Path), File>, dropped: nat, recorded: seq<Content>, started: seq<Content>, manual: set<Content>,
    busy: map<Worker, Phase>)

  const MAX_FILE_BYTES := 50 * 1024 * 1024

  // ---- Moving ----

  function Target(files: map<(Dir, Path), File>, path: Path, to: Dir, stamp: string): Path {
    if (to, path) in files then Path(path.folder, stamp + "_" + path.name) else path
  }

  /** A rename replaces whatever has the target's name. */
  function Moved(files: map<(Dir, Path), File>, path: Path, to: Dir, stamp: string): map<(Dir, Path), File>
    requires (INBOX, path) in files
  {
    (files - {(INBOX, path)})[(to, Target(files, path, to, stamp)) := files[(INBOX, path)]]
  }

  predicate StampIsFresh(files: map<(Dir, Path), File>, path: Path, to: Dir, stamp: string) {
    (to, Target(files, path, to, stamp)) !in files
  }

  // ---- Steps of the scans ----

  datatype Step =
    | Drop(path: Path, content: Content)
    | UploadByHand(content: Content)
    | Begin(worker: Worker, path: Path, stamp: string)
    | Record(worker: Worker)
    | Ingest(worker: Worker, ok: bool)
    | Finish(worker: Worker, stamp: string)
    | Fail(worker: Worker)

  predicate IsKnown(w: World, c: Content) {
    c in w.recorded || c in w.manual
  }

  /** Read one file: too large goes to failed unread, a duplicate stays where it is. */
  function AfterBegin(w: World, worker: Worker, path: Path, stamp: string): World {
    if worker in w.busy || (INBOX, path) !in w.files then w
    else
      var file := w.files[(INBOX, path)];
      if |file.content| > MAX_FILE_BYTES then w.(files := Moved(w.files, path, FAILED, stamp))
      else if IsKnown(w, file.content) then w
      else w.(busy := w.busy[worker := Checked(path, file)])
  }

  function AfterRecord(w: World, worker: Worker): World {
    if worker in w.busy && w.busy[worker].Checked? then
      var p := w.busy[worker];
      w.(recorded := w.recorded + [p.file.content], busy := w.busy[worker := Phase.Recorded(p.path, p.file)])
    else w
  }

  function AfterIngest(w: World, worker: Worker, ok: bool): World {
    if worker in w.busy && w.busy[worker].Recorded? then
      var p := w.busy[worker];
      w.(started := w.started + [p.file.content], busy := w.busy[worker := Ingested(p.path, p.file, ok)])
    else w
  }

  /** The move fails, and the scan goes on, when somebody else has moved the file. */
  function AfterFinish(w: World, worker: Worker, stamp: string): World {
    if worker in w.busy && w.busy[worker].Ingested? then
      var p := w.busy[worker];
      var free := w.(busy := w.busy - {worker});
      if (INBOX, p.path) in w.files
      then free.(files := Moved(w.files, p.path, if p.ok then PROCESSED else FAILED, stamp)) else free
    else w
  }

  function Next(w: World, step: Step): World {
    match step
    case Drop(path, content) =>
      if (INBOX, path) in w.files then w
      else w.(files := w.files[(INBOX, path) := File(w.dropped, content)], dropped := w.dropped + 1)
    case UploadByHand(content) => w.(manual := w.manual + {content})
    case Begin(worker, path, stamp) => AfterBegin(w, worker, path, stamp)
    case Record(worker) => AfterRecord(w, worker)
    case Ingest(worker, ok) => AfterIngest(w, worker, ok)
    case Finish(worker, stamp) => AfterFinish(w, worker, stamp)
    case Fail(worker) => w.(busy := w.busy - {worker})
  }

  function Run(w: World, steps: seq<Step>): World
    decreases |steps|
  {
    if steps == [] then w else Next(Run(w, steps[..|steps| - 1]), steps[|steps| - 1])
  }

  /** Nothing dropped, nothing imported, nobody at work. */
  predicate Fresh(w: World) {
    w.files == map[] && w.dropped == 0 && w.recorded == [] && w.started == [] && w.busy == map[]
  }

  // ---- One scan, as the service runs it ----

  class DropboxScan {
    var files: map<(Dir, Path), File>
    var recorded: seq<Content>
    var manual: set<Content>
    ghost var dropped: nat
    ghost var started: seq<Content>

    ghost function At(): World
      reads this
    {
      World(files, dropped, recorded, started, manual, map[])
    }

    method Move(path: Path, to: Dir, stamp: string)
      requires (INBOX, path) in files
      modifies this`files
      ensures files == Moved(old(files), path, to, stamp)
    {
      var target := path;
      if (to, target) in files { target := Path(path.folder, stamp + "_" + path.name); }
      var file := files[(INBOX, path)];
      files := files - {(INBOX, path)};
      files := files[(to, target) := file];
    }

    /** One file from beginning to end, with nothing else at work; `parses` is whether its
        ingestion ends without an error. */
    method ProcessOneFile(worker: Worker, path: Path, parses: bool, stamp: string) returns (outcome: Option<Dir>)
      requires (INBOX, path) in files
      modifies this
      ensures At() ==
              Run(old(At()),
                  [Begin(worker, path, stamp), Record(worker), Ingest(worker, parses), Finish(worker, stamp)])
      ensures outcome.None? ==> At() == old(At())
      ensures outcome.Some? ==> files == Moved(old(files), path, outcome.value, stamp) && outcome.value != INBOX
    {
      var file := files[(INBOX, path)];
      ghost var was := At();
      WholeFile(was, worker, path, parses, stamp);
      if |file.content| > MAX_FILE_BYTES {
        Move(path, FAILED, stamp);
        return Some(FAILED);
      }
      if file.content in recorded || file.content in manual { return None; }
      recorded := recorded + [file.content];
      started := started + [file.content];
      outcome := Some(if parses then PROCESSED else FAILED);
      Move(path, outcome.value, stamp);
    }
  }

  /** A file processed without interruption. */
  lemma WholeFile(w: World, worker: Worker, path: Path, parses: bool, stamp: string)
    requires w.busy == map[] && (INBOX, path) in w.files
    ensures var file := w.files[(INBOX, path)];
            Run(w, [Begin(worker, path, stamp), Record(worker), Ingest(worker, parses), Finish(worker, stamp)]) ==
            if |file.content| > MAX_FILE_BYTES then w.(files := Moved(w.files, path, FAILED, stamp))
            else if IsKnown(w, file.content) then w
            else w.(files := Moved(w.files, path, if parses then PROCESSED else FAILED, stamp),
                    recorded := w.recorded + [file.content], started := w.started + [file.content])
  {
    hide Moved;
    var a, b, c, d := Begin(worker, path, stamp), Record(worker), Ingest(worker, parses), Finish(worker, stamp);
    FourSteps(w, a, b, c, d);
    hide Run;
    var after := Next(Next(Next(Next(w, a), b), c), d);
    assert after.busy == map[];
  }

  /** The same, written out: above 50 MiB the file goes to failed unread; content that was recorded
      or uploaded by hand stays where it is; all else is recorded, ingested, and then processed or
      failed. A file keeps its name, with a stamp in front if that is taken. */
  lemma FateOfFile(w: World, worker: Worker, path: Path, parses: bool, stamp: string)
    requires w.busy == map[] && (INBOX, path) in w.files
    ensures var file := w.files[(INBOX, path)];
            var after := Run(w, [Begin(worker, path, stamp), Record(worker), Ingest(worker, parses),
                                 Finish(worker, stamp)]);
            var large := |file.content| > 52_428_800;
            var known := file.content in w.recorded || file.content in w.manual;
            if !large && known then after == w
            else
              var dir := if large || !parses then FAILED else PROCESSED;
              var name := if (dir, path) in w.files then stamp + "_" + path.name else path.name;
              && after.files == (w.files - {(INBOX, path)})[(dir, Path(path.folder, name)) := file]
              && after.recorded == (if large then w.recorded else w.recorded + [file.content])
              && after.started == (if large then w.started else w.started + [file.content])
  {
    hide Run;
    WholeFile(w, worker, path, parses, stamp);
  }

  lemma FourSteps(w: World, a: Step, b: Step, c: Step, d: Step)
    ensures Run(w, [a, b, c, d]) == Next(Next(Next(Next(w, a), b), c), d)
  {
    hide Next;
    assert [a, b, c, d][..3] == [a, b, c] && [a, b, c][..2] == [a, b] && [a, b][..1] == [a] && [a][..0] == [];
    LastStep(w, [a, b, c, d]);
    LastStep(w, [a, b, c]);
    LastStep(w, [a, b]);
    LastStep(w, [a]);
  }

  lemma LastStep(w: World, steps: seq<Step>)
    requires steps != []
    ensures Run(w, steps) == Next(Run(w, steps[..|steps| - 1]), steps[|steps| - 1])
  {
  }
}
