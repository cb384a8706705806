/** Replacing a bundle of installed files, on a disk where any step may fail. */
module BundleModel {
  import opened Options

  type Path = string
  type Content = string

  datatype File = File(source: Path, target: Path)

  function Next(target: Path): Path { target + ".next" }

  function Prev(target: Path): Path { target + ".prev" }

  /** What the operating system does to one step. A copy that breaks may leave part of a file behind. */
  datatype Fault = Works | Breaks(left: Option<Content>)

  /** The files, and the faults the coming steps will meet, one for each; none after the last. */
  datatype Disk = Disk(files: map<Path, Content>, faults: seq<Fault>) {
    function Fault(): Fault { if faults == [] then Works else faults[0] }

    function Then(after: map<Path, Content>): Disk { Disk(after, if faults == [] then [] else faults[1..]) }
  }

  function Get(files: map<Path, Content>, p: Path): Option<Content> {
    if p in files then Some(files[p]) else None
  }

  datatype Presence = Present | Absent | Unknown

  function Stat(d: Disk, p: Path): (Disk, Presence) {
    (d.Then(d.files), if d.Fault().Breaks? then Unknown else if p in d.files then Present else Absent)
  }

  datatype Removal = Removed | Missing | Stuck

  function Remove(d: Disk, p: Path): (Disk, Removal) {
    if d.Fault().Breaks? then (d.Then(d.files), Stuck)
    else if p !in d.files then (d.Then(d.files), Missing)
    else (d.Then(d.files - {p}), Removed)
  }

  /** Move a file, over another if there is one. */
  function Move(d: Disk, from: Path, to: Path): (Disk, bool) {
    if d.Fault().Breaks? || from !in d.files then (d.Then(d.files), false)
    else (d.Then((d.files - {from})[to := d.files[from]]), true)
  }

  /** Copy to a file that must not exist yet. */
  function Copy(d: Disk, from: Path, to: Path): (Disk, bool) {
    if from !in d.files || to in d.files then (d.Then(d.files), false)
    else match d.Fault()
      case Works => (d.Then(d.files[to := d.files[from]]), true)
      case Breaks(left) => (d.Then(if left.None? then d.files else d.files[to := left.value]), false)
  }

  /** How an attempt ends. After a failure, `restored` says that every step of putting the files back worked. */
  datatype Outcome = Installed | Failed(restored: bool)

  datatype Attempt = Attempt(disk: Disk, outcome: Outcome)

  /** Put one file back: from its backup, or by removing it if there is no backup. */
  function RestoreOne(d: Disk, f: File): (Disk, bool) {
    var (seen, backup) := Stat(d, Prev(f.target));
    match backup
    case Present => Move(seen, Prev(f.target), f.target)
    case Absent => var (after, removal) := Remove(seen, f.target); (after, !removal.Stuck?)
    case Unknown => (seen, false)
  }

  function Restore(d: Disk, fs: seq<File>): (Disk, bool)
    decreases |fs|
  {
    if fs == [] then (d, true) else
      var (first, ok) := RestoreOne(d, fs[0]);
      var (rest, allOk) := Restore(first, fs[1..]);
      (rest, ok && allOk)
  }

  function GiveUp(d: Disk, backedUp: seq<File>): (a: Attempt)
    ensures a.outcome.Failed?
  {
    var (after, ok) := Restore(d, backedUp);
    Attempt(after, Failed(ok))
  }

  /** Move one target out of the way, or forget an old backup if there is no target. */
  function BackUpOne(d: Disk, f: File): (Disk, bool) {
    var (seen, current) := Stat(d, f.target);
    match current
    case Absent => var (after, removal) := Remove(seen, Prev(f.target)); (after, !removal.Stuck?)
    case Present => Move(seen, f.target, Prev(f.target))
    case Unknown => (seen, false)
  }

  function BackUp(d: Disk, done: seq<File>, rest: seq<File>): Attempt
    decreases |rest|
  {
    if rest == [] then Attempt(d, Installed) else
      var (after, ok) := BackUpOne(d, rest[0]);
      if ok then BackUp(after, done + [rest[0]], rest[1..]) else GiveUp(after, done)
  }

  function Install(d: Disk, all: seq<File>, rest: seq<File>): Attempt
    decreases |rest|
  {
    if rest == [] then Attempt(d, Installed) else
      var (after, ok) := Move(d, Next(rest[0].target), rest[0].target);
      if ok then Install(after, all, rest[1..]) else GiveUp(after, all)
  }

  function PrepareOne(d: Disk, f: File): (Disk, bool) {
    Copy(Remove(d, Next(f.target)).0, f.source, Next(f.target))
  }

  /** Copy the new files beside their targets; how many copies worked. */
  function Prepare(d: Disk, fs: seq<File>): (r: (Disk, nat))
    ensures r.1 <= |fs|
    decreases |fs|
  {
    if fs == [] then (d, 0) else
      var (after, ok) := PrepareOne(d, fs[0]);
      if !ok then (after, 0) else var (rest, n) := Prepare(after, fs[1..]); (rest, n + 1)
  }

  /** The deferred removals, last file first. */
  function CleanUp(d: Disk, fs: seq<File>): Disk
    decreases |fs|
  {
    if fs == [] then d else CleanUp(Remove(d, Next(fs[|fs| - 1].target)).0, fs[..|fs| - 1])
  }

  function Exchange(d: Disk, fs: seq<File>): Attempt {
    var saved := BackUp(d, [], fs);
    if saved.outcome.Installed? then Install(saved.disk, fs, fs) else saved
  }

  function Replace(d: Disk, fs: seq<File>): Attempt {
    if fs == [] then Attempt(d, Failed(true)) else
      var (prepared, n) := Prepare(d, fs);
      if n < |fs| then Attempt(CleanUp(prepared, fs[..n]), Failed(true))
      else
        var exchanged := Exchange(prepared, fs);
        Attempt(CleanUp(exchanged.disk, fs), exchanged.outcome)
  }

  /** Try until it works, and at most `more` times again before the deadline passes. */
  function Retry(d: Disk, fs: seq<File>, more: nat): Attempt
    decreases more
  {
    var first := Replace(d, fs);
    if first.outcome.Installed? || more == 0 then first else Retry(first.disk, fs, more - 1)
  }
}
