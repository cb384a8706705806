/** Replacing a bundle is all or nothing, whatever faults the disk shows. */
module BundleTheorems {
  import opened BundleModel
  import opened Options

  // ---------------------------------------------------------------- paths that stay out of each other's way

  /** The paths of two files of a bundle do not meet. */
  predicate Clear(f: File, g: File) {
    && f.target !in {g.target, Prev(g.target), Next(g.target)}
    && Prev(f.target) !in {g.target, Prev(g.target), Next(g.target)}
    && Next(f.target) !in {g.target, Prev(g.target), Next(g.target)}
    && f.source !in {g.target, Prev(g.target), Next(g.target)}
    && g.source !in {f.target, Prev(f.target), Next(f.target)}
  }

  predicate Proper(f: File) {
    && f.target != Prev(f.target) && f.target != Next(f.target) && Prev(f.target) != Next(f.target)
    && f.source !in {f.target, Prev(f.target), Next(f.target)}
  }

  ghost predicate Apart(fs: seq<File>) {
    && (forall f :: f in fs ==> Proper(f))
    && (forall i, j :: 0 <= i < j < |fs| ==> Clear(fs[i], fs[j]))
  }

  lemma ApartTail(fs: seq<File>)
    requires Apart(fs) && fs != []
    ensures Apart(fs[1..]) && Proper(fs[0])
    ensures forall g :: g in fs[1..] ==> Clear(fs[0], g)
  {
    hide Clear, Proper;
    forall i, j | 0 <= i < j < |fs[1..]| ensures Clear(fs[1..][i], fs[1..][j]) {
      assert fs[1..][i] == fs[i + 1] && fs[1..][j] == fs[j + 1];
    }
  }

  lemma ApartSplit(done: seq<File>, rest: seq<File>)
    requires Apart(done + rest) && rest != []
    ensures Apart(done) && Proper(rest[0])
    ensures forall g :: g in done ==> Clear(g, rest[0])
    ensures forall g :: g in rest[1..] ==> Clear(rest[0], g)
  {
    hide Clear, Proper;
    var all := done + rest;
    forall f | f in done ensures Proper(f) { assert f in all; }
    assert all[|done|] == rest[0];
    forall i, j | 0 <= i < j < |done| ensures Clear(done[i], done[j]) {
      assert all[i] == done[i] && all[j] == done[j];
    }
    forall g | g in done ensures Clear(g, rest[0]) {
      var i :| 0 <= i < |done| && done[i] == g;
      assert all[i] == g;
    }
    forall g | g in rest[1..] ensures Clear(rest[0], g) {
      var i :| 0 <= i < |rest[1..]| && rest[1..][i] == g;
      assert all[|done| + 1 + i] == g;
    }
  }

  // ---------------------------------------------------------------- what a state means for one file

  /** The target is as it was. */
  predicate Original(files: map<Path, Content>, orig: map<Path, Content>, f: File) {
    Get(files, f.target) == Get(orig, f.target)
  }

  /** The backup holds what the target was, or is missing as the target was. */
  predicate Saved(files: map<Path, Content>, orig: map<Path, Content>, f: File) {
    Get(files, Prev(f.target)) == Get(orig, f.target)
  }

  /** There is no target, or it holds the new content. */
  predicate Unfinished(files: map<Path, Content>, orig: map<Path, Content>, f: File) {
    Get(files, f.target).None? || Get(files, f.target) == Get(orig, f.source)
  }

  /** The target has made room for the new content. */
  predicate SetAside(files: map<Path, Content>, orig: map<Path, Content>, f: File) {
    Saved(files, orig, f) && Unfinished(files, orig, f)
  }

  /** The target is as it was, or it has made room and what it was, if anything, is not lost. */
  predicate Kept(files: map<Path, Content>, orig: map<Path, Content>, f: File) {
    Original(files, orig, f) || (Unfinished(files, orig, f) && (Get(orig, f.target).Some? ==> Saved(files, orig, f)))
  }

  /** The target holds the new content. */
  predicate Upgraded(files: map<Path, Content>, orig: map<Path, Content>, f: File) {
    Get(files, f.target).Some? && Get(files, f.target) == Get(orig, f.source)
  }

  /** The new content waits beside the target. */
  predicate Ready(files: map<Path, Content>, orig: map<Path, Content>, f: File) {
    Get(files, Next(f.target)).Some? && Get(files, Next(f.target)) == Get(orig, f.source)
  }

  /** Neither the target nor the backup of any of the files. */
  ghost predicate Foreign(p: Path, fs: seq<File>) {
    forall f :: f in fs ==> p != f.target && p != Prev(f.target)
  }

  ghost predicate NotNext(p: Path, fs: seq<File>) {
    forall f :: f in fs ==> p != Next(f.target)
  }

  /** Only targets and backups of the files may differ. */
  ghost predicate SameForeign(was: map<Path, Content>, files: map<Path, Content>, fs: seq<File>) {
    forall p :: Foreign(p, fs) ==> Get(files, p) == Get(was, p)
  }

  /** Only the waiting copies of the files may differ. */
  ghost predicate SameButNext(was: map<Path, Content>, files: map<Path, Content>, fs: seq<File>) {
    forall p :: NotNext(p, fs) ==> Get(files, p) == Get(was, p)
  }

  // ---------------------------------------------------------------- restoring

  lemma RestoreOneSound(d: Disk, f: File, orig: map<Path, Content>)
    requires Proper(f) && SetAside(d.files, orig, f)
    ensures var (after, ok) := RestoreOne(d, f);
      && (ok ==> Original(after.files, orig, f))
      && Kept(after.files, orig, f)
      && (forall p :: p != f.target && p != Prev(f.target) ==> Get(after.files, p) == Get(d.files, p))
  {
    hide Prev, Next;
  }

  /** From a state where every file is saved, restoring either puts a target back or keeps its content in the
      backup; when every step works, every target is back. */
  lemma {:induction false} RestoreSound(d: Disk, fs: seq<File>, orig: map<Path, Content>)
    requires Apart(fs) && forall f :: f in fs ==> SetAside(d.files, orig, f)
    ensures var (after, ok) := Restore(d, fs);
      && (ok ==> forall f :: f in fs ==> Original(after.files, orig, f))
      && (forall f :: f in fs ==> Kept(after.files, orig, f))
      && SameForeign(d.files, after.files, fs)
    decreases |fs|
  {
    if fs != [] {
      hide RestoreOne, Prev, Next, Get, Apart;
      ApartTail(fs);
      var f, rest := fs[0], fs[1..];
      var first := RestoreOne(d, f).0;
      RestoreOneSound(d, f, orig);
      OthersUnmoved(d.files, first.files, [], f, rest, orig);
      RestoreSound(first, rest, orig);
      var after := Restore(first, rest).0;
      assert Foreign(f.target, rest) && Foreign(Prev(f.target), rest);
      forall p | Foreign(p, fs) ensures Get(after.files, p) == Get(d.files, p) {
        assert Foreign(p, rest);
      }
    }
  }

  // ---------------------------------------------------------------- backing up and installing

  lemma BackUpOneSound(d: Disk, f: File, orig: map<Path, Content>)
    requires Proper(f) && Original(d.files, orig, f)
    ensures var (after, ok) := BackUpOne(d, f);
      && (ok ==> SetAside(after.files, orig, f))
      && (!ok ==> Original(after.files, orig, f))
      && (forall p :: p != f.target && p != Prev(f.target) ==> Get(after.files, p) == Get(d.files, p))
  {
    hide Prev, Next;
  }

  /** What an attempt that has touched only `all` may end in. */
  ghost predicate Settled(was: map<Path, Content>, orig: map<Path, Content>, a: Attempt, all: seq<File>) {
    && (a.outcome == Failed(true) ==> forall f :: f in all ==> Original(a.disk.files, orig, f))
    && (forall f :: f in all ==> Kept(a.disk.files, orig, f))
    && SameForeign(was, a.disk.files, all)
  }

  lemma GiveUpSound(
    was: map<Path, Content>, d: Disk, done: seq<File>, rest: seq<File>, orig: map<Path, Content>)
    requires Apart(done + rest) && SameForeign(was, d.files, done + rest)
    requires forall f :: f in done ==> SetAside(d.files, orig, f)
    requires forall f :: f in rest ==> Original(d.files, orig, f)
    ensures Settled(was, orig, GiveUp(d, done), done + rest)
  {
    hide Restore, Prev, Next, Get, Clear;
    if rest == [] {
      assert done + rest == done;
    } else {
      ApartSplit(done, rest);
    }
    RestoreSound(d, done, orig);
    var after := Restore(d, done).0;
    forall f | f in rest ensures Original(after.files, orig, f) {
      ForeignToOthers(done, rest, f);
      assert Get(after.files, f.target) == Get(d.files, f.target);
    }
    forall p | Foreign(p, done + rest) ensures Get(after.files, p) == Get(was, p) {
      assert Foreign(p, done);
    }
  }

  lemma ForeignToOthers(done: seq<File>, rest: seq<File>, f: File)
    requires Apart(done + rest) && f in rest
    ensures Foreign(f.target, done) && Foreign(Prev(f.target), done)
  {
    var i :| 0 <= i < |rest| && rest[i] == f;
    hide Prev, Next;
    var all := done + rest;
    assert all[|done| + i] == f;
    forall g | g in done ensures Clear(g, f) {
      var j :| 0 <= j < |done| && done[j] == g;
      assert all[j] == g;
    }
  }

  /** Backing up saves every file, or gives up and restores. */
  lemma {:induction false} BackUpSound(
    was: map<Path, Content>, d: Disk, done: seq<File>, rest: seq<File>, orig: map<Path, Content>)
    requires Apart(done + rest) && SameForeign(was, d.files, done + rest)
    requires forall f :: f in done ==> SetAside(d.files, orig, f)
    requires forall f :: f in rest ==> Original(d.files, orig, f)
    ensures var a := BackUp(d, done, rest);
      && (a.outcome.Installed? ==>
            SameForeign(was, a.disk.files, done + rest) &&
            forall f :: f in done + rest ==> SetAside(a.disk.files, orig, f))
      && (!a.outcome.Installed? ==> Settled(was, orig, a, done + rest))
    decreases |rest|
  {
    hide BackUpOne, GiveUp, Prev, Next, Get, Clear, Settled;
    if rest == [] {
      assert done + rest == done;
    } else {
      var f, tail := rest[0], rest[1..];
      var (after, ok) := BackUpOne(d, f);
      ApartSplit(done, rest);
      BackUpOneSound(d, f, orig);
      assert done + rest == (done + [f]) + tail;
      assert forall p :: Foreign(p, done + rest) ==> p != f.target && p != Prev(f.target) by {
        assert f in done + rest;
      }
      OthersUnmoved(d.files, after.files, done, f, tail, orig);
      if ok {
        BackUpSound(was, after, done + [f], tail, orig);
      } else {
        GiveUpSound(was, after, done, rest, orig);
      }
    }
  }

  /** A step on one file says nothing about the others. */
  lemma OthersUnmoved(
    was: map<Path, Content>, files: map<Path, Content>, done: seq<File>, f: File, tail: seq<File>,
    orig: map<Path, Content>)
    requires forall g :: g in done ==> Clear(g, f)
    requires forall g :: g in tail ==> Clear(f, g)
    requires forall p :: p != f.target && p != Prev(f.target) ==> Get(files, p) == Get(was, p)
    ensures forall g :: g in done && SetAside(was, orig, g) ==> SetAside(files, orig, g)
    ensures forall g :: g in tail && Original(was, orig, g) ==> Original(files, orig, g)
    ensures forall g :: g in tail && SetAside(was, orig, g) ==> SetAside(files, orig, g)
  {
    hide Prev, Next, Get;
  }

  /** Installing leaves every file upgraded with its old content saved, or gives up and restores. */
  lemma {:induction false} InstallSound(
    was: map<Path, Content>, d: Disk, done: seq<File>, rest: seq<File>, orig: map<Path, Content>)
    requires Apart(done + rest) && forall f :: f in done + rest ==> SetAside(d.files, orig, f)
    requires forall f :: f in done ==> Upgraded(d.files, orig, f)
    requires forall f :: f in rest ==> Ready(d.files, orig, f)
    requires forall p :: Foreign(p, done + rest) && NotNext(p, done + rest) ==> Get(d.files, p) == Get(was, p)
    ensures var a := Install(d, done + rest, rest);
      && (a.outcome.Installed? ==> forall f :: f in done + rest ==>
            SetAside(a.disk.files, orig, f) && Upgraded(a.disk.files, orig, f))
      && (a.outcome == Failed(true) ==> forall f :: f in done + rest ==> Original(a.disk.files, orig, f))
      && (forall f :: f in done + rest ==> Kept(a.disk.files, orig, f))
      && (forall p :: Foreign(p, done + rest) && NotNext(p, done + rest) ==> Get(a.disk.files, p) == Get(was, p))
    decreases |rest|
  {
    hide Move, GiveUp, Prev, Next, Get, Clear, Settled;
    var all := done + rest;
    if rest == [] {
      assert done + rest == done;
    } else {
      var f, tail := rest[0], rest[1..];
      var (after, ok) := Move(d, Next(f.target), f.target);
      ApartSplit(done, rest);
      assert f in all;
      assert all == (done + [f]) + tail;
      MoveIn(d, f, orig);
      if ok {
        InstalledOne(d.files, after.files, done, f, tail, orig);
        assert forall p :: Foreign(p, all) && NotNext(p, all) ==> p != f.target && p != Next(f.target);
        InstallSound(was, after, done + [f], tail, orig);
      } else {
        assert all + [] == all;
        GiveUpSound(after.files, after, all, [], orig);
        GaveUp(was, after, all, orig);
      }
    }
  }

  lemma MoveIn(d: Disk, f: File, orig: map<Path, Content>)
    requires Proper(f) && Ready(d.files, orig, f)
    ensures var (after, ok) := Move(d, Next(f.target), f.target);
      && (!ok ==> after.files == d.files)
      && (ok ==> Upgraded(after.files, orig, f))
      && (forall p :: p != f.target && p != Next(f.target) ==> Get(after.files, p) == Get(d.files, p))
  {
    hide Prev, Next;
  }

  lemma InstalledOne(
    was: map<Path, Content>, files: map<Path, Content>, done: seq<File>, f: File, tail: seq<File>,
    orig: map<Path, Content>)
    requires Proper(f) && forall g :: g in done ==> Clear(g, f)
    requires forall g :: g in tail ==> Clear(f, g)
    requires forall p :: p != f.target && p != Next(f.target) ==> Get(files, p) == Get(was, p)
    requires Upgraded(files, orig, f)
    ensures forall g :: g in (done + [f]) + tail && SetAside(was, orig, g) ==> SetAside(files, orig, g)
    ensures forall g :: g in done && Upgraded(was, orig, g) ==> Upgraded(files, orig, g)
    ensures forall g :: g in tail && Ready(was, orig, g) ==> Ready(files, orig, g)
  {
    hide Prev, Next, Get;
  }

  lemma GaveUp(was: map<Path, Content>, d: Disk, all: seq<File>, orig: map<Path, Content>)
    requires Settled(d.files, orig, GiveUp(d, all), all)
    requires forall p :: Foreign(p, all) && NotNext(p, all) ==> Get(d.files, p) == Get(was, p)
    ensures var a := GiveUp(d, all);
      && (a.outcome == Failed(true) ==> forall f :: f in all ==> Original(a.disk.files, orig, f))
      && (forall f :: f in all ==> Kept(a.disk.files, orig, f))
      && (forall p :: Foreign(p, all) && NotNext(p, all) ==> Get(a.disk.files, p) == Get(was, p))
  {
    hide GiveUp, Get, Foreign, NotNext, Original, Kept;
  }

  // ---------------------------------------------------------------- preparing and cleaning up

  lemma PrepareOneSound(d: Disk, f: File)
    requires Proper(f)
    ensures var (after, ok) := PrepareOne(d, f);
      && (ok ==> Get(after.files, Next(f.target)).Some? && Get(after.files, Next(f.target)) == Get(d.files, f.source))
      && (forall p :: p != Next(f.target) ==> Get(after.files, p) == Get(d.files, p))
  {
    hide Prev, Next;
  }

  lemma {:induction false} PrepareSound(d: Disk, fs: seq<File>, orig: map<Path, Content>)
    requires Apart(fs) && forall f :: f in fs ==> Get(d.files, f.source) == Get(orig, f.source)
    ensures var (after, n) := Prepare(d, fs);
      && SameButNext(d.files, after.files, fs)
      && (n == |fs| ==> forall f :: f in fs ==> Ready(after.files, orig, f))
    decreases |fs|
  {
    if fs != [] {
      hide PrepareOne, Prev, Next, Get, Apart;
      var f, rest := fs[0], fs[1..];
      ApartTail(fs);
      var (after, ok) := PrepareOne(d, f);
      PrepareOneSound(d, f);
      if ok {
        PrepareSound(after, rest, orig);
        assert NotNext(Next(f.target), rest);
        assert f.source != Next(f.target);
      }
      forall p | NotNext(p, fs) ensures p != Next(f.target) && NotNext(p, rest) {
        assert f in fs;
      }
    }
  }

  lemma {:induction false} CleanUpSound(d: Disk, fs: seq<File>)
    ensures SameButNext(d.files, CleanUp(d, fs).files, fs)
    decreases |fs|
  {
    hide Remove, Prev, Next, Get;
    if fs != [] {
      var n := |fs| - 1;
      var after := Remove(d, Next(fs[n].target)).0;
      RemoveSound(d, Next(fs[n].target));
      CleanUpSound(after, fs[..n]);
      forall p | NotNext(p, fs) ensures p != Next(fs[n].target) && NotNext(p, fs[..n]) {
        assert fs[n] in fs;
      }
    }
  }

  lemma RemoveSound(d: Disk, gone: Path)
    ensures forall p :: p != gone ==> Get(Remove(d, gone).0.files, p) == Get(d.files, p)
  {}

  // ---------------------------------------------------------------- all or nothing

  /** Success: the new content is installed, the old content (or its absence) saved. Failure with every
      restoring step done: nothing changed. In between, the old content is not lost. */
  ghost predicate AllOrNothing(orig: map<Path, Content>, a: Attempt, fs: seq<File>) {
    && (a.outcome.Installed? ==>
          forall f :: f in fs ==> Saved(a.disk.files, orig, f) && Upgraded(a.disk.files, orig, f))
    && (a.outcome == Failed(true) ==> forall f :: f in fs ==> Original(a.disk.files, orig, f))
    && (forall f :: f in fs ==> Kept(a.disk.files, orig, f))
    && SameElsewhere(orig, a.disk.files, fs)
  }

  ghost predicate SameElsewhere(was: map<Path, Content>, files: map<Path, Content>, fs: seq<File>) {
    forall p :: Foreign(p, fs) && NotNext(p, fs) ==> Get(files, p) == Get(was, p)
  }

  lemma ExchangeSound(d: Disk, fs: seq<File>, orig: map<Path, Content>)
    requires Apart(fs) && SameButNext(orig, d.files, fs)
    requires forall f :: f in fs ==> Ready(d.files, orig, f) && Original(d.files, orig, f)
    ensures AllOrNothing(orig, Exchange(d, fs), fs)
  {
    hide BackUp, Install, Prev, Next, Get, Clear;
    assert [] + fs == fs;
    BackUpSound(d.files, d, [], fs, orig);
    var saved := BackUp(d, [], fs);
    if saved.outcome.Installed? {
      forall f | f in fs ensures Ready(saved.disk.files, orig, f) {
        NextIsForeign(fs, f);
      }
      InstallSound(orig, saved.disk, [], fs, orig);
    }
  }

  lemma NextIsForeign(fs: seq<File>, f: File)
    requires Apart(fs) && f in fs
    ensures Foreign(Next(f.target), fs)
    ensures Foreign(f.source, fs) && NotNext(f.source, fs)
    ensures NotNext(f.target, fs) && NotNext(Prev(f.target), fs)
  {
    hide Prev, Next;
    var i :| 0 <= i < |fs| && fs[i] == f;
    forall g | g in fs ensures g == f || Clear(f, g) || Clear(g, f) {
      var j :| 0 <= j < |fs| && fs[j] == g;
      assert i < j ==> Clear(fs[i], fs[j]);
      assert j < i ==> Clear(fs[j], fs[i]);
    }
  }

  lemma CleanUpKeeps(orig: map<Path, Content>, a: Attempt, some: seq<File>, fs: seq<File>)
    requires Apart(fs) && AllOrNothing(orig, a, fs)
    requires forall f :: f in some ==> f in fs
    ensures AllOrNothing(orig, Attempt(CleanUp(a.disk, some), a.outcome), fs)
  {
    hide CleanUp, Prev, Next, Get, Apart;
    CleanUpSound(a.disk, some);
    var after := CleanUp(a.disk, some);
    forall f | f in fs
      ensures Get(after.files, f.target) == Get(a.disk.files, f.target)
      ensures Get(after.files, Prev(f.target)) == Get(a.disk.files, Prev(f.target))
    {
      NextIsForeign(fs, f);
      assert NotNext(f.target, some) && NotNext(Prev(f.target), some);
    }
    forall p | NotNext(p, fs) ensures Get(after.files, p) == Get(a.disk.files, p) {
      assert NotNext(p, some);
    }
  }

  lemma UntouchedIsOriginal(
    orig: map<Path, Content>, files: map<Path, Content>, fs: seq<File>)
    requires Apart(fs) && SameButNext(orig, files, fs)
    ensures forall f :: f in fs ==> Original(files, orig, f)
    ensures SameElsewhere(orig, files, fs)
  {
    hide Prev, Next, Get, Apart;
    forall f | f in fs ensures Original(files, orig, f) {
      NextIsForeign(fs, f);
    }
  }

  /** One attempt, under any faults, is all or nothing. */
  lemma ReplaceIsAllOrNothing(d: Disk, fs: seq<File>)
    requires Apart(fs)
    ensures AllOrNothing(d.files, Replace(d, fs), fs)
  {
    hide Prepare, Exchange, CleanUp, Prev, Next, Get, Apart;
    if fs != [] {
      var (prepared, n) := Prepare(d, fs);
      PrepareSound(d, fs, d.files);
      UntouchedIsOriginal(d.files, prepared.files, fs);
      if n < |fs| {
        CleanUpKeeps(d.files, Attempt(prepared, Failed(true)), fs[..n], fs);
      } else {
        ExchangeSound(prepared, fs, d.files);
        CleanUpKeeps(d.files, Exchange(prepared, fs), fs, fs);
      }
    }
  }

  /** Restoring after a success, as when the new agent does not start, brings the originals back. */
  lemma RestoringUndoesSuccess(d: Disk, fs: seq<File>, later: Disk)
    requires Apart(fs) && Replace(d, fs).outcome.Installed?
    requires later.files == Replace(d, fs).disk.files
    ensures var (after, ok) := Restore(later, fs);
      && (ok ==> forall f :: f in fs ==> Original(after.files, d.files, f))
      && (forall f :: f in fs ==> Kept(after.files, d.files, f))
      && SameElsewhere(d.files, after.files, fs)
  {
    hide Replace, Restore, Prev, Next, Get, Apart;
    ReplaceIsAllOrNothing(d, fs);
    RestoreSound(later, fs, d.files);
  }

  // ---------------------------------------------------------------- trying again

  /** Whenever an attempt of the retry loop failed, every restoring step of it worked. */
  ghost predicate RetriesRestored(d: Disk, fs: seq<File>, more: nat)
    decreases more
  {
    var first := Replace(d, fs);
    first.outcome.Failed? ==> first.outcome.restored && (more > 0 ==> RetriesRestored(first.disk, fs, more - 1))
  }

  /** A bundle without files is refused, however often it is tried, and nothing is touched. */
  lemma {:induction false} EmptyBundleFails(d: Disk, more: nat)
    ensures Retry(d, [], more) == Attempt(d, Failed(true))
  {
    if more > 0 {
      EmptyBundleFails(d, more - 1);
    }
  }

  /** The whole retry loop is all or nothing as long as failed attempts could restore. */
  lemma {:induction false} RetryIsAllOrNothing(d: Disk, fs: seq<File>, more: nat)
    requires Apart(fs) && RetriesRestored(d, fs, more)
    ensures var a := Retry(d, fs, more);
      AllOrNothing(d.files, a, fs) && (a.outcome.Failed? ==> a.outcome.restored)
    decreases more
  {
    hide Replace, AllOrNothing, Apart;
    var first := Replace(d, fs);
    ReplaceIsAllOrNothing(d, fs);
    if first.outcome.Failed? && more > 0 {
      RetryIsAllOrNothing(first.disk, fs, more - 1);
      RestoredFirst(d.files, first, Retry(d, fs, more), fs);
    }
  }

  /** What an attempt does after one that restored everything it does to the files as they were. */
  lemma RestoredFirst(orig: map<Path, Content>, first: Attempt, a: Attempt, fs: seq<File>)
    requires Apart(fs) && AllOrNothing(orig, first, fs) && first.outcome == Failed(true)
    requires AllOrNothing(first.disk.files, a, fs)
    ensures AllOrNothing(orig, a, fs)
  {
    hide Prev, Next, Get, Apart;
    forall f | f in fs ensures Get(first.disk.files, f.source) == Get(orig, f.source) {
      NextIsForeign(fs, f);
    }
  }

  /** Every failed attempt of the retry loop left the target of `f` as it is in `files`. */
  ghost predicate FailuresLeave(files: map<Path, Content>, d: Disk, fs: seq<File>, more: nat, f: File)
    decreases more
  {
    var first := Replace(d, fs);
    first.outcome.Failed? ==>
      Original(first.disk.files, files, f) && (more > 0 ==> FailuresLeave(files, first.disk, fs, more - 1, f))
  }

  /** One attempt never puts back a content that the target does not hold when it begins, unless it is the new one. */
  lemma AttemptBringsNothingBack(d: Disk, fs: seq<File>, f: File, lost: Content)
    requires Apart(fs) && f in fs && Get(d.files, f.target) != Some(lost) && Get(d.files, f.source) != Some(lost)
    ensures Get(Replace(d, fs).disk.files, f.target) != Some(lost)
    ensures Get(Replace(d, fs).disk.files, f.source) == Get(d.files, f.source)
  {
    hide Replace, Prev, Next, Get, Apart;
    ReplaceIsAllOrNothing(d, fs);
    NextIsForeign(fs, f);
  }

  /** Once an attempt has left the target without its original content, no later attempt of the loop brings it back,
      and a success does not save it. */
  lemma {:induction false} LostStaysLost(d: Disk, fs: seq<File>, more: nat, f: File, lost: Content)
    requires Apart(fs) && f in fs && Get(d.files, f.target) != Some(lost) && Get(d.files, f.source) != Some(lost)
    ensures var a := Retry(d, fs, more);
      && Get(a.disk.files, f.target) != Some(lost)
      && (a.outcome.Installed? ==> Get(a.disk.files, Prev(f.target)) != Some(lost))
    decreases more
  {
    hide Replace, Prev, Next, Get, Apart;
    var first := Replace(d, fs);
    AttemptBringsNothingBack(d, fs, f, lost);
    ReplaceIsAllOrNothing(d, fs);
    if first.outcome.Failed? && more > 0 {
      LostStaysLost(first.disk, fs, more - 1, f, lost);
    }
  }

  /** A loop that installs the bundle in the end has saved an original that was present, and is not what is being
      installed, exactly when every failed attempt of it left that target as it was. */
  lemma RetrySavesIff(d: Disk, fs: seq<File>, more: nat, f: File)
    requires Apart(fs) && f in fs && Retry(d, fs, more).outcome.Installed?
    requires Get(d.files, f.target).Some? && Get(d.files, f.target) != Get(d.files, f.source)
    ensures Saved(Retry(d, fs, more).disk.files, d.files, f) <==> FailuresLeave(d.files, d, fs, more, f)
  {
    RetrySavesSinceIff(d.files, d, fs, more, f);
  }

  lemma {:induction false} RetrySavesSinceIff(orig: map<Path, Content>, d: Disk, fs: seq<File>, more: nat, f: File)
    requires Apart(fs) && f in fs && Retry(d, fs, more).outcome.Installed?
    requires Original(d.files, orig, f) && Get(d.files, f.source) == Get(orig, f.source)
    requires Get(orig, f.target).Some? && Get(orig, f.target) != Get(orig, f.source)
    ensures Saved(Retry(d, fs, more).disk.files, orig, f) <==> FailuresLeave(orig, d, fs, more, f)
    decreases more
  {
    hide Replace, Prev, Next, Get, Apart;
    var first := Replace(d, fs);
    ReplaceIsAllOrNothing(d, fs);
    NextIsForeign(fs, f);
    if first.outcome.Failed? {
      if Original(first.disk.files, orig, f) {
        RetrySavesSinceIff(orig, first.disk, fs, more - 1, f);
      } else {
        LostStaysLost(first.disk, fs, more - 1, f, Get(orig, f.target).value);
      }
    }
  }

  /** Faults that let the backup be made, then stop both the installing and the restoring move. */
  const STUCK_RESTORE: seq<Fault> := [Works, Works, Works, Works, Breaks(None), Works, Breaks(None)]

  /** When the restore failed, trying again can lose the original for good: the second attempt finds no target,
      forgets the backup that alone holds the old content, and succeeds. */
  lemma RetryAfterFailedRestoreLosesOriginal(f: File, prior: Content, newer: Content)
    requires Proper(f) && prior != newer
    ensures var d := Disk(map[f.source := newer, f.target := prior], STUCK_RESTORE);
      && Apart([f])
      && Replace(d, [f]).outcome == Failed(false)
      && Retry(d, [f], 1).outcome.Installed?
      && forall p :: Get(Retry(d, [f], 1).disk.files, p) != Some(prior)
  {
    hide Prev, Next;
    var d := Disk(map[f.source := newer, f.target := prior], STUCK_RESTORE);
    var first := Replace(d, [f]);
    StuckAttempt(f, prior, newer);
    LosingAttempt(f, prior, newer);
    assert Retry(d, [f], 1) == Retry(first.disk, [f], 0);
    assert Retry(first.disk, [f], 0) == Replace(first.disk, [f]);
  }

  lemma StuckAttempt(f: File, prior: Content, newer: Content)
    requires Proper(f)
    ensures Replace(Disk(map[f.source := newer, f.target := prior], STUCK_RESTORE), [f]) ==
      Attempt(Disk(map[f.source := newer, Prev(f.target) := prior], []), Failed(false))
  {
    hide Prev, Next;
    var next, prev := Next(f.target), Prev(f.target);
    var d := Disk(map[f.source := newer, f.target := prior], STUCK_RESTORE);
    var d1 := PrepareOne(d, f).0;
    assert d1 == Disk(map[f.source := newer, f.target := prior, next := newer], STUCK_RESTORE[2..]);
    assert [f][1..] == [];
    assert Prepare(d, [f]) == (d1, 1);
    var d2 := BackUpOne(d1, f).0;
    assert d2 == Disk(map[f.source := newer, prev := prior, next := newer], STUCK_RESTORE[4..]);
    assert BackUp(d1, [], [f]) == Attempt(d2, Installed);
    var d3 := Move(d2, next, f.target).0;
    assert d3 == Disk(d2.files, STUCK_RESTORE[5..]);
    assert Install(d2, [f], [f]) == GiveUp(d3, [f]);
    assert RestoreOne(d3, f) == (Disk(d2.files, []), false);
    assert Restore(d3, [f]) == (Disk(d2.files, []), false);
    assert CleanUp(Disk(d2.files, []), [f]).files == map[f.source := newer, prev := prior];
  }

  lemma LosingAttempt(f: File, prior: Content, newer: Content)
    requires Proper(f)
    ensures Replace(Disk(map[f.source := newer, Prev(f.target) := prior], []), [f]) ==
      Attempt(Disk(map[f.source := newer, f.target := newer], []), Installed)
  {
    hide Prev, Next;
    var next, prev := Next(f.target), Prev(f.target);
    var d := Disk(map[f.source := newer, prev := prior], []);
    var d1 := PrepareOne(d, f).0;
    assert d1 == Disk(map[f.source := newer, prev := prior, next := newer], []);
    assert [f][1..] == [];
    assert Prepare(d, [f]) == (d1, 1);
    var d2 := BackUpOne(d1, f).0;
    assert d2 == Disk(map[f.source := newer, next := newer], []);
    assert BackUp(d1, [], [f]) == Attempt(d2, Installed);
    var d3 := Move(d2, next, f.target).0;
    assert d3 == Disk(map[f.source := newer, f.target := newer], []);
    assert Install(d2, [f], [f]) == Attempt(d3, Installed);
    assert CleanUp(d3, [f]) == d3;
  }

  // ---------------------------------------------------------------- without faults

  lemma {:induction false} PrepareWorks(d: Disk, fs: seq<File>)
    requires Apart(fs) && d.faults == [] && forall f :: f in fs ==> f.source in d.files
    ensures var (after, n) := Prepare(d, fs); n == |fs| && after.faults == []
    decreases |fs|
  {
    hide Prev, Next, Apart;
    if fs != [] {
      ApartTail(fs);
      PrepareWorks(PrepareOne(d, fs[0]).0, fs[1..]);
    }
  }

  lemma {:induction false} BackUpWorks(d: Disk, done: seq<File>, rest: seq<File>)
    requires d.faults == []
    ensures var a := BackUp(d, done, rest); a.outcome.Installed? && a.disk.faults == []
    decreases |rest|
  {
    if rest != [] {
      hide Prev;
      BackUpWorks(BackUpOne(d, rest[0]).0, done + [rest[0]], rest[1..]);
    }
  }

  lemma {:induction false} InstallWorks(d: Disk, all: seq<File>, rest: seq<File>)
    requires Apart(rest) && d.faults == [] && forall f :: f in rest ==> Next(f.target) in d.files
    ensures var a := Install(d, all, rest); a.outcome.Installed? && a.disk.faults == []
    decreases |rest|
  {
    hide Prev, Next, Apart;
    if rest != [] {
      ApartTail(rest);
      InstallWorks(Move(d, Next(rest[0].target), rest[0].target).0, all, rest[1..]);
    }
  }

  lemma ExchangeWorks(d: Disk, fs: seq<File>)
    requires Apart(fs) && d.faults == [] && Prepare(d, fs).1 == |fs| && Prepare(d, fs).0.faults == []
    ensures var a := Exchange(Prepare(d, fs).0, fs); a.outcome.Installed? && a.disk.faults == []
  {
    hide Prepare, BackUp, Install, Prev, Next, Apart;
    var prepared := Prepare(d, fs).0;
    PrepareSound(d, fs, d.files);
    BackUpWorks(prepared, [], fs);
    UntouchedIsOriginal(d.files, prepared.files, fs);
    assert [] + fs == fs;
    BackUpSound(prepared.files, prepared, [], fs, d.files);
    var saved := BackUp(prepared, [], fs).disk;
    forall f | f in fs ensures Next(f.target) in saved.files {
      NextIsForeign(fs, f);
      assert Get(saved.files, Next(f.target)) == Get(prepared.files, Next(f.target));
    }
    InstallWorks(saved, fs, fs);
  }

  /** Without faults a bundle whose sources exist is installed, whatever old files lie about. */
  lemma FaultlessReplaceInstalls(d: Disk, fs: seq<File>)
    requires Apart(fs) && fs != [] && d.faults == [] && forall f :: f in fs ==> f.source in d.files
    ensures Replace(d, fs).outcome.Installed?
  {
    hide Prepare, Exchange, CleanUp, Apart;
    PrepareWorks(d, fs);
    ExchangeWorks(d, fs);
  }

  lemma {:induction false} PrepareLeaves(d: Disk, fs: seq<File>)
    requires d.faults == []
    ensures var (after, n) := Prepare(d, fs);
      && after.faults == []
      && forall p :: p in after.files && p !in d.files ==> !NotNext(p, fs[..n])
    decreases |fs|
  {
    hide Next;
    if fs != [] {
      var (one, ok) := PrepareOne(d, fs[0]);
      if ok {
        PrepareLeaves(one, fs[1..]);
        var (after, n) := Prepare(d, fs);
        assert fs[..n][0] == fs[0] && forall f :: f in fs[1..][..n - 1] ==> f in fs[..n];
      }
    }
  }

  lemma {:induction false} CleanUpEmpties(d: Disk, fs: seq<File>)
    requires d.faults == []
    ensures var after := CleanUp(d, fs);
      after.files.Keys <= d.files.Keys && forall p :: p in after.files ==> NotNext(p, fs)
    decreases |fs|
  {
    hide Next;
    if fs != [] {
      var n := |fs| - 1;
      CleanUpEmpties(Remove(d, Next(fs[n].target)).0, fs[..n]);
      assert fs == fs[..n] + [fs[n]];
    }
  }

  /** Without faults no attempt, successful or not, leaves a copy beside a target that was not there before. */
  lemma NothingLeftBeside(d: Disk, fs: seq<File>, f: File)
    requires Apart(fs) && d.faults == [] && f in fs && f.target + ".next" !in d.files
    ensures f.target + ".next" !in Replace(d, fs).disk.files
  {
    hide Prepare, Exchange, CleanUp, Apart, NotNext;
    var (prepared, n) := Prepare(d, fs);
    assert Next(f.target) == f.target + ".next";
    hide Next;
    PrepareLeaves(d, fs);
    if n < |fs| {
      CleanUpEmpties(prepared, fs[..n]);
    } else {
      ExchangeWorks(d, fs);
      CleanUpEmpties(Exchange(prepared, fs).disk, fs);
      OwnNext(fs, f);
    }
  }

  lemma OwnNext(fs: seq<File>, f: File)
    requires f in fs
    ensures !NotNext(Next(f.target), fs)
  {}

  /** An attempt that succeeds leaves the new content in every target and the old one, or its absence, beside it under
      ".prev"; whatever happens, no other file is touched. */
  lemma SuccessSavesInPrev(d: Disk, fs: seq<File>, p: Path)
    requires Apart(fs)
    ensures var after := Replace(d, fs);
      && (after.outcome.Installed? ==>
            forall f :: f in fs ==>
              && Get(after.disk.files, f.target) == Get(d.files, f.source)
              && Get(after.disk.files, f.target + ".prev") == Get(d.files, f.target))
      && ((forall f :: f in fs ==> p !in {f.target, f.target + ".prev", f.target + ".next"}) ==>
            Get(after.disk.files, p) == Get(d.files, p))
  {
    hide Replace, Apart, Get;
    ReplaceIsAllOrNothing(d, fs);
    var after := Replace(d, fs);
    forall f | f in fs && after.outcome.Installed?
      ensures Get(after.disk.files, f.target + ".prev") == Get(d.files, f.target)
    {
      assert Saved(after.disk.files, d.files, f);
    }
  }
}
