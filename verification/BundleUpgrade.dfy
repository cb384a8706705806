/** The upgrade helper's file replacement as it runs: loops over the bundle, changing the disk in place. */
module BundleUpgrade {
  import opened BundleModel
  import opened Options

  class Volume {
    var files: map<Path, Content>
    var faults: seq<Fault>

    ghost function State(): Disk
      reads this
    {
      Disk(files, faults)
    }

    method NextFault() returns (fault: Fault)
      modifies this`faults
      ensures fault == old(State()).Fault() && State() == old(State()).Then(files)
    {
      if faults == [] {
        return Works;
      }
      fault := faults[0];
      faults := faults[1..];
    }

    method StatFile(p: Path) returns (presence: Presence)
      modifies this
      ensures (State(), presence) == Stat(old(State()), p)
    {
      var fault := NextFault();
      if fault.Breaks? {
        return Unknown;
      }
      return if p in files then Present else Absent;
    }

    method RemoveFile(p: Path) returns (removal: Removal)
      modifies this
      ensures (State(), removal) == Remove(old(State()), p)
    {
      var fault := NextFault();
      if fault.Breaks? {
        return Stuck;
      }
      if p !in files {
        return Missing;
      }
      files := files - {p};
      return Removed;
    }

    method MoveFile(from: Path, to: Path) returns (ok: bool)
      modifies this
      ensures (State(), ok) == Move(old(State()), from, to)
    {
      var fault := NextFault();
      if fault.Breaks? || from !in files {
        return false;
      }
      files := (files - {from})[to := files[from]];
      return true;
    }

    method CopyFile(from: Path, to: Path) returns (ok: bool)
      modifies this
      ensures (State(), ok) == Copy(old(State()), from, to)
    {
      var fault := NextFault();
      if from !in files || to in files {
        return false;
      }
      match fault {
        case Works =>
          files := files[to := files[from]];
          return true;
        case Breaks(left) =>
          if left.Some? {
            files := files[to := left.value];
          }
          return false;
      }
    }

    /** Put backed up files back, as far as each step works. */
    method RestoreBackups(fs: seq<File>) returns (ok: bool)
      modifies this
      ensures (State(), ok) == Restore(old(State()), fs)
    {
      hide Stat, Move, Remove;
      ok := true;
      var i := 0;
      while i < |fs|
        invariant 0 <= i <= |fs|
        invariant Restore(old(State()), fs) ==
          (Restore(State(), fs[i..]).0, ok && Restore(State(), fs[i..]).1)
      {
        var target := fs[i].target;
        ghost var before := State();
        ghost var was := ok;
        assert fs[i..][0] == fs[i] && fs[i..][1..] == fs[i + 1..];
        var backup := StatFile(Prev(target));
        match backup {
          case Present =>
            var moved := MoveFile(Prev(target), target);
            ok := ok && moved;
          case Absent =>
            var removal := RemoveFile(target);
            ok := ok && !removal.Stuck?;
          case Unknown =>
            ok := false;
        }
        assert (State(), ok) == (RestoreOne(before, fs[i]).0, was && RestoreOne(before, fs[i]).1);
        i := i + 1;
      }
    }

    method RestoreAndFail(backedUp: seq<File>) returns (outcome: Outcome)
      modifies this
      ensures Attempt(State(), outcome) == GiveUp(old(State()), backedUp)
    {
      var ok := RestoreBackups(backedUp);
      outcome := Failed(ok);
    }

    method BackUpTargets(fs: seq<File>) returns (outcome: Outcome)
      modifies this
      ensures Attempt(State(), outcome) == BackUp(old(State()), [], fs)
    {
      hide Stat, Move, Remove, GiveUp;
      var backedUp: seq<File> := [];
      while |backedUp| < |fs|
        invariant |backedUp| <= |fs| && backedUp == fs[..|backedUp|]
        invariant BackUp(old(State()), [], fs) == BackUp(State(), backedUp, fs[|backedUp|..])
      {
        var i := |backedUp|;
        var target := fs[i].target;
        ghost var before := State();
        assert fs[i..][0] == fs[i] && fs[i..][1..] == fs[i + 1..];
        var current := StatFile(target);
        var ok := false;
        match current {
          case Absent =>
            var removal := RemoveFile(Prev(target));
            ok := !removal.Stuck?;
          case Present =>
            ok := MoveFile(target, Prev(target));
          case Unknown =>
        }
        assert (State(), ok) == BackUpOne(before, fs[i]);
        if !ok {
          outcome := RestoreAndFail(backedUp);
          return;
        }
        backedUp := backedUp + [fs[i]];
      }
      outcome := Installed;
    }

    method InstallTargets(fs: seq<File>) returns (outcome: Outcome)
      modifies this
      ensures Attempt(State(), outcome) == Install(old(State()), fs, fs)
    {
      hide Move, GiveUp;
      var i := 0;
      while i < |fs|
        invariant 0 <= i <= |fs|
        invariant Install(old(State()), fs, fs) == Install(State(), fs, fs[i..])
      {
        assert fs[i..][0] == fs[i] && fs[i..][1..] == fs[i + 1..];
        var ok := MoveFile(Next(fs[i].target), fs[i].target);
        if !ok {
          outcome := RestoreAndFail(fs);
          return;
        }
        i := i + 1;
      }
      outcome := Installed;
    }

    method PrepareTargets(fs: seq<File>) returns (n: nat)
      modifies this
      ensures (State(), n) == Prepare(old(State()), fs)
      ensures n <= |fs|
    {
      hide Copy, Remove;
      n := 0;
      while n < |fs|
        invariant n <= |fs|
        invariant Prepare(old(State()), fs) == (Prepare(State(), fs[n..]).0, n + Prepare(State(), fs[n..]).1)
      {
        assert fs[n..][0] == fs[n] && fs[n..][1..] == fs[n + 1..];
        var _ := RemoveFile(Next(fs[n].target));
        var ok := CopyFile(fs[n].source, Next(fs[n].target));
        if !ok {
          return;
        }
        n := n + 1;
      }
    }

    method RemovePrepared(fs: seq<File>)
      modifies this
      ensures State() == CleanUp(old(State()), fs)
    {
      hide Remove;
      var i := |fs|;
      assert fs[..i] == fs;
      while i > 0
        invariant 0 <= i <= |fs|
        invariant CleanUp(old(State()), fs) == CleanUp(State(), fs[..i])
      {
        i := i - 1;
        assert fs[..i + 1][i] == fs[i] && fs[..i + 1][..i] == fs[..i];
        var _ := RemoveFile(Next(fs[i].target));
      }
    }

    /** One attempt at the whole bundle. */
    method ReplaceBundle(fs: seq<File>) returns (outcome: Outcome)
      modifies this
      ensures Attempt(State(), outcome) == Replace(old(State()), fs)
    {
      hide Prepare, BackUp, Install, CleanUp;
      if fs == [] {
        return Failed(true);
      }
      var n := PrepareTargets(fs);
      if n < |fs| {
        RemovePrepared(fs[..n]);
        return Failed(true);
      }
      outcome := BackUpTargets(fs);
      if outcome.Installed? {
        outcome := InstallTargets(fs);
      }
      RemovePrepared(fs);
    }

    method RetryBundle(fs: seq<File>, attemptsLeft: nat) returns (outcome: Outcome)
      modifies this
      ensures Attempt(State(), outcome) == Retry(old(State()), fs, attemptsLeft)
    {
      hide Replace;
      var more := attemptsLeft;
      while true
        invariant Retry(old(State()), fs, attemptsLeft) == Retry(State(), fs, more)
        decreases more
      {
        outcome := ReplaceBundle(fs);
        if outcome.Installed? || more == 0 {
          return;
        }
        more := more - 1;
      }
    }
  }
}
