/** What the lock is for: a free path can be taken, and a holder that releases it leaves it free. */
module LockProgress {
  import opened LockModel
  import opened LockTheorems
  import opened Options

  lemma {:induction false} GoOnJoins(s: State, c: Caller, m: nat, n: nat)
    ensures GoOn(GoOn(s, c, m), c, n) == GoOn(s, c, m + n)
  {
    hide Act;
    if n > 0 {
      GoOnJoins(s, c, m, n - 1);
    }
  }

  lemma {:induction false} GoOnSound(s: State, c: Caller, n: nat)
    requires Sound(s)
    ensures Sound(GoOn(s, c, n))
  {
    hide Sound, Advance;
    if n > 0 {
      GoOnSound(s, c, n - 1);
      AdvanceSound(GoOn(s, c, n - 1), c, false, false);
    }
  }

  /** A step leaves every other caller where it is. */
  lemma StepMovesOne(s: State, c: Caller, fails: bool, stale: bool)
    ensures forall d :: d != c ==> Advance(s, c, fails, stale).At(d) == s.At(d)
    ensures forall d :: d in Advance(s, c, fails, stale).callers ==> d == c || d in s.callers
  {
    match s.At(c)
    case Entering =>
    case Waiting(_) =>
    case Creating(_) =>
    case Giving(_) =>
    case Dropping(_) =>
    case _ =>
  }

  lemma {:induction false} OthersStay(s: State, c: Caller, n: nat, d: Caller)
    requires d != c
    ensures GoOn(s, c, n).At(d) == s.At(d)
  {
    hide Advance, State.At;
    if n > 0 {
      OthersStay(s, c, n - 1, d);
      StepMovesOne(GoOn(s, c, n - 1), c, false, false);
    }
  }

  // ---------------------------------------------------------------- taking a free path

  /** How many steps that do not fail bring a caller to hold a free path. */
  function StepsToHold(pc: Pc): Option<nat> {
    match pc
    case Idle => Some(6)
    case Inspecting => Some(5)
    case RetireLooking => Some(6)
    case Retiring => Some(6)
    case Forgetting => Some(5)
    case Entering => Some(4)
    case Waiting(_) => Some(3)
    case Creating(_) => Some(2)
    case Made(_, _) => Some(1)
    case Blocked(_) => Some(3)
    case Clearing(_) => Some(3)
    case Holding(_, _) => Some(0)
    case _ => None
  }

  /** No other caller of the process has a token. */
  ghost predicate TokensFree(s: State, c: Caller) {
    forall d :: d in s.callers && d != c && d.process == c.process ==> s.callers[d].Has().None?
  }

  /** The file a caller on its way will hold: its own, or the next one to be made. */
  predicate FileFree(s: State, c: Caller, f: nat) {
    if s.At(c).Owns().Some? then s.At(c).Owns() == Some(f) == s.file else s.file.None? && f == s.nextFile
  }

  /** Nothing stands between the caller and the path it comes to hold with the file f. */
  ghost predicate WayFree(s: State, c: Caller, f: nat) {
    Sound(s) && TokensFree(s, c) && StepsToHold(s.At(c)).Some? && FileFree(s, c, f)
  }

  /** A caller that waits for the token of a process whose tokens are free finds it in the channel. */
  lemma TokenIsThere(s: State, c: Caller, l: nat)
    requires Sound(s) && TokensFree(s, c) && s.At(c).Has() != Some(l)
    requires l in s.locks && s.locks[l].owner == c.process
    ensures s.locks[l].tokens == 1
  {
    hide RefsExact, Registered, Numbered;
    assert Holders(s, l) == {};
  }

  lemma WaitsForOwn(s: State, c: Caller)
    requires Sound(s) && s.At(c).Waiting?
    ensures s.At(c).lock in s.locks && s.locks[s.At(c).lock].owner == c.process && s.At(c).Has().None?
  {
    assert s.callers[c].Uses() == Some(s.At(c).lock);
  }

  lemma StepNearer(s: State, c: Caller, f: nat)
    requires FileFree(s, c, f) && StepsToHold(s.At(c)).Some? && !s.At(c).Holding?
    requires s.At(c).Waiting? ==> s.At(c).lock in s.locks && s.locks[s.At(c).lock].tokens == 1
    ensures var after := Advance(s, c, false, false);
      FileFree(after, c, f) && StepsToHold(after.At(c)) == Some(StepsToHold(s.At(c)).value - 1)
  {
    match s.At(c)
    case Retiring =>
    case Forgetting =>
    case Entering =>
    case Waiting(_) =>
    case Creating(_) =>
    case _ =>
  }

  lemma StepKeepsTokensFree(s: State, c: Caller, fails: bool, stale: bool)
    requires TokensFree(s, c)
    ensures TokensFree(Advance(s, c, fails, stale), c)
  {
    hide Advance, Pc.Has;
    var after := Advance(s, c, fails, stale);
    StepMovesOne(s, c, fails, stale);
    forall d | d in after.callers && d != c && d.process == c.process ensures after.callers[d].Has().None? {
      assert after.At(d) == s.At(d);
    }
  }

  lemma StepOnTheWay(s: State, c: Caller, f: nat)
    requires WayFree(s, c, f) && !s.At(c).Holding?
    ensures var after := Advance(s, c, false, false);
      WayFree(after, c, f) && StepsToHold(after.At(c)) == Some(StepsToHold(s.At(c)).value - 1)
  {
    hide Sound, TokensFree, FileFree, Advance, Pc.Has;
    if s.At(c).Waiting? {
      WaitsForOwn(s, c);
      TokenIsThere(s, c, s.At(c).lock);
    }
    StepNearer(s, c, f);
    AdvanceSound(s, c, false, false);
    StepKeepsTokensFree(s, c, false, false);
  }

  lemma {:induction false} TakesTheWay(s: State, c: Caller, f: nat)
    requires WayFree(s, c, f)
    ensures var after := GoOn(s, c, StepsToHold(s.At(c)).value);
      after.At(c).Holding? && after.At(c).file == f && after.file == Some(f) && Sound(after)
    decreases StepsToHold(s.At(c)).value
  {
    hide Sound, TokensFree, Advance;
    if !s.At(c).Holding? {
      var after := Act(s, Go(c, false, false));
      StepOnTheWay(s, c, f);
      TakesTheWay(after, c, f);
      assert GoOn(s, c, 0) == s && GoOn(s, c, 1) == after;
      GoOnJoins(s, c, 1, StepsToHold(after.At(c)).value);
    }
  }

  /** From a sound state with no lock file, a caller of a process whose tokens are free, wherever it is on its
      way, comes to hold the path with its own file when it runs alone and nothing fails. */
  lemma FreePathIsTaken(s: State, c: Caller) returns (n: nat)
    requires Sound(s) && s.file.None? && TokensFree(s, c)
    requires s.At(c).Owns().None? && !s.At(c).Giving? && !s.At(c).Dropping?
    ensures n <= 6 && Sound(GoOn(s, c, n))
    ensures var after := GoOn(s, c, n);
      && after.At(c).Holding? && after.At(c).file == s.nextFile && after.file == Some(s.nextFile)
      && forall d :: d != c ==> after.At(d) == s.At(d)
  {
    hide Sound, TokensFree, GoOn;
    n := StepsToHold(s.At(c)).value;
    TakesTheWay(s, c, s.nextFile);
    forall d | d != c ensures GoOn(s, c, n).At(d) == s.At(d) {
      OthersStay(s, c, n, d);
    }
  }

  // ---------------------------------------------------------------- giving the path back

  /** A caller that puts its token back leaves the token in the channel and one reference less; the registry
      forgets the lock exactly when it names this one and nobody else uses it. */
  lemma TokenIsReturned(s: State, c: Caller, l: nat)
    requires Sound(s) && s.At(c) == Giving(l)
    ensures l in s.locks
    ensures var after := GoOn(s, c, 2);
      && Sound(after) && after.At(c) == Idle && after.file == s.file && after.nextFile == s.nextFile
      && after.locks == s.locks[l := Lock(c.process, 1, s.locks[l].refs - 1)]
      && after.registry == (if c.process in s.registry && s.registry[c.process] == l && Users(s, l) == {c}
                            then s.registry - {c.process} else s.registry)
      && forall d :: d != c ==> after.At(d) == s.At(d)
  {
    hide Sound, Users, Enter, TakeToken, Forget;
    ReleaseNeverBlocks(s, c, l);
    GiveTokenSound(s, c, l);
    var given := GiveToken(s, c, l);
    DropReferenceSound(given, c, l);
    UserOfLock(s, c, l);
    assert GoOn(s, c, 0) == s && GoOn(s, c, 1) == Act(s, Go(c, false, false)) == given;
    assert GoOn(s, c, 2) == Act(given, Go(c, false, false)) == DropReference(given, c, l);
    hide Advance;
  }

  lemma UserOfLock(s: State, c: Caller, l: nat)
    requires Sound(s) && s.At(c).Uses() == Some(l)
    ensures l in s.locks && s.locks[l].owner == c.process
    ensures s.locks[l].refs == 1 <==> Users(s, l) == {c}
  {
    assert c in s.callers && s.callers[c].Uses() == Some(l);
    if s.locks[l].refs == 1 {
      OnlyUser(s, c, l);
    }
  }

  lemma HolderRemoves(s: State, c: Caller, l: nat, f: nat)
    requires s.At(c) == Holding(l, f)
    ensures var after := GoOn(s, c, if s.file == Some(f) then 3 else 2);
      after == s.(file := if s.file == Some(f) then None else s.file).Goto(c, Giving(l))
  {
    assert GoOn(s, c, 0) == s && GoOn(s, c, 1) == s.Goto(c, Checking(l, f));
    assert GoOn(s, c, 3) == Act(GoOn(s, c, 2), Go(c, false, false));
  }

  /** From any sound state a holder whose steps do not fail removes the lock file if it is its own, and any
      other file stays; its token is back in the channel and its reference is dropped. */
  lemma ReleaseFreesPath(s: State, c: Caller, l: nat, f: nat)
    requires Sound(s) && s.At(c) == Holding(l, f)
    ensures l in s.locks
    ensures var after := GoOn(s, c, if s.file == Some(f) then 5 else 4);
      && Sound(after) && after.At(c) == Idle && after.nextFile == s.nextFile
      && after.file == (if s.file == Some(f) then None else s.file)
      && after.locks == s.locks[l := Lock(c.process, 1, s.locks[l].refs - 1)]
      && after.registry == (if c.process in s.registry && s.registry[c.process] == l && Users(s, l) == {c}
                            then s.registry - {c.process} else s.registry)
      && forall d :: d != c ==> after.At(d) == s.At(d)
  {
    hide Sound, Users, Act;
    var n := if s.file == Some(f) then 3 else 2;
    var removed := GoOn(s, c, n);
    HolderRemoves(s, c, l, f);
    GoOnSound(s, c, n);
    TokenIsReturned(removed, c, l);
    GoOnJoins(s, c, n, 2);
    SameUse(s, removed, c, l);
  }

  lemma SameUse(s: State, after: State, c: Caller, l: nat)
    requires after.callers == s.callers[c := after.At(c)] && after.At(c).Uses() == s.At(c).Uses()
    ensures Users(after, l) == Users(s, l)
  {
    hide Pc.Uses;
    IdleIsFree();
  }

  lemma FailureGivesBack(s: State, c: Caller, l: nat, stale: bool)
    requires s.At(c) in {Creating(l), Blocked(l), Clearing(l)} && (s.At(c).Blocked? ==> s.file.Some?)
    ensures Act(s, Go(c, true, stale)) == s.Goto(c, Giving(l))
  {}

  /** A caller with the token that fails to make its lock file ends where it began: the file is as it was, its
      token is back and its reference is dropped. */
  lemma GivingUpLeavesNothing(s: State, c: Caller, l: nat, stale: bool)
    requires Sound(s) && s.At(c) in {Creating(l), Blocked(l), Clearing(l)} && (s.At(c).Blocked? ==> s.file.Some?)
    ensures l in s.locks
    ensures var after := GoOn(Act(s, Go(c, true, stale)), c, 2);
      && Sound(after) && after.At(c) == Idle && after.file == s.file
      && after.locks == s.locks[l := Lock(c.process, 1, s.locks[l].refs - 1)]
      && forall d :: d != c ==> after.At(d) == s.At(d)
  {
    hide Sound, Users, Advance;
    FailureGivesBack(s, c, l, stale);
    AdvanceSound(s, c, true, stale);
    TokenIsReturned(Act(s, Go(c, true, stale)), c, l);
  }

  lemma UnusableFileGoes(s: State, c: Caller, l: nat, f: nat, stale: bool)
    requires s.At(c) == Made(l, f)
    ensures GoOn(Act(s, Go(c, true, stale)), c, 1) == s.(file := None).Goto(c, Giving(l))
  {
    var failed := Act(s, Go(c, true, stale));
    assert GoOn(failed, c, 0) == failed == s.Goto(c, Unmaking(l, f));
  }

  /** A caller that cannot use the file it made removes it and gives everything back. */
  lemma UnusableFileIsRemoved(s: State, c: Caller, l: nat, f: nat, stale: bool)
    requires Sound(s) && s.At(c) == Made(l, f)
    ensures l in s.locks
    ensures var after := GoOn(Act(s, Go(c, true, stale)), c, 3);
      && Sound(after) && after.At(c) == Idle && after.file.None?
      && after.locks == s.locks[l := Lock(c.process, 1, s.locks[l].refs - 1)]
      && forall d :: d != c ==> after.At(d) == s.At(d)
  {
    hide Sound, Users, Advance;
    var failed := Act(s, Go(c, true, stale));
    UnusableFileGoes(s, c, l, f, stale);
    AdvanceSound(s, c, true, stale);
    GoOnSound(failed, c, 1);
    TokenIsReturned(GoOn(failed, c, 1), c, l);
    GoOnJoins(failed, c, 1, 2);
  }

  /** A caller that does not get the token leaves with its reference alone. */
  lemma TimedOutLeaves(s: State, c: Caller, l: nat, stale: bool)
    requires Sound(s) && s.At(c) == Waiting(l)
    ensures l in s.locks
    ensures var after := GoOn(Act(s, Go(c, true, stale)), c, 1);
      && Sound(after) && after.At(c) == Idle && after.file == s.file
      && after.locks == s.locks[l := s.locks[l].(refs := s.locks[l].refs - 1)]
      && forall d :: d != c ==> after.At(d) == s.At(d)
  {
    hide Sound, Users, Enter, TakeToken, GiveToken, Forget;
    UserOfLock(s, c, l);
    var failed := Act(s, Go(c, true, stale));
    assert failed == s.Goto(c, Dropping(l));
    AdvanceSound(s, c, true, stale);
    AdvanceSound(failed, c, false, false);
    assert GoOn(failed, c, 0) == failed && GoOn(failed, c, 1) == DropReference(failed, c, l);
  }

  /** Acquire, release, acquire: from a sound state with no lock file in which nobody has a token, any caller
      takes the path and gives it back, and any caller, the same or another, takes it after that. */
  lemma PathPassesOn(s: State, c: Caller, d: Caller) returns (n: nat, m: nat)
    requires Sound(s) && s.file.None? && s.At(c) == Idle && s.At(d) == Idle
    requires forall e :: s.At(e).Has().None?
    ensures var held := GoOn(s, c, n);
      var freed := GoOn(held, c, 5);
      var again := GoOn(freed, d, m);
      && held.At(c).Holding? && held.file == Some(s.nextFile) == Some(held.At(c).file)
      && freed.At(c) == Idle && freed.file.None?
      && again.At(d).Holding? && again.file == Some(again.At(d).file)
      && Sound(again) && forall e :: e != d ==> again.At(e) == s.At(e)
  {
    hide Sound, GoOn, Pc.Has;
    IdleIsFree();
    assert forall e :: e in s.callers ==> s.At(e) == s.callers[e];
    n := FreePathIsTaken(s, c);
    var held := GoOn(s, c, n);
    ReleaseFreesPath(held, c, held.At(c).lock, s.nextFile);
    var freed := GoOn(held, c, 5);
    assert forall e :: freed.At(e) == s.At(e);
    assert forall e :: e in freed.callers ==> freed.At(e) == freed.callers[e];
    m := FreePathIsTaken(freed, d);
  }

  /** A lock file left by a dead process does not close the path: a caller that finds it old, and runs alone
      without failures, removes it and holds the path with its own. */
  lemma AbandonedFileIsReplaced(s: State, c: Caller)
    requires s.file.Some? && s.At(c) == Idle
    ensures var after := RemoveAndHold(FindOld(s, c), c);
      after.At(c).Holding? && after.file == Some(s.nextFile) && forall d :: d != c ==> after.At(d) == s.At(d)
  {
    hide Act;
    CallerFindsOld(s, c);
    RetiringCallerHolds(FindOld(s, c), c);
  }

  /** A caller that cannot look at an old file again, or cannot remove it, leaves with everything as it was. */
  lemma FailedRetirementLeaves(s: State, c: Caller, stale: bool)
    requires s.At(c) in {RetireLooking, Retiring}
    ensures Act(s, Go(c, true, stale)) == s.Goto(c, Idle)
  {}

  /** A blocked caller that finds the lock file old removes it, and holds the path with its own. */
  lemma OldFileIsCleared(s: State, c: Caller, l: nat)
    requires s.At(c) == Blocked(l) && s.file.Some?
    ensures var after := GoOn(Act(s, Go(c, false, true)), c, 3);
      && after.At(c) == Holding(l, s.nextFile) && after.file == Some(s.nextFile)
      && forall d :: d != c ==> after.At(d) == s.At(d)
  {
    var found := Act(s, Go(c, false, true));
    assert found == s.Goto(c, Clearing(l));
    var cleared := s.(file := None).Goto(c, Creating(l));
    assert GoOn(found, c, 0) == found && GoOn(found, c, 1) == cleared;
    var made := Act(cleared, Go(c, false, false));
    assert GoOn(found, c, 2) == made && made.At(c) == Made(l, s.nextFile);
    assert GoOn(found, c, 3) == Act(made, Go(c, false, false));
  }

  /** One that finds it not old looks again, and changes nothing. */
  lemma WaitingChangesNothing(s: State, c: Caller, l: nat, stale: bool)
    requires s.At(c) == Blocked(l) && s.file.Some?
    ensures Act(Act(s, Go(c, false, false)), Go(c, false, stale)) == s
  {
    assert Act(s, Go(c, false, false)) == s.Goto(c, Creating(l));
    assert c in s.callers && s.callers[c := Creating(l)][c := Blocked(l)] == s.callers;
  }
}
