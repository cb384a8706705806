/** What the lock keeps under every interleaving. */
module LockTheorems {
  import opened LockModel
  import opened Options

  function Holders(s: State, l: nat): set<Caller> {
    set c | c in s.callers && s.callers[c].Has() == Some(l)
  }

  function Users(s: State, l: nat): set<Caller> {
    set c | c in s.callers && s.callers[c].Uses() == Some(l)
  }

  /** Callers use locks of their own process. */
  ghost predicate OwnLocks(s: State) {
    forall c :: c in s.callers && s.callers[c].Uses().Some? ==>
      s.callers[c].Uses().value in s.locks && s.locks[s.callers[c].Uses().value].owner == c.process
  }

  /** The token of every lock is in its channel or with one caller. */
  ghost predicate OneToken(s: State) {
    forall l :: l in s.locks ==> s.locks[l].tokens + |Holders(s, l)| == 1
  }

  /** References are counted exactly. */
  ghost predicate RefsExact(s: State) {
    forall l :: l in s.locks ==> s.locks[l].refs == |Users(s, l)|
  }

  /** The registry names a used lock of the process. */
  ghost predicate Registered(s: State) {
    forall p :: p in s.registry ==>
      s.registry[p] in s.locks && s.locks[s.registry[p]].owner == p && s.locks[s.registry[p]].refs > 0
  }

  ghost predicate Numbered(s: State) {
    forall l :: l in s.locks ==> l < s.nextLock
  }

  ghost predicate Sound(s: State) {
    OwnLocks(s) && OneToken(s) && RefsExact(s) && Registered(s) && Numbered(s)
  }

  // ---------------------------------------------------------------- counting callers

  function One(b: bool): nat { if b then 1 else 0 }

  lemma SetCount<T>(was: set<T>, now: set<T>, c: T)
    requires now - {c} == was - {c}
    ensures |now| == |was| - One(c in was) + One(c in now)
  {
    assert c in was ==> was == (was - {c}) + {c};
    assert c in now ==> now == (now - {c}) + {c};
    assert c !in was ==> was == was - {c};
    assert c !in now ==> now == now - {c};
  }

  /** Moving one caller changes the counts by that caller alone. */
  lemma GotoCounts(s: State, after: State, c: Caller, pc: Pc, l: nat)
    requires after.callers == s.callers[c := pc]
    ensures |Holders(after, l)| == |Holders(s, l)| - One(s.At(c).Has() == Some(l)) + One(pc.Has() == Some(l))
    ensures |Users(after, l)| == |Users(s, l)| - One(s.At(c).Uses() == Some(l)) + One(pc.Uses() == Some(l))
  {
    hide Pc.Has, Pc.Uses;
    IdleIsFree();
    assert Holders(after, l) - {c} == Holders(s, l) - {c};
    SetCount(Holders(s, l), Holders(after, l), c);
    assert Users(after, l) - {c} == Users(s, l) - {c};
    SetCount(Users(s, l), Users(after, l), c);
  }

  lemma IdleIsFree()
    ensures Idle.Has() == None && Idle.Uses() == None && Idle.Owns() == None
  {}

  // ---------------------------------------------------------------- every step is sound

  /** A caller moves on with the same lock and token; only the file may change. */
  lemma QuietStepSound(s: State, after: State, c: Caller, pc: Pc)
    requires Sound(s) && pc.Has() == s.At(c).Has() && pc.Uses() == s.At(c).Uses()
    requires after.callers == s.callers[c := pc] && after.locks == s.locks && after.nextLock == s.nextLock
    requires after.registry == s.registry || after.registry == s.registry - {c.process}
    ensures Sound(after)
  {
    hide Holders, Users, Pc.Has, Pc.Uses;
    IdleIsFree();
    forall l | l in s.locks
      ensures |Holders(after, l)| == |Holders(s, l)| && |Users(after, l)| == |Users(s, l)|
    {
      GotoCounts(s, after, c, pc, l);
    }
  }

  lemma CountsAfter(s: State, after: State, c: Caller, pc: Pc)
    requires after.callers == s.callers[c := pc]
    ensures forall l: nat ::
      |Holders(after, l)| == |Holders(s, l)| - One(s.At(c).Has() == Some(l)) + One(pc.Has() == Some(l))
    ensures forall l: nat ::
      |Users(after, l)| == |Users(s, l)| - One(s.At(c).Uses() == Some(l)) + One(pc.Uses() == Some(l))
  {
    hide Holders, Users, Pc.Has, Pc.Uses, One;
    forall l: nat
      ensures |Holders(after, l)| == |Holders(s, l)| - One(s.At(c).Has() == Some(l)) + One(pc.Has() == Some(l))
      ensures |Users(after, l)| == |Users(s, l)| - One(s.At(c).Uses() == Some(l)) + One(pc.Uses() == Some(l))
    {
      GotoCounts(s, after, c, pc, l);
    }
  }

  lemma UnusedLock(s: State, l: nat)
    requires Sound(s) && l !in s.locks
    ensures Holders(s, l) == {} && Users(s, l) == {}
  {}

  lemma EnterSound(s: State, c: Caller)
    requires Sound(s) && s.At(c) == Entering
    ensures Sound(Enter(s, c))
  {
    hide Holders, Users;
    if c.process in s.registry {
      JoinLockSound(s, c);
    } else {
      NewLockSound(s, c);
    }
  }

  lemma JoinLockSound(s: State, c: Caller)
    requires Sound(s) && s.At(c) == Entering && c.process in s.registry
    ensures Sound(Enter(s, c))
  {
    hide Holders, Users;
    var l := s.registry[c.process];
    CountsAfter(s, s.Goto(c, Waiting(l)), c, Waiting(l));
    SameCallers(s.Goto(c, Waiting(l)), Enter(s, c));
  }

  lemma NewLockSound(s: State, c: Caller)
    requires Sound(s) && s.At(c) == Entering && c.process !in s.registry
    ensures Sound(Enter(s, c))
  {
    hide Holders, Users;
    var l := s.nextLock;
    CountsAfter(s, s.Goto(c, Waiting(l)), c, Waiting(l));
    SameCallers(s.Goto(c, Waiting(l)), Enter(s, c));
    UnusedLock(s, l);
  }

  lemma TakeTokenSound(s: State, c: Caller, l: nat)
    requires Sound(s) && s.At(c) == Waiting(l)
    ensures Sound(TakeToken(s, c, l))
  {
    hide Holders, Users;
    CountsAfter(s, s.Goto(c, Creating(l)), c, Creating(l));
    SameCallers(s.Goto(c, Creating(l)), TakeToken(s, c, l));
  }

  lemma SameCallers(s: State, t: State)
    ensures s.callers == t.callers ==> forall l: nat :: Holders(s, l) == Holders(t, l) && Users(s, l) == Users(t, l)
  {}

  /** Putting the token back never blocks: the channel is empty. */
  lemma ReleaseNeverBlocks(s: State, c: Caller, l: nat)
    requires Sound(s) && s.At(c).Has() == Some(l)
    ensures l in s.locks && s.locks[l].tokens == 0
  {
    assert c in Holders(s, l);
    assert |Holders(s, l)| > 0;
  }

  lemma GiveTokenSound(s: State, c: Caller, l: nat)
    requires Sound(s) && s.At(c) == Giving(l)
    ensures Sound(GiveToken(s, c, l)) && GiveToken(s, c, l).At(c) == Dropping(l)
  {
    hide Holders, Users;
    ReleaseNeverBlocks(s, c, l);
    CountsAfter(s, s.Goto(c, Dropping(l)), c, Dropping(l));
    SameCallers(s.Goto(c, Dropping(l)), GiveToken(s, c, l));
  }

  lemma DropReferenceSound(s: State, c: Caller, l: nat)
    requires Sound(s) && s.At(c) == Dropping(l)
    ensures Sound(DropReference(s, c, l))
  {
    hide Holders, Users;
    CountsAfter(s, s.Goto(c, Idle), c, Idle);
    SameCallers(s.Goto(c, Idle), DropReference(s, c, l));
  }

  /** Outside the registry and the token channel, a caller that moves keeps its lock and its token. */
  predicate Quiet(pc: Pc, fails: bool) {
    !pc.Entering? && !pc.Giving? && !pc.Dropping? && (pc.Waiting? || pc.Idle? ==> fails)
  }

  lemma QuietShape(s: State, c: Caller, fails: bool, stale: bool)
    requires Quiet(s.At(c), fails)
    ensures var after := Advance(s, c, fails, stale);
      after == s || (
        var pc := after.At(c);
        && pc.Has() == s.At(c).Has() && pc.Uses() == s.At(c).Uses()
        && after.callers == s.callers[c := pc] && after.locks == s.locks && after.nextLock == s.nextLock
        && (after.registry == s.registry || after.registry == s.registry - {c.process}))
  {
    hide Enter, TakeToken, GiveToken, DropReference;
    match s.At(c)
    case Retiring =>
    case Forgetting =>
    case Creating(_) =>
    case _ =>
  }

  lemma QuietAdvanceSound(s: State, c: Caller, fails: bool, stale: bool)
    requires Sound(s) && Quiet(s.At(c), fails)
    ensures Sound(Advance(s, c, fails, stale))
  {
    hide Sound, Advance, Quiet, Pc.Has, Pc.Uses;
    var after := Advance(s, c, fails, stale);
    QuietShape(s, c, fails, stale);
    if after != s {
      QuietStepSound(s, after, c, after.At(c));
    }
  }

  lemma AdvanceSound(s: State, c: Caller, fails: bool, stale: bool)
    requires Sound(s)
    ensures Sound(Advance(s, c, fails, stale))
  {
    hide Sound, Enter, TakeToken, GiveToken, DropReference;
    var pc := s.At(c);
    if Quiet(pc, fails) {
      QuietAdvanceSound(s, c, fails, stale);
    } else if pc.Entering? {
      EnterSound(s, c);
    } else if pc.Waiting? {
      TakeTokenSound(s, c, pc.lock);
    } else if pc.Giving? {
      GiveTokenSound(s, c, pc.lock);
    } else if pc.Dropping? {
      DropReferenceSound(s, c, pc.lock);
    } else {
      QuietStepSound(s, s.Goto(c, Inspecting), c, Inspecting);
    }
  }

  lemma CrashSound(s: State, process: nat)
    requires Sound(s)
    ensures Sound(Crash(s, process))
  {
    var after := Crash(s, process);
    forall l | l in after.locks ensures Holders(after, l) == Holders(s, l) && Users(after, l) == Users(s, l) {}
  }

  /** Under every interleaving, with crashes, stale retirements and failures: each process lock's token is in
      its channel or with exactly one caller, references are counted exactly, and the registry names only
      used locks. */
  lemma {:induction false} RunSound(actions: seq<Action>)
    ensures Sound(Run(NOTHING_LOCKED, actions))
  {
    hide Advance, Crash;
    if actions == [] {
    } else {
      hide Sound;
      var n := |actions| - 1;
      var before := Run(NOTHING_LOCKED, actions[..n]);
      RunSound(actions[..n]);
      match actions[n]
      case Go(c, fails, stale) => AdvanceSound(before, c, fails, stale);
      case Die(process) => CrashSound(before, process);
    }
  }

  /** A process lock is held by at most one caller, old files or not. */
  lemma OneHolderPerLock(actions: seq<Action>, c: Caller, d: Caller, l: nat)
    requires Run(NOTHING_LOCKED, actions).At(c).Has() == Some(l)
    requires Run(NOTHING_LOCKED, actions).At(d).Has() == Some(l)
    ensures c == d
  {
    hide Run, Advance;
    RunSound(actions);
    var s := Run(NOTHING_LOCKED, actions);
    ReleaseNeverBlocks(s, c, l);
    assert {c, d} <= Holders(s, l);
    if c != d {
      assert |{c, d}| == 2;
      SubsetCount({c, d}, Holders(s, l));
    }
  }

  lemma SubsetCount<T>(a: set<T>, b: set<T>)
    requires a <= b
    ensures |a| <= |b|
  {
    assert b == a + (b - a);
  }

  /** A registry entry goes only with the last reference to the very lock it names, or by stale retirement, and
      is never replaced while it stands: a retired lock does not delete its successor's entry. */
  lemma EntryRemovedOnlyByItsOwn(
    s: State, c: Caller, fails: bool, stale: bool, p: nat)
    requires Sound(s) && p in s.registry
    ensures var after := Advance(s, c, fails, stale);
      (p in after.registry && after.registry[p] == s.registry[p]) ||
      (p == c.process && p !in after.registry &&
        (s.At(c) == Forgetting || (s.At(c) == Dropping(s.registry[p]) && Users(s, s.registry[p]) == {c})))
  {
    hide Holders, OneToken;
    if s.At(c).Dropping? {
      var l := s.At(c).lock;
      if p == c.process && s.registry[p] == l && s.locks[l].refs == 1 {
        OnlyUser(s, c, l);
      }
      hide Users;
    } else {
      hide Users;
    }
  }

  lemma OnlyUser(s: State, c: Caller, l: nat)
    requires s.At(c).Uses() == Some(l) && |Users(s, l)| == 1
    ensures Users(s, l) == {c}
  {
    assert c in Users(s, l);
    SubsetCount({c}, Users(s, l));
    assert |Users(s, l) - {c}| == 0;
  }

  // ---------------------------------------------------------------- between processes

  /** Every caller that has made a lock file has made the one that exists, so there is at most one. */
  ghost predicate Exclusive(s: State) {
    && (forall c :: c in s.callers && s.callers[c].Owns().Some? ==> s.file == s.callers[c].Owns())
    && (forall c, d ::
          c in s.callers && d in s.callers && s.callers[c].Owns().Some? && s.callers[d].Owns().Some? ==> c == d)
  }

  lemma OwnerlessStep(s: State, after: State, c: Caller, pc: Pc)
    requires Exclusive(s) && after.callers == s.callers[c := pc]
    requires pc.Owns().Some? ==> s.At(c).Owns() == pc.Owns()
    requires after.file == s.file || (after.file.None? && s.At(c).Owns().Some? && pc.Owns().None?)
    ensures Exclusive(after)
  {
    hide Pc.Owns;
    IdleIsFree();
  }

  lemma MakeExclusive(s: State, after: State, c: Caller, l: nat)
    requires Exclusive(s) && s.file.None?
    requires after.callers == s.callers[c := Made(l, s.nextFile)] && after.file == Some(s.nextFile)
    ensures Exclusive(after)
  {}

  /** The caller's step removes a lock file it found old. */
  predicate RemovesOld(s: State, c: Caller, fails: bool) {
    (s.At(c).Retiring? || s.At(c).Clearing?) && !fails
  }

  /** The step removes a lock file found old, while some caller holds the path. */
  ghost predicate TakesLiveFile(s: State, a: Action) {
    a.Go? && RemovesOld(s, a.caller, a.fails) && exists d :: d in s.callers && s.callers[d].Owns().Some?
  }

  /** What a step that removes no old file does to its caller's place and to the file. */
  lemma StepShape(s: State, c: Caller, fails: bool, stale: bool)
    requires !RemovesOld(s, c, fails)
    ensures var after := Advance(s, c, fails, stale);
      after == s || (
        var pc := after.At(c);
        && after.callers == s.callers[c := pc]
        && ((s.file.None? && pc == Made(pc.Uses().GetOr(0), s.nextFile) && after.file == Some(s.nextFile)) ||
            ((pc.Owns().Some? ==> s.At(c).Owns() == pc.Owns()) &&
             (after.file == s.file || (after.file.None? && s.At(c).Owns().Some? && pc.Owns().None?)))))
  {
    match s.At(c)
    case Entering =>
    case Waiting(_) =>
    case Giving(_) =>
    case Dropping(_) =>
    case Creating(_) =>
    case _ =>
  }

  lemma KeepingStep(s: State, c: Caller, fails: bool, stale: bool)
    requires Exclusive(s) && !RemovesOld(s, c, fails)
    ensures Exclusive(Advance(s, c, fails, stale))
  {
    hide Exclusive, Advance, Pc.Owns, Pc.Uses, RemovesOld;
    var after := Advance(s, c, fails, stale);
    StepShape(s, c, fails, stale);
    if after != s {
      var pc := after.At(c);
      if after.file == Some(s.nextFile) && s.file.None? && pc.Made? {
        MakeExclusive(s, after, c, pc.lock);
      } else {
        OwnerlessStep(s, after, c, pc);
      }
    }
  }

  lemma RemovingShape(s: State, c: Caller, stale: bool)
    requires RemovesOld(s, c, false)
    ensures var after := Advance(s, c, false, stale);
      && c in s.callers && s.callers[c].Owns().None? && after.file.None?
      && after.callers == s.callers[c := after.At(c)] && after.At(c).Owns().None?
  {}

  lemma RemovingStep(s: State, c: Caller, stale: bool)
    requires Exclusive(s) && RemovesOld(s, c, false)
    ensures Exclusive(Advance(s, c, false, stale)) <==> forall d :: d in s.callers ==> s.callers[d].Owns().None?
  {
    hide Advance, Pc.Owns, RemovesOld;
    var after := Advance(s, c, false, stale);
    RemovingShape(s, c, stale);
    forall d | d in s.callers && s.callers[d].Owns().Some? ensures !Exclusive(after) {
      assert d in after.callers && after.callers[d] == s.callers[d];
    }
  }

  /** From an exclusive state a step leads to one that is not exactly when it takes a live caller's file. */
  lemma StepExclusiveIff(s: State, a: Action)
    requires Exclusive(s)
    ensures Exclusive(Act(s, a)) <==> !TakesLiveFile(s, a)
  {
    hide Advance, Crash, Pc.Owns, State.At;
    match a
    case Die(process) => CrashExclusive(s, process);
    case Go(c, fails, stale) =>
      if RemovesOld(s, c, fails) {
        RemovingStep(s, c, stale);
      } else {
        KeepingStep(s, c, fails, stale);
      }
  }

  lemma CrashExclusive(s: State, process: nat)
    requires Exclusive(s)
    ensures Exclusive(Crash(s, process))
  {}

  /** No step of the run takes a live caller's file. */
  ghost predicate SparesLiveFiles(actions: seq<Action>) {
    forall k :: 0 <= k < |actions| ==> !TakesLiveFile(Run(NOTHING_LOCKED, actions[..k]), actions[k])
  }

  /** A run is exclusive all along exactly when no step of it takes a live caller's file. */
  lemma RunExclusiveIff(actions: seq<Action>)
    ensures (forall k :: 0 <= k <= |actions| ==> Exclusive(Run(NOTHING_LOCKED, actions[..k]))) <==>
      SparesLiveFiles(actions)
  {
    hide Exclusive, TakesLiveFile, Run;
    if forall k :: 0 <= k <= |actions| ==> Exclusive(Run(NOTHING_LOCKED, actions[..k])) {
      forall k | 0 <= k < |actions| ensures !TakesLiveFile(Run(NOTHING_LOCKED, actions[..k]), actions[k]) {
        StepExclusiveIff(Run(NOTHING_LOCKED, actions[..k]), actions[k]);
        RunStep(actions, k);
      }
    }
    if SparesLiveFiles(actions) {
      forall k: nat | k <= |actions| ensures Exclusive(Run(NOTHING_LOCKED, actions[..k])) {
        SparedPrefixExclusive(actions, k);
      }
    }
  }

  lemma RunStep(actions: seq<Action>, k: nat)
    requires k < |actions|
    ensures Run(NOTHING_LOCKED, actions[..k + 1]) == Act(Run(NOTHING_LOCKED, actions[..k]), actions[k])
  {
    hide Act;
    assert actions[..k + 1][..k] == actions[..k];
  }

  lemma {:induction false} SparedPrefixExclusive(actions: seq<Action>, k: nat)
    requires SparesLiveFiles(actions) && k <= |actions|
    ensures Exclusive(Run(NOTHING_LOCKED, actions[..k]))
  {
    hide Exclusive, TakesLiveFile, Run, Act;
    if k == 0 {
      NothingLockedExclusive();
    } else {
      SparedPrefixExclusive(actions, k - 1);
      RunStep(actions, k - 1);
      StepExclusiveIff(Run(NOTHING_LOCKED, actions[..k - 1]), actions[k - 1]);
    }
  }

  lemma NothingLockedExclusive()
    ensures Exclusive(Run(NOTHING_LOCKED, []))
  {}

  /** As long as no step takes a live caller's file, at most one caller of all processes holds the path, from
      creating the file to removing it. */
  lemma MutualExclusion(actions: seq<Action>, c: Caller, d: Caller)
    requires SparesLiveFiles(actions)
    requires Run(NOTHING_LOCKED, actions).At(c).Owns().Some? && Run(NOTHING_LOCKED, actions).At(d).Owns().Some?
    ensures c == d
  {
    hide Run, Advance, SparesLiveFiles;
    assert actions[..|actions|] == actions;
    SparedPrefixExclusive(actions, |actions|);
    IdleIsFree();
  }

  /** No caller is about to remove a file it found old. */
  ghost predicate NoneClearing(s: State) {
    forall c :: c in s.callers ==> !s.callers[c].Retiring? && !s.callers[c].Clearing?
  }

  /** No caller ever finds the lock file old. */
  ghost predicate Calm(actions: seq<Action>) {
    forall k :: 0 <= k < |actions| && actions[k].Go? ==> !actions[k].stale
  }

  lemma CalmAct(s: State, a: Action)
    requires NoneClearing(s) && (a.Go? ==> !a.stale)
    ensures NoneClearing(Act(s, a))
  {}

  lemma {:induction false} CalmNoneClearing(actions: seq<Action>, k: nat)
    requires Calm(actions) && k <= |actions|
    ensures NoneClearing(Run(NOTHING_LOCKED, actions[..k]))
  {
    hide NoneClearing, Act;
    if k > 0 {
      CalmNoneClearing(actions, k - 1);
      RunStep(actions, k - 1);
      CalmAct(Run(NOTHING_LOCKED, actions[..k - 1]), actions[k - 1]);
    } else {
      NobodyClears();
    }
  }

  lemma NobodyClears()
    ensures NoneClearing(Run(NOTHING_LOCKED, []))
  {}

  /** In particular a run in which no lock file is found old is exclusive all along. */
  lemma CalmSparesLiveFiles(actions: seq<Action>)
    requires Calm(actions)
    ensures SparesLiveFiles(actions)
  {
    hide Run;
    forall k: nat | k < |actions| ensures !TakesLiveFile(Run(NOTHING_LOCKED, actions[..k]), actions[k]) {
      CalmNoneClearing(actions, k);
    }
  }

  // ---------------------------------------------------------------- old files

  /** A caller that has just removed an old file goes on to hold the path. */
  lemma ForgetfulCallerHolds(s: State, c: Caller)
    requires s.At(c) == Forgetting && s.file.None?
    ensures var go := Go(c, false, false);
      var after := Act(Act(Act(Act(Act(s, go), go), go), go), go);
      && after.At(c).Holding? && after.file == Some(s.nextFile)
      && forall d :: d != c ==> after.At(d) == s.At(d)
  {
    var go := Go(c, false, false);
    var s1 := Act(s, go);
    assert s1.At(c) == Entering && c.process !in s1.registry && s1.file.None?;
    var s2 := Act(s1, go);
    assert s2.At(c) == Waiting(s1.nextLock) && s2.locks[s1.nextLock].tokens == 1;
    var s3 := Act(s2, go);
    assert s3.At(c) == Creating(s1.nextLock) && s3.file.None?;
    var s4 := Act(s3, go);
    assert s4.At(c) == Made(s1.nextLock, s.nextFile);
  }

  /** A process that dies with the path held leaves its lock file behind and nobody running. */
  lemma DeadProcessLeavesFile(c: Caller)
    ensures var go := Go(c, false, false);
      var after := Act(Act(Act(Act(Act(Act(NOTHING_LOCKED, go), go), go), go), go), Die(c.process));
      after.file == Some(0) && forall d :: after.At(d) == Idle
  {
    var go := Go(c, false, false);
    var s2 := Act(Act(NOTHING_LOCKED, go), go);
    assert s2 == NOTHING_LOCKED.Goto(c, Entering);
    var s3 := Act(s2, go);
    assert s3.At(c) == Waiting(0) && s3.locks[0].tokens == 1 && s3.callers.Keys == {c};
    var s4 := Act(s3, go);
    assert s4.At(c) == Creating(0) && s4.file.None? && s4.nextFile == 0 && s4.callers.Keys == {c};
    var s5 := Act(s4, go);
    assert s5.At(c) == Made(0, 0) && s5.file == Some(0) && s5.callers.Keys == {c};
  }

  lemma CallerFindsOld(s: State, c: Caller)
    requires s.At(c) == Idle && s.file.Some?
    ensures var after := Act(Act(Act(s, Go(c, false, false)), Go(c, false, true)), Go(c, false, true));
      && after.At(c) == Retiring && after.file == s.file && after.nextFile == s.nextFile
      && forall d :: d != c ==> after.At(d) == s.At(d)
  {}

  function RemoveAndHold(s: State, c: Caller): State {
    var go := Go(c, false, false);
    Act(Act(Act(Act(Act(Act(s, go), go), go), go), go), go)
  }

  function FindOld(s: State, c: Caller): State {
    Act(Act(Act(s, Go(c, false, false)), Go(c, false, true)), Go(c, false, true))
  }

  lemma RetiringCallerHolds(s: State, c: Caller)
    requires s.At(c) == Retiring
    ensures var after := RemoveAndHold(s, c);
      && after.At(c).Holding? && after.file == Some(s.nextFile)
      && forall d :: d != c ==> after.At(d) == s.At(d)
  {
    var s1 := Act(s, Go(c, false, false));
    assert s1.At(c) == Forgetting && s1.file.None? && s1.nextFile == s.nextFile;
    assert forall d :: d != c ==> s1.At(d) == s.At(d);
    ForgetfulCallerHolds(s1, c);
    hide Act;
  }

  /** Looking and removing are two steps. When a dead process has left an old file, a caller that found it old
      may remove, late, the fresh file of a caller that came after it: both then hold the path, and neither's
      file was ever old. */
  lemma StaleRemovalAdmitsTwo(s: State, c: Caller, d: Caller)
    requires c != d && s.file.Some? && s.At(c) == Idle && s.At(d) == Idle
    ensures var after := RemoveAndHold(RemoveAndHold(FindOld(FindOld(s, c), d), d), c);
      after.At(c).Holding? && after.At(d).Holding?
  {
    hide Act;
    CallerFindsOld(s, c);
    CallerFindsOld(FindOld(s, c), d);
    var found := FindOld(FindOld(s, c), d);
    RetiringCallerHolds(found, d);
    RetiringCallerHolds(RemoveAndHold(found, d), c);
  }

  /** The caller goes on alone until it holds the path. */
  function GoOn(s: State, c: Caller, n: nat): State {
    if n == 0 then s else Act(GoOn(s, c, n - 1), Go(c, false, false))
  }

  /** Every step that takes a live caller's file can go on to two callers holding the path. */
  lemma LiveRemovalAdmitsTwo(s: State, c: Caller, stale: bool, d: Caller) returns (n: nat)
    requires RemovesOld(s, c, false) && d in s.callers && s.callers[d].Owns().Some?
    ensures var after := GoOn(Act(s, Go(c, false, stale)), c, n);
      c != d && after.At(c).Owns().Some? && after.At(d).Owns().Some?
  {
    var s0 := Act(s, Go(c, false, stale));
    var go := Go(c, false, false);
    assert s0.At(d) == s.At(d) && c != d;
    if s.At(c).Retiring? {
      n := 5;
      ForgetfulCallerHolds(s0, c);
      FiveSteps(s0, c);
      hide Act;
    } else {
      n := 1;
      assert GoOn(s0, c, 0) == s0;
    }
  }

  lemma FiveSteps(s: State, c: Caller)
    ensures var go := Go(c, false, false); GoOn(s, c, 5) == Act(Act(Act(Act(Act(s, go), go), go), go), go)
  {
    hide Act;
    assert GoOn(s, c, 0) == s;
    assert GoOn(s, c, 2) == Act(GoOn(s, c, 1), Go(c, false, false));
    assert GoOn(s, c, 4) == Act(GoOn(s, c, 3), Go(c, false, false));
  }
}
