/** The two-level lock of one path: a token per process, and a lock file between processes. Every caller moves
    in atomic steps; the operating system decides what fails and what is found old. */
module LockModel {
  import opened Options

  /** A caller: a goroutine of a process. */
  datatype Caller = Caller(process: nat, index: nat)

  /** A process lock: the tokens in its channel, and its reference count. */
  datatype Lock = Lock(owner: nat, tokens: nat, refs: int)

  /** Where a caller stands, with the process lock it uses and the lock file it made. */
  datatype Pc =
    | Idle
    | Inspecting             // about to look whether the file is old
    | RetireLooking          // found it old; looks again
    | Retiring               // found it old again; about to remove it
    | Forgetting             // about to forget the process lock
    | Entering               // about to enter the registry
    | Waiting(lock: nat)     // for the token
    | Creating(lock: nat)    // has the token; about to create the file
    | Made(lock: nat, file: nat)
    | Unmaking(lock: nat, file: nat)
    | Blocked(lock: nat)     // the file exists
    | Clearing(lock: nat)    // found it old; about to remove it
    | Holding(lock: nat, file: nat)
    | Checking(lock: nat, file: nat)
    | Removing(lock: nat, file: nat)
    | Giving(lock: nat)      // about to put the token back
    | Dropping(lock: nat)    // about to drop the reference
  {
    /** The process lock this caller has a reference to. */
    function Uses(): Option<nat> {
      if Idle? || Inspecting? || RetireLooking? || Retiring? || Forgetting? || Entering? then None else Some(lock)
    }

    /** The process lock whose token this caller has taken. */
    function Has(): Option<nat> {
      if Uses().None? || Waiting? || Dropping? then None else Some(lock)
    }

    /** The lock file this caller has made and not yet given up. */
    function Owns(): Option<nat> {
      if Made? || Unmaking? || Holding? || Checking? || Removing? then Some(file) else None
    }
  }

  datatype State = State(
    callers: map<Caller, Pc>, registry: map<nat, nat>, locks: map<nat, Lock>, nextLock: nat,
    file: Option<nat>, nextFile: nat)
  {
    function At(c: Caller): Pc { if c in callers then callers[c] else Idle }

    function Goto(c: Caller, pc: Pc): State { this.(callers := callers[c := pc]) }
  }

  const NOTHING_LOCKED: State := State(map[], map[], map[], 0, None, 0)

  /** Find or make the process lock, and count a reference. */
  function Enter(s: State, c: Caller): State {
    if c.process in s.registry && s.registry[c.process] in s.locks then
      var l := s.registry[c.process];
      s.(locks := s.locks[l := s.locks[l].(refs := s.locks[l].refs + 1)]).Goto(c, Waiting(l))
    else
      var l := s.nextLock;
      s.(locks := s.locks[l := Lock(c.process, 1, 1)], registry := s.registry[c.process := l], nextLock := l + 1)
       .Goto(c, Waiting(l))
  }

  function TakeToken(s: State, c: Caller, l: nat): State {
    if l in s.locks && s.locks[l].tokens > 0
    then s.(locks := s.locks[l := s.locks[l].(tokens := s.locks[l].tokens - 1)]).Goto(c, Creating(l)) else s
  }

  /** Put the token back. The channel holds one token: with one in it, the caller is stuck. */
  function GiveToken(s: State, c: Caller, l: nat): State {
    if l in s.locks && s.locks[l].tokens == 0
    then s.(locks := s.locks[l := s.locks[l].(tokens := 1)]).Goto(c, Dropping(l)) else s
  }

  /** Drop a reference; with the last one, forget the lock, if the registry still names this one. */
  function DropReference(s: State, c: Caller, l: nat): State {
    if l !in s.locks then s else
      var refs := s.locks[l].refs - 1;
      var named := c.process in s.registry && s.registry[c.process] == l;
      s.(locks := s.locks[l := s.locks[l].(refs := refs)],
         registry := if refs == 0 && named then s.registry - {c.process} else s.registry)
       .Goto(c, Idle)
  }

  /** Forget the process lock, whoever uses it. */
  function Forget(s: State, c: Caller): State {
    s.(registry := s.registry - {c.process}).Goto(c, Entering)
  }

  /** One step of a caller. `fails`: the system call or the wait comes to nothing; `stale`: the file, if there is
      one, is found old. */
  function Advance(s: State, c: Caller, fails: bool, stale: bool): State {
    match s.At(c)
    case Idle => if fails then s else s.Goto(c, Inspecting)
    case Inspecting => s.Goto(c, if s.file.Some? && stale && !fails then RetireLooking else Entering)
    case RetireLooking =>
      s.Goto(c, if fails then Idle else if s.file.None? then Forgetting else if stale then Retiring else Entering)
    case Retiring => if fails then s.Goto(c, Idle) else s.(file := None).Goto(c, Forgetting)
    case Forgetting => Forget(s, c)
    case Entering => Enter(s, c)
    case Waiting(l) => if fails then s.Goto(c, Dropping(l)) else TakeToken(s, c, l)
    case Creating(l) =>
      if fails then s.Goto(c, Giving(l))
      else if s.file.Some? then s.Goto(c, Blocked(l))
      else s.(file := Some(s.nextFile), nextFile := s.nextFile + 1).Goto(c, Made(l, s.nextFile))
    case Made(l, f) => s.Goto(c, if fails then Unmaking(l, f) else Holding(l, f))
    case Unmaking(l, f) => s.(file := if fails then s.file else None).Goto(c, Giving(l))
    case Blocked(l) =>
      s.Goto(c,
        if s.file.None? then Creating(l) else if fails then Giving(l) else if stale then Clearing(l) else Creating(l))
    case Clearing(l) => if fails then s.Goto(c, Giving(l)) else s.(file := None).Goto(c, Creating(l))
    case Holding(l, f) => s.Goto(c, Checking(l, f))
    case Checking(l, f) => s.Goto(c, if !fails && s.file == Some(f) then Removing(l, f) else Giving(l))
    case Removing(l, f) => s.(file := if fails then s.file else None).Goto(c, Giving(l))
    case Giving(l) => GiveToken(s, c, l)
    case Dropping(l) => DropReference(s, c, l)
  }

  /** A process dies: its callers, registry and process locks are gone, its lock file stays. */
  function Crash(s: State, process: nat): State {
    s.(callers := map c | c in s.callers && c.process != process :: s.callers[c],
       registry := s.registry - {process},
       locks := map l | l in s.locks && s.locks[l].owner != process :: s.locks[l])
  }

  datatype Action = Go(caller: Caller, fails: bool, stale: bool) | Die(process: nat)

  function Act(s: State, a: Action): State {
    match a
    case Go(c, fails, stale) => Advance(s, c, fails, stale)
    case Die(process) => Crash(s, process)
  }

  function Run(s: State, actions: seq<Action>): State
    decreases |actions|
  {
    if actions == [] then s else Act(Run(s, actions[..|actions| - 1]), actions[|actions| - 1])
  }
}
