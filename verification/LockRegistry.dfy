/** The registry's critical sections as they run: shared maps, reference counts and tokens changed in place. */
module LockRegistry {
  import opened LockModel
  import opened LockTheorems
  import opened Options

  lemma TokenOrHolder(s: State, c: Caller, l: nat)
    requires Sound(s) && s.At(c) == Waiting(l)
    ensures l in s.locks && (s.locks[l].tokens == 0 <==> Holders(s, l) != {})
  {}

  class SharedLocks {
    var callers: map<Caller, Pc>
    var registry: map<nat, nat>
    var locks: map<nat, Lock>
    var nextLock: nat
    var file: Option<nat>
    var nextFile: nat

    ghost function View(): State
      reads this
    {
      State(callers, registry, locks, nextLock, file, nextFile)
    }

    constructor ()
      ensures View() == NOTHING_LOCKED
    {
      callers, registry, locks, nextLock, file, nextFile := map[], map[], map[], 0, None, 0;
    }

    /** Look the process's lock up, make it if there is none, and count a reference. */
    method EnterRegistry(c: Caller) returns (l: nat)
      requires Sound(View()) && View().At(c) == Entering
      modifies this
      ensures View() == Enter(old(View()), c) && Sound(View())
      ensures callers == old(callers)[c := Waiting(l)]
      ensures registry == old(registry)[c.process := l] && l in locks && locks[l].refs > 0
    {
      hide Holders, Users, OneToken, RefsExact;
      EnterSound(View(), c);
      if c.process in registry {
        l := registry[c.process];
      } else {
        l := nextLock;
        nextLock := nextLock + 1;
        locks := locks[l := Lock(c.process, 1, 0)];
        registry := registry[c.process := l];
      }
      locks := locks[l := locks[l].(refs := locks[l].refs + 1)];
      callers := callers[c := Waiting(l)];
      assert registry == old(registry)[c.process := l];
    }

    /** Take the token if there is one. */
    method TryToken(c: Caller, l: nat) returns (taken: bool)
      requires Sound(View()) && View().At(c) == Waiting(l)
      modifies this
      ensures View() == TakeToken(old(View()), c, l) && Sound(View())
      ensures taken <==> Holders(old(View()), l) == {}
    {
      hide Sound, Holders;
      TokenOrHolder(View(), c, l);
      TakeTokenSound(View(), c, l);
      if locks[l].tokens == 0 {
        return false;
      }
      locks := locks[l := locks[l].(tokens := locks[l].tokens - 1)];
      callers := callers[c := Creating(l)];
      taken := true;
    }

    /** Put the token back; the channel always has room for it. */
    method ReturnToken(c: Caller, l: nat)
      requires Sound(View()) && View().At(c) == Giving(l)
      modifies this
      ensures View() == GiveToken(old(View()), c, l) && Sound(View())
      ensures l in locks && locks[l].tokens == 1 && View().At(c) == Dropping(l)
    {
      hide Sound;
      ReleaseNeverBlocks(View(), c, l);
      GiveTokenSound(View(), c, l);
      locks := locks[l := locks[l].(tokens := locks[l].tokens + 1)];
      callers := callers[c := Dropping(l)];
    }

    method ReleaseReference(c: Caller, l: nat)
      requires Sound(View()) && View().At(c) == Dropping(l)
      modifies this
      ensures View() == DropReference(old(View()), c, l) && Sound(View())
    {
      hide Holders, Users, OneToken, RefsExact;
      DropReferenceSound(View(), c, l);
      var refs := locks[l].refs - 1;
      locks := locks[l := locks[l].(refs := refs)];
      if refs == 0 && c.process in registry && registry[c.process] == l {
        registry := registry - {c.process};
      }
      callers := callers[c := Idle];
    }
  }
}
