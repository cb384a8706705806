/** Over any number of collections a turn is reported at most once, and exactly once when it comes in time. */
module ClaudeTurnRuns {
  import opened ClaudeTurns
  import opened Options
  import opened Text
  import opened Time
  import QueueInvariants
  import QueueModel
  import QueueRuns

  /** The cursor has moved past this turn. */
  predicate Passed(c: Cursor, ended: int, key: string) { !c.Precedes(ended, key) }

  /** A cursor without a last end has seen nothing; this is how every cursor begins. */
  predicate Clean(c: Cursor) { c.last.None? ==> c.seen == {} }

  ghost predicate CleanStore(sessions: map<string, Cursor>) {
    forall id :: id in sessions ==> Clean(sessions[id])
  }

  predicate PassedIn(sessions: map<string, Cursor>, session: string, ended: int, key: string) {
    session in sessions && Passed(sessions[session], ended, key)
  }

  // ---------------------------------------------------------------- one session

  lemma AdvancePasses(c: Cursor, ended: int, key: string, e: int, k: string)
    requires Clean(c) && c.Precedes(ended, key)
    ensures Clean(c.Advanced(ended, key))
    ensures Passed(c.Advanced(ended, key), e, k) <==> Passed(c, e, k) || e < ended || (e == ended && k == key)
  {}

  /** No two usages are of the same turn of the same session at the same end. */
  ghost predicate AllDifferent(us: seq<Usage>) {
    forall i, j :: 0 <= i < j < |us| ==> !SameTurn(us[i], us[j])
  }

  predicate SameTurn(u: Usage, v: Usage) { u.session == v.session && u.turn == v.turn && u.ended == v.ended }

  /** What the walk over a session's turns reports it had not passed, and has passed afterwards, and it reports
      no turn twice. */
  ghost predicate Walked(session: string, from: Cursor, w: Walk) {
    && Clean(w.cursor)
    && (forall e, k :: Passed(from, e, k) ==> Passed(w.cursor, e, k))
    && (forall u :: u in w.usages ==>
          u.session == session && !Passed(from, u.ended, u.turn) && Passed(w.cursor, u.ended, u.turn))
    && AllDifferent(w.usages)
  }

  lemma VisitWalks(session: string, emit: bool, from: Cursor, w: Walk, t: Turn)
    requires Walked(session, from, w)
    ensures Walked(session, from, Visit(session, emit, w, t))
  {
    hide Trim, Passed, Clean, Cursor.Precedes, Cursor.Advanced;
    var after := Visit(session, emit, w, t);
    if t.Valid() && w.cursor.Precedes(t.ended, t.Key()) {
      forall e, k
        ensures Passed(after.cursor, e, k) <==> Passed(w.cursor, e, k) || e < t.ended || (e == t.ended && k == t.Key())
        ensures Clean(after.cursor)
      {
        AdvancePasses(w.cursor, t.ended, t.Key(), e, k);
      }
      assert !Passed(w.cursor, t.ended, t.Key()) by {
        NotPassed(w.cursor, t.ended, t.Key());
      }
    }
  }

  lemma NotPassed(c: Cursor, ended: int, key: string)
    ensures Passed(c, ended, key) <==> !c.Precedes(ended, key)
  {}

  lemma {:induction false} VisitAllWalks(session: string, emit: bool, c: Cursor, ts: seq<Turn>)
    requires Clean(c)
    ensures Walked(session, c, VisitAll(session, emit, c, ts))
  {
    if ts != [] {
      hide Visit, Walked;
      var n := |ts| - 1;
      VisitAllWalks(session, emit, c, ts[..n]);
      VisitWalks(session, emit, c, VisitAll(session, emit, c, ts[..n]), ts[n]);
    }
  }

  /** A copy of the turn, valid but inherited from a parent, is among the turns. */
  ghost predicate InheritedCopy(ts: seq<Turn>, ended: int, key: string) {
    exists t :: t in ts && t.Valid() && t.inherited && t.ended == ended && t.Key() == key
  }

  ghost predicate Later(ts: seq<Turn>, ended: int) {
    exists t :: t in ts && t.ended > ended
  }

  ghost predicate Reported(us: seq<Usage>, session: string, ended: int, key: string) {
    exists u :: u in us && u.session == session && u.ended == ended && u.turn == key
  }

  /** Whatever the walk has newly passed it has reported, unless a later turn or an inherited copy came first. */
  ghost predicate Explained(session: string, from: Cursor, w: Walk, ts: seq<Turn>) {
    forall e, k :: Passed(w.cursor, e, k) ==>
      Passed(from, e, k) || Later(ts, e) || Reported(w.usages, session, e, k) || InheritedCopy(ts, e, k)
  }

  lemma {:induction false} VisitAllExplained(session: string, c: Cursor, ts: seq<Turn>)
    requires Clean(c)
    ensures Explained(session, c, VisitAll(session, true, c, ts), ts)
  {
    if ts != [] {
      hide Visit, Trim, Walked, Passed, Clean, Cursor.Precedes, Cursor.Advanced;
      var n := |ts| - 1;
      var before := VisitAll(session, true, c, ts[..n]);
      VisitAllExplained(session, c, ts[..n]);
      VisitAllWalks(session, true, c, ts[..n]);
      assert Clean(before.cursor) by { WalkedClean(session, c, before); }
      assert ts == ts[..n] + [ts[n]];
      forall e, k | Passed(VisitAll(session, true, c, ts).cursor, e, k)
        ensures Passed(c, e, k) || Later(ts, e) || InheritedCopy(ts, e, k) ||
          Reported(VisitAll(session, true, c, ts).usages, session, e, k)
      {
        VisitExplained(session, before, ts[n], e, k);
        if Passed(before.cursor, e, k) {
          StillExplained(session, before.usages, Visit(session, true, before, ts[n]).usages, ts[..n], ts, e, k);
        } else {
          assert ts[n] in ts;
        }
      }
    }
  }

  lemma WalkedClean(session: string, from: Cursor, w: Walk)
    requires Walked(session, from, w)
    ensures Clean(w.cursor)
  {}

  lemma StillExplained(
    session: string, us: seq<Usage>, more: seq<Usage>, ts: seq<Turn>, all: seq<Turn>, e: int, k: string)
    requires forall u :: u in us ==> u in more
    requires forall t :: t in ts ==> t in all
    ensures Later(ts, e) ==> Later(all, e)
    ensures InheritedCopy(ts, e, k) ==> InheritedCopy(all, e, k)
    ensures Reported(us, session, e, k) ==> Reported(more, session, e, k)
  {
    hide Trim;
  }

  /** What one visit newly passes. */
  lemma VisitExplained(session: string, w: Walk, t: Turn, e: int, k: string)
    requires Clean(w.cursor)
    ensures var after := Visit(session, true, w, t);
      && (forall u :: u in w.usages ==> u in after.usages)
      && (Passed(after.cursor, e, k) && !Passed(w.cursor, e, k) ==>
            t.ended > e || Reported(after.usages, session, e, k) ||
            (t.Valid() && t.inherited && t.ended == e && t.Key() == k))
  {
    hide Trim, Passed, Clean, Cursor.Precedes, Cursor.Advanced;
    var after := Visit(session, true, w, t);
    if t.Valid() && w.cursor.Precedes(t.ended, t.Key()) {
      AdvancePasses(w.cursor, t.ended, t.Key(), e, k);
      if !t.inherited {
        assert Report(session, t) in after.usages;
      }
    }
  }

  /** In a walk over ordered turns with reporting on, a valid turn without an inherited copy is reported exactly
      when the cursor had not passed it before the walk. */
  lemma WalkReportsIff(session: string, c: Cursor, ts: seq<Turn>, t: Turn)
    requires Clean(c) && InOrder(ts)
    requires t in ts && t.Valid() && !InheritedCopy(ts, t.ended, t.Key())
    ensures Reported(VisitAll(session, true, c, ts).usages, session, t.ended, t.Key()) <==>
      !Passed(c, t.ended, t.Key())
  {
    hide Visit, Trim, Clean, Cursor.Precedes, Cursor.Advanced;
    VisitAllWalks(session, true, c, ts);
    if !Passed(c, t.ended, t.Key()) {
      hide Passed;
      var i :| 0 <= i < |ts| && ts[i] == t;
      VisitedByThen(session, c, ts, i);
    }
  }

  lemma {:induction false} VisitedByThen(session: string, c: Cursor, ts: seq<Turn>, i: nat)
    requires Clean(c) && InOrder(ts) && i < |ts|
    requires ts[i].Valid() && !InheritedCopy(ts, ts[i].ended, ts[i].Key())
    requires !Passed(c, ts[i].ended, ts[i].Key())
    ensures Reported(VisitAll(session, true, c, ts).usages, session, ts[i].ended, ts[i].Key())
    decreases |ts|
  {
    hide Trim, Visit, Passed, Clean, Cursor.Precedes, Cursor.Advanced, Walked, Explained, Reported, Turn.Valid, Later;
    var t, n := ts[i], |ts| - 1;
    var e, k := t.ended, t.Key();
    assert ts == ts[..n] + [ts[n]];
    var before := VisitAll(session, true, c, ts[..n]);
    VisitAllWalks(session, true, c, ts[..n]);
    WalkedClean(session, c, before);
    PrefixWithoutCopy(ts, n, e, k);
    if i < n {
      assert ts[..n][i] == t;
      VisitedByThen(session, c, ts[..n], i);
      VisitExplained(session, before, ts[n], e, k);
      StillExplained(session, before.usages, Visit(session, true, before, ts[n]).usages, ts[..n], ts, e, k);
    } else {
      VisitAllExplained(session, c, ts[..n]);
      NoneLater(ts[..n], t);
      VisitReports(session, c, before, ts[..n], t);
    }
  }

  lemma PrefixWithoutCopy(ts: seq<Turn>, n: nat, e: int, k: string)
    requires n < |ts| && !InheritedCopy(ts, e, k)
    ensures !InheritedCopy(ts[..n], e, k)
    ensures ts[n].Valid() && ts[n].ended == e && ts[n].Key() == k ==> !ts[n].inherited
  {
    hide Trim;
    assert forall t :: t in ts[..n] ==> t in ts;
    assert ts[n] in ts;
  }

  lemma NoneLater(ts: seq<Turn>, t: Turn)
    requires InOrder(ts + [t])
    ensures !Later(ts, t.ended)
  {
    forall u | u in ts ensures u.ended <= t.ended {
      var i :| 0 <= i < |ts| && ts[i] == u;
      assert (ts + [t])[i] == u && (ts + [t])[|ts|] == t;
    }
  }

  /** The visit of the turn itself: either it is reported now, or it was reported before. */
  lemma VisitReports(session: string, c: Cursor, w: Walk, ts: seq<Turn>, t: Turn)
    requires Explained(session, c, w, ts) && !Passed(c, t.ended, t.Key())
    requires t.Valid() && !t.inherited && !Later(ts, t.ended) && !InheritedCopy(ts, t.ended, t.Key())
    ensures Reported(Visit(session, true, w, t).usages, session, t.ended, t.Key())
  {
    hide Trim, Later, InheritedCopy, Cursor.Precedes, Cursor.Advanced;
    if w.cursor.Precedes(t.ended, t.Key()) {
      assert Report(session, t) in Visit(session, true, w, t).usages;
    }
  }

  // ---------------------------------------------------------------- one collection

  /** What a collection over some sessions keeps, from the cursors in the store. */
  ghost predicate Collected(from: map<string, Cursor>, p: Progress) {
    && CleanStore(p.sessions)
    && (forall id, e, k :: PassedIn(from, id, e, k) ==> PassedIn(p.sessions, id, e, k))
    && (forall u :: u in p.usages ==>
          !PassedIn(from, u.session, u.ended, u.turn) && PassedIn(p.sessions, u.session, u.ended, u.turn))
    && AllDifferent(p.usages)
  }

  function CursorOf(sessions: map<string, Cursor>, id: string): Cursor {
    if id in sessions then sessions[id] else NO_CURSOR
  }

  lemma NoCursorPassesNothing(e: int, k: string)
    ensures !Passed(NO_CURSOR, e, k) && Clean(NO_CURSOR)
  {}

  lemma CollectSessionKeeps(store: Store, from: map<string, Cursor>, p: Progress, s: Session)
    requires Collected(from, p)
    ensures Collected(from, CollectSession(store, p, s))
  {
    hide Trim, Passed, Clean, VisitAll, Sorted, Emits;
    if Trim(s.id) != "" {
      var c := CursorOf(p.sessions, s.id);
      var w := VisitAll(s.id, Emits(store, s.id in p.sessions, s), c, Sorted(s.turns));
      NoCursorPassesNothing(0, "");
      VisitAllWalks(s.id, Emits(store, s.id in p.sessions, s), c, Sorted(s.turns));
      JoinWalk(from, p, s.id, c, w, CollectSession(store, p, s).dirty);
    }
  }

  lemma JoinWalk(
    from: map<string, Cursor>, p: Progress, id: string, c: Cursor, w: Walk, dirty: bool)
    requires Collected(from, p) && c == CursorOf(p.sessions, id) && Walked(id, c, w)
    ensures Collected(from, Progress(p.sessions[id := w.cursor], p.usages + w.usages, dirty))
  {
    hide Passed, Clean;
    var now := p.sessions[id := w.cursor];
    forall e, k ensures !Passed(NO_CURSOR, e, k) { NoCursorPassesNothing(e, k); }
    assert forall i, e, k :: PassedIn(p.sessions, i, e, k) ==> PassedIn(now, i, e, k);
    assert forall u :: u in w.usages ==> !PassedIn(p.sessions, id, u.ended, u.turn);
    DifferentJoined(p.usages, w.usages, p.sessions);
  }

  lemma DifferentJoined(us: seq<Usage>, vs: seq<Usage>, sessions: map<string, Cursor>)
    requires AllDifferent(us) && AllDifferent(vs)
    requires forall u :: u in us ==> PassedIn(sessions, u.session, u.ended, u.turn)
    requires forall v :: v in vs ==> !PassedIn(sessions, v.session, v.ended, v.turn)
    ensures AllDifferent(us + vs)
  {
    hide PassedIn;
    var all := us + vs;
    forall i, j | 0 <= i < j < |all| ensures !SameTurn(all[i], all[j]) {
      if j < |us| {
        assert !SameTurn(us[i], us[j]);
      } else if i < |us| {
        assert us[i] in us && vs[j - |us|] in vs;
      } else {
        assert !SameTurn(vs[i - |us|], vs[j - |us|]);
      }
    }
  }

  lemma {:induction false} CollectSessionsKeep(store: Store, ss: seq<Session>)
    requires CleanStore(store.sessions)
    ensures Collected(store.sessions, CollectSessions(store, ss))
  {
    if ss != [] {
      hide CollectSession, Collected;
      CollectSessionsKeep(store, ss[..|ss| - 1]);
      CollectSessionKeeps(store, store.sessions, CollectSessions(store, ss[..|ss| - 1]), ss[|ss| - 1]);
    }
  }

  // ---------------------------------------------------------------- repeated collections

  /** A collection, and whether its cursors were saved afterwards. */
  datatype Round = Round(sessions: seq<Session>, now: int, committed: bool)

  function Commit(store: Store, r: Round): Store {
    if r.committed then Collect(store, r.sessions, r.now).save.GetOr(store) else store
  }

  function StoreAfter(store: Store, rounds: seq<Round>): Store {
    if rounds == [] then store else Commit(StoreAfter(store, rounds[..|rounds| - 1]), rounds[|rounds| - 1])
  }

  /** The usages reported by the rounds that were committed. */
  function Committed(store: Store, rounds: seq<Round>): seq<Usage> {
    if rounds == [] then [] else
      var n := |rounds| - 1;
      var r := rounds[n];
      Committed(store, rounds[..n]) +
        (if r.committed then Collect(StoreAfter(store, rounds[..n]), r.sessions, r.now).usages else [])
  }

  /** What is saved holds exactly what the collection has passed: nothing is saved only when nothing changed. */
  lemma {:induction false} UnsavedIsUnchanged(store: Store, ss: seq<Session>)
    ensures !CollectSessions(store, ss).dirty ==> CollectSessions(store, ss).sessions == store.sessions
    ensures store.initialized.None? ==> CollectSessions(store, ss).dirty
  {
    hide VisitAll, Sorted, Trim, Emits;
    if ss != [] {
      UnsavedIsUnchanged(store, ss[..|ss| - 1]);
    }
  }

  lemma CommitSaves(store: Store, ss: seq<Session>, now: int)
    ensures Commit(store, Round(ss, now, true)).sessions == CollectSessions(store, ss).sessions
  {
    hide CollectSessions;
    UnsavedIsUnchanged(store, ss);
  }

  /** Over repeated collections with commits, each session, turn and end is reported at most once. */
  lemma {:induction false} ReportedAtMostOnce(store: Store, rounds: seq<Round>)
    requires CleanStore(store.sessions)
    ensures AllDifferent(Committed(store, rounds))
    ensures CleanStore(StoreAfter(store, rounds).sessions)
    ensures forall u :: u in Committed(store, rounds) ==>
      PassedIn(StoreAfter(store, rounds).sessions, u.session, u.ended, u.turn)
    ensures forall id, e, k :: PassedIn(store.sessions, id, e, k) ==>
      PassedIn(StoreAfter(store, rounds).sessions, id, e, k)
  {
    hide CollectSessions, PassedIn, Clean;
    if rounds != [] {
      var n := |rounds| - 1;
      ReportedAtMostOnce(store, rounds[..n]);
      var before, r := StoreAfter(store, rounds[..n]), rounds[n];
      if r.committed {
        assert r == Round(r.sessions, r.now, true);
        CommitSaves(before, r.sessions, r.now);
        CollectSessionsKeep(before, r.sessions);
        DifferentJoined(Committed(store, rounds[..n]), CollectSessions(before, r.sessions).usages, before.sessions);
      }
    }
  }

  // ---------------------------------------------------------------- exactly once

  ghost predicate OneSession(ss: seq<Session>, i: nat)
    requires i < |ss|
  {
    forall j :: 0 <= j < |ss| && j != i ==> ss[j].id != ss[i].id
  }

  lemma {:induction false} OthersLeaveCursor(store: Store, ss: seq<Session>, id: string)
    requires forall s :: s in ss ==> s.id != id
    ensures var p := CollectSessions(store, ss);
      (id in p.sessions <==> id in store.sessions) && CursorOf(p.sessions, id) == store.At(id)
  {
    hide VisitAll, Sorted, Trim, Emits;
    if ss != [] {
      var n := |ss| - 1;
      forall s | s in ss[..n] ensures s.id != id { assert s in ss; }
      OthersLeaveCursor(store, ss[..n], id);
    }
  }

  lemma {:induction false} UsagesGrow(store: Store, ss: seq<Session>, n: nat, u: Usage)
    requires n <= |ss| && u in CollectSessions(store, ss[..n]).usages
    ensures u in CollectSessions(store, ss).usages
    decreases |ss|
  {
    hide VisitAll, Sorted, Trim, Emits;
    if n < |ss| {
      assert ss[..|ss| - 1][..n] == ss[..n];
      UsagesGrow(store, ss[..|ss| - 1], n, u);
    } else {
      assert ss[..n] == ss;
    }
  }

  /** A valid turn without an inherited copy, of a session that reports, comes out of a collection exactly when
      the session's stored cursor has not passed it. */
  lemma CollectReportsIff(store: Store, ss: seq<Session>, now: int, i: nat, t: Turn)
    requires CleanStore(store.sessions) && i < |ss| && OneSession(ss, i) && Trim(ss[i].id) != ""
    requires Emits(store, ss[i].id in store.sessions, ss[i])
    requires t in ss[i].turns && t.Valid() && !InheritedCopy(ss[i].turns, t.ended, t.Key())
    ensures Reported(Collect(store, ss, now).usages, ss[i].id, t.ended, t.Key()) <==>
      !PassedIn(store.sessions, ss[i].id, t.ended, t.Key())
  {
    hide Trim, Emits, VisitAll, Sorted, Passed, Turn.Valid, Clean;
    var s, before := ss[i], CollectSessions(store, ss[..i]);
    CollectSessionsKeep(store, ss);
    if !PassedIn(store.sessions, s.id, t.ended, t.Key()) {
      forall x | x in ss[..i] ensures x.id != s.id {
        var j :| 0 <= j < i && ss[j] == x;
      }
      OthersLeaveCursor(store, ss[..i], s.id);
      SortedSorts(s.turns);
      SortedKeeps(s.turns, t);
      SortedCopies(s.turns, t.ended, t.Key());
      NoCursorPassesNothing(t.ended, t.Key());
      var c := store.At(s.id);
      WalkReportsIff(s.id, c, Sorted(s.turns), t);
      var u :| u in VisitAll(s.id, true, c, Sorted(s.turns)).usages &&
        u.session == s.id && u.ended == t.ended && u.turn == t.Key();
      assert ss[..i + 1][..i] == ss[..i];
      assert u in CollectSessions(store, ss[..i + 1]).usages;
      UsagesGrow(store, ss, i + 1, u);
    }
  }

  lemma SortedCopies(ts: seq<Turn>, e: int, k: string)
    ensures InheritedCopy(Sorted(ts), e, k) <==> InheritedCopy(ts, e, k)
  {
    hide Sorted, Trim, Turn.Valid;
    forall t ensures t in Sorted(ts) <==> t in ts { SortedKeeps(ts, t); }
  }

  /** The usages of one turn. */
  function Of(us: seq<Usage>, session: string, ended: int, key: string): seq<Usage> {
    if us == [] then [] else
      var u := us[|us| - 1];
      Of(us[..|us| - 1], session, ended, key) +
      (if SameTurn(u, Usage(session, key, false, 0, ended, 0, "")) then [u] else [])
  }

  lemma {:induction false} OfReported(us: seq<Usage>, session: string, ended: int, key: string)
    ensures Of(us, session, ended, key) == [] <==> !Reported(us, session, ended, key)
  {
    if us != [] {
      assert us == us[..|us| - 1] + [us[|us| - 1]];
      OfReported(us[..|us| - 1], session, ended, key);
    }
  }

  lemma {:induction false} DifferentAppearOnce(us: seq<Usage>, session: string, ended: int, key: string)
    requires AllDifferent(us)
    ensures |Of(us, session, ended, key)| == if Reported(us, session, ended, key) then 1 else 0
  {
    OfReported(us, session, ended, key);
    if us != [] {
      var n := |us| - 1;
      DifferentAppearOnce(us[..n], session, ended, key);
      OfReported(us[..n], session, ended, key);
      if Reported(us[..n], session, ended, key) {
        var u :| u in us[..n] && u.session == session && u.ended == ended && u.turn == key;
        var i :| 0 <= i < n && us[i] == u;
        assert !SameTurn(us[i], us[n]);
      }
    }
  }

  lemma {:induction false} CommittedGrow(store: Store, rounds: seq<Round>, n: nat, u: Usage)
    requires n <= |rounds| && u in Committed(store, rounds[..n])
    ensures u in Committed(store, rounds)
    decreases |rounds|
  {
    hide Collect;
    if n < |rounds| {
      assert rounds[..|rounds| - 1][..n] == rounds[..n];
      CommittedGrow(store, rounds[..|rounds| - 1], n, u);
    } else {
      assert rounds[..n] == rounds;
    }
  }

  /** A valid turn that some committed round sees in time, in a session that reports, is reported exactly once
      over the whole run. */
  lemma ReportedExactlyOnce(store: Store, rounds: seq<Round>, k: nat, i: nat, t: Turn)
    requires CleanStore(store.sessions) && k < |rounds| && rounds[k].committed && i < |rounds[k].sessions|
    requires var s, ss, now := rounds[k].sessions[i], rounds[k].sessions, StoreAfter(store, rounds[..k]);
      && OneSession(ss, i) && Trim(s.id) != "" && Emits(now, s.id in now.sessions, s)
      && t in s.turns && t.Valid() && !InheritedCopy(s.turns, t.ended, t.Key())
      && now.At(s.id).Precedes(t.ended, t.Key())
    ensures |Of(Committed(store, rounds), rounds[k].sessions[i].id, t.ended, t.Key())| == 1
  {
    hide Collect, Trim, Emits, Turn.Valid, InheritedCopy, AllDifferent, Of, StoreAfter;
    var ss, now := rounds[k].sessions, StoreAfter(store, rounds[..k]);
    var id, e, key := ss[i].id, t.ended, t.Key();
    ReportedAtMostOnce(store, rounds[..k]);
    ReportedAtMostOnce(store, rounds);
    CollectReportsIff(now, ss, rounds[k].now, i, t);
    assert rounds[..k + 1][..k] == rounds[..k];
    assert Reported(Committed(store, rounds), id, e, key) by {
      var u :| u in Collect(now, ss, rounds[k].now).usages && u.session == id && u.ended == e && u.turn == key;
      assert u in Committed(store, rounds[..k + 1]);
      CommittedGrow(store, rounds, k + 1, u);
    }
    DifferentAppearOnce(Committed(store, rounds), id, e, key);
  }

  /** A turn that ends before its session's cursor comes too late: no round ever reports it. */
  lemma {:induction false} PassedIsNeverReported(store: Store, rounds: seq<Round>, id: string, e: int, k: string)
    requires CleanStore(store.sessions) && PassedIn(store.sessions, id, e, k)
    ensures !Reported(Committed(store, rounds), id, e, k)
  {
    hide CollectSessions, PassedIn, Clean, StoreAfter;
    if rounds != [] {
      var n := |rounds| - 1;
      PassedIsNeverReported(store, rounds[..n], id, e, k);
      ReportedAtMostOnce(store, rounds[..n]);
      CollectSessionsKeep(StoreAfter(store, rounds[..n]), rounds[n].sessions);
    }
  }

  // ---------------------------------------------------------------- a lost commit

  /** The event of a usage: its id depends on session and turn, its creation time is the turn's end. */
  function EventOf(stable: (string, string) -> string, encode: Usage -> string, u: Usage): QueueModel.Event {
    QueueModel.Event(stable(u.session, u.turn), "turn.usage", u.ended, encode(u))
  }

  function EventsOf(stable: (string, string) -> string, encode: Usage -> string, us: seq<Usage>)
    : (r: seq<QueueModel.Event>)
    ensures |r| == |us|
  {
    seq(|us|, i requires 0 <= i < |us| => EventOf(stable, encode, us[i]))
  }

  /** When the cursors were not saved after the append, the next collection of the same sessions, at any time
      and with any newer sessions, brings the same turn again under the same id and creation time. */
  lemma LostCommitRepeats(
    store: Store, ss: seq<Session>, first: int, i: nat, grown: seq<Session>, second: int, j: nat, t: Turn,
    stable: (string, string) -> string, encode: Usage -> string)
    requires CleanStore(store.sessions)
    requires i < |ss| && OneSession(ss, i) && j < |grown| && OneSession(grown, j)
    requires grown[j].id == ss[i].id && Trim(ss[i].id) != ""
    requires Emits(store, ss[i].id in store.sessions, ss[i]) && Emits(store, ss[i].id in store.sessions, grown[j])
    requires t in ss[i].turns && t in grown[j].turns && t.Valid()
    requires !InheritedCopy(ss[i].turns, t.ended, t.Key()) && !InheritedCopy(grown[j].turns, t.ended, t.Key())
    requires Reported(Collect(store, ss, first).usages, ss[i].id, t.ended, t.Key())
    ensures exists u :: (
      u in Collect(store, grown, second).usages &&
      EventOf(stable, encode, u).id == stable(ss[i].id, t.Key()) && EventOf(stable, encode, u).createdAt == t.ended)
  {
    hide Collect, Trim, Emits, Turn.Valid, PassedIn, InheritedCopy;
    CollectReportsIff(store, ss, first, i, t);
    CollectReportsIff(store, grown, second, j, t);
    var u :| u in Collect(store, grown, second).usages &&
      u.session == grown[j].id && u.ended == t.ended && u.turn == t.Key();
    assert EventOf(stable, encode, u).id == stable(ss[i].id, t.Key());
  }

  /** Appending the events of a collection again leaves the queue unchanged as long as each id is still queued,
      remembered as delivered or quarantined, or its event too old to be kept. */
  lemma ReappendingTurnsChangesNothing(
    cfg: QueueModel.Config, db: QueueModel.Db, us: seq<Usage>, nows: seq<int>,
    stable: (string, string) -> string, encode: Usage -> string)
    requires |nows| == |us|
    requires forall i :: 0 <= i < |us| ==>
      var id := stable(us[i].session, us[i].turn);
      id != "" && (id in db.sqnOf || id in db.delivered || id in db.quarantine || us[i].ended < nows[i] - cfg.maxAge)
    ensures QueueModel.InsertAll(cfg, db, EventsOf(stable, encode, us), nows) == db
  {
    var es := EventsOf(stable, encode, us);
    forall i | 0 <= i < |es| ensures QueueModel.Duplicate(db, es[i]) || QueueModel.TooOld(cfg, es[i], nows[i]) {}
    QueueRuns.ReappendChangesNothing(cfg, db, es, nows);
  }

  /** Append, lose the commit, collect the same sessions again at any later time and append again: as long as
      the events fitted and nothing has expired in between, the queue is as it was after the first append. */
  lemma LostCommitChangesNothing(
    store: Store, ss: seq<Session>, first: int, second: int,
    stable: (string, string) -> string, encode: Usage -> string,
    cfg: QueueModel.Config, db: QueueModel.Db, t0: int, t1: int, nows: seq<int>, u0: int, u1: int, later: seq<int>)
    requires QueueInvariants.Agrees(db) && |nows| == |later| == |Collect(store, ss, first).usages|
    requires forall session, turn :: stable(session, turn) != ""
    requires forall i :: 0 <= i < |nows| ==> nows[i] <= later[i]
    requires var es := EventsOf(stable, encode, Collect(store, ss, first).usages);
      && QueueModel.TotalCharge(
           QueueModel.InsertAll(cfg, QueueModel.Prune(cfg, db, t0, t1), es, nows).events) <= cfg.maxBytes
      && QueueRuns.Unexpired(cfg, QueueModel.Append(cfg, db, t0, t1, es, nows), u0, u1)
    ensures var es := EventsOf(stable, encode, Collect(store, ss, first).usages);
      var again := EventsOf(stable, encode, Collect(store, ss, second).usages);
      var appended := QueueModel.Append(cfg, db, t0, t1, es, nows);
      |again| == |later| && QueueModel.Append(cfg, appended, u0, u1, again, later) == appended
  {
    hide CollectSessions, QueueModel.Append, QueueModel.Prune, QueueModel.InsertAll, QueueModel.TotalCharge,
      QueueRuns.Unexpired;
    var es := EventsOf(stable, encode, Collect(store, ss, first).usages);
    QueueRuns.AppendTwiceChangesNothing(cfg, db, es, t0, t1, nows, u0, u1, later);
  }

  /** When sessions have grown meanwhile, the second append leaves every queued event where it is and adds only
      turns whose ids the queue does not know from the first. */
  lemma LostCommitAddsOnlyNew(
    store: Store, grown: seq<Session>, second: int, stable: (string, string) -> string, encode: Usage -> string,
    cfg: QueueModel.Config, appended: QueueModel.Db, u0: int, u1: int, later: seq<int>)
    requires QueueInvariants.Agrees(appended) && |later| == |Collect(store, grown, second).usages|
    requires forall session, turn :: stable(session, turn) != ""
    requires QueueRuns.Unexpired(cfg, appended, u0, u1)
    requires var again := EventsOf(stable, encode, Collect(store, grown, second).usages);
      QueueModel.TotalCharge(QueueModel.InsertAll(cfg, appended, again, later).events) <= cfg.maxBytes
    ensures var again := EventsOf(stable, encode, Collect(store, grown, second).usages);
      var after := QueueModel.Append(cfg, appended, u0, u1, again, later);
      && (forall s :: s in appended.events ==> s in after.events && after.events[s] == appended.events[s])
      && (forall s :: s in after.events && s !in appended.events ==>
            after.events[s] in again && !QueueRuns.Known(appended, after.events[s].id))
  {
    hide CollectSessions, QueueModel.Prune, QueueModel.InsertAll, QueueModel.Evict, QueueModel.TotalCharge,
      QueueRuns.Unexpired, QueueInvariants.Agrees, QueueRuns.Known;
    var again := EventsOf(stable, encode, Collect(store, grown, second).usages);
    QueueRuns.PruneNothing(cfg, appended, u0, u1);
    QueueRuns.InsertAllAddsUnknown(cfg, appended, again, later);
    QueueInvariants.InsertAllAgrees(cfg, appended, again, later);
    QueueRuns.EvictNothing(cfg, QueueModel.InsertAll(cfg, appended, again, later));
  }

  // ---------------------------------------------------------------- versions of a turn

  /** Usages of one session come in the order of their ends. */
  ghost predicate EndsInOrder(us: seq<Usage>) {
    forall i, j :: 0 <= i < j < |us| && us[i].session == us[j].session ==> us[i].ended <= us[j].ended
  }

  lemma PassedEnds(c: Cursor, e: int, k: string, f: int, l: string)
    requires Clean(c) && Passed(c, e, k) && !Passed(c, f, l)
    ensures e <= f
  {}

  lemma VisitInOrder(session: string, emit: bool, from: Cursor, w: Walk, t: Turn)
    requires Walked(session, from, w) && EndsInOrder(w.usages)
    ensures EndsInOrder(Visit(session, emit, w, t).usages)
  {
    hide Trim, Passed, Clean, Cursor.Precedes, Cursor.Advanced;
    var after := Visit(session, emit, w, t).usages;
    if after != w.usages {
      NotPassed(w.cursor, t.ended, t.Key());
      forall i | 0 <= i < |w.usages| ensures w.usages[i].ended <= t.ended {
        assert w.usages[i] in w.usages;
        PassedEnds(w.cursor, w.usages[i].ended, w.usages[i].turn, t.ended, t.Key());
      }
    }
  }

  lemma {:induction false} VisitAllInOrder(session: string, emit: bool, c: Cursor, ts: seq<Turn>)
    requires Clean(c)
    ensures EndsInOrder(VisitAll(session, emit, c, ts).usages)
  {
    if ts != [] {
      hide Visit, Walked, EndsInOrder;
      var n := |ts| - 1;
      VisitAllInOrder(session, emit, c, ts[..n]);
      VisitAllWalks(session, emit, c, ts[..n]);
      VisitInOrder(session, emit, c, VisitAll(session, emit, c, ts[..n]), ts[n]);
    } else {
      assert VisitAll(session, emit, c, ts).usages == [];
    }
  }

  lemma JoinInOrder(from: map<string, Cursor>, p: Progress, id: string, c: Cursor, w: Walk)
    requires Collected(from, p) && c == CursorOf(p.sessions, id) && Walked(id, c, w)
    requires EndsInOrder(p.usages) && EndsInOrder(w.usages)
    ensures EndsInOrder(p.usages + w.usages)
  {
    hide Passed, Clean;
    var all := p.usages + w.usages;
    forall i, j | 0 <= i < j < |all| && all[i].session == all[j].session ensures all[i].ended <= all[j].ended {
      if i < |p.usages| <= j {
        var u, v := p.usages[i], w.usages[j - |p.usages|];
        assert u in p.usages && v in w.usages;
        NoCursorPassesNothing(u.ended, u.turn);
        PassedEnds(c, u.ended, u.turn, v.ended, v.turn);
      }
    }
  }

  /** A collection reports the turns of each session in the order of their ends. */
  lemma {:induction false} CollectInOrder(store: Store, ss: seq<Session>)
    requires CleanStore(store.sessions)
    ensures EndsInOrder(CollectSessions(store, ss).usages)
  {
    if ss != [] {
      hide VisitAll, Sorted, Trim, Emits, EndsInOrder, Walked, Clean, Collected;
      var n := |ss| - 1;
      var p, s := CollectSessions(store, ss[..n]), ss[n];
      CollectInOrder(store, ss[..n]);
      CollectSessionsKeep(store, ss[..n]);
      if Trim(s.id) != "" {
        var c, emit := CursorOf(p.sessions, s.id), Emits(store, s.id in p.sessions, s);
        CollectedClean(store.sessions, p, s.id);
        VisitAllWalks(s.id, emit, c, Sorted(s.turns));
        VisitAllInOrder(s.id, emit, c, Sorted(s.turns));
        JoinInOrder(store.sessions, p, s.id, c, VisitAll(s.id, emit, c, Sorted(s.turns)));
      }
    } else {
      assert CollectSessions(store, ss).usages == [];
    }
  }

  lemma CollectedClean(from: map<string, Cursor>, p: Progress, id: string)
    requires Collected(from, p)
    ensures Clean(CursorOf(p.sessions, id))
  {}

  /** Different turns have different, non-empty event ids. */
  ghost predicate Stable(stable: (string, string) -> string) {
    && (forall s, t :: stable(s, t) != "")
    && (forall s, t, r, q :: stable(s, t) == stable(r, q) ==> s == r && t == q)
  }

  /** The i-th usage is of this turn, and young enough to be queued. */
  ghost predicate IsVersion(
    cfg: QueueModel.Config, us: seq<Usage>, nows: seq<int>, session: string, turn: string, i: nat)
    requires |nows| == |us|
  {
    i < |us| && us[i].session == session && us[i].turn == turn &&
    us[i].ended != ZERO_TIME && us[i].ended >= nows[i] - cfg.maxAge
  }

  /** The version of a turn an append takes, if it takes one, is the first in its list that is young enough. */
  lemma {:induction false} FirstVersion(
    cfg: QueueModel.Config, us: seq<Usage>, nows: seq<int>, stable: (string, string) -> string, encode: Usage -> string,
    session: string, turn: string)
    requires |nows| == |us| && Stable(stable)
    ensures var first := QueueRuns.FirstOf(cfg, EventsOf(stable, encode, us), nows, stable(session, turn));
      if first.None? then forall i: nat :: !IsVersion(cfg, us, nows, session, turn, i)
      else exists i: nat :: (
        IsVersion(cfg, us, nows, session, turn, i) && first.value == EventOf(stable, encode, us[i]) &&
        forall j: nat :: j < i ==> !IsVersion(cfg, us, nows, session, turn, j))
  {
    if us != [] {
      var n := |us| - 1;
      var es, id := EventsOf(stable, encode, us), stable(session, turn);
      FirstVersion(cfg, us[..n], nows[..n], stable, encode, session, turn);
      assert es[..n] == EventsOf(stable, encode, us[..n]);
      forall i: nat | i < n
        ensures IsVersion(cfg, us[..n], nows[..n], session, turn, i) <==> IsVersion(cfg, us, nows, session, turn, i)
      {}
      assert IsVersion(cfg, us, nows, session, turn, n) <==> es[n].id == id && !QueueModel.TooOld(cfg, es[n], nows[n]);
    }
  }

  /** Which version of a turn is queued, when it is reported again with a later end: while the queue knows the turn's id
      none enters and what is queued stays; otherwise it is the version with the earliest end of those the collection
      reports that are young enough, and none enters only if there is none. */
  lemma TurnVersionQueued(
    store: Store, ss: seq<Session>, now: int, stable: (string, string) -> string, encode: Usage -> string,
    cfg: QueueModel.Config, db: QueueModel.Db, t0: int, t1: int, nows: seq<int>, session: string, turn: string)
    requires QueueInvariants.Agrees(db) && CleanStore(store.sessions) && Stable(stable)
    requires |nows| == |Collect(store, ss, now).usages|
    requires var es := EventsOf(stable, encode, Collect(store, ss, now).usages);
      var filled := QueueModel.InsertAll(cfg, QueueModel.Prune(cfg, db, t0, t1), es, nows);
      QueueModel.TotalCharge(filled.events) <= cfg.maxBytes
    ensures var us, id := Collect(store, ss, now).usages, stable(session, turn);
      var before := QueueModel.Prune(cfg, db, t0, t1);
      var after := QueueModel.Append(cfg, db, t0, t1, EventsOf(stable, encode, us), nows);
      var version := QueueRuns.VersionOf(after, id);
      if QueueRuns.Known(before, id) then version == QueueRuns.VersionOf(before, id)
      else if version.None? then forall i: nat :: !IsVersion(cfg, us, nows, session, turn, i)
      else exists i: nat :: (
        IsVersion(cfg, us, nows, session, turn, i) && version.value == EventOf(stable, encode, us[i]) &&
        forall j: nat :: IsVersion(cfg, us, nows, session, turn, j) ==> us[i].ended <= us[j].ended)
  {
    hide CollectSessions, QueueModel.Prune, QueueModel.InsertAll, QueueModel.Evict, QueueModel.TotalCharge,
      QueueInvariants.Agrees, QueueRuns.Known, QueueRuns.VersionOf, QueueRuns.FirstOf, IsVersion, CleanStore;
    var us := Collect(store, ss, now).usages;
    var es, before := EventsOf(stable, encode, us), QueueModel.Prune(cfg, db, t0, t1);
    QueueInvariants.PruneAgrees(cfg, db, t0, t1);
    QueueInvariants.InsertAllAgrees(cfg, before, es, nows);
    QueueRuns.EvictNothing(cfg, QueueModel.InsertAll(cfg, before, es, nows));
    QueueRuns.OnlyFirstVersionEnters(cfg, before, es, nows, stable(session, turn));
    FirstVersion(cfg, us, nows, stable, encode, session, turn);
    CollectInOrder(store, ss);
    FirstIsEarliest(cfg, us, nows, session, turn);
  }

  lemma FirstIsEarliest(
    cfg: QueueModel.Config, us: seq<Usage>, nows: seq<int>, session: string, turn: string)
    requires |nows| == |us| && EndsInOrder(us)
    ensures forall i: nat, j: nat :: (
      (IsVersion(cfg, us, nows, session, turn, i) && IsVersion(cfg, us, nows, session, turn, j) &&
       (forall k: nat :: k < i ==> !IsVersion(cfg, us, nows, session, turn, k))) ==> us[i].ended <= us[j].ended)
  {}
}
