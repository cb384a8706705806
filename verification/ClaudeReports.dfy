/** Which Claude turns a collection reports, in terms of its sessions and the store alone, and what it says of them. */
module ClaudeReports {
  import opened ClaudeTurnRuns
  import opened ClaudeTurns
  import opened Options
  import opened Text

  // ---------------------------------------------------------------- what is reported

  /** A turn that counts: it has an id, used tokens, and began no later than it ended. */
  predicate Countable(t: Turn) {
    t.id != "" && t.tokens > 0 && t.started.Some? && t.started.value <= t.ended
  }

  /** A usage says of a turn what the turn is. */
  predicate Describes(u: Usage, session: string, t: Turn) {
    && u.session == session && u.turn == Trim(t.id) && t.started == Some(u.started) && u.ended == t.ended
    && u.tokens == t.tokens && u.aborted == (t.status == "aborted") && u.detail == t.detail
  }

  /** The i-th session of a collection is due: this is not the first collection, the session is not there only to seed
      its cursor, and it was seen before or began no earlier than the first collection. */
  predicate Due(store: Store, ss: seq<Session>, i: nat)
    requires i < |ss|
  {
    && store.initialized.Some? && !ss[i].seedOnly
    && (ss[i].id in store.sessions || SeenBefore(ss, i) || ss[i].firstEventAt >= store.initialized.value)
  }

  predicate SeenBefore(ss: seq<Session>, i: nat)
    requires i <= |ss|
  {
    exists j :: 0 <= j < i < |ss| && ss[j].id == ss[i].id
  }

  /** The usage is that of a countable turn, not inherited, of a session that is due. */
  ghost predicate IsDue(store: Store, ss: seq<Session>, u: Usage) {
    exists i: nat, t :: (
      i < |ss| && t in ss[i].turns && Due(store, ss, i) && Countable(t) && !t.inherited && Describes(u, ss[i].id, t))
  }

  lemma {:induction false} WalkDescribes(session: string, emit: bool, c: Cursor, ts: seq<Turn>, u: Usage)
    requires u in VisitAll(session, emit, c, ts).usages
    ensures emit && exists t :: t in ts && Countable(t) && !t.inherited && Describes(u, session, t)
  {
    hide Trim, Cursor.Precedes, Cursor.Advanced;
    var n := |ts| - 1;
    assert ts == ts[..n] + [ts[n]];
    if u in VisitAll(session, emit, c, ts[..n]).usages {
      WalkDescribes(session, emit, c, ts[..n], u);
      var t :| t in ts[..n] && Countable(t) && !t.inherited && Describes(u, session, t);
      assert t in ts;
    } else {
      assert u == Report(session, ts[n]);
      assert ts[n] in ts && Countable(ts[n]) && Describes(u, session, ts[n]);
    }
  }

  /** The sessions known when the i-th is collected. */
  lemma {:induction false} KnownThen(store: Store, ss: seq<Session>, id: string)
    requires Trim(id) != ""
    ensures id in CollectSessions(store, ss).sessions <==>
      id in store.sessions || exists j :: 0 <= j < |ss| && ss[j].id == id
  {
    hide VisitAll, Sorted, Trim, Emits;
    if ss != [] {
      var n := |ss| - 1;
      KnownThen(store, ss[..n], id);
      assert forall j :: 0 <= j < n ==> ss[..n][j] == ss[j];
    }
  }

  lemma EmitsWhenDue(store: Store, ss: seq<Session>, i: nat)
    requires i < |ss| && Trim(ss[i].id) != ""
    ensures Emits(store, ss[i].id in CollectSessions(store, ss[..i]).sessions, ss[i]) <==> Due(store, ss, i)
  {
    hide CollectSessions, Trim;
    KnownThen(store, ss[..i], ss[i].id);
    assert forall j :: 0 <= j < i ==> ss[..i][j] == ss[j];
  }

  /** Every usage of a collection is due. */
  lemma {:induction false} EveryUsageIsDue(store: Store, ss: seq<Session>, u: Usage)
    requires u in CollectSessions(store, ss).usages
    ensures IsDue(store, ss, u)
  {
    hide VisitAll, Sorted, Trim, Emits, Countable, Describes, Due;
    var n := |ss| - 1;
    var s, p := ss[n], CollectSessions(store, ss[..n]);
    if u in p.usages {
      EveryUsageIsDue(store, ss[..n], u);
      var i: nat, t :| i < n && t in ss[..n][i].turns && Due(store, ss[..n], i) && Countable(t) && !t.inherited &&
        Describes(u, ss[..n][i].id, t);
      DuePrefix(store, ss, n, i);
      assert ss[..n][i] == ss[i];
    } else {
      var emit := Emits(store, s.id in p.sessions, s);
      WalkDescribes(s.id, emit, CursorOf(p.sessions, s.id), Sorted(s.turns), u);
      EmitsWhenDue(store, ss, n);
      var t :| t in Sorted(s.turns) && Countable(t) && !t.inherited && Describes(u, s.id, t);
      SortedKeeps(s.turns, t);
    }
  }

  lemma DuePrefix(store: Store, ss: seq<Session>, n: nat, i: nat)
    requires i < n <= |ss|
    ensures Due(store, ss[..n], i) <==> Due(store, ss, i)
  {
    assert forall j :: 0 <= j <= i ==> ss[..n][j] == ss[j];
  }

  /** The first collection reports nothing, whatever it finds. */
  lemma FirstCollectionReportsNothing(store: Store, ss: seq<Session>, now: int)
    requires store.initialized.None?
    ensures Collect(store, ss, now).usages == []
  {
    hide CollectSessions;
    var us := CollectSessions(store, ss).usages;
    if us != [] {
      EveryUsageIsDue(store, ss, us[0]);
    }
  }

  /** A countable turn without an inherited copy, of a session that comes once, is reported if and only if the session
      is due and its stored cursor has not passed the turn. */
  lemma ReportedIffDue(store: Store, ss: seq<Session>, now: int, i: nat, t: Turn)
    requires CleanStore(store.sessions) && i < |ss| && OneSession(ss, i) && Trim(ss[i].id) != ""
    requires t in ss[i].turns && Countable(t) && !InheritedCopy(ss[i].turns, t.ended, t.Key())
    ensures Reported(Collect(store, ss, now).usages, ss[i].id, t.ended, t.Key()) <==>
      store.initialized.Some? && !ss[i].seedOnly &&
      (ss[i].id in store.sessions || ss[i].firstEventAt >= store.initialized.value) &&
      !PassedIn(store.sessions, ss[i].id, t.ended, t.Key())
  {
    hide CollectSessions, Trim, InheritedCopy, PassedIn, CleanStore;
    if Emits(store, ss[i].id in store.sessions, ss[i]) {
      CollectReportsIff(store, ss, now, i, t);
    }
    if u :| u in CollectSessions(store, ss).usages && u.session == ss[i].id && u.ended == t.ended && u.turn == t.Key() {
      EveryUsageIsDue(store, ss, u);
      var j: nat, v :| j < |ss| && v in ss[j].turns && Due(store, ss, j) && Countable(v) && !v.inherited &&
        Describes(u, ss[j].id, v);
      assert j == i;
    }
  }

  // ---------------------------------------------------------------- history

  /** A walk passes every countable turn. */
  lemma {:induction false} WalkPasses(session: string, emit: bool, c: Cursor, ts: seq<Turn>, t: Turn)
    requires Clean(c) && t in ts && Countable(t)
    ensures Passed(VisitAll(session, emit, c, ts).cursor, t.ended, t.Key())
  {
    hide Trim, Passed, Clean, Walked, Visit;
    var n := |ts| - 1;
    assert ts == ts[..n] + [ts[n]];
    var before := VisitAll(session, emit, c, ts[..n]);
    VisitAllWalks(session, emit, c, ts[..n]);
    WalkedClean(session, c, before);
    if t in ts[..n] {
      WalkPasses(session, emit, c, ts[..n], t);
      VisitKeepsPassed(session, emit, c, before, ts[n], t.ended, t.Key());
    } else {
      VisitPasses(session, emit, before, t);
    }
  }

  lemma VisitPasses(session: string, emit: bool, w: Walk, t: Turn)
    requires Clean(w.cursor) && Countable(t)
    ensures Passed(Visit(session, emit, w, t).cursor, t.ended, t.Key())
  {
    hide Trim, Clean, Cursor.Advanced;
    if w.cursor.Precedes(t.ended, t.Key()) {
      AdvancePasses(w.cursor, t.ended, t.Key(), t.ended, t.Key());
    }
  }

  lemma VisitKeepsPassed(session: string, emit: bool, from: Cursor, w: Walk, t: Turn, e: int, k: string)
    requires Walked(session, from, w) && Passed(w.cursor, e, k)
    ensures Passed(Visit(session, emit, w, t).cursor, e, k)
  {
    hide Trim, Passed, Cursor.Precedes, Cursor.Advanced;
    if w.cursor.Precedes(t.ended, t.Key()) {
      AdvancePasses(w.cursor, t.ended, t.Key(), e, k);
    }
  }

  /** A collection passes every countable turn of its sessions, reported or not. */
  lemma {:induction false} CollectPasses(store: Store, ss: seq<Session>, i: nat, t: Turn)
    requires CleanStore(store.sessions) && i < |ss| && Trim(ss[i].id) != "" && t in ss[i].turns && Countable(t)
    ensures PassedIn(CollectSessions(store, ss).sessions, ss[i].id, t.ended, t.Key())
    decreases |ss|
  {
    hide VisitAll, Sorted, Trim, Emits, Countable, Clean, Passed, CleanStore;
    var n := |ss| - 1;
    var p, s := CollectSessions(store, ss[..n]), ss[n];
    CollectSessionsKeep(store, ss[..n]);
    if i < n {
      CollectPasses(store, ss[..n], i, t);
      CollectSessionKeepsPassed(store, p, s, ss[i].id, t.ended, t.Key());
    } else {
      CollectedClean(store.sessions, p, s.id);
      SortedKeeps(s.turns, t);
      WalkPasses(s.id, Emits(store, s.id in p.sessions, s), CursorOf(p.sessions, s.id), Sorted(s.turns), t);
    }
  }

  lemma CollectSessionKeepsPassed(store: Store, p: Progress, s: Session, id: string, e: int, k: string)
    requires CleanStore(p.sessions) && PassedIn(p.sessions, id, e, k)
    ensures PassedIn(CollectSession(store, p, s).sessions, id, e, k)
  {
    hide VisitAll, Sorted, Trim, Emits, Passed;
    if Trim(s.id) != "" && s.id == id {
      var c := CursorOf(p.sessions, id);
      VisitAllWalks(id, Emits(store, true, s), c, Sorted(s.turns));
    }
  }

  lemma {:induction false} NothingCommitted(store: Store, rounds: seq<Round>)
    requires forall j :: 0 <= j < |rounds| ==> !rounds[j].committed
    ensures StoreAfter(store, rounds) == store && Committed(store, rounds) == []
  {
    hide Collect;
    if rounds != [] {
      NothingCommitted(store, rounds[..|rounds| - 1]);
    }
  }

  /** History is never reported: nothing that the first committed collection found is reported by any round. */
  lemma {:induction false} HistoryIsNeverReported(store: Store, rounds: seq<Round>, k: nat, i: nat, t: Turn)
    requires CleanStore(store.sessions) && store.initialized.None?
    requires k < |rounds| && rounds[k].committed && forall j :: 0 <= j < k ==> !rounds[j].committed
    requires i < |rounds[k].sessions| && Trim(rounds[k].sessions[i].id) != ""
    requires t in rounds[k].sessions[i].turns && Countable(t)
    ensures !Reported(Committed(store, rounds), rounds[k].sessions[i].id, t.ended, t.Key())
    ensures CleanStore(StoreAfter(store, rounds).sessions)
    ensures PassedIn(StoreAfter(store, rounds).sessions, rounds[k].sessions[i].id, t.ended, t.Key())
    decreases |rounds|
  {
    hide CollectSessions, Trim, Countable, Passed, Clean;
    var n := |rounds| - 1;
    var id, before, r := rounds[k].sessions[i].id, StoreAfter(store, rounds[..n]), rounds[n];
    if k == n {
      NothingCommitted(store, rounds[..n]);
      FirstCollectionReportsNothing(store, r.sessions, r.now);
      CollectSessionsKeep(store, r.sessions);
      CollectPasses(store, r.sessions, i, t);
      assert r == Round(r.sessions, r.now, true);
      CommitSaves(store, r.sessions, r.now);
    } else {
      HistoryIsNeverReported(store, rounds[..n], k, i, t);
      CollectSessionsKeep(before, r.sessions);
      if r.committed {
        assert r == Round(r.sessions, r.now, true);
        CommitSaves(before, r.sessions, r.now);
      }
    }
  }

  /** Whatever comes later, the store remembers when the first committed collection was. */
  lemma {:induction false} StartedAtFirst(store: Store, rounds: seq<Round>, k: nat)
    requires store.initialized.None?
    requires k < |rounds| && rounds[k].committed && forall j :: 0 <= j < k ==> !rounds[j].committed
    ensures StoreAfter(store, rounds).initialized == Some(rounds[k].now)
    decreases |rounds|
  {
    hide CollectSessions;
    var n := |rounds| - 1;
    if k == n {
      NothingCommitted(store, rounds[..n]);
      UnsavedIsUnchanged(store, rounds[n].sessions);
    } else {
      StartedAtFirst(store, rounds[..n], k);
    }
  }

  /** So a session that comes for the first time and began before the first committed collection is not reported then:
      its history only moves its cursor. */
  lemma EarlierSessionIsSeeded(store: Store, rounds: seq<Round>, k: nat, ss: seq<Session>, now: int, u: Usage)
    requires store.initialized.None?
    requires k < |rounds| && rounds[k].committed && forall j :: 0 <= j < k ==> !rounds[j].committed
    requires u in Collect(StoreAfter(store, rounds), ss, now).usages
    requires forall i, j :: 0 <= i < j < |ss| ==> ss[i].id != ss[j].id
    ensures exists s :: (
      s in ss && s.id == u.session && !s.seedOnly &&
      (s.id in StoreAfter(store, rounds).sessions || s.firstEventAt >= rounds[k].now))
  {
    hide CollectSessions, StoreAfter, Countable, Describes;
    var before := StoreAfter(store, rounds);
    StartedAtFirst(store, rounds, k);
    EveryUsageIsDue(before, ss, u);
    var i: nat, t :| i < |ss| && t in ss[i].turns && Due(before, ss, i) && Countable(t) && !t.inherited &&
      Describes(u, ss[i].id, t);
    assert ss[i] in ss;
    DescribesSession(u, ss[i].id, t);
  }

  lemma DescribesSession(u: Usage, session: string, t: Turn)
    requires Describes(u, session, t)
    ensures u.session == session
  {}
}
