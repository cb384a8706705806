/** Claude turns: a cursor per session remembers the latest end and the turns seen at it. */
module ClaudeTurns {
  import opened Options
  import opened Text

  /** `status` is trimmed and in lower case; a missing start is Go's zero time. */
  datatype Turn = Turn(
    id: string, status: string, started: Option<int>, ended: int, tokens: nat, inherited: bool, detail: string)
  {
    /** What the turn is known by; it stands for the hash of the trimmed id. */
    function Key(): string { Trim(id) }

    predicate Valid() { id != "" && tokens > 0 && started.Some? && started.value <= ended }
  }

  datatype Session = Session(id: string, firstEventAt: int, seedOnly: bool, turns: seq<Turn>)

  datatype Usage = Usage(
    session: string, turn: string, aborted: bool, started: int, ended: int, tokens: nat, detail: string)

  /** `last` is missing until the first turn. */
  datatype Cursor = Cursor(last: Option<int>, seen: set<string>) {
    /** `claudeTurnAfterCursor`. */
    predicate Precedes(ended: int, key: string) {
      if last.None? then key !in seen else ended > last.value || (ended == last.value && key !in seen)
    }

    /** `advanceClaudeCursor`. */
    function Advanced(ended: int, key: string): Cursor {
      if last == Some(ended) then Cursor(last, seen + {key}) else Cursor(Some(ended), {key})
    }
  }

  const NO_CURSOR: Cursor := Cursor(None, {})

  datatype Store = Store(initialized: Option<int>, sessions: map<string, Cursor>) {
    function At(session: string): Cursor { if session in sessions then sessions[session] else NO_CURSOR }
  }

  // ---------------------------------------------------------------- order of turns

  predicate StringLess(a: string, b: string) {
    b != "" && (a == "" || a[0] < b[0] || (a[0] == b[0] && StringLess(a[1..], b[1..])))
  }

  predicate Before(a: Turn, b: Turn) {
    if a.ended != b.ended then a.ended < b.ended else StringLess(a.id, b.id)
  }

  function Insert(t: Turn, ts: seq<Turn>): seq<Turn>
    decreases |ts|
  {
    if ts == [] || Before(t, ts[|ts| - 1]) then
      if ts == [] then [t] else Insert(t, ts[..|ts| - 1]) + [ts[|ts| - 1]]
    else ts + [t]
  }

  /** The turns by end, then id; equal turns keep their order. */
  function Sorted(ts: seq<Turn>): seq<Turn>
    decreases |ts|
  {
    if ts == [] then [] else Insert(ts[|ts| - 1], Sorted(ts[..|ts| - 1]))
  }

  predicate InOrder(ts: seq<Turn>) {
    forall i, j :: 0 <= i < j < |ts| ==> ts[i].ended <= ts[j].ended
  }

  lemma LastInOrder(ts: seq<Turn>, t: Turn)
    ensures InOrder(ts + [t]) <==> InOrder(ts) && forall u :: u in ts ==> u.ended <= t.ended
  {
    var all := ts + [t];
    if InOrder(all) {
      assert forall i :: 0 <= i < |ts| ==> all[i] == ts[i];
      assert all[|ts|] == t;
    }
  }

  lemma {:induction false} InsertSorts(t: Turn, ts: seq<Turn>)
    requires InOrder(ts)
    ensures InOrder(Insert(t, ts)) && multiset(Insert(t, ts)) == multiset(ts) + multiset{t}
    decreases |ts|
  {
    hide InOrder, Before;
    if ts == [] {
      NothingInOrder();
      LastInOrder([], t);
      assert [] + [t] == [t];
    } else {
      var n := |ts| - 1;
      assert ts == ts[..n] + [ts[n]];
      LastInOrder(ts[..n], ts[n]);
      BeforeEnds(t, ts[n]);
      if Before(t, ts[n]) {
        InsertSorts(t, ts[..n]);
        var rest := Insert(t, ts[..n]);
        forall u | u in rest ensures u.ended <= ts[n].ended {
          assert u in multiset(rest);
          assert u == t || u in ts[..n];
        }
        LastInOrder(rest, ts[n]);
      } else {
        LastInOrder(ts, t);
      }
    }
  }

  lemma BeforeEnds(a: Turn, b: Turn)
    ensures if Before(a, b) then a.ended <= b.ended else b.ended <= a.ended
  {}

  lemma NothingInOrder()
    ensures InOrder([])
  {}

  lemma {:induction false} SortedSorts(ts: seq<Turn>)
    ensures InOrder(Sorted(ts)) && multiset(Sorted(ts)) == multiset(ts)
    decreases |ts|
  {
    hide Insert, InOrder;
    if ts == [] {
      NothingInOrder();
    } else {
      var n := |ts| - 1;
      SortedSorts(ts[..n]);
      InsertSorts(ts[n], Sorted(ts[..n]));
      assert ts == ts[..n] + [ts[n]];
    }
  }

  // ---------------------------------------------------------------- ties

  /** Go's order of strings: a proper prefix comes first, else the first difference decides. */
  ghost predicate ComesFirst(a: string, b: string) {
    a < b || exists k :: 0 <= k < |a| && k < |b| && a[..k] == b[..k] && a[k] < b[k]
  }

  /** Turns with the same end are in the order of their ids. */
  ghost predicate TiesInOrder(ts: seq<Turn>) {
    forall i, j :: 0 <= i < j < |ts| && ts[i].ended == ts[j].ended ==>
      ts[i].id == ts[j].id || ComesFirst(ts[i].id, ts[j].id)
  }

  lemma FirstByTail(a: string, b: string)
    requires a != "" && b != "" && a[0] == b[0] && ComesFirst(a[1..], b[1..])
    ensures ComesFirst(a, b)
  {
    assert a == [a[0]] + a[1..] && b == [b[0]] + b[1..];
    if k :| 0 <= k < |a[1..]| && k < |b[1..]| && a[1..][..k] == b[1..][..k] && a[1..][k] < b[1..][k] {
      assert a[..k + 1] == [a[0]] + a[1..][..k] && b[..k + 1] == [b[0]] + b[1..][..k];
      assert a[k + 1] < b[k + 1];
    }
  }

  lemma FirstOfTail(a: string, b: string)
    requires a != "" && b != "" && ComesFirst(a, b)
    ensures a[0] < b[0] || (a[0] == b[0] && ComesFirst(a[1..], b[1..]))
  {
    if k :| 0 < k < |a| && k < |b| && a[..k] == b[..k] && a[k] < b[k] {
      assert a[..k][0] == b[..k][0];
      assert a[1..][..k - 1] == a[..k][1..] && b[1..][..k - 1] == b[..k][1..];
      assert a[1..][k - 1] < b[1..][k - 1];
    }
  }

  lemma {:induction false} StringLessIs(a: string, b: string)
    ensures StringLess(a, b) <==> ComesFirst(a, b)
  {
    if a != "" && b != "" {
      hide ComesFirst;
      StringLessIs(a[1..], b[1..]);
      if a[0] == b[0] && ComesFirst(a[1..], b[1..]) {
        FirstByTail(a, b);
      } else if ComesFirst(a, b) {
        FirstOfTail(a, b);
      } else if a[0] < b[0] {
        FirstByHead(a, b);
      }
    }
  }

  lemma FirstByHead(a: string, b: string)
    requires a != "" && b != "" && a[0] < b[0]
    ensures ComesFirst(a, b)
  {
    assert a[..0] == b[..0];
  }

  lemma {:induction false} StringLessTotal(a: string, b: string, c: string)
    ensures StringLess(a, b) || StringLess(b, a) || a == b
    ensures StringLess(a, b) && StringLess(b, c) ==> StringLess(a, c)
  {
    if a != "" && b != "" {
      StringLessTotal(a[1..], b[1..], if c == "" then "" else c[1..]);
      assert a == [a[0]] + a[1..] && b == [b[0]] + b[1..];
    }
  }

  lemma {:induction false} InsertOrdersTies(t: Turn, ts: seq<Turn>)
    requires InOrder(ts) && TiesInOrder(ts)
    ensures TiesInOrder(Insert(t, ts))
    decreases |ts|
  {
    hide StringLess, ComesFirst;
    if ts != [] {
      var n := |ts| - 1;
      var last := ts[n];
      assert ts == ts[..n] + [last];
      StringLessIs(t.id, last.id);
      if Before(t, last) {
        InsertSorts(t, ts[..n]);
        InsertOrdersTies(t, ts[..n]);
        var rest := Insert(t, ts[..n]);
        forall i | 0 <= i < |rest| && rest[i].ended == last.ended
          ensures rest[i].id == last.id || ComesFirst(rest[i].id, last.id)
        {
          assert rest[i] in multiset(rest);
          assert rest[i] == t || rest[i] in ts[..n];
        }
      } else {
        forall i | 0 <= i < |ts| && ts[i].ended == t.ended ensures ts[i].id == t.id || ComesFirst(ts[i].id, t.id) {
          assert ts[i].ended <= last.ended <= t.ended;
          StringLessIs(ts[i].id, t.id);
          StringLessIs(ts[i].id, last.id);
          StringLessTotal(last.id, t.id, t.id);
          StringLessTotal(ts[i].id, last.id, t.id);
        }
      }
    }
  }

  lemma {:induction false} SortedOrdersTies(ts: seq<Turn>)
    ensures TiesInOrder(Sorted(ts))
    decreases |ts|
  {
    hide Insert, InOrder, TiesInOrder;
    if ts == [] {
      NoTies();
    } else {
      SortedSorts(ts[..|ts| - 1]);
      SortedOrdersTies(ts[..|ts| - 1]);
      InsertOrdersTies(ts[|ts| - 1], Sorted(ts[..|ts| - 1]));
    }
  }

  lemma NoTies()
    ensures TiesInOrder([])
  {}

  lemma SortedKeeps(ts: seq<Turn>, t: Turn)
    ensures t in Sorted(ts) <==> t in ts
  {
    SortedSorts(ts);
    assert t in Sorted(ts) <==> t in multiset(Sorted(ts));
    assert t in ts <==> t in multiset(ts);
  }

  // ---------------------------------------------------------------- one collection

  datatype Walk = Walk(cursor: Cursor, usages: seq<Usage>)

  function Report(session: string, t: Turn): Usage {
    Usage(session, t.Key(), t.status == "aborted", t.started.GetOr(0), t.ended, t.tokens, t.detail)
  }

  function Visit(session: string, emit: bool, w: Walk, t: Turn): Walk {
    if !t.Valid() || !w.cursor.Precedes(t.ended, t.Key()) then w
    else Walk(w.cursor.Advanced(t.ended, t.Key()), w.usages + if emit && !t.inherited then [Report(session, t)] else [])
  }

  function VisitAll(session: string, emit: bool, c: Cursor, ts: seq<Turn>): Walk {
    if ts == [] then Walk(c, []) else Visit(session, emit, VisitAll(session, emit, c, ts[..|ts| - 1]), ts[|ts| - 1])
  }

  /** A session's turns are reported unless it only seeds the cursor, nothing was collected before, or the
      session is older than the first collection and was never seen. */
  predicate Emits(store: Store, known: bool, s: Session) {
    !s.seedOnly && store.initialized.Some? && (known || s.firstEventAt >= store.initialized.value)
  }

  datatype Progress = Progress(sessions: map<string, Cursor>, usages: seq<Usage>, dirty: bool)

  function CollectSession(store: Store, p: Progress, s: Session): Progress {
    if Trim(s.id) == "" then p else
      var known := s.id in p.sessions;
      var cursor := if known then p.sessions[s.id] else NO_CURSOR;
      var w := VisitAll(s.id, Emits(store, known, s), cursor, Sorted(s.turns));
      Progress(p.sessions[s.id := w.cursor], p.usages + w.usages, p.dirty || !known || w.cursor != cursor)
  }

  function CollectSessions(store: Store, ss: seq<Session>): Progress {
    if ss == [] then Progress(store.sessions, [], store.initialized.None?)
    else CollectSession(store, CollectSessions(store, ss[..|ss| - 1]), ss[|ss| - 1])
  }

  /** The usages, and the store to save; None when nothing is to be saved. */
  datatype Collection = Collection(usages: seq<Usage>, save: Option<Store>)

  function Collect(store: Store, ss: seq<Session>, now: int): Collection {
    var p := CollectSessions(store, ss);
    Collection(p.usages, if p.dirty then Some(Store(Some(store.initialized.GetOr(now)), p.sessions)) else None)
  }

  // ---------------------------------------------------------------- as it runs

  /** Put a turn in its place among ordered turns. */
  method InsertInOrder(t: Turn, ts: seq<Turn>) returns (r: seq<Turn>)
    ensures r == Insert(t, ts)
  {
    var i := |ts|;
    assert ts[..i] == ts && ts + [] == ts;
    while i > 0 && Before(t, ts[i - 1])
      invariant 0 <= i <= |ts|
      invariant Insert(t, ts) == Insert(t, ts[..i]) + ts[i..]
    {
      assert ts[..i][..i - 1] == ts[..i - 1] && ts[i - 1..] == [ts[i - 1]] + ts[i..];
      i := i - 1;
    }
    assert i > 0 ==> ts[..i][|ts[..i]| - 1] == ts[i - 1];
    r := ts[..i] + [t] + ts[i..];
  }

  method SortTurns(ts: seq<Turn>) returns (r: seq<Turn>)
    ensures r == Sorted(ts)
    ensures InOrder(r) && TiesInOrder(r) && multiset(r) == multiset(ts)
  {
    hide Insert, InOrder, TiesInOrder;
    r := [];
    var i := 0;
    while i < |ts|
      invariant 0 <= i <= |ts|
      invariant r == Sorted(ts[..i])
    {
      assert ts[..i + 1][..i] == ts[..i];
      r := InsertInOrder(ts[i], r);
      i := i + 1;
    }
    assert ts[..i] == ts;
    SortedSorts(ts);
    SortedOrdersTies(ts);
  }

  /** Walk one session's turns in order, moving the cursor past each. */
  method WalkSession(session: string, emit: bool, ts: seq<Turn>, start: Cursor)
    returns (cursor: Cursor, usages: seq<Usage>, moved: bool)
    ensures Walk(cursor, usages) == VisitAll(session, emit, start, Sorted(ts))
    ensures !moved ==> cursor == start
    ensures moved ==> cursor != start
  {
    hide Sorted, InOrder;
    var sorted := SortTurns(ts);
    cursor, usages, moved := start, [], false;
    var i := 0;
    while i < |sorted|
      invariant 0 <= i <= |sorted|
      invariant Walk(cursor, usages) == VisitAll(session, emit, start, sorted[..i])
      invariant !moved ==> cursor == start
      invariant moved ==> Further(start, cursor)
    {
      var t := sorted[i];
      assert sorted[..i + 1][..i] == sorted[..i];
      i := i + 1;
      if !t.Valid() || !cursor.Precedes(t.ended, t.Key()) {
        continue;
      }
      if emit && !t.inherited {
        usages := usages + [Report(session, t)];
      }
      AdvancingGoesFurther(start, cursor, t.ended, t.Key());
      cursor := cursor.Advanced(t.ended, t.Key());
      moved := true;
    }
    assert sorted[..i] == sorted;
  }

  /** The cursor has moved on: to a later end, or to more turns at the same one. */
  predicate Further(a: Cursor, b: Cursor) {
    b.last.Some? && (a.last.None? || a.last.value < b.last.value || (a.last == b.last && a.seen < b.seen))
  }

  lemma AdvancingGoesFurther(start: Cursor, c: Cursor, ended: int, key: string)
    requires c == start || Further(start, c)
    requires c.Precedes(ended, key)
    ensures Further(start, c.Advanced(ended, key))
  {}

  method CollectClaude(store: Store, ss: seq<Session>, now: int) returns (r: Collection)
    ensures r == Collect(store, ss, now)
  {
    hide VisitAll, Sorted, Emits, Trim;
    var firstCollection := store.initialized.None?;
    var next, usages, dirty := store.sessions, [], firstCollection;
    var i := 0;
    while i < |ss|
      invariant 0 <= i <= |ss|
      invariant Progress(next, usages, dirty) == CollectSessions(store, ss[..i])
    {
      var s := ss[i];
      assert ss[..i + 1][..i] == ss[..i];
      i := i + 1;
      if Trim(s.id) == "" {
        continue;
      }
      var known := s.id in next;
      var cursor := if known then next[s.id] else NO_CURSOR;
      if !known {
        dirty := true;
      }
      var after, reported, moved := WalkSession(s.id, Emits(store, known, s), s.turns, cursor);
      usages := usages + reported;
      dirty := dirty || moved;
      next := next[s.id := after];
    }
    assert ss[..i] == ss;
    var initialized := if firstCollection then Some(now) else store.initialized;
    r := Collection(usages, if dirty then Some(Store(initialized, next)) else None);
  }
}
