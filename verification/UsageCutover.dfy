/** When the way tokens are accounted changes, or a first total comes, a bucket starts from what it then reports. */
module UsageCutover {
  import opened Options
  import opened UsageModel
  import opened UsageRuns

  /** The payload says that accounting changes, or comes under another accounting than the remembered one. */
  predicate CutsOver(sessions: Sessions, p: Payload) {
    p.cutover || (p.key in sessions && p.accounting != "" && p.accounting != sessions[p.key].accounting)
  }

  /** Every payload of the session in the collection cuts over. */
  ghost predicate OnlyCutsOver(sessions: Sessions, ps: seq<Payload>, session: string) {
    forall i :: 0 <= i < |ps| && ps[i].key == session ==> CutsOver(sessions, ps[i])
  }

  lemma {:induction false} CutoverNotEmitted(sessions: Sessions, ps: seq<Payload>, session: string)
    requires session != "" && OnlyCutsOver(sessions, ps, session)
    ensures forall q :: q in Emitted(sessions, ps) ==> q.key != session
  {
    if ps != [] {
      CutoverNotEmitted(sessions, ps[..|ps| - 1], session);
      JudgeKeepsKey(sessions, ps[|ps| - 1]);
    }
  }

  lemma {:induction false} OthersEmitted(cursors: Cursors, ps: seq<Payload>, session: string)
    requires forall q :: q in ps ==> q.key != session
    ensures forall d :: d in Deltas(cursors, ps) ==> d.key.session != session
    ensures forall key: CursorKey :: key.session == session ==>
      Lookup(NextCursors(cursors, ps), key) == Lookup(cursors, key)
  {
    if ps != [] {
      OthersEmitted(cursors, ps[..|ps| - 1], session);
      assert ps[|ps| - 1].key != session;
    }
  }

  /** A payload that cuts over queues nothing for its session, under no accounting, and moves no cursor of it. */
  lemma CutoverQueuesNothing(disk: Disk, c: Cycle, session: string)
    requires disk.initialized && session != "" && OnlyCutsOver(disk.sessions, c.usage, session)
    ensures forall d :: d in Perform(disk, c).queued[|disk.queued|..] ==> d.key.session != session
    ensures forall key: CursorKey :: key.session == session ==>
      Lookup(Perform(disk, c).cursors, key) == Lookup(disk.cursors, key)
  {
    hide Emitted, Deltas, NextCursors, Lookup, OnlyCutsOver;
    CutoverNotEmitted(disk.sessions, c.usage, session);
    OthersEmitted(disk.cursors, Emitted(disk.sessions, c.usage), session);
  }

  /** The collection reports the session once, by this payload, and no session payload touches it. */
  ghost predicate ReportsOnce(c: Cycle, p: Payload) {
    p in c.usage && p.key != "" && Distinct(c.usage) && forall i :: 0 <= i < |c.sessions| ==> c.sessions[i].key != p.key
  }

  lemma {:induction false} ReportedByOne(ps: seq<Payload>, p: Payload)
    requires p in ps && Distinct(ps)
    ensures Of(ps, p.key) == Some(p)
  {
    var n := |ps| - 1;
    OfSnoc(ps, p.key);
    if ps[n].key == p.key {
      var i :| 0 <= i < |ps| && ps[i] == p;
      assert i == n;
    } else {
      ReportedByOne(ps[..n], p);
    }
  }

  /** Once the baseline is saved, the session is remembered at the total and the accounting of that payload alone. */
  lemma CutoverRestarts(disk: Disk, c: Cycle, p: Payload)
    requires disk.initialized && ReportsOnce(c, p) && CutsOver(disk.sessions, p)
    requires c.cut.AfterBaseline? || c.cut.Whole?
    ensures var total := p.total.GetOr(0);
      Lookup(Perform(disk, c).sessions, p.key) == Some(Baseline(total, total, p.total.Some?, p.accounting))
  {
    hide Updates, AddSessions, Of;
    ReportedByOne(c.usage, p);
    BucketUpdates(disk.sessions, disk.sessions, c.usage, p.key);
    OthersAdded(AddSessions(disk.sessions, Updates(disk.sessions, c.usage)), c.sessions, p.key);
  }

  lemma OneCutsOver(sessions: Sessions, ps: seq<Payload>, p: Payload)
    requires p in ps && Distinct(ps) && CutsOver(sessions, p)
    ensures OnlyCutsOver(sessions, ps, p.key)
  {
    hide CutsOver;
    var k :| 0 <= k < |ps| && ps[k] == p;
    assert forall i :: 0 <= i < |ps| && ps[i].key == p.key ==> i == k;
  }

  /** What the next collection queues for a session that has just been cut over: nothing up to the total it was cut
      over at; from there on, what passes the cursor saved under the new accounting, if there is one already, and
      what passes that total if there is none. */
  lemma AfterCutover(disk: Disk, c: Cycle, p: Payload, later: Cycle, next: Payload)
    requires disk.initialized && ReportsOnce(c, p) && CutsOver(disk.sessions, p) && p.total.Some?
    requires c.cut.AfterBaseline? || c.cut.Whole?
    requires var key := CursorKey(p.key, p.accounting); Regular(later, key)
    requires ReportsOnce(later, next) && next.key == p.key
    ensures var key, total := CursorKey(p.key, p.accounting), next.total.value;
      var from := if key in disk.cursors then disk.cursors[key] else p.total.value;
      Sum(CycleDeltas(Perform(disk, c), later), key) ==
        if total > p.total.value && total > from then total - from else 0
  {
    hide Sum, CycleDeltas, Of, Perform;
    var key, after := CursorKey(p.key, p.accounting), Perform(disk, c);
    OneCutsOver(disk.sessions, c.usage, p);
    CutoverQueuesNothing(disk, c, p.key);
    CutoverRestarts(disk, c, p);
    ReportedByOne(later.usage, next);
    BucketsAreIndependent(after, later, key);
    StaysInitialized(disk, c);
    var k :| 0 <= k < |later.usage| && later.usage[k] == next;
  }

  /** So the session's growth since the cutover is queued exactly when no cursor of its, or only one at the same total,
      is saved under the new accounting: a return to an earlier accounting measures from where that one had got. */
  lemma GrowthSinceCutoverIff(disk: Disk, c: Cycle, p: Payload, later: Cycle, next: Payload)
    requires disk.initialized && ReportsOnce(c, p) && CutsOver(disk.sessions, p) && p.total.Some?
    requires c.cut.AfterBaseline? || c.cut.Whole?
    requires var key := CursorKey(p.key, p.accounting); Regular(later, key)
    requires ReportsOnce(later, next) && next.key == p.key && next.total.Some? && next.total.value > p.total.value
    ensures var key := CursorKey(p.key, p.accounting);
      Sum(CycleDeltas(Perform(disk, c), later), key) == next.total.value - p.total.value <==>
        (key in disk.cursors ==> disk.cursors[key] == p.total.value)
  {
    hide Sum, CycleDeltas, Perform, CutsOver, ReportsOnce, Regular;
    AfterCutover(disk, c, p, later, next);
  }

  // ---------------------------------------------------------------- a session remembered without a total

  lemma {:induction false} UnobservedNotEmitted(sessions: Sessions, ps: seq<Payload>, session: string)
    requires session in sessions && !sessions[session].observed
    ensures forall q :: q in Emitted(sessions, ps) ==> q.key != session
  {
    if ps != [] {
      UnobservedNotEmitted(sessions, ps[..|ps| - 1], session);
      JudgeKeepsKey(sessions, ps[|ps| - 1]);
    }
  }

  /** The first total of a session that was remembered without one queues nothing, and is where the session is counted
      from; a payload without a total leaves it as it was. */
  lemma FirstTotalIsRecorded(disk: Disk, c: Cycle, p: Payload)
    requires disk.initialized && ReportsOnce(c, p) && !CutsOver(disk.sessions, p)
    requires p.key in disk.sessions && !disk.sessions[p.key].observed
    ensures forall d :: d in Perform(disk, c).queued[|disk.queued|..] ==> d.key.session != p.key
    ensures c.cut.AfterBaseline? || c.cut.Whole? ==>
      var record := disk.sessions[p.key];
      Lookup(Perform(disk, c).sessions, p.key) ==
        if p.total.Some? then Some(Baseline(p.total.value, p.total.value, true, record.accounting)) else Some(record)
  {
    UnobservedNotEmitted(disk.sessions, c.usage, p.key);
    OthersEmitted(disk.cursors, Emitted(disk.sessions, c.usage), p.key);
    ReportedByOne(c.usage, p);
    BucketUpdates(disk.sessions, disk.sessions, c.usage, p.key);
    OthersAdded(AddSessions(disk.sessions, Updates(disk.sessions, c.usage)), c.sessions, p.key);
    hide Emitted, Deltas, NextCursors, Updates, AddSessions, Of;
  }
}
