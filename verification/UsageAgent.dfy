/** The agent's collection step by step: filter the buckets, build deltas, append them, save the baseline,
    save the cursors. */
module UsageAgent {
  import opened Options
  import opened UsageModel

  /** Advance one record of a baseline; `changed` is false only when nothing was changed. */
  method AddBaselineSession(sessions: Sessions, p: Payload) returns (after: Sessions, changed: bool)
    ensures after == AddSession(sessions, p)
    ensures !changed ==> after == sessions
  {
    if p.key == "" {
      return sessions, false;
    }
    var existing := if p.key in sessions then sessions[p.key] else NO_BASELINE;
    changed := p.key !in sessions;
    if p.cutover {
      existing := existing.(total := 0, previous := 0, observed := false, accounting := "");
      changed := true;
    }
    if p.total.Some? && (!existing.observed || p.total.value > existing.total) {
      if existing.observed {
        existing := existing.(previous := existing.total);
      } else {
        existing := existing.(previous := p.total.value);
      }
      existing := existing.(total := p.total.value, observed := true);
      changed := true;
    }
    if p.accounting != "" && p.accounting != existing.accounting {
      existing := existing.(accounting := p.accounting);
      changed := true;
    }
    after := sessions[p.key := existing];
  }

  method AddBaselineSessions(sessions: Sessions, ps: seq<Payload>) returns (after: Sessions, dirty: bool)
    ensures after == AddSessions(sessions, ps)
    ensures !dirty ==> after == sessions
  {
    after, dirty := sessions, false;
    for i := 0 to |ps|
      invariant after == AddSessions(sessions, ps[..i])
      invariant !dirty ==> after == sessions
    {
      assert ps[..i + 1][..i] == ps[..i];
      var changed;
      after, changed := AddBaselineSession(after, ps[i]);
      dirty := dirty || changed;
    }
    assert ps[..|ps|] == ps;
  }

  ghost function Ignored(sessions: Sessions, ps: seq<Payload>): set<string> {
    if ps == [] then {} else
      Ignored(sessions, ps[..|ps| - 1]) +
      (if Judge(sessions, ps[|ps| - 1]).ignored then {ps[|ps| - 1].key} else {})
  }

  /** Decide one bucket: pass it on, only update the baseline, or ignore it. */
  method JudgeBucket(sessions: Sessions, payload: Payload) returns (judgement: Judgement)
    requires payload.key != ""
    ensures judgement == Judge(sessions, payload)
  {
    var p := payload;
    var tracked := p.key in sessions;
    var existing := if tracked then sessions[p.key] else NO_BASELINE;
    if p.cutover || (tracked && p.accounting != "" && existing.accounting != p.accounting) {
      p := p.(cutover := true);
      return Judgement(None, Some(p), true);
    }
    if tracked && (!existing.observed || p.total.None? || p.total.value <= existing.total) {
      if existing.observed && p.total.Some? && p.total.value == existing.total && existing.previous < existing.total {
        p := p.(hint := Some(existing.previous));
        p := p.(cursorOnly := true);
        return Judgement(Some(p), None, false);
      }
      if !existing.observed && p.total.Some? {
        return Judgement(None, Some(p), true);
      }
      return Judgement(None, None, true);
    }
    if tracked {
      p := p.(hint := Some(existing.total));
    } else {
      p := p.(initial := true);
    }
    p := p.(cursorOnly := true);
    return Judgement(Some(p), Some(p), false);
  }

  lemma KeylessIsNotJudged(sessions: Sessions, p: Payload)
    requires p.key == ""
    ensures Judge(sessions, p) == Judgement(None, None, false)
  {}

  /** Decide every bucket of a collection, against the baseline as it was loaded. */
  method FilterUsageBaseline(sessions: Sessions, usage: seq<Payload>)
    returns (filtered: seq<Payload>, updates: seq<Payload>, ignoredCount: nat)
    ensures filtered == Emitted(sessions, usage) && updates == Updates(sessions, usage)
    ensures ignoredCount == |Ignored(sessions, usage)|
  {
    hide JudgeRecord, Judge;
    filtered, updates := [], [];
    var ignored: set<string> := {};
    for i := 0 to |usage|
      invariant filtered == Emitted(sessions, usage[..i]) && updates == Updates(sessions, usage[..i])
      invariant ignored == Ignored(sessions, usage[..i])
    {
      assert usage[..i + 1][..i] == usage[..i];
      if usage[i].key != "" {
        var judgement := JudgeBucket(sessions, usage[i]);
        filtered := filtered + OptionSeq(judgement.emit);
        updates := updates + OptionSeq(judgement.update);
        if judgement.ignored {
          ignored := ignored + {usage[i].key};
        }
      } else {
        KeylessIsNotJudged(sessions, usage[i]);
        assert filtered + [] == filtered && updates + [] == updates && ignored + {} == ignored;
      }
    }
    assert usage[..|usage|] == usage;
    ignoredCount := |ignored|;
  }

  /** The delta and the next cursor of one payload, if it is an observation at all. */
  method UsageDeltaFromEvent(p: Payload, store: Cursors) returns (delta: Option<Delta>, next: Option<nat>)
    ensures delta == DeltaOf(store, p)
    ensures next == if Observes(p) then p.total else None
  {
    if p.key == "" || p.total.None? || p.total.value == 0 {
      return None, None;
    }
    var key := KeyOf(p);
    var total := p.total.value;
    var previous: nat;
    if key in store {
      previous := store[key];
    } else if p.hint.Some? {
      previous := p.hint.value;
    } else if p.initial {
      previous := 0;
    } else {
      return None, Some(total);
    }
    if total <= previous {
      return None, Some(total);
    }
    return Some(Delta(key, total - previous)), Some(total);
  }

  /** Deltas and next cursors of a collection; every delta is measured against the loaded `store`. */
  method BuildUsageDeltaEvents(store: Cursors, events: seq<Payload>) returns (deltas: seq<Delta>, next: Cursors)
    ensures deltas == Deltas(store, events) && next == NextCursors(store, events)
  {
    deltas, next := [], store;
    for i := 0 to |events|
      invariant deltas == Deltas(store, events[..i]) && next == NextCursors(store, events[..i])
    {
      assert events[..i + 1][..i] == events[..i];
      var delta, cursor := UsageDeltaFromEvent(events[i], store);
      if cursor.None? {
        continue;
      }
      next := next[KeyOf(events[i]) := cursor.value];
      if delta.Some? {
        deltas := deltas + [delta.value];
      }
    }
    assert events[..|events|] == events;
  }

  /** What the agent has on disk. */
  class Agent {
    var initialized: bool
    var sessions: Sessions
    var cursors: Cursors
    var queued: seq<Delta>

    ghost function State(): Disk
      reads this
    {
      Disk(initialized, sessions, cursors, queued)
    }

    constructor ()
      ensures State() == FRESH_DISK
    {
      initialized, sessions, cursors, queued := false, map[], map[], [];
    }

    /** One collection. A crash, or a step that fails, ends it where `c.cut` says; whatever was saved by
        then stays saved. */
    method CollectAndQueue(c: Cycle)
      modifies this
      ensures State() == Perform(old(State()), c)
    {
      var filtered: seq<Payload> := [];
      var next: Sessions;
      var dirty: bool;
      if !initialized {
        next, dirty := AddBaselineSessions(sessions, c.usage);
        next, dirty := AddBaselineSessions(next, c.sessions);
        dirty := true;
      } else {
        var updates: seq<Payload>;
        var ignored: nat;
        filtered, updates, ignored := FilterUsageBaseline(sessions, c.usage);
        var dirtySessions: bool;
        next, dirty := AddBaselineSessions(sessions, updates);
        next, dirtySessions := AddBaselineSessions(next, c.sessions);
        dirty := dirty || dirtySessions;
      }
      var deltas, nextCursors := BuildUsageDeltaEvents(cursors, filtered);
      if c.cut.BeforeAppend? {
        return;
      }
      queued := queued + deltas;
      if c.cut.AfterAppend? {
        return;
      }
      if dirty {
        initialized, sessions := true, next;
      }
      if c.cut.AfterBaseline? {
        return;
      }
      cursors := nextCursors;
    }
  }
}
