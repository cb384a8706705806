/** The event queue as it runs: buckets written and deleted in place, one cursor step at a time. Each
    method is one database transaction, or a part of one; what it leaves behind is stated by the
    transaction functions of QueueModel. */
module QueueStore {
  import opened Options
  import opened QueueInvariants
  import opened QueueModel
  import opened QueueRuns
  import opened Text
  import opened Time

  datatype Stats = Stats(
    queuedEvents: int, queuedBytes: int, removedExpired: nat, removedDuplicate: nat, removedCapacity: nat,
    quarantined: nat, oldest: Option<int>)

  // ---------------------------------------------------------------- facts about removal

  lemma WithoutEvents(db: Db, dead: set<nat>)
    ensures Without(db, dead).events == db.events - dead
  {}

  lemma ReplacedIsGone(db: Db, e: Event)
    requires e.id in db.sqnOf
    ensures e.id !in Without(db, {db.sqnOf[e.id]}).sqnOf
  {}

  lemma WithoutTwice(db: Db, a: set<nat>, b: set<nat>)
    ensures Without(Without(db, a), b) == Without(db, a + b)
  {
    assert (db.events - a) - b == db.events - (a + b);
    assert (db.idOf - a) - b == db.idOf - (a + b);
    assert TimesWithout(TimesWithout(db.times, a), b) == TimesWithout(db.times, a + b);
    assert IdsWithout(IdsWithout(db.sqnOf, a), b) == IdsWithout(db.sqnOf, a + b);
  }

  lemma AgreesDelivered(db: Db)
    requires Agrees(db)
    ensures DeliveredMatch(db.delivered, db.deliveredTimes)
  {}

  lemma DeliveredMatchWithout(delivered: map<string, DeliveredKey>, times: set<DeliveredKey>, key: DeliveredKey)
    requires DeliveredMatch(delivered, times) && key in times
    ensures key.id in delivered && delivered[key.id] == key
    ensures DeliveredMatch(delivered - {key.id}, times - {key})
  {}

  /** Matching indexes without the keys before the cutoff are what forgetting leaves. */
  lemma ForgottenIs(db: Db, delivered: map<string, DeliveredKey>, times: set<DeliveredKey>, cutoff: int)
    requires Agrees(db) && DeliveredMatch(delivered, times) && times <= db.deliveredTimes
    requires forall k :: k in db.deliveredTimes && k.at >= cutoff ==> k in times
    requires forall k :: k in times ==> k.at >= cutoff
    ensures db.(delivered := delivered, deliveredTimes := times) == Forget(db, cutoff)
    ensures Agrees(Forget(db, cutoff))
  {
    ForgetAgrees(db, cutoff);
    hide TimesAgree, IdsMatch, TotalCharge;
    assert times == Forget(db, cutoff).deliveredTimes;
    forall id
      ensures id in delivered <==> id in db.delivered && db.delivered[id].at >= cutoff
      ensures id in delivered ==> delivered[id] == db.delivered[id]
    {
      if id in delivered {
        assert delivered[id] in times;
      }
      if id in db.delivered {
        assert db.delivered[id] in db.deliveredTimes;
      }
    }
    assert delivered == Forget(db, cutoff).delivered;
  }

  /** What deleting one sequence does to the time index of a database that agrees. */
  lemma DeletedTimes(db: Db, s: nat)
    requires TimesAgree(db)
    ensures TimesWithout(db.times, {s}) == if s in db.events then db.times - {KeyOf(db.events, s)} else db.times
  {
    forall k | k in db.times
      ensures k.sqn == s <==> s in db.events && k == KeyOf(db.events, s)
    {}
  }

  /** What deleting one sequence does to the id index. */
  lemma DeletedIds(db: Db, s: nat)
    requires IdsAgree(db)
    ensures IdsWithout(db.sqnOf, {s}) == if s in db.idOf then db.sqnOf - {db.idOf[s]} else db.sqnOf
  {}

  lemma AgreesParts(db: Db)
    requires Agrees(db)
    ensures TimesAgree(db) && IdsAgree(db) && Counted(db)
  {}

  /** Deleting one sequence, field by field. */
  lemma DeletedDb(db: Db, s: nat)
    requires IdsAgree(db) && Counted(db)
    ensures s !in db.events ==> Without(db, {s}).(times := db.times) == db
    ensures s in db.events ==>
      && db.count >= 1 && db.bytes >= Charge(db.events[s])
      && Without(db, {s}) == db.(
           events := db.events - {s},
           times := TimesWithout(db.times, {s}),
           sqnOf := if s in db.idOf then db.sqnOf - {db.idOf[s]} else db.sqnOf,
           idOf := db.idOf - {s},
           count := db.count - 1,
           bytes := db.bytes - Charge(db.events[s]))
    ensures s in db.idOf ==> db.idOf[s] in db.sqnOf && db.sqnOf[db.idOf[s]] == s
  {
    if s in db.events {
      WithoutOneCounts(db, s);
      DeletedIds(db, s);
    } else {
      WithoutAbsent(db, s);
    }
  }

  /** Removing a time key and then its event is removing the event. */
  lemma FirstDeleted(db: Db, key: TimeKey)
    requires Agrees(db) && key in db.times
    ensures var cut := db.(times := db.times - {key});
      && IdsAgree(cut) && Counted(cut) && key.sqn in db.events && key == KeyOf(db.events, key.sqn)
      && Without(cut, {key.sqn}).(times := cut.times) == Without(db, {key.sqn})
      && Agrees(Without(db, {key.sqn}))
  {
    DeletedTimes(db, key.sqn);
    WithoutAgrees(db, {key.sqn});
  }

  /** The first key of the time index names the oldest event. */
  lemma FirstIsOldest(db: Db, first: Option<TimeKey>)
    requires Agrees(db)
    requires first.None? <==> db.times == {}
    requires first.Some? ==>
      first.value in db.times && forall k :: k in db.times && k != first.value ==> KeyLess(first.value, k)
    ensures first.None? <==> db.events == map[]
    ensures first.Some? ==> IsOldest(db.events, first.value.sqn) && first.value == KeyOf(db.events, first.value.sqn)
  {
    forall s | s in db.events ensures KeyOf(db.events, s) in db.times {}
    if first.None? {
      assert db.events.Keys == {};
    }
  }

  lemma NoneExpired(events: map<nat, Event>, first: Option<TimeKey>, cutoff: int)
    requires first.None? ==> events == map[]
    requires first.Some? ==>
      IsOldest(events, first.value.sqn) && first.value == KeyOf(events, first.value.sqn) && first.value.at >= cutoff
    ensures Expired(events, cutoff) == {}
  {
    if first.Some? {
      forall s | s in events ensures events[s].createdAt >= cutoff {
        assert s == first.value.sqn || KeyLess(KeyOf(events, first.value.sqn), KeyOf(events, s));
      }
    }
  }

  lemma OverflowStep(events: map<nat, Event>, maxBytes: nat, o: nat)
    requires IsOldest(events, o) && TotalCharge(events) > maxBytes
    ensures Overflow(events, maxBytes) == {o} + Overflow(events - {o}, maxBytes)
  {
    OldestUnique(events, o);
  }

  lemma OverflowStop(events: map<nat, Event>, maxBytes: nat)
    requires events == map[] || TotalCharge(events) <= maxBytes
    ensures Overflow(events, maxBytes) == {}
  {}

  /** Eviction under way: `dead` is gone, and what is still to go completes the overflow. */
  ghost predicate Evicting(cfg: Config, before: Db, dead: set<nat>, db: Db) {
    && db == Without(before, dead) && dead !! db.events.Keys
    && dead + Overflow(db.events, cfg.maxBytes) == Overflow(before.events, cfg.maxBytes)
  }

  lemma EvictingBegins(cfg: Config, before: Db)
    requires Agrees(before)
    ensures Evicting(cfg, before, {}, before)
  {
    hide Agrees, Without, Overflow;
    WithoutNothing(before);
  }

  lemma EvictingStep(cfg: Config, before: Db, dead: set<nat>, db: Db, s: nat)
    requires Evicting(cfg, before, dead, db) && IsOldest(db.events, s) && TotalCharge(db.events) > cfg.maxBytes
    ensures Evicting(cfg, before, dead + {s}, Without(db, {s})) && |dead + {s}| == |dead| + 1
  {
    hide TotalCharge, Overflow, TimesWithout, IdsWithout;
    OverflowStep(db.events, cfg.maxBytes, s);
    WithoutTwice(before, dead, {s});
    var rest := Overflow(db.events - {s}, cfg.maxBytes);
    assert dead + ({s} + rest) == (dead + {s}) + rest;
  }

  lemma EvictingEnds(cfg: Config, before: Db, dead: set<nat>, db: Db)
    requires Evicting(cfg, before, dead, db) && (db.events == map[] || TotalCharge(db.events) <= cfg.maxBytes)
    ensures db == Evict(cfg, before) && dead == Overflow(before.events, cfg.maxBytes)
  {
    hide TotalCharge, Overflow, Without;
    OverflowStop(db.events, cfg.maxBytes);
    assert dead + {} == dead;
  }

  lemma EvictedCount(cfg: Config, db: Db)
    ensures |Overflow(db.events, cfg.maxBytes)| == |db.events| - |Evict(cfg, db).events|
    ensures |JsonLines(Evict(cfg, db).events)| <= cfg.maxBytes
  {
    hide TotalCharge, Overflow, JsonLines;
    OverflowDropsOldest(db.events, cfg.maxBytes);
    DifferenceSize(db.events, Overflow(db.events, cfg.maxBytes));
    LinesLength(Evict(cfg, db).events);
  }

  lemma ExpiredSplit(events: map<nat, Event>, dead: set<nat>, cutoff: int)
    requires dead <= Expired(events, cutoff) && Expired(events - dead, cutoff) == {}
    ensures dead == Expired(events, cutoff)
  {
    forall s | s in Expired(events, cutoff) ensures s in dead {
      assert s !in dead ==> s in Expired(events - dead, cutoff);
    }
  }

  /** Removing one event costs exactly its charge. */
  lemma WithoutOneCounts(db: Db, s: nat)
    requires Counted(db) && s in db.events
    ensures |db.events - {s}| == db.count - 1 && TotalCharge(db.events - {s}) == db.bytes - Charge(db.events[s])
    ensures db.count >= 1 && db.bytes >= Charge(db.events[s])
  {
    TotalChargeSplit(db.events, s);
  }

  lemma AgreesCounts(db: Db)
    requires Agrees(db)
    ensures db.bytes == TotalCharge(db.events) && db.count == |db.events|
  {}

  lemma QuarantineKeeps(db: Db, id: string, e: Event)
    requires Agrees(db) && id != ""
    ensures Agrees(db.(quarantine := db.quarantine[id := e]))
  {}

  lemma WithoutAbsent(db: Db, s: nat)
    requires IdsAgree(db) && Counted(db) && s !in db.events
    ensures Without(db, {s}).(times := db.times) == db
  {
    DeletedIds(db, s);
    assert db.events - {s} == db.events;
    assert db.idOf - {s} == db.idOf;
  }

  /** How many of the appended events are refused for their age, and how many as duplicates. */
  ghost function CountTooOld(cfg: Config, es: seq<Event>, nows: seq<int>): nat
    requires |es| == |nows|
  {
    if es == [] then 0 else
      CountTooOld(cfg, es[..|es| - 1], nows[..|es| - 1]) +
      (if TooOld(cfg, es[|es| - 1], nows[|es| - 1]) then 1 else 0)
  }

  ghost function CountDuplicates(cfg: Config, db: Db, es: seq<Event>, nows: seq<int>): nat
    requires |es| == |nows|
  {
    if es == [] then 0 else
      var n := |es| - 1;
      var before := InsertAll(cfg, db, es[..n], nows[..n]);
      CountDuplicates(cfg, db, es[..n], nows[..n]) +
      (if !TooOld(cfg, es[n], nows[n]) && (Duplicate(before, es[n]) || Replaces(before, es[n])) then 1 else 0)
  }

  /** The appended events that have no creation time or were created too long before they are looked at. */
  ghost function Outdated(cfg: Config, es: seq<Event>, nows: seq<int>): set<nat>
    requires |es| == |nows|
  {
    set i: nat | i < |es| && (es[i].createdAt == ZERO_TIME || es[i].createdAt < nows[i] - cfg.maxAge)
  }

  /** An event that is not, and whose id is in the database when it is looked at: queued, delivered or quarantined. */
  ghost predicate IsMet(cfg: Config, db: Db, es: seq<Event>, nows: seq<int>, i: nat)
    requires |es| == |nows| && i < |es|
  {
    var before, id := InsertAll(cfg, db, es[..i], nows[..i]), es[i].id;
    && es[i].createdAt != ZERO_TIME && es[i].createdAt >= nows[i] - cfg.maxAge
    && id != "" && (id in before.sqnOf || id in before.delivered || id in before.quarantine)
  }

  ghost function Met(cfg: Config, db: Db, es: seq<Event>, nows: seq<int>): set<nat>
    requires |es| == |nows|
  {
    set i: nat | i < |es| && IsMet(cfg, db, es, nows, i)
  }

  lemma {:induction false} CountTooOldIs(cfg: Config, es: seq<Event>, nows: seq<int>)
    requires |es| == |nows|
    ensures CountTooOld(cfg, es, nows) == |Outdated(cfg, es, nows)|
  {
    if es != [] {
      var n := |es| - 1;
      CountTooOldIs(cfg, es[..n], nows[..n]);
      assert Outdated(cfg, es, nows) ==
        Outdated(cfg, es[..n], nows[..n]) + if TooOld(cfg, es[n], nows[n]) then {n} else {};
    }
  }

  lemma MetPrefix(cfg: Config, db: Db, es: seq<Event>, nows: seq<int>, n: nat, i: nat)
    requires |es| == |nows| && i < n <= |es|
    ensures IsMet(cfg, db, es[..n], nows[..n], i) <==> IsMet(cfg, db, es, nows, i)
  {
    hide InsertAll;
    assert es[..n][..i] == es[..i] && nows[..n][..i] == nows[..i];
  }

  lemma MetLast(cfg: Config, db: Db, es: seq<Event>, nows: seq<int>)
    requires |es| == |nows| && es != []
    ensures var n := |es| - 1; var before := InsertAll(cfg, db, es[..n], nows[..n]);
      IsMet(cfg, db, es, nows, n) <==>
        !TooOld(cfg, es[n], nows[n]) && (Duplicate(before, es[n]) || Replaces(before, es[n]))
  {
    hide InsertAll;
  }

  lemma {:induction false} CountDuplicatesIs(cfg: Config, db: Db, es: seq<Event>, nows: seq<int>)
    requires |es| == |nows|
    ensures CountDuplicates(cfg, db, es, nows) == |Met(cfg, db, es, nows)|
  {
    hide InsertAll, IsMet, TooOld, Duplicate, Replaces;
    if es != [] {
      var n := |es| - 1;
      CountDuplicatesIs(cfg, db, es[..n], nows[..n]);
      MetLast(cfg, db, es, nows);
      forall i: nat | i < n ensures IsMet(cfg, db, es[..n], nows[..n], i) <==> IsMet(cfg, db, es, nows, i) {
        MetPrefix(cfg, db, es, nows, n, i);
      }
      assert Met(cfg, db, es, nows) ==
        Met(cfg, db, es[..n], nows[..n]) + if IsMet(cfg, db, es, nows, n) then {n} else {};
    }
  }

  // ---------------------------------------------------------------- cursors

  /** `Cursor().First()` on the time index. */
  method FirstTime(times: set<TimeKey>) returns (first: Option<TimeKey>)
    ensures first.None? <==> times == {}
    ensures first.Some? ==>
      first.value in times && forall k :: k in times && k != first.value ==> KeyLess(first.value, k)
  {
    first := None;
    var rest := times;
    while rest != {}
      invariant rest <= times
      invariant first.None? <==> rest == times
      invariant first.Some? ==> first.value in times - rest
      invariant first.Some? ==> forall k :: k in times - rest && k != first.value ==> KeyLess(first.value, k)
    {
      var k :| k in rest;
      assert times - (rest - {k}) == (times - rest) + {k};
      if first.None? || KeyLess(k, first.value) {
        first := Some(k);
      }
      rest := rest - {k};
    }
  }

  method FirstDelivered(keys: set<DeliveredKey>) returns (first: Option<DeliveredKey>)
    ensures first.None? <==> keys == {}
    ensures first.Some? ==> first.value in keys && forall k :: k in keys ==> first.value.at <= k.at
  {
    first := None;
    var rest := keys;
    while rest != {}
      invariant rest <= keys
      invariant first.None? <==> rest == keys
      invariant first.Some? ==> first.value in keys - rest && forall k :: k in keys - rest ==> first.value.at <= k.at
    {
      var k :| k in rest;
      if first.None? || k.at < first.value.at {
        first := Some(k);
      }
      rest := rest - {k};
    }
  }

  /** The cursor of the events bucket: the least sequence above `after`. */
  method NextSequence(sequences: set<nat>, after: int) returns (next: Option<nat>)
    ensures next.None? ==> forall s :: s in sequences ==> s <= after
    ensures next.Some? ==> next.value in sequences && next.value > after
    ensures next.Some? ==> forall s :: s in sequences && s > after ==> next.value <= s
  {
    next := None;
    var rest := sequences;
    while rest != {}
      invariant rest <= sequences
      invariant next.None? ==> forall s :: s in sequences && s !in rest ==> s <= after
      invariant next.Some? ==> next.value in sequences && next.value > after
      invariant next.Some? ==> forall s :: s in sequences && s !in rest && s > after ==> next.value <= s
    {
      var s: nat :| s in rest;
      if s > after && (next.None? || s < next.value) {
        next := Some(s);
      }
      rest := rest - {s};
    }
  }

  method LastSequence(sequences: set<nat>) returns (last: Option<nat>)
    ensures last.None? <==> sequences == {}
    ensures last.Some? ==> last.value in sequences && forall s :: s in sequences ==> s <= last.value
  {
    last := None;
    var rest := sequences;
    while rest != {}
      invariant rest <= sequences
      invariant last.None? <==> rest == sequences
      invariant last.Some? ==> last.value in sequences && forall s :: s in sequences && s !in rest ==> s <= last.value
    {
      var s: nat :| s in rest;
      if last.None? || s > last.value {
        last := Some(s);
      }
      rest := rest - {s};
    }
  }

  /** The batch holds exactly the events up to `at`, in sequence order. */
  ghost predicate ReadUpTo(events: map<nat, Event>, at: int, batch: seq<Queued>) {
    && (forall i :: 0 <= i < |batch| ==>
          batch[i].sqn in events && batch[i].event == events[batch[i].sqn] && batch[i].sqn <= at)
    && (forall i, j :: 0 <= i < j < |batch| ==> batch[i].sqn < batch[j].sqn)
    && (forall s :: s in events && s <= at ==> InBatch(batch, s))
  }

  lemma NothingRead(events: map<nat, Event>)
    ensures ReadUpTo(events, -1, [])
  {}

  lemma BatchGrows(events: map<nat, Event>, batch: seq<Queued>, at: int, s: nat)
    requires ReadUpTo(events, at, batch)
    requires s in events && s > at && forall r :: r in events && r > at ==> s <= r
    ensures ReadUpTo(events, s, batch + [Queued(s, events[s])])
  {
    var grown := batch + [Queued(s, events[s])];
    forall r | r in events && r <= s ensures InBatch(grown, r) {
      if r <= at {
        var i :| 0 <= i < |batch| && batch[i].sqn == r;
        assert grown[i].sqn == r;
      } else {
        assert grown[|batch|].sqn == r;
      }
    }
  }

  lemma ReadIsBatch(events: map<nat, Event>, batch: seq<Queued>, at: int, watermark: nat, cursor: Option<nat>)
    requires ReadUpTo(events, at, batch) && |batch| <= DRAIN_BATCH_SIZE && at <= watermark
    requires cursor.None? ==> forall s :: s in events ==> s <= at
    requires cursor.Some? ==> forall s :: s in events && s > at ==> cursor.value <= s
    requires cursor.Some? ==> |batch| == DRAIN_BATCH_SIZE || cursor.value > watermark
    ensures IsBatch(events, watermark, DRAIN_BATCH_SIZE, batch)
  {}

  // ---------------------------------------------------------------- the database

  class Queue {
    const cfg: Config
    var events: map<nat, Event>
    var times: set<TimeKey>
    var sqnOf: map<string, nat>
    var idOf: map<nat, string>
    var delivered: map<string, DeliveredKey>
    var deliveredTimes: set<DeliveredKey>
    var quarantine: map<string, Event>
    var count: int
    var bytes: int
    var nextSeq: nat

    ghost function State(): Db
      reads this
    {
      Db(events, times, sqnOf, idOf, delivered, deliveredTimes, quarantine, count, bytes, nextSeq)
    }

    constructor (cfg: Config)
      ensures State() == EMPTY && this.cfg == cfg
    {
      this.cfg := cfg;
      events, times, sqnOf, idOf := map[], {}, map[], map[];
      delivered, deliveredTimes, quarantine := map[], {}, map[];
      count, bytes, nextSeq := 0, 0, 0;
    }

    /** Adjust the counters, refusing to take either below zero. */
    method IncrementMeta(countDelta: int, bytesDelta: int) returns (ok: bool)
      modifies `count, `bytes
      ensures ok <==> old(count) + countDelta >= 0 && old(bytes) + bytesDelta >= 0
      ensures ok ==> count == old(count) + countDelta && bytes == old(bytes) + bytesDelta
      ensures !ok ==> count == old(count) && bytes == old(bytes)
    {
      var newCount, newBytes := count + countDelta, bytes + bytesDelta;
      if newCount < 0 || newBytes < 0 {
        return false;
      }
      count, bytes := newCount, newBytes;
      return true;
    }

    /** Remove a queued event and its index entries; the time key only on request, since some callers
        have removed it already. The counters never underflow. */
    method DeleteQueuedEvent(s: nat, removeTimeIndex: bool) returns (ok: bool)
      requires IdsAgree(State()) && Counted(State())
      modifies this
      ensures ok
      ensures State() == Without(old(State()), {s}).(times :=
        if removeTimeIndex && s in old(events) then old(times) - {KeyOf(old(events), s)} else old(times))
    {
      hide IdsAgree, Counted, Without;
      DeletedDb(State(), s);
      if s !in events {
        return true;
      }
      var event := events[s];
      if removeTimeIndex {
        times := times - {TimeKey(event.createdAt, s)};
      }
      if s in idOf {
        var id := idOf[s];
        if id in sqnOf && sqnOf[id] == s {
          sqnOf := sqnOf - {id};
        }
        idOf := idOf - {s};
      } else {
        assert idOf - {s} == idOf;
      }
      events := events - {s};
      ok := IncrementMeta(-1, 0 - Charge(event));
    }

    /** Delete with the time key, on a database whose indexes agree. */
    method Delete(s: nat)
      requires Agrees(State())
      modifies this
      ensures State() == Without(old(State()), {s}) && Agrees(State())
    {
      hide Agrees, TimesAgree, IdsAgree, Counted, TimesWithout, IdsWithout;
      AgreesParts(State());
      DeletedTimes(State(), s);
      WithoutAgrees(State(), {s});
      var ok := DeleteQueuedEvent(s, true);
    }

    /** Take the event at the front of the time index out of the queue. */
    method DeleteFirst(key: TimeKey)
      requires Agrees(State()) && key in times
      modifies this
      ensures State() == Without(old(State()), {key.sqn}) && Agrees(State())
      ensures key.sqn in old(events) && key == KeyOf(old(events), key.sqn) && events == old(events) - {key.sqn}
    {
      hide Agrees, IdsAgree, Counted, Without;
      FirstDeleted(State(), key);
      WithoutEvents(State(), {key.sqn});
      times := times - {key};
      var ok := DeleteQueuedEvent(key.sqn, false);
    }

    method PruneDelivered(cutoff: int)
      requires Agrees(State())
      modifies this
      ensures State() == Forget(old(State()), cutoff) && Agrees(State())
    {
      hide Agrees, DeliveredMatch, Forget;
      ghost var before := State();
      AgreesDelivered(before);
      while true
        invariant DeliveredMatch(delivered, deliveredTimes)
        invariant State() == before.(delivered := delivered, deliveredTimes := deliveredTimes)
        invariant deliveredTimes <= before.deliveredTimes
        invariant forall k :: k in before.deliveredTimes && k.at >= cutoff ==> k in deliveredTimes
        decreases |deliveredTimes|
      {
        var first := FirstDelivered(deliveredTimes);
        if first.None? || first.value.at >= cutoff {
          break;
        }
        var key := first.value;
        DeliveredMatchWithout(delivered, deliveredTimes, key);
        if key.id in delivered && delivered[key.id] == key {
          delivered := delivered - {key.id};
        }
        deliveredTimes := deliveredTimes - {key};
      }
      ForgottenIs(before, delivered, deliveredTimes, cutoff);
    }

    /** Drop events past retention from the front of the time index. */
    method PruneEvents(cutoff: int) returns (removed: nat)
      requires Agrees(State())
      modifies this
      ensures State() == Without(old(State()), Expired(old(events), cutoff)) && Agrees(State())
      ensures removed == |Expired(old(events), cutoff)|
    {
      hide Agrees, Without, IsOldest;
      ghost var before := State();
      ghost var dead: set<nat> := {};
      removed := 0;
      WithoutNothing(before);
      while true
        invariant Agrees(State()) && State() == Without(before, dead) && events == before.events - dead
        invariant dead <= Expired(before.events, cutoff) && removed == |dead|
        decreases |events|
      {
        var first := FirstTime(times);
        FirstIsOldest(State(), first);
        if first.None? || first.value.at >= cutoff {
          NoneExpired(events, first, cutoff);
          ExpiredSplit(before.events, dead, cutoff);
          break;
        }
        var key := first.value;
        DeleteFirst(key);
        WithoutTwice(before, dead, {key.sqn});
        WithoutEvents(before, dead + {key.sqn});
        dead := dead + {key.sqn};
        removed := removed + 1;
      }
    }

    /** Drop everything past retention; `t0` and `t1` are the two clock readings. */
    method PruneExpired(t0: int, t1: int) returns (removed: nat)
      requires Agrees(State())
      modifies this
      ensures State() == Prune(cfg, old(State()), t0, t1) && Agrees(State())
      ensures removed == |Expired(old(events), cfg.Cutoff(t1))|
    {
      hide Agrees, Without;
      PruneDelivered(cfg.Cutoff(t0));
      removed := PruneEvents(cfg.Cutoff(t1));
    }

    /** Drop the oldest events until the queue is within its byte budget. */
    method EvictOverCapacity() returns (removed: nat)
      requires Agrees(State())
      modifies this
      ensures State() == Evict(cfg, old(State())) && Agrees(State())
      ensures removed == |Overflow(old(events), cfg.maxBytes)|
    {
      hide Agrees, Without, IsOldest, Overflow, TotalCharge, Evict, Evicting;
      ghost var before := State();
      ghost var dead: set<nat> := {};
      removed := 0;
      EvictingBegins(cfg, before);
      while bytes > cfg.maxBytes
        invariant Agrees(State()) && Evicting(cfg, before, dead, State()) && removed == |dead|
        decreases |events|
      {
        ghost var loaded := State();
        var first := FirstTime(times);
        AgreesCounts(loaded);
        FirstIsOldest(loaded, first);
        if first.None? {
          break;
        }
        var key := first.value;
        EvictingStep(cfg, before, dead, loaded, key.sqn);
        DeleteFirst(key);
        dead := dead + {key.sqn};
        removed := removed + 1;
      }
      AgreesCounts(State());
      EvictingEnds(cfg, before, dead, State());
    }

    /** Store an event under the next sequence. */
    method StoreEvent(e: Event)
      requires Agrees(State()) && (e.id == "" || e.id !in sqnOf)
      modifies this
      ensures State() == Enter(old(State()), e) && Agrees(State())
    {
      hide Agrees, TotalCharge;
      EnterAgrees(State(), e);
      AgreesCounts(State());
      nextSeq := nextSeq + 1;
      events := events[nextSeq := e];
      times := times + {TimeKey(e.createdAt, nextSeq)};
      if e.id != "" {
        sqnOf := sqnOf[e.id := nextSeq];
        idOf := idOf[nextSeq := e.id];
      }
      var ok := IncrementMeta(1, Charge(e));
    }

    /** Queue an event unless its id is settled or already queued; a snapshot replaces its predecessor. */
    method InsertQueuedEvent(e: Event) returns (removedDuplicate: bool)
      requires Agrees(State())
      modifies this
      ensures State() == Insert(old(State()), e) && Agrees(State())
      ensures removedDuplicate == (Duplicate(old(State()), e) || Replaces(old(State()), e))
    {
      removedDuplicate := false;
      if e.id != "" {
        if e.id in quarantine {
          return true;
        }
        if e.id in delivered {
          return true;
        }
        if e.id in sqnOf {
          if !Compactable(e) {
            return true;
          }
          ReplacedIsGone(State(), e);
          Delete(sqnOf[e.id]);
          removedDuplicate := true;
        }
      }
      hide Agrees, Without, Enter;
      StoreEvent(e);
    }

    method CurrentStats() returns (stats: Stats)
      requires Agrees(State())
      ensures stats.queuedEvents == |events| && stats.queuedBytes == |JsonLines(events)|
      ensures stats.quarantined == |quarantine|
      ensures stats.removedExpired == stats.removedDuplicate == stats.removedCapacity == 0
      ensures stats.oldest.None? <==> events == map[]
      ensures stats.oldest.Some? ==>
        (exists s :: s in events && events[s].createdAt == stats.oldest.value) &&
        (forall s :: s in events ==> stats.oldest.value <= events[s].createdAt)
    {
      LinesLength(events);
      var first := FirstTime(times);
      forall s | s in events ensures KeyOf(events, s) in times {}
      var oldest := if first.Some? then Some(first.value.at) else None;
      if first.Some? {
        assert first.value.sqn in events;
      }
      stats := Stats(count, bytes, 0, 0, 0, |quarantine|, oldest);
    }

    /** The events of an append in order, with how many are too old and how many are met already. */
    method InsertEvents(es: seq<Event>, nows: seq<int>) returns (outdated: nat, duplicates: nat)
      requires Agrees(State()) && |es| == |nows|
      modifies this
      ensures State() == InsertAll(cfg, old(State()), es, nows) && Agrees(State())
      ensures outdated == |Outdated(cfg, es, nows)| && duplicates == |Met(cfg, old(State()), es, nows)|
    {
      hide Agrees, Enter, Without, Met, Outdated;
      ghost var start := State();
      outdated, duplicates := 0, 0;
      for i := 0 to |es|
        invariant Agrees(State()) && State() == InsertAll(cfg, start, es[..i], nows[..i])
        invariant outdated == CountTooOld(cfg, es[..i], nows[..i])
        invariant duplicates == CountDuplicates(cfg, start, es[..i], nows[..i])
      {
        assert es[..i + 1][..i] == es[..i] && nows[..i + 1][..i] == nows[..i];
        if es[i].createdAt == ZERO_TIME || es[i].createdAt < cfg.Cutoff(nows[i]) {
          outdated := outdated + 1;
        } else {
          var removedDuplicate := InsertQueuedEvent(es[i]);
          if removedDuplicate {
            duplicates := duplicates + 1;
          }
        }
      }
      assert es[..|es|] == es && nows[..|es|] == nows;
      CountTooOldIs(cfg, es, nows);
      CountDuplicatesIs(cfg, start, es, nows);
    }

    /** The append transaction. `nows[i]` is the clock when event i is looked at. */
    method AppendWithStats(t0: int, t1: int, es: seq<Event>, nows: seq<int>) returns (stats: Stats)
      requires Agrees(State()) && |es| == |nows|
      modifies this
      ensures State() == Append(cfg, old(State()), t0, t1, es, nows) && Agrees(State())
      ensures stats.queuedEvents == |events| && stats.queuedBytes == |JsonLines(events)| <= cfg.maxBytes
      ensures var pruned := Prune(cfg, old(State()), t0, t1);
        && stats.removedExpired == |Expired(old(events), t1 - cfg.maxAge)| + |Outdated(cfg, es, nows)|
        && stats.removedDuplicate == |Met(cfg, pruned, es, nows)|
        && stats.removedCapacity == |InsertAll(cfg, pruned, es, nows).events| - |events|
    {
      hide Agrees, Prune, InsertAll, Evict, Overflow, JsonLines, TotalCharge, Enter, Without, Met, Outdated;
      var expired := PruneExpired(t0, t1);
      var outdated, duplicates := InsertEvents(es, nows);
      AgreesCounts(State());
      ghost var filled := State();
      var capacity := EvictOverCapacity();
      EvictedCount(cfg, filled);
      var current := CurrentStats();
      stats := current.(
        removedExpired := expired + outdated, removedDuplicate := duplicates, removedCapacity := capacity);
    }

    // ---------------------------------------------------------------- draining

    /** The last sequence queued when a drain begins. */
    method DrainWatermark(t0: int, t1: int) returns (watermark: Option<nat>)
      requires Agrees(State())
      modifies this
      ensures State() == Prune(cfg, old(State()), t0, t1) && Agrees(State())
      ensures watermark.None? <==> events == map[]
      ensures watermark.Some? ==> watermark.value in events && forall s :: s in events ==> s <= watermark.value
    {
      hide Agrees, Prune;
      var _ := PruneExpired(t0, t1);
      watermark := LastSequence(events.Keys);
    }

    method NextDrainBatch(watermark: nat, t0: int, t1: int) returns (batch: seq<Queued>)
      requires Agrees(State())
      modifies this
      ensures State() == Prune(cfg, old(State()), t0, t1) && Agrees(State())
      ensures IsBatch(events, watermark, 500, batch)
    {
      hide Agrees, Prune, ReadUpTo, IsBatch, TotalCharge;
      var _ := PruneExpired(t0, t1);
      ghost var pruned := State();
      batch := [];
      var at := -1;
      NothingRead(events);
      var cursor := NextSequence(events.Keys, at);
      while cursor.Some? && |batch| < DRAIN_BATCH_SIZE && cursor.value <= watermark
        invariant State() == pruned
        invariant |batch| <= DRAIN_BATCH_SIZE && at <= watermark
        invariant ReadUpTo(events, at, batch)
        invariant cursor.None? ==> forall s :: s in events ==> s <= at
        invariant cursor.Some? ==> cursor.value in events && cursor.value > at
        invariant cursor.Some? ==> forall s :: s in events && s > at ==> cursor.value <= s
        decreases DRAIN_BATCH_SIZE - |batch|
      {
        var s := cursor.value;
        BatchGrows(events, batch, at, s);
        batch := batch + [Queued(s, events[s])];
        at := s;
        cursor := NextSequence(events.Keys, at);
      }
      ReadIsBatch(events, batch, at, watermark, cursor);
    }

    method RecordDelivered(id: string, at: int)
      requires Agrees(State()) && id != ""
      modifies this
      ensures State() == Deliver(old(State()), id, at) && Agrees(State())
    {
      DeliverAgrees(State(), id, at);
      ghost var before := State();
      if id in delivered {
        deliveredTimes := deliveredTimes - {delivered[id]};
      }
      delivered := delivered[id := DeliveredKey(at, id)];
      deliveredTimes := deliveredTimes + {DeliveredKey(at, id)};
      assert deliveredTimes == Deliver(before, id, at).deliveredTimes;
    }

    /** Settle a delivered batch; `ats[i]` is the clock when entry i is recorded. */
    method AcknowledgeBatch(batch: seq<Queued>, ats: seq<int>)
      requires Agrees(State()) && |batch| == |ats|
      modifies this
      ensures State() == Acknowledge(old(State()), batch, ats) && Agrees(State())
    {
      hide Agrees, Without;
      ghost var before := State();
      for i := 0 to |batch|
        invariant Agrees(State()) && State() == Acknowledge(before, batch[..i], ats[..i])
      {
        assert batch[..i + 1][..i] == batch[..i] && ats[..i + 1][..i] == ats[..i];
        if batch[i].event.id != "" {
          RecordDelivered(batch[i].event.id, ats[i]);
        }
        Delete(batch[i].sqn);
      }
      assert batch[..|batch|] == batch && ats[..|batch|] == ats;
    }

    /** Move the events the server named to quarantine. Fails, changing nothing, when an id is blank, when
        none is given, or when one does not name an event of the batch. */
    method QuarantineRejected(batch: seq<Queued>, rejectedIds: seq<string>) returns (moved: Option<seq<string>>)
      requires Agrees(State())
      modifies this
      ensures Agrees(State())
      ensures moved.Some? <==> Quarantinable(batch, rejectedIds)
      ensures moved.None? ==> State() == old(State())
      ensures moved.Some? ==>
        && State() == Quarantine(old(State()), batch, Trimmed(rejectedIds))
        && moved.value == IdsInOrder(Named(batch, Trimmed(rejectedIds)))
    {
      var matched := MatchRejected(batch, rejectedIds);
      if matched.None? {
        return None;
      }
      var ids := MoveRejected(batch, matched.value);
      moved := Some(ids);
    }

    method MoveRejected(batch: seq<Queued>, rejected: set<string>) returns (ids: seq<string>)
      requires Agrees(State()) && "" !in rejected
      modifies this
      ensures Agrees(State()) && State() == Quarantine(old(State()), batch, rejected)
      ensures ids == IdsInOrder(Named(batch, rejected))
    {
      hide Agrees, Without;
      ghost var before := State();
      ids := [];
      for i := 0 to |batch|
        invariant Agrees(State()) && State() == Quarantine(before, batch[..i], rejected)
        invariant ids == IdsInOrder(Named(batch[..i], rejected))
      {
        assert batch[..i + 1][..i] == batch[..i];
        var id := batch[i].event.id;
        if id in rejected {
          QuarantineKeeps(State(), id, batch[i].event);
          quarantine := quarantine[id := batch[i].event];
          Delete(batch[i].sqn);
          ghost var named := Named(batch[..i], rejected);
          assert (named + [batch[i]])[..|named|] == named;
          ids := ids + [id];
        }
      }
      assert batch[..|batch|] == batch;
    }
  }

  /** Match the ids the server named against the batch. */
  method MatchRejected(batch: seq<Queued>, rejectedIds: seq<string>) returns (matched: Option<set<string>>)
    ensures matched.Some? <==> Quarantinable(batch, rejectedIds)
    ensures matched.Some? ==> matched.value == Trimmed(rejectedIds)
  {
    var rejected: set<string> := {};
    for i := 0 to |rejectedIds|
      invariant rejected == Trimmed(rejectedIds[..i]) && "" !in rejected
      invariant i > 0 ==> rejected != {}
    {
      var id := Trim(rejectedIds[i]);
      assert rejectedIds[..i + 1][..i] == rejectedIds[..i];
      if id == "" {
        TrimmedMembers(rejectedIds);
        return None;
      }
      rejected := rejected + {id};
    }
    assert rejectedIds[..|rejectedIds|] == rejectedIds;
    if rejected == {} {
      return None;
    }
    var byId: map<string, Queued> := map[];
    for i := 0 to |batch|
      invariant byId.Keys == rejected * BatchIds(batch[..i])
    {
      assert batch[..i + 1][..i] == batch[..i];
      assert BatchIds(batch[..i + 1]) == BatchIds(batch[..i]) + {batch[i].event.id};
      if batch[i].event.id in rejected {
        byId := byId[batch[i].event.id := batch[i]];
      }
    }
    assert batch[..|batch|] == batch;
    SubsetOfSameSize(byId.Keys, rejected);
    if |byId| != |rejected| {
      return None;
    }
    matched := Some(rejected);
  }

  ghost function IdsInOrder(batch: seq<Queued>): seq<string> {
    if batch == [] then [] else IdsInOrder(batch[..|batch| - 1]) + [batch[|batch| - 1].event.id]
  }

  /** Which ids a quarantine returns: each entry of the batch whose id is named gives its own, in its place. */
  lemma {:induction false} RejectedIdsOfEach(a: seq<Queued>, q: Queued, b: seq<Queued>, rejected: set<string>)
    ensures IdsInOrder(Named(a + [q] + b, rejected)) ==
      IdsInOrder(Named(a, rejected)) + (if q.event.id in rejected then [q.event.id] else []) +
      IdsInOrder(Named(b, rejected))
    decreases |b|
  {
    var all := a + [q] + b;
    hide IdsInOrder;
    if b == [] {
      assert all[..|a|] == a && all == a + [q];
      NamedSnoc(Named(a, rejected), q);
      NoIds();
    } else {
      var n := |b| - 1;
      RejectedIdsOfEach(a, q, b[..n], rejected);
      assert all[..|all| - 1] == a + [q] + b[..n] && all[|all| - 1] == b[n];
      NamedSnoc(Named(a + [q] + b[..n], rejected), b[n]);
      NamedSnoc(Named(b[..n], rejected), b[n]);
    }
  }

  lemma NoIds()
    ensures IdsInOrder([]) == []
  {}

  lemma NamedSnoc(named: seq<Queued>, q: Queued)
    ensures IdsInOrder(named + [q]) == IdsInOrder(named) + [q.event.id]
  {
    assert (named + [q])[..|named|] == named;
  }

  // ---------------------------------------------------------------- naming rejected events

  ghost function Trimmed(ids: seq<string>): set<string> {
    if ids == [] then {} else Trimmed(ids[..|ids| - 1]) + {Trim(ids[|ids| - 1])}
  }

  ghost function BatchIds(batch: seq<Queued>): set<string> {
    if batch == [] then {} else BatchIds(batch[..|batch| - 1]) + {batch[|batch| - 1].event.id}
  }

  /** At least one id is named, none is blank, and every one is the id of an event of the batch. */
  ghost predicate Quarantinable(batch: seq<Queued>, rejectedIds: seq<string>) {
    rejectedIds != [] && "" !in Trimmed(rejectedIds) && Trimmed(rejectedIds) <= BatchIds(batch)
  }

  lemma {:induction false} TrimmedMembers(ids: seq<string>)
    ensures forall i :: 0 <= i < |ids| ==> Trim(ids[i]) in Trimmed(ids)
  {
    if ids != [] {
      TrimmedMembers(ids[..|ids| - 1]);
    }
  }

  lemma SubsetOfSameSize<T>(a: set<T>, b: set<T>)
    requires a <= b
    ensures |a| <= |b| && (|a| == |b| <==> a == b)
  {
    assert b == a + (b - a);
    assert |b| == |a| + |b - a|;
  }

  lemma DifferenceSize(m: map<nat, Event>, dead: set<nat>)
    requires dead <= m.Keys
    ensures |m - dead| == |m| - |dead|
  {
    assert (m - dead).Keys == m.Keys - dead;
    assert m.Keys == (m.Keys - dead) + dead;
  }
}
