/** What every transaction keeps, whatever ran between the read of a batch and its acknowledgement:
    the hand-maintained indexes agree with the events, the counters are the true sums and the queue
    stays within its byte budget. */
module QueueInvariants {
  import opened QueueModel

  /** "event_times" holds exactly one key per queued event. */
  ghost predicate TimesAgree(db: Db) {
    && (forall s :: s in db.events ==> KeyOf(db.events, s) in db.times)
    && (forall k :: k in db.times ==> k.sqn in db.events && k == KeyOf(db.events, k.sqn))
  }

  /** The id indexes of `events`, by themselves. */
  ghost predicate IdsMatch(events: map<nat, Event>, idOf: map<nat, string>, sqnOf: map<string, nat>) {
    && (forall s :: s in idOf <==> s in events && events[s].id != "")
    && (forall s :: s in idOf ==> idOf[s] == events[s].id && idOf[s] in sqnOf && sqnOf[idOf[s]] == s)
    && (forall id :: id in sqnOf ==> sqnOf[id] in idOf && idOf[sqnOf[id]] == id)
  }

  /** "events_by_id" and "events_by_sequence" are inverse and index exactly the events that have an id. */
  ghost predicate IdsAgree(db: Db) {
    IdsMatch(db.events, db.idOf, db.sqnOf)
  }

  /** "delivered_by_id" and "delivered_by_time" are inverse. */
  ghost predicate DeliveredAgree(db: Db) {
    DeliveredMatch(db.delivered, db.deliveredTimes)
  }

  ghost predicate DeliveredMatch(delivered: map<string, DeliveredKey>, times: set<DeliveredKey>) {
    && (forall id :: id in delivered ==> id != "" && delivered[id].id == id && delivered[id] in times)
    && (forall k :: k in times ==> k.id in delivered && delivered[k.id] == k)
  }

  ghost predicate Counted(db: Db) {
    db.count == |db.events| && db.bytes == TotalCharge(db.events)
  }

  ghost predicate Allocated(db: Db) {
    forall s :: s in db.events ==> 1 <= s <= db.nextSeq
  }

  ghost predicate Agrees(db: Db) {
    TimesAgree(db) && IdsAgree(db) && DeliveredAgree(db) && Counted(db) && Allocated(db) && "" !in db.quarantine
  }

  lemma WithoutNothing(db: Db)
    requires Agrees(db)
    ensures Without(db, {}) == db
  {
    assert db.events - {} == db.events;
    assert TimesWithout(db.times, {}) == db.times;
    assert IdsWithout(db.sqnOf, {}) == db.sqnOf;
  }

  lemma WithoutKeepsTimes(db: Db, dead: set<nat>)
    requires TimesAgree(db)
    ensures TimesAgree(Without(db, dead))
  {
    hide TotalCharge;
    var after := Without(db, dead);
    forall s | s in after.events
      ensures KeyOf(after.events, s) in after.times
    {
      assert KeyOf(after.events, s) == KeyOf(db.events, s);
    }
    forall k | k in after.times
      ensures k.sqn in after.events && k == KeyOf(after.events, k.sqn)
    {
      assert k == KeyOf(db.events, k.sqn);
    }
  }

  lemma IdsMatchWithout(events: map<nat, Event>, idOf: map<nat, string>, sqnOf: map<string, nat>, dead: set<nat>)
    requires IdsMatch(events, idOf, sqnOf)
    ensures IdsMatch(events - dead, idOf - dead, IdsWithout(sqnOf, dead))
  {}

  lemma IdsMatchEnter(events: map<nat, Event>, idOf: map<nat, string>, sqnOf: map<string, nat>, s: nat, e: Event)
    requires IdsMatch(events, idOf, sqnOf) && s !in events && e.id !in sqnOf && e.id != ""
    ensures IdsMatch(events[s := e], idOf[s := e.id], sqnOf[e.id := s])
  {}

  lemma WithoutAgrees(db: Db, dead: set<nat>)
    requires Agrees(db)
    ensures Agrees(Without(db, dead))
  {
    hide TimesAgree, IdsMatch, DeliveredAgree, TotalCharge;
    WithoutKeepsTimes(db, dead);
    IdsMatchWithout(db.events, db.idOf, db.sqnOf, dead);
    WithoutKeepsDelivered(db, dead);
  }

  lemma WithoutKeepsDelivered(db: Db, dead: set<nat>)
    requires DeliveredAgree(db)
    ensures DeliveredAgree(Without(db, dead))
  {}

  lemma ForgetAgrees(db: Db, cutoff: int)
    requires Agrees(db)
    ensures Agrees(Forget(db, cutoff))
  {}

  lemma PruneAgrees(cfg: Config, db: Db, t0: int, t1: int)
    requires Agrees(db)
    ensures Agrees(Prune(cfg, db, t0, t1))
  {
    ForgetAgrees(db, cfg.Cutoff(t0));
    WithoutAgrees(Forget(db, cfg.Cutoff(t0)), Expired(db.events, cfg.Cutoff(t1)));
  }

  lemma EnterKeepsTimes(db: Db, e: Event)
    requires TimesAgree(db) && Allocated(db)
    ensures TimesAgree(Enter(db, e))
  {
    var after := Enter(db, e);
    var s := db.nextSeq + 1;
    assert s !in db.events;
    assert KeyOf(after.events, s) == TimeKey(e.createdAt, s);
    forall r | r in db.events
      ensures KeyOf(after.events, r) == KeyOf(db.events, r)
    {}
  }

  lemma EnterKeepsIds(db: Db, e: Event)
    requires IdsAgree(db) && Allocated(db) && (e.id == "" || e.id !in db.sqnOf)
    ensures IdsAgree(Enter(db, e))
  {
    hide IdsMatch, TotalCharge;
    assert db.nextSeq + 1 !in db.events;
    if e.id == "" {
      IdsMatchAnonymous(db.events, db.idOf, db.sqnOf, db.nextSeq + 1, e);
    } else {
      IdsMatchEnter(db.events, db.idOf, db.sqnOf, db.nextSeq + 1, e);
    }
  }

  lemma IdsMatchAnonymous(events: map<nat, Event>, idOf: map<nat, string>, sqnOf: map<string, nat>, s: nat, e: Event)
    requires IdsMatch(events, idOf, sqnOf) && s !in events && e.id == ""
    ensures IdsMatch(events[s := e], idOf, sqnOf)
  {}

  lemma EnterKeepsCounts(db: Db, e: Event)
    requires Counted(db) && Allocated(db)
    ensures Counted(Enter(db, e)) && Allocated(Enter(db, e))
  {
    hide TotalCharge;
    assert db.nextSeq + 1 !in db.events;
    TotalChargeInsert(db.events, db.nextSeq + 1, e);
  }

  lemma EnterAgrees(db: Db, e: Event)
    requires Agrees(db) && (e.id == "" || e.id !in db.sqnOf)
    ensures Agrees(Enter(db, e))
  {
    hide TimesAgree, IdsAgree, Counted, Allocated;
    EnterKeepsTimes(db, e);
    EnterKeepsIds(db, e);
    EnterKeepsCounts(db, e);
  }

  lemma InsertAgrees(db: Db, e: Event)
    requires Agrees(db)
    ensures Agrees(Insert(db, e))
  {
    if Duplicate(db, e) {
    } else if Replaces(db, e) {
      var replaced := {db.sqnOf[e.id]};
      WithoutAgrees(db, replaced);
      assert e.id !in Without(db, replaced).sqnOf;
      EnterAgrees(Without(db, replaced), e);
    } else {
      EnterAgrees(db, e);
    }
  }

  lemma {:induction false} InsertAllAgrees(cfg: Config, db: Db, es: seq<Event>, nows: seq<int>)
    requires Agrees(db) && |es| == |nows|
    ensures Agrees(InsertAll(cfg, db, es, nows))
  {
    if es != [] {
      var n := |es| - 1;
      InsertAllAgrees(cfg, db, es[..n], nows[..n]);
      InsertAgrees(InsertAll(cfg, db, es[..n], nows[..n]), es[n]);
    }
  }

  lemma DeliverAgrees(db: Db, id: string, at: int)
    requires Agrees(db) && id != ""
    ensures Agrees(Deliver(db, id, at))
  {
    hide TimesAgree, IdsAgree, Counted;
    assert TimesAgree(Deliver(db, id, at)) by { SameTimes(db, Deliver(db, id, at)); }
    assert IdsAgree(Deliver(db, id, at)) by { SameIds(db, Deliver(db, id, at)); }
    assert Counted(Deliver(db, id, at)) by { SameCounts(db, Deliver(db, id, at)); }
  }

  lemma SameTimes(db: Db, after: Db)
    requires TimesAgree(db) && after.events == db.events && after.times == db.times
    ensures TimesAgree(after)
  {}

  lemma SameIds(db: Db, after: Db)
    requires IdsAgree(db) && after.events == db.events && after.sqnOf == db.sqnOf && after.idOf == db.idOf
    ensures IdsAgree(after)
  {}

  lemma SameCounts(db: Db, after: Db)
    requires Counted(db) && after.events == db.events && after.count == db.count && after.bytes == db.bytes
    ensures Counted(after)
  {}

  lemma SettleAgrees(db: Db, q: Queued, at: int)
    requires Agrees(db)
    ensures Agrees(Settle(db, q, at))
  {
    if q.event.id != "" {
      DeliverAgrees(db, q.event.id, at);
      WithoutAgrees(Deliver(db, q.event.id, at), {q.sqn});
    } else {
      WithoutAgrees(db, {q.sqn});
    }
  }

  lemma RejectAgrees(db: Db, q: Queued)
    requires Agrees(db) && q.event.id != ""
    ensures Agrees(Reject(db, q))
  {
    WithoutAgrees(db.(quarantine := db.quarantine[q.event.id := q.event]), {q.sqn});
  }

  lemma {:induction false} AcknowledgeAgrees(db: Db, batch: seq<Queued>, ats: seq<int>)
    requires Agrees(db) && |batch| == |ats|
    ensures Agrees(Acknowledge(db, batch, ats))
  {
    if batch != [] {
      var n := |batch| - 1;
      AcknowledgeAgrees(db, batch[..n], ats[..n]);
      SettleAgrees(Acknowledge(db, batch[..n], ats[..n]), batch[n], ats[n]);
    }
  }

  lemma {:induction false} QuarantineAgrees(db: Db, batch: seq<Queued>, rejected: set<string>)
    requires Agrees(db) && "" !in rejected
    ensures Agrees(Quarantine(db, batch, rejected))
  {
    if batch != [] {
      var n := |batch| - 1;
      QuarantineAgrees(db, batch[..n], rejected);
      var before := Quarantine(db, batch[..n], rejected);
      if batch[n].event.id in rejected {
        RejectAgrees(before, batch[n]);
      }
    }
  }

  lemma ApplyAgrees(cfg: Config, db: Db, tx: Tx)
    requires Agrees(db) && tx.WellFormed()
    ensures Agrees(Apply(cfg, db, tx))
  {
    match tx
    case TxAppend(t0, t1, es, nows) =>
      PruneAgrees(cfg, db, t0, t1);
      InsertAllAgrees(cfg, Prune(cfg, db, t0, t1), es, nows);
      var filled := InsertAll(cfg, Prune(cfg, db, t0, t1), es, nows);
      WithoutAgrees(filled, Overflow(filled.events, cfg.maxBytes));
    case TxPrune(t0, t1) => PruneAgrees(cfg, db, t0, t1);
    case TxAcknowledge(batch, ats) => AcknowledgeAgrees(db, batch, ats);
    case TxQuarantine(batch, rejected) => QuarantineAgrees(db, batch, rejected);
  }

  /** Index agreement in every state reachable from an empty database, under any interleaving. */
  lemma {:induction false} RunAgrees(cfg: Config, txs: seq<Tx>)
    requires WellFormed(txs)
    ensures Agrees(Run(cfg, txs))
  {
    if txs == [] {
      assert TotalCharge(EMPTY.events) == 0;
    } else {
      RunAgrees(cfg, txs[..|txs| - 1]);
      ApplyAgrees(cfg, Run(cfg, txs[..|txs| - 1]), txs[|txs| - 1]);
    }
  }

  // ---------------------------------------------------------------- capacity

  lemma {:induction false} TotalChargeMonotone(part: map<nat, Event>, whole: map<nat, Event>)
    requires part.Keys <= whole.Keys && forall s :: s in part ==> part[s] == whole[s]
    ensures TotalCharge(part) <= TotalCharge(whole)
    decreases |whole|
  {
    if part.Keys == whole.Keys {
      assert part == whole;
    } else {
      var s :| s in whole && s !in part;
      TotalChargeSplit(whole, s);
      TotalChargeMonotone(part, whole - {s});
    }
  }

  /** Every event at `dead` comes before every other one in time order. */
  ghost predicate DropsOldest(events: map<nat, Event>, dead: set<nat>) {
    && dead <= events.Keys
    && forall d, s :: d in dead && s in events && s !in dead ==> KeyLess(KeyOf(events, d), KeyOf(events, s))
  }

  lemma OldestAhead(events: map<nat, Event>, o: nat, dead: set<nat>)
    requires IsOldest(events, o) && DropsOldest(events - {o}, dead)
    ensures DropsOldest(events, {o} + dead)
  {
    var rest := events - {o};
    forall d, s | d in {o} + dead && s in events && s !in {o} + dead
      ensures KeyLess(KeyOf(events, d), KeyOf(events, s))
    {
      assert d != o ==> KeyLess(KeyOf(rest, d), KeyOf(rest, s));
    }
  }

  lemma {:induction false} OverflowDropsOldest(events: map<nat, Event>, maxBytes: nat)
    ensures DropsOldest(events, Overflow(events, maxBytes))
    ensures TotalCharge(events - Overflow(events, maxBytes)) <= maxBytes
    decreases |events|
  {
    var dead := Overflow(events, maxBytes);
    if events == map[] || TotalCharge(events) <= maxBytes {
      assert events - dead == events;
    } else {
      var o := Oldest(events);
      var rest := events - {o};
      OverflowDropsOldest(rest, maxBytes);
      assert events - dead == rest - Overflow(rest, maxBytes);
      OldestAhead(events, o, Overflow(rest, maxBytes));
    }
  }

  /** A set of oldest events that stops short of the overflow leaves too much behind. */
  lemma {:induction false} OverflowIsLeast(events: map<nat, Event>, maxBytes: nat, fewer: set<nat>)
    requires DropsOldest(events, fewer) && fewer < Overflow(events, maxBytes)
    ensures TotalCharge(events - fewer) > maxBytes
    decreases |events|
  {
    var o := Oldest(events);
    var rest := events - {o};
    if fewer == {} {
      assert events - fewer == events;
    } else {
      var d :| d in fewer;
      assert o in fewer || KeyLess(KeyOf(events, d), KeyOf(events, o));
      var fewer' := fewer - {o};
      forall x, s | x in fewer' && s in rest && s !in fewer'
        ensures KeyLess(KeyOf(rest, x), KeyOf(rest, s))
      {
        assert KeyLess(KeyOf(events, x), KeyOf(events, s));
      }
      assert events - fewer == rest - fewer';
      assert o !in Overflow(rest, maxBytes) by { OverflowDropsOldest(rest, maxBytes); }
      OverflowIsLeast(rest, maxBytes, fewer');
    }
  }

  /** Eviction keeps a suffix of the events in time order, one that fits, and the longest such: any
      suffix that keeps an evicted event is over the budget. */
  lemma EvictionKeepsLongestSuffix(cfg: Config, db: Db)
    ensures var dead := db.events.Keys - Evict(cfg, db).events.Keys;
      && DropsOldest(db.events, dead)
      && Evict(cfg, db).bytes == TotalCharge(db.events - dead) <= cfg.maxBytes
      && forall fewer: set<nat> :: DropsOldest(db.events, fewer) && fewer < dead ==>
           TotalCharge(db.events - fewer) > cfg.maxBytes
  {
    OverflowDropsOldest(db.events, cfg.maxBytes);
    var dead := Overflow(db.events, cfg.maxBytes);
    assert db.events.Keys - Evict(cfg, db).events.Keys == dead;
    forall fewer: set<nat> | DropsOldest(db.events, fewer) && fewer < dead
      ensures TotalCharge(db.events - fewer) > cfg.maxBytes
    {
      OverflowIsLeast(db.events, cfg.maxBytes, fewer);
    }
  }

  ghost predicate WithinBudget(cfg: Config, db: Db) {
    db.bytes <= cfg.maxBytes
  }

  lemma {:induction false} AcknowledgeShrinks(db: Db, batch: seq<Queued>, ats: seq<int>)
    requires |batch| == |ats|
    ensures Acknowledge(db, batch, ats).events.Keys <= db.events.Keys
    ensures forall s :: s in Acknowledge(db, batch, ats).events ==>
      Acknowledge(db, batch, ats).events[s] == db.events[s]
  {
    if batch != [] {
      AcknowledgeShrinks(db, batch[..|batch| - 1], ats[..|batch| - 1]);
    }
  }

  lemma {:induction false} QuarantineShrinks(db: Db, batch: seq<Queued>, rejected: set<string>)
    ensures Quarantine(db, batch, rejected).events.Keys <= db.events.Keys
    ensures forall s :: s in Quarantine(db, batch, rejected).events ==>
      Quarantine(db, batch, rejected).events[s] == db.events[s]
  {
    if batch != [] {
      QuarantineShrinks(db, batch[..|batch| - 1], rejected);
    }
  }

  /** In every reachable state the queue is within its byte budget. */
  lemma {:induction false} RunWithinBudget(cfg: Config, txs: seq<Tx>)
    requires WellFormed(txs)
    ensures WithinBudget(cfg, Run(cfg, txs))
  {
    if txs != [] {
      var before := Run(cfg, txs[..|txs| - 1]);
      RunWithinBudget(cfg, txs[..|txs| - 1]);
      RunAgrees(cfg, txs[..|txs| - 1]);
      RunAgrees(cfg, txs);
      var after := Run(cfg, txs);
      match txs[|txs| - 1]
      case TxAppend(t0, t1, es, nows) =>
        EvictionKeepsLongestSuffix(cfg, InsertAll(cfg, Prune(cfg, before, t0, t1), es, nows));
      case TxPrune(_, _) => TotalChargeMonotone(after.events, before.events);
      case TxAcknowledge(batch, ats) =>
        AcknowledgeShrinks(before, batch, ats);
        TotalChargeMonotone(after.events, before.events);
      case TxQuarantine(batch, rejected) =>
        QuarantineShrinks(before, batch, rejected);
        TotalChargeMonotone(after.events, before.events);
    }
  }

  // ---------------------------------------------------------------- bytes are text

  /** In every reachable state the byte counter is the length of the queue's text, and within the limit. */
  lemma RunBytesAreText(cfg: Config, txs: seq<Tx>)
    requires WellFormed(txs)
    ensures Run(cfg, txs).bytes == |JsonLines(Run(cfg, txs).events)| <= cfg.maxBytes
  {
    hide Run, TotalCharge, JsonLines;
    RunAgrees(cfg, txs);
    RunWithinBudget(cfg, txs);
    LinesLength(Run(cfg, txs).events);
  }

  /** Eviction keeps the longest run of newest events whose text fits. */
  lemma EvictionKeepsLongestText(cfg: Config, db: Db)
    ensures var after := Evict(cfg, db); var dead := db.events.Keys - after.events.Keys;
      && after.events == db.events - dead && DropsOldest(db.events, dead)
      && after.bytes == |JsonLines(after.events)| <= cfg.maxBytes
      && forall fewer: set<nat> :: DropsOldest(db.events, fewer) && fewer < dead ==>
           |JsonLines(db.events - fewer)| > cfg.maxBytes
  {
    hide TotalCharge, JsonLines, DropsOldest, Overflow;
    EvictionKeepsLongestSuffix(cfg, db);
    var after := Evict(cfg, db);
    OverflowDropsOldest(db.events, cfg.maxBytes);
    OverflowIsQueued(db.events, cfg.maxBytes);
    var dead := db.events.Keys - after.events.Keys;
    assert dead == Overflow(db.events, cfg.maxBytes);
    LinesLength(after.events);
    forall fewer: set<nat> | DropsOldest(db.events, fewer) && fewer < dead
      ensures |JsonLines(db.events - fewer)| > cfg.maxBytes
    {
      LinesLength(db.events - fewer);
    }
  }

  lemma OverflowIsQueued(events: map<nat, Event>, maxBytes: nat)
    ensures Overflow(events, maxBytes) <= events.Keys
  {
    hide Overflow, TotalCharge;
    OverflowDropsOldest(events, maxBytes);
  }
}
