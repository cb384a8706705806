/** The event queue's database as a value: its buckets, the transactions over them and what each one
    does to the whole database, stated bucket by bucket and without the loops that carry it out. */
module QueueModel {
  import opened Options
  import opened Time

  /** An event envelope: `encoded` is its JSON text, which the queue stores and charges for.
      Times are integer nanoseconds. */
  datatype Event = Event(id: string, kind: string, createdAt: int, encoded: string)

  const DRAIN_BATCH_SIZE: nat := 500

  datatype TimeKey = TimeKey(at: int, sqn: nat)
  datatype DeliveredKey = DeliveredKey(at: int, id: string)
  datatype Queued = Queued(sqn: nat, event: Event)

  datatype Config = Config(maxAge: nat, maxBytes: nat) {
    function Cutoff(now: int): int { now - maxAge }
  }

  /** The buckets "events", "event_times", "events_by_id", "events_by_sequence", "delivered_by_id",
      "delivered_by_time", "quarantine" and the counters of "meta". */
  datatype Db = Db(
    events: map<nat, Event>,
    times: set<TimeKey>,
    sqnOf: map<string, nat>,
    idOf: map<nat, string>,
    delivered: map<string, DeliveredKey>,
    deliveredTimes: set<DeliveredKey>,
    quarantine: map<string, Event>,
    count: int,
    bytes: int,
    nextSeq: nat)

  const EMPTY: Db := Db(map[], {}, map[], map[], map[], {}, map[], 0, 0, 0)

  const COMPACTABLE_KINDS: set<string> := {
    "adapter.warning", "agent.discovery", "claude_code.config_snapshot",
    "claude_code.usage_summary", "codex.usage_summary", "daemon.system_snapshot"}

  predicate Compactable(e: Event) {
    e.kind in COMPACTABLE_KINDS && e.id != ""
  }

  function Charge(e: Event): nat { |e.encoded| + 1 }

  // ---------------------------------------------------------------- sums over the events bucket

  ghost function TotalCharge(events: map<nat, Event>): nat {
    if events == map[] then 0 else
      var s :| s in events;
      Charge(events[s]) + TotalCharge(events - {s})
  }

  lemma {:induction false} TotalChargeSplit(events: map<nat, Event>, s: nat)
    requires s in events
    ensures TotalCharge(events) == Charge(events[s]) + TotalCharge(events - {s})
    decreases |events|
  {
    var p :| p in events && TotalCharge(events) == Charge(events[p]) + TotalCharge(events - {p});
    if p != s {
      TotalChargeSplit(events - {p}, s);
      TotalChargeSplit(events - {s}, p);
      assert (events - {p}) - {s} == (events - {s}) - {p};
    }
  }

  lemma TotalChargeInsert(events: map<nat, Event>, s: nat, e: Event)
    requires s !in events
    ensures TotalCharge(events[s := e]) == |e.encoded| + 1 + TotalCharge(events)
  {
    TotalChargeSplit(events[s := e], s);
    assert events[s := e] - {s} == events;
  }

  // ---------------------------------------------------------------- the text of the queue

  ghost predicate IsLast(events: map<nat, Event>, s: nat) {
    s in events && forall r :: r in events ==> r <= s
  }

  lemma {:induction false} LastExists(events: map<nat, Event>)
    requires events != map[]
    ensures exists s :: IsLast(events, s)
    decreases |events|
  {
    var p :| p in events;
    var rest := events - {p};
    assert forall r :: r in events && r != p ==> r in rest;
    if rest == map[] {
      assert IsLast(events, p);
    } else {
      LastExists(rest);
      var s :| IsLast(rest, s);
      assert IsLast(events, if p > s then p else s);
    }
  }

  /** The queue as a file: the JSON text of every event in sequence order, a line break after each. */
  ghost function JsonLines(events: map<nat, Event>): string
    decreases |events|
  {
    if events == map[] then "" else
      LastExists(events);
      var s :| IsLast(events, s);
      JsonLines(events - {s}) + events[s].encoded + "\n"
  }

  /** The sum that is charged is the length of that text. */
  lemma {:induction false} LinesLength(events: map<nat, Event>)
    ensures |JsonLines(events)| == TotalCharge(events)
    decreases |events|
  {
    hide TotalCharge;
    if events == map[] {
      NoCharge();
    } else {
      LastExists(events);
      var s :| IsLast(events, s) && JsonLines(events) == JsonLines(events - {s}) + events[s].encoded + "\n";
      LinesLength(events - {s});
      TotalChargeSplit(events, s);
    }
  }

  lemma NoCharge()
    ensures TotalCharge(map[]) == 0
  {}

  // ---------------------------------------------------------------- order of the two cursors

  predicate KeyLess(a: TimeKey, b: TimeKey) {
    a.at < b.at || (a.at == b.at && a.sqn < b.sqn)
  }

  function KeyOf(events: map<nat, Event>, s: nat): TimeKey
    requires s in events
  {
    TimeKey(events[s].createdAt, s)
  }

  /** `s` holds the first event in time order: creation time, then sequence. */
  ghost predicate IsOldest(events: map<nat, Event>, s: nat) {
    s in events &&
    forall r :: r in events && r != s ==> KeyLess(KeyOf(events, s), KeyOf(events, r))
  }

  lemma {:induction false} OldestExists(events: map<nat, Event>)
    requires events != map[]
    ensures exists s :: IsOldest(events, s)
    decreases |events|
  {
    var p :| p in events;
    var rest := events - {p};
    assert forall r :: r in events && r != p ==> r in rest && KeyOf(rest, r) == KeyOf(events, r);
    if rest == map[] {
      assert IsOldest(events, p);
    } else {
      OldestExists(rest);
      var s :| IsOldest(rest, s);
      if KeyLess(KeyOf(events, p), KeyOf(events, s)) {
        assert IsOldest(events, p);
      } else {
        assert IsOldest(events, s);
      }
    }
  }

  ghost function Oldest(events: map<nat, Event>): (s: nat)
    requires events != map[]
    ensures IsOldest(events, s)
  {
    OldestExists(events);
    var s :| IsOldest(events, s);
    s
  }

  lemma OldestUnique(events: map<nat, Event>, s: nat)
    requires IsOldest(events, s)
    ensures events != map[] && Oldest(events) == s
  {
    var t := Oldest(events);
    assert t == s || KeyLess(KeyOf(events, s), KeyOf(events, t));
  }

  // ---------------------------------------------------------------- what a transaction does

  ghost function TimesWithout(times: set<TimeKey>, dead: set<nat>): set<TimeKey> {
    set k | k in times && k.sqn !in dead
  }

  ghost function IdsWithout(sqnOf: map<string, nat>, dead: set<nat>): map<string, nat> {
    map id | id in sqnOf && sqnOf[id] !in dead :: sqnOf[id]
  }

  /** The database without the queued events at `dead`, everything else as it was. */
  ghost function Without(db: Db, dead: set<nat>): Db {
    var kept := db.events - dead;
    db.(events := kept,
        times := TimesWithout(db.times, dead),
        sqnOf := IdsWithout(db.sqnOf, dead),
        idOf := db.idOf - dead,
        count := |kept|,
        bytes := TotalCharge(kept))
  }

  /** Delivered ids recorded before `cutoff` are forgotten. */
  ghost function Forget(db: Db, cutoff: int): Db {
    db.(delivered := map id | id in db.delivered && db.delivered[id].at >= cutoff :: db.delivered[id],
        deliveredTimes := set k | k in db.deliveredTimes && k.at >= cutoff)
  }

  ghost function Expired(events: map<nat, Event>, cutoff: int): set<nat> {
    set s | s in events && events[s].createdAt < cutoff
  }

  /** `pruneExpired`: it reads the clock once for delivered ids and again for events. */
  ghost function Prune(cfg: Config, db: Db, t0: int, t1: int): Db {
    var forgotten := Forget(db, cfg.Cutoff(t0));
    Without(forgotten, Expired(db.events, cfg.Cutoff(t1)))
  }

  /** Add `e` under a fresh sequence and index it. */
  ghost function Enter(db: Db, e: Event): Db {
    var s := db.nextSeq + 1;
    db.(events := db.events[s := e],
        times := db.times + {TimeKey(e.createdAt, s)},
        sqnOf := if e.id == "" then db.sqnOf else db.sqnOf[e.id := s],
        idOf := if e.id == "" then db.idOf else db.idOf[s := e.id],
        count := db.count + 1,
        bytes := db.bytes + Charge(e),
        nextSeq := s)
  }

  /** The ids an append must not queue again. */
  predicate Settled(db: Db, id: string) {
    id != "" && (id in db.quarantine || id in db.delivered)
  }

  predicate Duplicate(db: Db, e: Event) {
    Settled(db, e.id) || (e.id != "" && e.id in db.sqnOf && !Compactable(e))
  }

  predicate Replaces(db: Db, e: Event) {
    !Settled(db, e.id) && e.id != "" && e.id in db.sqnOf && Compactable(e)
  }

  ghost function Insert(db: Db, e: Event): Db {
    if Duplicate(db, e) then db
    else if Replaces(db, e) then Enter(Without(db, {db.sqnOf[e.id]}), e)
    else Enter(db, e)
  }

  /** An event with no creation time, or one already past retention, is never queued. */
  predicate TooOld(cfg: Config, e: Event, now: int) {
    e.createdAt == ZERO_TIME || e.createdAt < cfg.Cutoff(now)
  }

  /** `AppendWithStats` over its events in order, `nows[i]` being the clock when event i is looked at. */
  ghost function InsertAll(cfg: Config, db: Db, es: seq<Event>, nows: seq<int>): Db
    requires |es| == |nows|
  {
    if es == [] then db else
      var before := InsertAll(cfg, db, es[..|es| - 1], nows[..|es| - 1]);
      if TooOld(cfg, es[|es| - 1], nows[|es| - 1]) then before else Insert(before, es[|es| - 1])
  }

  /** The sequences eviction drops: oldest first, until the rest fits. */
  ghost function Overflow(events: map<nat, Event>, maxBytes: nat): set<nat>
    decreases |events|
  {
    if events == map[] || TotalCharge(events) <= maxBytes then {}
    else {Oldest(events)} + Overflow(events - {Oldest(events)}, maxBytes)
  }

  ghost function Evict(cfg: Config, db: Db): Db {
    Without(db, Overflow(db.events, cfg.maxBytes))
  }

  ghost function Append(cfg: Config, db: Db, t0: int, t1: int, es: seq<Event>, nows: seq<int>): Db
    requires |es| == |nows|
  {
    Evict(cfg, InsertAll(cfg, Prune(cfg, db, t0, t1), es, nows))
  }

  ghost function Deliver(db: Db, id: string, at: int): Db {
    var key := DeliveredKey(at, id);
    db.(delivered := db.delivered[id := key],
        deliveredTimes := (set k | k in db.deliveredTimes && k.id != id) + {key})
  }

  ghost function Settle(db: Db, q: Queued, at: int): Db {
    Without(if q.event.id == "" then db else Deliver(db, q.event.id, at), {q.sqn})
  }

  ghost function Acknowledge(db: Db, batch: seq<Queued>, ats: seq<int>): Db
    requires |batch| == |ats|
  {
    if batch == [] then db else
      var n := |batch| - 1;
      Settle(Acknowledge(db, batch[..n], ats[..n]), batch[n], ats[n])
  }

  ghost function Reject(db: Db, q: Queued): Db {
    Without(db.(quarantine := db.quarantine[q.event.id := q.event]), {q.sqn})
  }

  /** Move every event of the batch whose id is in `rejected` to the quarantine bucket. */
  ghost function Quarantine(db: Db, batch: seq<Queued>, rejected: set<string>): Db {
    if batch == [] then db else
      var n := |batch| - 1;
      var before := Quarantine(db, batch[..n], rejected);
      if batch[n].event.id in rejected then Reject(before, batch[n]) else before
  }

  // ---------------------------------------------------------------- reading a batch

  /** The first `limit` events, in sequence order, not above the watermark. */
  ghost predicate IsBatch(events: map<nat, Event>, watermark: nat, limit: nat, batch: seq<Queued>) {
    && |batch| <= limit
    && (forall i :: 0 <= i < |batch| ==>
          batch[i].sqn in events && batch[i].event == events[batch[i].sqn] && batch[i].sqn <= watermark)
    && (forall i, j :: 0 <= i < j < |batch| ==> batch[i].sqn < batch[j].sqn)
    && (forall s :: s in events && s <= watermark ==>
          InBatch(batch, s) || (|batch| == limit && forall i :: 0 <= i < |batch| ==> batch[i].sqn < s))
  }

  ghost predicate InBatch(batch: seq<Queued>, s: nat) {
    exists i :: 0 <= i < |batch| && batch[i].sqn == s
  }

  // ---------------------------------------------------------------- runs

  /** One committed transaction, with the clock readings it made. An acknowledgement or a quarantine
      carries whatever batch was read earlier: other transactions may have come between. */
  datatype Tx =
    | TxAppend(t0: int, t1: int, es: seq<Event>, nows: seq<int>)
    | TxPrune(t0: int, t1: int)
    | TxAcknowledge(batch: seq<Queued>, ats: seq<int>)
    | TxQuarantine(batch: seq<Queued>, rejected: set<string>)
  {
    predicate WellFormed() {
      match this
      case TxAppend(_, _, es, nows) => |es| == |nows|
      case TxPrune(_, _) => true
      case TxAcknowledge(batch, ats) => |batch| == |ats|
      case TxQuarantine(_, rejected) => "" !in rejected
    }
  }

  ghost function Apply(cfg: Config, db: Db, tx: Tx): Db
    requires tx.WellFormed()
  {
    match tx
    case TxAppend(t0, t1, es, nows) => Append(cfg, db, t0, t1, es, nows)
    case TxPrune(t0, t1) => Prune(cfg, db, t0, t1)
    case TxAcknowledge(batch, ats) => Acknowledge(db, batch, ats)
    case TxQuarantine(batch, rejected) => Quarantine(db, batch, rejected)
  }

  ghost predicate WellFormed(txs: seq<Tx>) {
    forall i :: 0 <= i < |txs| ==> txs[i].WellFormed()
  }

  ghost function Run(cfg: Config, txs: seq<Tx>): Db
    requires WellFormed(txs)
  {
    if txs == [] then EMPTY else Apply(cfg, Run(cfg, txs[..|txs| - 1]), txs[|txs| - 1])
  }
}
