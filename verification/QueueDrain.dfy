/** Draining the queue: read a batch, send it, settle it, until nothing at or below the watermark is
    left. Appends by other processes may land between any two of the drain's transactions. */
module QueueDrain {
  import opened Options
  import opened QueueInvariants
  import opened QueueModel
  import opened QueueRuns
  import opened QueueStore
  import Text

  /** What the server said: it took the batch, it failed, or it permanently rejected some named events. */
  datatype Outcome = Accepted | Failed | Rejected(ids: seq<string>)

  datatype DrainResult = Drained | DrainedWithQuarantine(ids: seq<string>) | SendFailed | QuarantineFailed

  datatype AppendCall = AppendCall(t0: int, t1: int, es: seq<Event>, nows: seq<int>) {
    predicate WellFormed() { |es| == |nows| }
  }

  /** The world around a drain: the answer to the n-th send, the n-th clock reading, and the appends that
      land in the n-th gap between two of its transactions. */
  datatype World = World(send: (nat, seq<Event>) -> Outcome, clock: nat -> int, appends: nat -> seq<AppendCall>) {
    ghost predicate WellFormed() {
      forall g: nat, i: nat :: i < |appends(g)| ==> appends(g)[i].WellFormed()
    }
  }

  /** Below the mark, `after` holds only events of `before`. */
  ghost predicate Shrunk(before: map<nat, Event>, after: map<nat, Event>, mark: nat) {
    forall s :: s in after && s <= mark ==> s in before && after[s] == before[s]
  }

  ghost function AtMost(events: map<nat, Event>, mark: nat): set<nat> {
    set s | s in events && s <= mark
  }

  // ---------------------------------------------------------------- frames of the transactions

  lemma InsertShrinks(db: Db, e: Event)
    requires Allocated(db)
    ensures Shrunk(db.events, Insert(db, e).events, db.nextSeq)
    ensures db.nextSeq <= Insert(db, e).nextSeq && Allocated(Insert(db, e))
  {
    if Replaces(db, e) {
      var bare := Without(db, {db.sqnOf[e.id]});
      assert Allocated(bare) && Shrunk(db.events, bare.events, db.nextSeq);
      EnterShrinks(bare, e);
    } else if !Duplicate(db, e) {
      EnterShrinks(db, e);
    }
  }

  lemma EnterShrinks(db: Db, e: Event)
    requires Allocated(db)
    ensures Shrunk(db.events, Enter(db, e).events, db.nextSeq) && Allocated(Enter(db, e))
  {}

  lemma {:induction false} InsertAllShrinks(cfg: Config, db: Db, es: seq<Event>, nows: seq<int>)
    requires Allocated(db) && |es| == |nows|
    ensures Shrunk(db.events, InsertAll(cfg, db, es, nows).events, db.nextSeq)
    ensures db.nextSeq <= InsertAll(cfg, db, es, nows).nextSeq && Allocated(InsertAll(cfg, db, es, nows))
  {
    if es != [] {
      var n := |es| - 1;
      InsertAllShrinks(cfg, db, es[..n], nows[..n]);
      InsertShrinks(InsertAll(cfg, db, es[..n], nows[..n]), es[n]);
    }
  }

  lemma AppendShrinks(cfg: Config, db: Db, call: AppendCall)
    requires Agrees(db) && call.WellFormed()
    ensures var after := Append(cfg, db, call.t0, call.t1, call.es, call.nows);
      Shrunk(db.events, after.events, db.nextSeq) && db.nextSeq <= after.nextSeq && after.quarantine == db.quarantine
  {
    var pruned := Prune(cfg, db, call.t0, call.t1);
    InsertAllShrinks(cfg, pruned, call.es, call.nows);
    AppendKeepsQuarantine(cfg, pruned, call.es, call.nows);
  }

  lemma ShrunkSelf(events: map<nat, Event>, mark: nat)
    ensures Shrunk(events, events, mark)
  {}

  lemma ShrunkTwice(a: map<nat, Event>, b: map<nat, Event>, c: map<nat, Event>, low: nat, high: nat)
    requires Shrunk(a, b, low) && Shrunk(b, c, high) && low <= high
    ensures Shrunk(a, c, low)
  {}

  lemma {:induction false} AppendKeepsQuarantine(cfg: Config, db: Db, es: seq<Event>, nows: seq<int>)
    requires |es| == |nows|
    ensures InsertAll(cfg, db, es, nows).quarantine == db.quarantine
  {
    if es != [] {
      AppendKeepsQuarantine(cfg, db, es[..|es| - 1], nows[..|es| - 1]);
    }
  }

  /** What a read leaves: expired events go, nothing else. */
  lemma PruneLeaves(cfg: Config, db: Db, t0: int, t1: int)
    ensures var after := Prune(cfg, db, t0, t1);
      && (forall s :: s in after.events ==> s in db.events && after.events[s] == db.events[s])
      && (forall s :: s in db.events && s !in after.events ==> db.events[s].createdAt < t1 - cfg.maxAge)
      && after.nextSeq == db.nextSeq && after.quarantine == db.quarantine
  {}

  /** Of a batch that can be quarantined at least one entry is named. */
  lemma SomethingIsNamed(batch: seq<Queued>, rejectedIds: seq<string>)
    requires Quarantinable(batch, rejectedIds)
    ensures Named(batch, Trimmed(rejectedIds)) != []
  {
    TrimmedMembers(rejectedIds);
    NamedEntries(batch, Trimmed(rejectedIds));
    BatchIdsAre(batch);
    var id := Text.Trim(rejectedIds[0]);
    var i :| 0 <= i < |batch| && batch[i].event.id == id;
    assert batch[i] in batch;
  }

  lemma {:induction false} BatchIdsAre(batch: seq<Queued>)
    ensures forall id :: id in BatchIds(batch) ==> HasId(batch, id)
  {
    if batch != [] {
      var n := |batch| - 1;
      BatchIdsAre(batch[..n]);
      forall id | id in BatchIds(batch) ensures HasId(batch, id) {
        if id != batch[n].event.id {
          assert HasId(batch[..n], id);
          var i :| 0 <= i < n && batch[..n][i].event.id == id;
          assert batch[i].event.id == id;
        }
      }
    }
  }

  lemma SettledShrinks(db: Db, dead: set<nat>, after: Db, mark: nat)
    requires Leaves(db, dead, after)
    ensures Shrunk(db.events, after.events, mark)
  {}

  lemma ShrunkBelow(before: map<nat, Event>, after: map<nat, Event>, low: nat, high: nat)
    requires Shrunk(before, after, high) && low <= high
    ensures Shrunk(before, after, low)
  {}

  // ---------------------------------------------------------------- the trace of a drain

  /** What happens during a drain, in order: its own transactions, appends by other processes, and sends with
      the server's answer. */
  datatype Step =
    | Own(tx: Tx)
    | Foreign(call: AppendCall)
    | Sent(batch: seq<Queued>, outcome: Outcome)

  ghost function Effect(cfg: Config, db: Db, step: Step): Db {
    match step
    case Own(tx) => if tx.WellFormed() then Apply(cfg, db, tx) else db
    case Foreign(call) => if call.WellFormed() then Append(cfg, db, call.t0, call.t1, call.es, call.nows) else db
    case Sent(_, _) => db
  }

  ghost function Replay(cfg: Config, db: Db, steps: seq<Step>): Db {
    if steps == [] then db else Effect(cfg, Replay(cfg, db, steps[..|steps| - 1]), steps[|steps| - 1])
  }

  /** The send whose batch is not settled yet. */
  ghost function Pending(steps: seq<Step>): Option<Step> {
    if steps == [] then None else
      match steps[|steps| - 1]
      case Own(_) => None
      case Foreign(_) => Pending(steps[..|steps| - 1])
      case Sent(_, _) => Some(steps[|steps| - 1])
  }

  /** How many sends, and how many clock readings, the drain has made. */
  ghost function Sends(steps: seq<Step>): nat {
    if steps == [] then 0 else Sends(steps[..|steps| - 1]) + if steps[|steps| - 1].Sent? then 1 else 0
  }

  ghost function Ticks(steps: seq<Step>): nat {
    if steps == [] then 0 else
      Ticks(steps[..|steps| - 1]) + if steps[|steps| - 1].Own? then |Readings(steps[|steps| - 1].tx)| else 0
  }

  /** The gap between two transactions of the drain in which it stands: before a read, or after a send. */
  ghost function Gap(steps: seq<Step>): nat {
    if Pending(steps).Some? && Sends(steps) > 0 then 2 * Sends(steps) - 1 else 2 * Sends(steps)
  }

  /** How many appends have landed since the drain's last own step. */
  ghost function Landed(steps: seq<Step>): nat {
    if steps == [] || !steps[|steps| - 1].Foreign? then 0 else 1 + Landed(steps[..|steps| - 1])
  }

  /** The ids the drain has moved to quarantine, in order. */
  ghost function Quarantined(steps: seq<Step>): seq<string> {
    if steps == [] then [] else
      var before := Quarantined(steps[..|steps| - 1]);
      match steps[|steps| - 1]
      case Own(TxQuarantine(batch, rejected)) => before + IdsInOrder(Named(batch, rejected))
      case _ => before
  }

  ghost function EventsOf(batch: seq<Queued>): (es: seq<Event>)
    ensures |es| == |batch| && forall i :: 0 <= i < |batch| ==> es[i] == batch[i].event
  {
    seq(|batch|, i requires 0 <= i < |batch| => batch[i].event)
  }

  /** The database has just been pruned for a read. */
  ghost predicate JustRead(steps: seq<Step>) {
    steps != [] && steps[|steps| - 1].Own? && steps[|steps| - 1].tx.TxPrune?
  }

  /** Appends may land here: not between a read and the send of what it returned. */
  ghost predicate InGap(steps: seq<Step>) {
    steps != [] && (|steps| == 1 || !JustRead(steps))
  }

  /** Every append of this gap has landed. */
  ghost predicate AllLanded(world: World, steps: seq<Step>) {
    InGap(steps) && Landed(steps) == |world.appends(Gap(steps))|
  }

  /** What comes next: the first read; the appends of a gap in order; then a read when nothing is pending, or the
      settlement the server's answer to the pending send asks for; after a read a send of what it returned. */
  ghost predicate MayFollow(world: World, watermark: nat, db: Db, past: seq<Step>, step: Step) {
    match step
    case Own(TxPrune(t0, t1)) =>
      && Pending(past).None? && t0 == world.clock(Ticks(past)) && t1 == world.clock(Ticks(past) + 1)
      && (past == [] || AllLanded(world, past))
    case Own(TxAcknowledge(batch, ats)) =>
      && Pending(past) == Some(Sent(batch, Accepted)) && AllLanded(world, past) && |ats| == |batch|
      && forall i :: 0 <= i < |ats| ==> ats[i] == world.clock(Ticks(past) + i)
    case Own(TxQuarantine(batch, rejected)) =>
      && Pending(past).Some? && Pending(past).value.Sent? && Pending(past).value.batch == batch
      && AllLanded(world, past)
      && var outcome := Pending(past).value.outcome;
         outcome.Rejected? && Quarantinable(batch, outcome.ids) && rejected == Trimmed(outcome.ids)
    case Own(TxAppend(_, _, _, _)) => false
    case Foreign(call) =>
      && InGap(past) && Landed(past) < |world.appends(Gap(past))|
      && call == world.appends(Gap(past))[Landed(past)] && call.WellFormed()
    case Sent(batch, outcome) =>
      && JustRead(past) && |past| > 1 && batch != [] && IsBatch(db.events, watermark, 500, batch)
      && outcome == world.send(Sends(past), EventsOf(batch))
  }

  /** The steps a drain of `db` up to the watermark can make in this world. */
  ghost predicate Legal(cfg: Config, world: World, watermark: nat, db: Db, steps: seq<Step>) {
    steps != [] ==>
      var n := |steps| - 1;
      && Legal(cfg, world, watermark, db, steps[..n])
      && MayFollow(world, watermark, Replay(cfg, db, steps[..n]), steps[..n], steps[n])
  }

  /** The watermark is the last sequence queued after the first read, which begins the drain. */
  ghost predicate Opens(cfg: Config, db: Db, watermark: nat, steps: seq<Step>) {
    && steps != [] && JustRead(steps[..1])
    && IsLast(Replay(cfg, db, steps[..1]).events, watermark)
  }

  /** The first read finds the queue empty, and the drain is over. */
  ghost predicate FindsNothing(cfg: Config, db: Db, watermark: nat, steps: seq<Step>) {
    |steps| == 1 && JustRead(steps) && Replay(cfg, db, steps).events == map[] && watermark == 0
  }

  /** A send after which the drain cannot go on: a failure, a rejection that names nothing, or one whose ids
      cannot be quarantined. */
  ghost predicate Fails(step: Step) {
    step.Sent? && (step.outcome.Failed? || step.outcome == Rejected([]))
  }

  ghost predicate CannotQuarantine(step: Step) {
    step.Sent? && step.outcome.Rejected? && step.outcome.ids != [] && !Quarantinable(step.batch, step.outcome.ids)
  }

  /** The result of a drain that ends after these steps, if it can end there. */
  ghost predicate EndsWith(steps: seq<Step>, result: DrainResult) {
    match Pending(steps)
    case None =>
      JustRead(steps) &&
      result == if Quarantined(steps) == [] then Drained else DrainedWithQuarantine(Quarantined(steps))
    case Some(send) =>
      (Fails(send) && result == SendFailed) || (CannotQuarantine(send) && result == QuarantineFailed)
  }

  lemma StepAdds(cfg: Config, world: World, watermark: nat, db: Db, past: seq<Step>, step: Step)
    ensures var steps := past + [step];
      && Replay(cfg, db, steps) == Effect(cfg, Replay(cfg, db, past), step)
      && (Legal(cfg, world, watermark, db, steps) <==>
            Legal(cfg, world, watermark, db, past) && MayFollow(world, watermark, Replay(cfg, db, past), past, step))
  {
    hide Effect, MayFollow;
    assert (past + [step])[..|past|] == past;
  }

  lemma StepCounts(past: seq<Step>, step: Step)
    ensures var steps := past + [step];
      && Pending(steps) ==
           (match step case Own(_) => None case Foreign(_) => Pending(past) case Sent(_, _) => Some(step))
      && Sends(steps) == Sends(past) + (if step.Sent? then 1 else 0)
      && Ticks(steps) == Ticks(past) + (if step.Own? then |Readings(step.tx)| else 0)
      && Quarantined(steps) == Quarantined(past) +
           (match step case Own(TxQuarantine(batch, rejected)) => IdsInOrder(Named(batch, rejected)) case _ => [])
      && Landed(steps) == (if step.Foreign? then Landed(past) + 1 else 0)
      && (JustRead(steps) <==> step.Own? && step.tx.TxPrune?)
  {
    hide Readings, IdsInOrder, Named;
    assert (past + [step])[..|past|] == past;
  }

  // ---------------------------------------------------------------- what every step keeps

  /** The queue during a drain that began with `start`: nothing new at or below `mark`, and nothing between
      the watermark and `mark`. */
  ghost predicate Draining(start: map<nat, Event>, mark: nat, watermark: nat, db: Db) {
    && Shrunk(start, db.events, mark)
    && watermark <= mark <= db.nextSeq
    && (forall s :: s in db.events ==> s <= watermark || s > mark)
  }

  lemma DrainingOn(start: map<nat, Event>, mark: nat, watermark: nat, db: Db, after: Db)
    requires Draining(start, mark, watermark, db) && Shrunk(db.events, after.events, mark) &&
      db.nextSeq <= after.nextSeq
    ensures Draining(start, mark, watermark, after)
    ensures AtMost(after.events, watermark) <= AtMost(db.events, watermark)
  {}

  /** Every step keeps the indexes in agreement and brings nothing new at or below an earlier sequence. */
  lemma EffectShrinks(cfg: Config, db: Db, step: Step, mark: nat)
    requires Agrees(db) && mark <= db.nextSeq
    requires step.Own? ==> !step.tx.TxAppend?
    ensures var after := Effect(cfg, db, step);
      Agrees(after) && Shrunk(db.events, after.events, mark) && db.nextSeq <= after.nextSeq
  {
    hide Agrees, Shrunk, Append, Prune, Acknowledge, Quarantine;
    ShrunkSelf(db.events, mark);
    match step
    case Own(tx) =>
      if tx.WellFormed() {
        ApplyAgrees(cfg, db, tx);
        OwnShrinks(cfg, db, tx, mark);
      }
    case Foreign(call) =>
      if call.WellFormed() {
        ApplyAgrees(cfg, db, TxAppend(call.t0, call.t1, call.es, call.nows));
        AppendShrinks(cfg, db, call);
        ShrunkBelow(db.events, Append(cfg, db, call.t0, call.t1, call.es, call.nows).events, mark, db.nextSeq);
      }
    case Sent(_, _) =>
  }

  lemma OwnShrinks(cfg: Config, db: Db, tx: Tx, mark: nat)
    requires tx.WellFormed() && !tx.TxAppend?
    ensures Shrunk(db.events, Apply(cfg, db, tx).events, mark) && Apply(cfg, db, tx).nextSeq == db.nextSeq
  {
    hide Prune, Acknowledge, Quarantine, Shrunk, Sequences;
    match tx
    case TxPrune(t0, t1) =>
      PruneLeaves(cfg, db, t0, t1);
      ShrunkPart(db.events, Prune(cfg, db, t0, t1).events, mark);
    case TxAcknowledge(batch, ats) =>
      AcknowledgeEffect(db, batch, ats);
      SettledShrinks(db, Sequences(batch), Acknowledge(db, batch, ats), mark);
    case TxQuarantine(batch, rejected) =>
      QuarantineEffect(db, batch, rejected);
      SettledShrinks(db, Sequences(Named(batch, rejected)), Quarantine(db, batch, rejected), mark);
  }

  lemma ShrunkPart(before: map<nat, Event>, after: map<nat, Event>, mark: nat)
    requires forall s :: s in after ==> s in before && after[s] == before[s]
    ensures Shrunk(before, after, mark)
  {}

  // ---------------------------------------------------------------- the drain

  lemma DrainsOn(
    cfg: Config, start: map<nat, Event>, mark: nat, watermark: nat, db: Db, step: Step)
    requires Agrees(db) && Draining(start, mark, watermark, db) && (step.Own? ==> !step.tx.TxAppend?)
    ensures var after := Effect(cfg, db, step);
      && Agrees(after) && Draining(start, mark, watermark, after)
      && AtMost(after.events, watermark) <= AtMost(db.events, watermark)
  {
    hide Agrees, Effect, Shrunk;
    EffectShrinks(cfg, db, step, mark);
    DrainingOn(start, mark, watermark, db, Effect(cfg, db, step));
  }

  lemma NothingDone(cfg: Config, world: World, watermark: nat, db: Db)
    ensures Replay(cfg, db, []) == db && Legal(cfg, world, watermark, db, [])
    ensures Pending([]) == None && Sends([]) == 0 && Ticks([]) == 0 && Quarantined([]) == []
  {}

  /** The first read: the watermark it finds bounds everything the drain will touch. */
  lemma BeginDraining(cfg: Config, db: Db, t0: int, t1: int, found: Option<nat>)
    requires Agrees(db)
    requires var after := Prune(cfg, db, t0, t1);
      (found.None? <==> after.events == map[]) && (found.Some? ==> IsLast(after.events, found.value))
    ensures Draining(db.events, db.nextSeq, found.GetOr(0), Prune(cfg, db, t0, t1))
  {
    PruneLeaves(cfg, db, t0, t1);
  }

  lemma EmptyBatchMeansDrained(start: map<nat, Event>, mark: nat, watermark: nat, read: Db)
    requires Draining(start, mark, watermark, read) && IsBatch(read.events, watermark, DRAIN_BATCH_SIZE, [])
    ensures forall s :: s in read.events ==> s > mark
  {
    forall s | s in read.events ensures s > mark {
      assert s <= watermark ==> InBatch([], s);
    }
  }

  /** Settling the batch that was read takes at least one event at or below the watermark out of the queue. */
  lemma SettlingAdvances(
    cfg: Config, watermark: nat, read: Db, db: Db, batch: seq<Queued>, settled: seq<Queued>, after: Db)
    requires IsBatch(read.events, watermark, DRAIN_BATCH_SIZE, batch) && settled != []
    requires forall q :: q in settled ==> q in batch
    requires AtMost(db.events, watermark) <= AtMost(read.events, watermark)
    requires Leaves(db, Sequences(settled), after)
    ensures AtMost(after.events, watermark) < AtMost(read.events, watermark)
  {
    SequencesAre(settled);
    assert settled[0] in batch;
    var i :| 0 <= i < |batch| && batch[i] == settled[0];
    assert settled[0].sqn in AtMost(read.events, watermark) && settled[0].sqn !in after.events;
  }

  /** The books of a drain that has come this far: where it stands, and what is still to drain. */
  ghost predicate Stands(cfg: Config, world: World, watermark: nat, begin: Db, steps: seq<Step>, db: Db, mark: nat) {
    && Agrees(db) && Draining(begin.events, mark, watermark, db)
    && db == Replay(cfg, begin, steps) && Legal(cfg, world, watermark, begin, steps)
    && Opens(cfg, begin, watermark, steps)
  }

  lemma OpensOn(cfg: Config, db: Db, watermark: nat, past: seq<Step>, steps: seq<Step>)
    requires Opens(cfg, db, watermark, past) && past <= steps
    ensures Opens(cfg, db, watermark, steps)
  {
    assert steps[..1] == past[..1];
  }

  lemma OpeningStands(cfg: Config, world: World, begin: Db, found: Option<nat>)
    requires Agrees(begin)
    requires var after := Prune(cfg, begin, world.clock(0), world.clock(1));
      (found.None? <==> after.events == map[]) && (found.Some? ==> IsLast(after.events, found.value))
    ensures var steps := [Own(TxPrune(world.clock(0), world.clock(1)))];
      var after := Prune(cfg, begin, world.clock(0), world.clock(1));
      && after == Replay(cfg, begin, steps)
      && (found.Some? ==> Stands(cfg, world, found.value, begin, steps, after, begin.nextSeq))
      && (found.None? ==> IsDrain(cfg, world, 0, begin, steps, Drained))
      && Pending(steps) == None && Sends(steps) == 0 && Ticks(steps) == 2 && Quarantined(steps) == []
      && InGap(steps) && Landed(steps) == 0
  {
    hide Agrees, Prune, Draining, Replay, Legal, Opens, IsLast, Pending, Sends, Ticks, Quarantined, Landed, JustRead;
    var step := Own(TxPrune(world.clock(0), world.clock(1)));
    assert [] + [step] == [step];
    NothingDone(cfg, world, found.GetOr(0), begin);
    StepAdds(cfg, world, found.GetOr(0), begin, [], step);
    StepCounts([], step);
    BeginDraining(cfg, begin, world.clock(0), world.clock(1), found);
    PruneAgrees(cfg, begin, world.clock(0), world.clock(1));
    if found.Some? {
      FirstReadOpens(cfg, begin, found.value, step);
    }
  }

  lemma FirstReadOpens(cfg: Config, begin: Db, watermark: nat, step: Step)
    requires step.Own? && step.tx.TxPrune?
    requires IsLast(Replay(cfg, begin, [step]).events, watermark)
    ensures Opens(cfg, begin, watermark, [step])
  {
    hide Replay, IsLast;
    assert [step][..1] == [step];
  }

  /** A step that may follow keeps the books. */
  lemma StepStands(
    cfg: Config, world: World, watermark: nat, begin: Db, past: seq<Step>, db: Db, mark: nat, step: Step)
    requires Stands(cfg, world, watermark, begin, past, db, mark) && MayFollow(world, watermark, db, past, step)
    ensures var after := Effect(cfg, db, step);
      && Stands(cfg, world, watermark, begin, past + [step], after, mark)
      && AtMost(after.events, watermark) <= AtMost(db.events, watermark)
  {
    hide Agrees, Draining, Replay, Legal, Effect, Opens, Quarantinable, IsBatch;
    StepAdds(cfg, world, watermark, begin, past, step);
    DrainsOn(cfg, begin.events, mark, watermark, db, step);
    OpensOn(cfg, begin, watermark, past, past + [step]);
  }

  /** Appends by other processes, in one gap of the drain. */
  method Interfere(q: Queue, world: World, calls: seq<AppendCall>, ghost begin: Db, ghost watermark: nat,
    ghost mark: nat, ghost past: seq<Step>)
    returns (ghost steps: seq<Step>)
    requires world.WellFormed() && calls == world.appends(Gap(past)) && InGap(past) && Landed(past) == 0
    requires Stands(q.cfg, world, watermark, begin, past, q.State(), mark)
    modifies q
    ensures Stands(q.cfg, world, watermark, begin, steps, q.State(), mark)
    ensures Pending(steps) == Pending(past) && Sends(steps) == Sends(past) && Ticks(steps) == Ticks(past)
    ensures Quarantined(steps) == Quarantined(past)
    ensures AtMost(q.events, watermark) <= AtMost(old(q.events), watermark)
    ensures AllLanded(world, steps)
  {
    hide Agrees, Append, Draining, Replay, Legal, Pending, Sends, Ticks, Quarantined, Opens, AtMost, Landed, JustRead;
    steps := past;
    for i := 0 to |calls|
      invariant Stands(q.cfg, world, watermark, begin, steps, q.State(), mark)
      invariant Pending(steps) == Pending(past) && Sends(steps) == Sends(past) && Ticks(steps) == Ticks(past)
      invariant Quarantined(steps) == Quarantined(past)
      invariant AtMost(q.events, watermark) <= AtMost(old(q.events), watermark)
      invariant InGap(steps) && Landed(steps) == i
    {
      ghost var step := Foreign(calls[i]);
      StepStands(q.cfg, world, watermark, begin, steps, q.State(), mark, step);
      StepCounts(steps, step);
      var _ := q.AppendWithStats(calls[i].t0, calls[i].t1, calls[i].es, calls[i].nows);
      steps := steps + [step];
    }
  }

  /** One round of a drain whose batch has been answered: the settlement the answer asks for, and how it
      brings the drain on. */
  lemma AcknowledgingStands(
    cfg: Config, world: World, watermark: nat, begin: Db, past: seq<Step>, db: Db, mark: nat, read: Db,
    batch: seq<Queued>, ats: seq<int>)
    requires Stands(cfg, world, watermark, begin, past, db, mark)
    requires Pending(past) == Some(Sent(batch, Accepted)) && AllLanded(world, past) && |ats| == |batch|
    requires forall i :: 0 <= i < |ats| ==> ats[i] == world.clock(Ticks(past) + i)
    requires IsBatch(read.events, watermark, DRAIN_BATCH_SIZE, batch) && batch != []
    requires AtMost(db.events, watermark) <= AtMost(read.events, watermark)
    ensures var after := Acknowledge(db, batch, ats);
      && Stands(cfg, world, watermark, begin, past + [Own(TxAcknowledge(batch, ats))], after, mark)
      && AtMost(after.events, watermark) < AtMost(read.events, watermark)
  {
    hide Stands, IsBatch, AtMost, Acknowledge, Sequences, Leaves, Pending, Ticks, AllLanded;
    StepStands(cfg, world, watermark, begin, past, db, mark, Own(TxAcknowledge(batch, ats)));
    AcknowledgeEffect(db, batch, ats);
    SettlingAdvances(cfg, watermark, read, db, batch, batch, Acknowledge(db, batch, ats));
  }

  lemma QuarantinableNames(batch: seq<Queued>, ids: seq<string>)
    requires Quarantinable(batch, ids)
    ensures ids != [] && "" !in Trimmed(ids)
  {}

  lemma QuarantiningStands(
    cfg: Config, world: World, watermark: nat, begin: Db, past: seq<Step>, db: Db, mark: nat, read: Db,
    batch: seq<Queued>, ids: seq<string>)
    requires Stands(cfg, world, watermark, begin, past, db, mark)
    requires Pending(past) == Some(Sent(batch, Rejected(ids))) && AllLanded(world, past) && Quarantinable(batch, ids)
    requires IsBatch(read.events, watermark, DRAIN_BATCH_SIZE, batch)
    requires AtMost(db.events, watermark) <= AtMost(read.events, watermark)
    ensures var after := Quarantine(db, batch, Trimmed(ids));
      && Stands(cfg, world, watermark, begin, past + [Own(TxQuarantine(batch, Trimmed(ids)))], after, mark)
      && AtMost(after.events, watermark) < AtMost(read.events, watermark)
  {
    hide Stands, IsBatch, AtMost, Quarantine, Sequences, Leaves, Pending, Ticks, Named, Trimmed, Quarantinable,
      AllLanded;
    var named := Named(batch, Trimmed(ids));
    StepStands(cfg, world, watermark, begin, past, db, mark, Own(TxQuarantine(batch, Trimmed(ids))));
    QuarantinableNames(batch, ids);
    QuarantineEffect(db, batch, Trimmed(ids));
    SomethingIsNamed(batch, ids);
    NamedEntries(batch, Trimmed(ids));
    SettlingAdvances(cfg, watermark, read, db, batch, named, Quarantine(db, batch, Trimmed(ids)));
  }

  /** Settle a batch as the server's answer asks, if it can be settled. */
  method SettleBatch(q: Queue, world: World, batch: seq<Queued>, outcome: Outcome, tick: nat, quarantined: seq<string>,
    ghost watermark: nat, ghost begin: Db, ghost mark: nat, ghost past: seq<Step>, ghost read: Db)
    returns (ended: Option<DrainResult>, nextTick: nat, ids: seq<string>, ghost steps: seq<Step>)
    requires Stands(q.cfg, world, watermark, begin, past, q.State(), mark)
    requires Pending(past) == Some(Sent(batch, outcome)) && Ticks(past) == tick && Quarantined(past) == quarantined
    requires AllLanded(world, past)
    requires IsBatch(read.events, watermark, DRAIN_BATCH_SIZE, batch) && batch != []
    requires AtMost(q.events, watermark) <= AtMost(read.events, watermark)
    modifies q
    ensures Stands(q.cfg, world, watermark, begin, steps, q.State(), mark)
    ensures ended.Some? ==> EndsWith(steps, ended.value) && (ended.value.SendFailed? || ended.value.QuarantineFailed?)
    ensures ended.None? ==> Pending(steps) == None && AtMost(q.events, watermark) < AtMost(read.events, watermark)
    ensures if ended.None? then InGap(steps) && Landed(steps) == 0 else AllLanded(world, steps)
    ensures Sends(steps) == Sends(past) && Ticks(steps) == nextTick && Quarantined(steps) == ids
  {
    hide Agrees, Stands, Acknowledge, Quarantine, Quarantinable, IsBatch, Sends, Ticks, Quarantined, Pending,
      AtMost, Named, IdsInOrder, Trimmed, AllLanded, Landed, JustRead;
    StandsAgrees(q.cfg, world, watermark, begin, past, q.State(), mark);
    steps, nextTick, ids := past, tick, quarantined;
    match outcome {
      case Failed => ended := Some(SendFailed);
      case Accepted =>
        var ats := seq(|batch|, i requires 0 <= i < |batch| => world.clock(tick + i));
        ghost var settle := Own(TxAcknowledge(batch, ats));
        AcknowledgingStands(q.cfg, world, watermark, begin, past, q.State(), mark, read, batch, ats);
        StepCounts(past, settle);
        q.AcknowledgeBatch(batch, ats);
        steps := past + [settle];
        ended, nextTick := None, tick + |batch|;
      case Rejected(rejectedIds) =>
        if rejectedIds == [] {
          return Some(SendFailed), tick, quarantined, past;
        }
        ghost var before := q.State();
        var moved := q.QuarantineRejected(batch, rejectedIds);
        if moved.None? {
          return Some(QuarantineFailed), tick, quarantined, past;
        }
        ghost var settle := Own(TxQuarantine(batch, Trimmed(rejectedIds)));
        QuarantiningStands(q.cfg, world, watermark, begin, past, before, mark, read, batch, rejectedIds);
        StepCounts(past, settle);
        steps := past + [settle];
        ended, ids := None, quarantined + moved.value;
    }
  }

  lemma StandsAgrees(
    cfg: Config, world: World, watermark: nat, begin: Db, steps: seq<Step>, db: Db, mark: nat)
    requires Stands(cfg, world, watermark, begin, steps, db, mark)
    ensures Agrees(db)
  {}

  /** These are the steps of a whole drain of `begin`: legal from the first read to a step after which the drain
      returns this result: the first read if that finds nothing, the last appends of the gap after a send it cannot
      settle, or a read that finds nothing left of what was queued when it began. */
  ghost predicate IsDrain(cfg: Config, world: World, watermark: nat, begin: Db, steps: seq<Step>, result: DrainResult) {
    && Legal(cfg, world, watermark, begin, steps) && EndsWith(steps, result)
    && (Opens(cfg, begin, watermark, steps) || FindsNothing(cfg, begin, watermark, steps))
    && Draining(begin.events, begin.nextSeq, watermark, Replay(cfg, begin, steps))
    && (Pending(steps).Some? ==> AllLanded(world, steps))
    && (result.Drained? || result.DrainedWithQuarantine? ==>
          forall s :: s in Replay(cfg, begin, steps).events ==> s > begin.nextSeq)
  }

  /** Read the next batch of a drain. */
  method ReadBatch(q: Queue, world: World, watermark: nat, tick: nat,
    ghost begin: Db, ghost mark: nat, ghost past: seq<Step>)
    returns (batch: seq<Queued>, ghost steps: seq<Step>)
    requires Stands(q.cfg, world, watermark, begin, past, q.State(), mark)
    requires Pending(past) == None && Ticks(past) == tick && AllLanded(world, past)
    modifies q
    ensures Stands(q.cfg, world, watermark, begin, steps, q.State(), mark)
    ensures Pending(steps) == None && Sends(steps) == Sends(past) && Ticks(steps) == tick + 2
    ensures Quarantined(steps) == Quarantined(past) && JustRead(steps) && |steps| > 1
    ensures IsBatch(q.events, watermark, DRAIN_BATCH_SIZE, batch)
    ensures AtMost(q.events, watermark) <= AtMost(old(q.events), watermark)
  {
    hide Agrees, Stands, Prune, IsBatch, Pending, Sends, Ticks, Quarantined, AtMost, Landed, JustRead;
    ghost var read := Own(TxPrune(world.clock(tick), world.clock(tick + 1)));
    StandsAgrees(q.cfg, world, watermark, begin, past, q.State(), mark);
    StepStands(q.cfg, world, watermark, begin, past, q.State(), mark, read);
    StepCounts(past, read);
    batch := q.NextDrainBatch(watermark, world.clock(tick), world.clock(tick + 1));
    steps := past + [read];
  }

  /** Drain everything queued when it starts. It ends because each round takes at least one event at or
      below the watermark out of the queue and concurrent appends only add events above it. */
  method Drain(q: Queue, world: World)
    returns (result: DrainResult, ghost watermark: nat, ghost steps: seq<Step>)
    requires Agrees(q.State()) && world.WellFormed()
    modifies q
    ensures Agrees(q.State()) && q.State() == Replay(q.cfg, old(q.State()), steps)
    ensures IsDrain(q.cfg, world, watermark, old(q.State()), steps, result)
  {
    hide Agrees, Draining, Prune, IsBatch, TotalCharge, Without, Replay, Legal, Pending, Sends, Ticks, Quarantined,
      Opens, AtMost, MayFollow, Fails, CannotQuarantine, AllLanded, Landed, JustRead;
    ghost var begin, mark := q.State(), q.nextSeq;
    var found := q.DrainWatermark(world.clock(0), world.clock(1));
    OpeningStands(q.cfg, world, begin, found);
    steps := [Own(TxPrune(world.clock(0), world.clock(1)))];
    watermark := found.GetOr(0);
    if found.None? {
      return Drained, watermark, steps;
    }
    var last := found.value;
    var n: nat, tick: nat := 0, 2;
    var quarantined: seq<string> := [];
    while true
      invariant Stands(q.cfg, world, last, begin, steps, q.State(), mark)
      invariant Pending(steps) == None && Sends(steps) == n && Ticks(steps) == tick
      invariant Quarantined(steps) == quarantined && InGap(steps) && Landed(steps) == 0
      decreases AtMost(q.events, last)
    {
      steps := Interfere(q, world, world.appends(2 * n), begin, last, mark, steps);
      var batch;
      batch, steps := ReadBatch(q, world, last, tick, begin, mark, steps);
      ghost var read := q.State();
      if batch == [] {
        EmptyBatchMeansDrained(begin.events, mark, last, read);
        return if quarantined == [] then Drained else DrainedWithQuarantine(quarantined), last, steps;
      }
      var es := seq(|batch|, i requires 0 <= i < |batch| => batch[i].event);
      assert es == EventsOf(batch);
      var outcome := world.send(n, es);
      ghost var sent := Sent(batch, outcome);
      SendingMayFollow(world, last, read, steps, batch);
      StepStands(q.cfg, world, last, begin, steps, read, mark, sent);
      StepCounts(steps, sent);
      steps := steps + [sent];
      steps := Interfere(q, world, world.appends(2 * n + 1), begin, last, mark, steps);
      var ended;
      ended, tick, quarantined, steps :=
        SettleBatch(q, world, batch, outcome, tick + 2, quarantined, last, begin, mark, steps, read);
      if ended.Some? {
        return ended.value, last, steps;
      }
      n := n + 1;
    }
  }

  lemma SendingMayFollow(world: World, watermark: nat, db: Db, past: seq<Step>, batch: seq<Queued>)
    requires JustRead(past) && |past| > 1 && batch != [] && IsBatch(db.events, watermark, DRAIN_BATCH_SIZE, batch)
    ensures MayFollow(world, watermark, db, past, Sent(batch, world.send(Sends(past), EventsOf(batch))))
  {}
}
