/** What a drain does to every event, how it ends, and how its steps fit into a run of the queue. */
module QueueDrainTheorems {
  import opened Options
  import opened QueueDrain
  import opened QueueInvariants
  import opened QueueModel
  import opened QueueRuns
  import opened QueueStore

  // ---------------------------------------------------------------- why an event leaves the queue

  /** The i-th event of the append is a snapshot that replaces the one queued at `s`. */
  ghost predicate Supersedes(cfg: Config, db: Db, es: seq<Event>, nows: seq<int>, i: nat, s: nat)
    requires |es| == |nows| && i < |es|
  {
    var before := InsertAll(cfg, db, es[..i], nows[..i]);
    !TooOld(cfg, es[i], nows[i]) && Replaces(before, es[i]) && before.sqnOf[es[i].id] == s
  }

  lemma SupersedesInPrefix(cfg: Config, db: Db, es: seq<Event>, nows: seq<int>, n: nat, i: nat, s: nat)
    requires |es| == |nows| && i < n <= |es|
    ensures Supersedes(cfg, db, es[..n], nows[..n], i, s) <==> Supersedes(cfg, db, es, nows, i, s)
  {
    hide InsertAll, Replaces, TooOld;
    assert es[..n][..i] == es[..i] && nows[..n][..i] == nows[..i];
  }

  /** Inserting events takes an earlier one out exactly when one of them supersedes it. */
  lemma {:induction false} InsertRemovesIff(cfg: Config, db: Db, es: seq<Event>, nows: seq<int>, s: nat)
    requires Agrees(db) && |es| == |nows| && s in db.events
    ensures s in InsertAll(cfg, db, es, nows).events <==>
      forall i :: 0 <= i < |es| ==> !Supersedes(cfg, db, es, nows, i, s)
  {
    hide Agrees, InsertAll, Supersedes, Insert, Replaces, TooOld;
    if es == [] {
      NothingInserted(cfg, db, nows);
    } else {
      var n := |es| - 1;
      InsertRemovesIff(cfg, db, es[..n], nows[..n], s);
      KeepsNumbers(cfg, db, es[..n], nows[..n], s);
      InsertOneRemovesIff(cfg, db, es, nows, s);
      forall i | 0 <= i < n
        ensures Supersedes(cfg, db, es[..n], nows[..n], i, s) <==> Supersedes(cfg, db, es, nows, i, s)
      {
        SupersedesInPrefix(cfg, db, es, nows, n, i, s);
      }
    }
  }

  lemma NothingInserted(cfg: Config, db: Db, nows: seq<int>)
    requires nows == []
    ensures InsertAll(cfg, db, [], nows) == db
  {}

  lemma KeepsNumbers(cfg: Config, db: Db, es: seq<Event>, nows: seq<int>, s: nat)
    requires Agrees(db) && |es| == |nows| && s in db.events
    ensures s <= InsertAll(cfg, db, es, nows).nextSeq
  {
    hide InsertAll, TimesAgree, IdsAgree, DeliveredAgree, Counted;
    InsertAllShrinks(cfg, db, es, nows);
  }

  lemma InsertOneRemovesIff(cfg: Config, db: Db, es: seq<Event>, nows: seq<int>, s: nat)
    requires |es| == |nows| && es != []
    requires var before := InsertAll(cfg, db, es[..|es| - 1], nows[..|es| - 1]); s <= before.nextSeq
    ensures s in InsertAll(cfg, db, es, nows).events <==>
      s in InsertAll(cfg, db, es[..|es| - 1], nows[..|es| - 1]).events && !Supersedes(cfg, db, es, nows, |es| - 1, s)
  {
    var n := |es| - 1;
    var before := InsertAll(cfg, db, es[..n], nows[..n]);
    hide InsertAll, TooOld;
    InsertAllEnds(cfg, db, es, nows);
    InsertKeeps(before, es[n], s);
  }

  lemma InsertAllEnds(cfg: Config, db: Db, es: seq<Event>, nows: seq<int>)
    requires |es| == |nows| && es != []
    ensures var n := |es| - 1; var before := InsertAll(cfg, db, es[..n], nows[..n]);
      InsertAll(cfg, db, es, nows) == if TooOld(cfg, es[n], nows[n]) then before else Insert(before, es[n])
  {
    hide Insert;
  }

  lemma InsertKeeps(db: Db, e: Event, s: nat)
    requires s <= db.nextSeq
    ensures s in Insert(db, e).events <==> s in db.events && !(Replaces(db, e) && db.sqnOf[e.id] == s)
  {
    hide TotalCharge, TimesWithout, IdsWithout;
  }

  /** Why an append removes a queued event: it is past retention at the append's clock, superseded by a snapshot
      of the append, or among the oldest that no longer fit. */
  ghost predicate AppendRemoves(cfg: Config, db: Db, call: AppendCall, s: nat)
    requires call.WellFormed() && s in db.events
  {
    var pruned := Prune(cfg, db, call.t0, call.t1);
    || db.events[s].createdAt < call.t1 - cfg.maxAge
    || (exists i :: 0 <= i < |call.es| && Supersedes(cfg, pruned, call.es, call.nows, i, s))
    || s in Overflow(InsertAll(cfg, pruned, call.es, call.nows).events, cfg.maxBytes)
  }

  lemma AppendRemovesIff(cfg: Config, db: Db, call: AppendCall, s: nat)
    requires Agrees(db) && call.WellFormed() && s in db.events
    ensures s !in Append(cfg, db, call.t0, call.t1, call.es, call.nows).events <==> AppendRemoves(cfg, db, call, s)
  {
    hide Agrees, Prune, InsertAll, Overflow, Supersedes;
    var pruned := Prune(cfg, db, call.t0, call.t1);
    var filled := InsertAll(cfg, pruned, call.es, call.nows);
    PruneRemovesIff(cfg, db, call.t0, call.t1, s);
    PruneAgrees(cfg, db, call.t0, call.t1);
    AgreesNumbers(db, s);
    PrunedNumbers(cfg, db, call.t0, call.t1);
    if s in pruned.events {
      InsertRemovesIff(cfg, pruned, call.es, call.nows, s);
    } else {
      InsertAllShrinksAgreed(cfg, pruned, call.es, call.nows);
    }
    OverflowDropsOldest(filled.events, cfg.maxBytes);
    EvictEvents(cfg, filled);
  }

  lemma AgreesNumbers(db: Db, s: nat)
    requires Agrees(db) && s in db.events
    ensures s <= db.nextSeq
  {}

  lemma PrunedNumbers(cfg: Config, db: Db, t0: int, t1: int)
    ensures Prune(cfg, db, t0, t1).nextSeq == db.nextSeq
  {}

  lemma InsertAllShrinksAgreed(cfg: Config, db: Db, es: seq<Event>, nows: seq<int>)
    requires Agrees(db) && |es| == |nows|
    ensures Shrunk(db.events, InsertAll(cfg, db, es, nows).events, db.nextSeq)
  {
    InsertAllShrinks(cfg, db, es, nows);
  }

  lemma EvictEvents(cfg: Config, db: Db)
    ensures Evict(cfg, db).events == db.events - Overflow(db.events, cfg.maxBytes)
  {
    hide Overflow, TotalCharge;
  }

  /** Pruning drops an event exactly when it was created more than the maximum age before the second reading ... */
  lemma PruneRemovesIff(cfg: Config, db: Db, t0: int, t1: int, s: nat)
    requires s in db.events
    ensures s !in Prune(cfg, db, t0, t1).events <==> db.events[s].createdAt < t1 - cfg.maxAge
  {
    hide TotalCharge;
  }

  /** ... and forgets a delivered id exactly when it was recorded so long before the other reading. */
  lemma PruneForgetsIff(cfg: Config, db: Db, t0: int, t1: int, id: string)
    requires id in db.delivered
    ensures id !in Prune(cfg, db, t0, t1).delivered <==> db.delivered[id].at < t0 - cfg.maxAge
    ensures forall other :: other in Prune(cfg, db, t0, t1).delivered ==> other in db.delivered
  {
    hide TotalCharge;
  }

  /** Why a step of a drain takes an event out of the queue. */
  ghost predicate Removes(cfg: Config, db: Db, step: Step, s: nat)
    requires s in db.events
  {
    match step
    case Own(TxPrune(_, t1)) => db.events[s].createdAt < t1 - cfg.maxAge
    case Own(TxAcknowledge(batch, _)) => s in Sequences(batch)
    case Own(TxQuarantine(batch, rejected)) => s in Sequences(Named(batch, rejected))
    case Own(TxAppend(_, _, _, _)) => false
    case Foreign(call) => call.WellFormed() && AppendRemoves(cfg, db, call, s)
    case Sent(_, _) => false
  }

  lemma StepRemovesIff(cfg: Config, db: Db, step: Step, s: nat)
    requires Agrees(db) && s in db.events
    requires step.Own? ==> step.tx.WellFormed() && !step.tx.TxAppend?
    ensures s !in Effect(cfg, db, step).events <==> Removes(cfg, db, step, s)
  {
    hide Agrees, Prune, Append, Acknowledge, Quarantine, Sequences, Named, AppendRemoves;
    match step
    case Own(tx) =>
      match tx {
        case TxPrune(t0, t1) => PruneRemovesIff(cfg, db, t0, t1, s);
        case TxAcknowledge(batch, ats) => AcknowledgeEffect(db, batch, ats);
        case TxQuarantine(batch, rejected) => QuarantineEffect(db, batch, rejected);
        case TxAppend(_, _, _, _) =>
      }
    case Foreign(call) =>
      if call.WellFormed() {
        AppendRemovesIff(cfg, db, call, s);
      }
    case Sent(_, _) =>
  }

  // ---------------------------------------------------------------- every event of a drain

  lemma {:induction false} LegalAt(cfg: Config, world: World, watermark: nat, begin: Db, steps: seq<Step>, k: nat)
    requires Legal(cfg, world, watermark, begin, steps) && k <= |steps|
    ensures Legal(cfg, world, watermark, begin, steps[..k])
    ensures k < |steps| ==> MayFollow(world, watermark, Replay(cfg, begin, steps[..k]), steps[..k], steps[k])
    decreases |steps|
  {
    hide MayFollow, Replay;
    if k == |steps| {
      assert steps[..k] == steps;
    } else {
      var n := |steps| - 1;
      if k < n {
        LegalAt(cfg, world, watermark, begin, steps[..n], k);
        assert steps[..n][..k] == steps[..k] && steps[..n][k] == steps[k];
      }
    }
  }

  lemma MayFollowFormed(world: World, watermark: nat, db: Db, past: seq<Step>, step: Step)
    requires MayFollow(world, watermark, db, past, step)
    ensures step.Own? ==> step.tx.WellFormed() && !step.tx.TxAppend?
    ensures step.Foreign? ==> step.call.WellFormed()
  {
    if step.Own? && step.tx.TxQuarantine? {
      QuarantinableNames(step.tx.batch, Pending(past).value.outcome.ids);
    }
    hide Quarantinable, Pending, Ticks, Trimmed;
  }

  /** What a drain has done so far has kept the indexes and brought nothing new at or below the old sequences. */
  lemma {:induction false} LegalShrinks(cfg: Config, world: World, watermark: nat, begin: Db, steps: seq<Step>)
    requires Agrees(begin) && Legal(cfg, world, watermark, begin, steps)
    ensures var db := Replay(cfg, begin, steps);
      Agrees(db) && Shrunk(begin.events, db.events, begin.nextSeq) && begin.nextSeq <= db.nextSeq
  {
    hide Agrees, Effect, MayFollow, Shrunk;
    if steps == [] {
      ShrunkSelf(begin.events, begin.nextSeq);
    } else {
      var n := |steps| - 1;
      var before := Replay(cfg, begin, steps[..n]);
      LegalShrinks(cfg, world, watermark, begin, steps[..n]);
      MayFollowFormed(world, watermark, before, steps[..n], steps[n]);
      EffectShrinks(cfg, before, steps[n], begin.nextSeq);
      ShrunkTwice(begin.events, before.events, Replay(cfg, begin, steps).events, begin.nextSeq, begin.nextSeq);
    }
  }

  /** Step `k` takes the event at `s` out of the queue. */
  ghost predicate LeavesAt(cfg: Config, begin: Db, steps: seq<Step>, k: nat, s: nat)
    requires k < |steps|
  {
    var before := Replay(cfg, begin, steps[..k]);
    s in before.events && Removes(cfg, before, steps[k], s)
  }

  ghost predicate OnlyLeavesAt(cfg: Config, begin: Db, steps: seq<Step>, k: nat, s: nat)
    requires k < |steps|
  {
    LeavesAt(cfg, begin, steps, k, s) && forall j: nat :: j < |steps| && LeavesAt(cfg, begin, steps, j, s) ==> j == k
  }

  /** Every event queued at the start of a drain is still queued, unchanged, exactly when no step took it out, and
      at most one step did. */
  lemma {:induction false} EventsLeaveOnce(
    cfg: Config, world: World, watermark: nat, begin: Db, steps: seq<Step>, s: nat)
    requires Agrees(begin) && Legal(cfg, world, watermark, begin, steps) && s in begin.events
    ensures var db := Replay(cfg, begin, steps);
      && (s in db.events ==> db.events[s] == begin.events[s])
      && (s in db.events <==> forall k: nat :: k < |steps| ==> !LeavesAt(cfg, begin, steps, k, s))
    ensures forall j: nat, k: nat :: (
      j < |steps| && k < |steps| && LeavesAt(cfg, begin, steps, j, s) && LeavesAt(cfg, begin, steps, k, s) ==> j == k)
  {
    hide Agrees, Effect, MayFollow, Removes, Shrunk, Legal, Replay;
    if steps == [] {
      NothingDone(cfg, world, watermark, begin);
    } else {
      var n := |steps| - 1;
      var before := Replay(cfg, begin, steps[..n]);
      LegalAt(cfg, world, watermark, begin, steps, n);
      LegalShrinks(cfg, world, watermark, begin, steps[..n]);
      AgreesNumbers(begin, s);
      ReplayEnds(cfg, begin, steps);
      MayFollowFormed(world, watermark, before, steps[..n], steps[n]);
      EffectShrinks(cfg, before, steps[n], begin.nextSeq);
      EventsLeaveOnce(cfg, world, watermark, begin, steps[..n], s);
      if s in before.events {
        StepRemovesIff(cfg, before, steps[n], s);
      }
      StillThere(before.events, Replay(cfg, begin, steps).events, begin.nextSeq, s);
      forall k: nat | k < n
        ensures LeavesAt(cfg, begin, steps[..n], k, s) <==> LeavesAt(cfg, begin, steps, k, s)
      {
        assert steps[..n][..k] == steps[..k] && steps[..n][k] == steps[k];
      }
      assert s in Replay(cfg, begin, steps).events <==> s in before.events && !LeavesAt(cfg, begin, steps, n, s);
      assert LeavesAt(cfg, begin, steps, n, s) ==> s in before.events;
    }
  }

  lemma StillThere(before: map<nat, Event>, after: map<nat, Event>, mark: nat, s: nat)
    requires Shrunk(before, after, mark) && s <= mark
    ensures s in after ==> s in before && after[s] == before[s]
  {}

  lemma ReplayEnds(cfg: Config, begin: Db, steps: seq<Step>)
    requires steps != []
    ensures Replay(cfg, begin, steps) == Effect(cfg, Replay(cfg, begin, steps[..|steps| - 1]), steps[|steps| - 1])
  {
    hide Effect;
  }

  // ---------------------------------------------------------------- settlements answer sends

  /** Step `j` is the send that step `k` settles: nothing but appends by others lies between them. */
  ghost predicate SendOf(world: World, steps: seq<Step>, j: nat, k: nat)
    requires k < |steps|
  {
    && j < k && steps[j].Sent? && steps[k].Own? && Settles(steps[k].tx) && steps[k].tx.batch == steps[j].batch
    && steps[j].outcome == world.send(Sends(steps[..j]), EventsOf(steps[j].batch))
    && forall i :: j < i < k ==> steps[i].Foreign?
  }

  lemma {:induction false} PendingWasSent(steps: seq<Step>) returns (j: nat)
    requires Pending(steps).Some?
    ensures j < |steps| && steps[j] == Pending(steps).value && steps[j].Sent?
    ensures forall i :: j < i < |steps| ==> steps[i].Foreign?
  {
    var n := |steps| - 1;
    if steps[n].Sent? {
      j := n;
    } else {
      j := PendingWasSent(steps[..n]);
      assert forall i :: 0 <= i < n ==> steps[..n][i] == steps[i];
    }
  }

  /** A settlement settles the batch of the send before it, as the server answered: an acknowledgement what was
      accepted, a quarantine exactly the ids the rejection named. */
  lemma SettlementAnswersSend(
    cfg: Config, world: World, watermark: nat, begin: Db, steps: seq<Step>, k: nat)
    returns (j: nat)
    requires Legal(cfg, world, watermark, begin, steps) && k < |steps| && steps[k].Own? && Settles(steps[k].tx)
    ensures SendOf(world, steps, j, k)
    ensures steps[k].tx.TxAcknowledge? ==> steps[j].outcome == Accepted
    ensures steps[k].tx.TxQuarantine? ==>
      steps[j].outcome.Rejected? && Quarantinable(steps[j].batch, steps[j].outcome.ids) &&
      steps[k].tx.rejected == Trimmed(steps[j].outcome.ids)
  {
    hide Quarantinable, Trimmed, Legal, Replay, Pending, Sends, Ticks, IsBatch;
    LegalAt(cfg, world, watermark, begin, steps, k);
    j := PendingWasSent(steps[..k]);
    LegalAt(cfg, world, watermark, begin, steps, j);
    forall i | j < i < k ensures steps[i].Foreign? { assert steps[..k][i] == steps[i]; }
  }

  /** What is sent was queued when the drain began. */
  lemma SentWasQueued(
    cfg: Config, world: World, watermark: nat, begin: Db, steps: seq<Step>, j: nat, i: nat)
    requires Agrees(begin) && Legal(cfg, world, watermark, begin, steps) && watermark <= begin.nextSeq
    requires j < |steps| && steps[j].Sent? && i < |steps[j].batch|
    ensures var q := steps[j].batch[i]; q.sqn in begin.events && begin.events[q.sqn] == q.event
  {
    hide Legal, Replay, Agrees;
    LegalAt(cfg, world, watermark, begin, steps, j);
    LegalShrinks(cfg, world, watermark, begin, steps[..j]);
  }

  /** No two entries of a batch that is sent carry the same id. */
  lemma SentIdsDiffer(
    cfg: Config, world: World, watermark: nat, begin: Db, steps: seq<Step>, j: nat, h: nat, i: nat)
    requires Agrees(begin) && Legal(cfg, world, watermark, begin, steps) && j < |steps| && steps[j].Sent?
    requires h < |steps[j].batch| && i < |steps[j].batch| && h != i && steps[j].batch[h].event.id != ""
    ensures steps[j].batch[h].event.id != steps[j].batch[i].event.id
  {
    hide Legal, Replay, TimesAgree, DeliveredAgree, Counted, Allocated;
    var db := Replay(cfg, begin, steps[..j]);
    LegalAt(cfg, world, watermark, begin, steps, j);
    LegalShrinks(cfg, world, watermark, begin, steps[..j]);
    ReadEntries(db, steps[j].batch);
    assert steps[j].batch[h].sqn != steps[j].batch[i].sqn;
  }

  /** Why the event at `s` left the queue at step `k`: at a read it was past retention; at an acknowledgement the
      server had just accepted it, and its id is now recorded; at a quarantine the server had just named it, and
      its id is now quarantined; at an append by another process it was past retention, superseded or in excess. */
  ghost predicate Explains(cfg: Config, world: World, begin: Db, steps: seq<Step>, k: nat, s: nat)
    requires k < |steps| && s in begin.events
  {
    var e := begin.events[s];
    match steps[k]
    case Own(TxPrune(_, _)) => e.createdAt < world.clock(Ticks(steps[..k]) + 1) - cfg.maxAge
    case Own(TxAcknowledge(_, _)) =>
      && (e.id == "" || e.id in Replay(cfg, begin, steps[..k + 1]).delivered)
      && exists j: nat :: SendOf(world, steps, j, k) && Queued(s, e) in steps[j].batch && steps[j].outcome == Accepted
    case Own(TxQuarantine(_, _)) =>
      && e.id in Replay(cfg, begin, steps[..k + 1]).quarantine
      && exists j: nat :: (
           SendOf(world, steps, j, k) && Queued(s, e) in steps[j].batch &&
           steps[j].outcome.Rejected? && Quarantinable(steps[j].batch, steps[j].outcome.ids) &&
           e.id in Trimmed(steps[j].outcome.ids))
    case Own(TxAppend(_, _, _, _)) => false
    case Foreign(call) =>
      var before := Replay(cfg, begin, steps[..k]);
      call.WellFormed() && call in world.appends(Gap(steps[..k])) && s in before.events &&
        AppendRemoves(cfg, before, call, s)
    case Sent(_, _) => false
  }

  lemma BatchEntry(
    cfg: Config, world: World, watermark: nat, begin: Db, steps: seq<Step>, j: nat, part: seq<Queued>, s: nat)
    requires Agrees(begin) && Legal(cfg, world, watermark, begin, steps) && watermark <= begin.nextSeq
    requires j < |steps| && steps[j].Sent? && s in begin.events
    requires (forall q :: q in part ==> q in steps[j].batch) && s in Sequences(part)
    ensures Queued(s, begin.events[s]) in part
  {
    hide Agrees, Legal, Sequences;
    SequencesAre(part);
    var i :| 0 <= i < |part| && part[i].sqn == s;
    assert part[i] in part;
    var h :| 0 <= h < |steps[j].batch| && steps[j].batch[h] == part[i];
    SentWasQueued(cfg, world, watermark, begin, steps, j, h);
    assert part[i] == Queued(s, begin.events[s]);
  }

  lemma ExpiryIsExplained(
    cfg: Config, world: World, watermark: nat, begin: Db, steps: seq<Step>, k: nat, s: nat)
    requires Agrees(begin) && Legal(cfg, world, watermark, begin, steps)
    requires s in begin.events && k < |steps| && LeavesAt(cfg, begin, steps, k, s)
    requires steps[k].Own? && steps[k].tx.TxPrune?
    ensures Explains(cfg, world, begin, steps, k, s)
  {
    hide Agrees, Legal, Replay, Ticks, Pending, Shrunk;
    LegalAt(cfg, world, watermark, begin, steps, k);
    LegalShrinks(cfg, world, watermark, begin, steps[..k]);
    AgreesNumbers(begin, s);
    StillThere(begin.events, Replay(cfg, begin, steps[..k]).events, begin.nextSeq, s);
  }

  lemma SettlementIsExplained(
    cfg: Config, world: World, watermark: nat, begin: Db, steps: seq<Step>, k: nat, s: nat)
    requires Agrees(begin) && Legal(cfg, world, watermark, begin, steps) && watermark <= begin.nextSeq
    requires s in begin.events && k < |steps| && LeavesAt(cfg, begin, steps, k, s)
    requires steps[k].Own? && Settles(steps[k].tx)
    ensures Explains(cfg, world, begin, steps, k, s)
  {
    hide Agrees, Legal, Replay, Ticks, Pending, Sequences, Named, Trimmed, Quarantinable, SendOf;
    var j := SettlementAnswersSend(cfg, world, watermark, begin, steps, k);
    var batch := steps[k].tx.batch;
    SettledBatch(world, steps, j, k);
    SettlementRecords(cfg, world, watermark, begin, steps, k);
    if steps[k].tx.TxAcknowledge? {
      BatchEntry(cfg, world, watermark, begin, steps, j, batch, s);
      assert SendOf(world, steps, j, k) && Queued(s, begin.events[s]) in steps[j].batch;
    } else {
      NamedEntries(batch, steps[k].tx.rejected);
      BatchEntry(cfg, world, watermark, begin, steps, j, Named(batch, steps[k].tx.rejected), s);
      QuarantinableNames(batch, steps[j].outcome.ids);
      assert Queued(s, begin.events[s]) in Named(batch, steps[k].tx.rejected);
      assert SendOf(world, steps, j, k) && Queued(s, begin.events[s]) in steps[j].batch;
    }
  }

  /** A settlement records the ids of what it settles. */
  lemma SettlementRecords(
    cfg: Config, world: World, watermark: nat, begin: Db, steps: seq<Step>, k: nat)
    requires Legal(cfg, world, watermark, begin, steps) && k < |steps| && steps[k].Own? && Settles(steps[k].tx)
    ensures var after := Replay(cfg, begin, steps[..k + 1]); var tx := steps[k].tx;
      && (tx.TxAcknowledge? ==> forall q :: q in tx.batch && q.event.id != "" ==> q.event.id in after.delivered)
      && (tx.TxQuarantine? ==>
           forall q :: q in Named(tx.batch, tx.rejected) && q.event.id != "" ==> q.event.id in after.quarantine)
  {
    hide Legal, MayFollow, Replay, Sequences, Named, Ids, Acknowledge, Quarantine, Leaves;
    var before := Replay(cfg, begin, steps[..k]);
    LegalAt(cfg, world, watermark, begin, steps, k);
    MayFollowFormed(world, watermark, before, steps[..k], steps[k]);
    assert steps[..k + 1][..k] == steps[..k];
    ReplayEnds(cfg, begin, steps[..k + 1]);
    match steps[k].tx
    case TxAcknowledge(batch, ats) =>
      AcknowledgeEffect(before, batch, ats);
      IdsAre(batch);
    case TxQuarantine(batch, rejected) =>
      QuarantineEffect(before, batch, rejected);
      IdsAre(Named(batch, rejected));
    case _ =>
  }

  lemma SettledBatch(world: World, steps: seq<Step>, j: nat, k: nat)
    requires k < |steps| && SendOf(world, steps, j, k)
    ensures j < k && steps[j].Sent? && steps[k].Own? && Settles(steps[k].tx) && steps[k].tx.batch == steps[j].batch
  {}

  lemma LeavingIsExplained(
    cfg: Config, world: World, watermark: nat, begin: Db, steps: seq<Step>, k: nat, s: nat)
    requires Agrees(begin) && Legal(cfg, world, watermark, begin, steps) && watermark <= begin.nextSeq
    requires s in begin.events && k < |steps| && LeavesAt(cfg, begin, steps, k, s)
    ensures Explains(cfg, world, begin, steps, k, s)
  {
    hide Agrees, Legal, Replay, Ticks, Pending, Sequences, Named, Trimmed, Quarantinable, AppendRemoves, SendOf;
    LegalAt(cfg, world, watermark, begin, steps, k);
    if steps[k].Own? && Settles(steps[k].tx) {
      SettlementIsExplained(cfg, world, watermark, begin, steps, k, s);
    } else if steps[k].Own? && steps[k].tx.TxPrune? {
      ExpiryIsExplained(cfg, world, watermark, begin, steps, k, s);
    } else if steps[k].Foreign? {
      var before := Replay(cfg, begin, steps[..k]);
      assert Removes(cfg, before, steps[k], s);
      assert AppendRemoves(cfg, before, steps[k].call, s);
      assert steps[k].call in world.appends(Gap(steps[..k]));
    } else {
      assert false;
    }
  }

  /** Conservation: every event queued when a drain begins is either still queued, unchanged, or has left at
      exactly one step, for the reason that step had. */
  lemma DrainConserves(
    cfg: Config, world: World, watermark: nat, begin: Db, steps: seq<Step>, s: nat)
    requires Agrees(begin) && Legal(cfg, world, watermark, begin, steps) && watermark <= begin.nextSeq
    requires s in begin.events
    ensures var db := Replay(cfg, begin, steps);
      if s in db.events then
        db.events[s] == begin.events[s] && forall k: nat :: k < |steps| ==> !LeavesAt(cfg, begin, steps, k, s)
      else
        exists k: nat :: k < |steps| && OnlyLeavesAt(cfg, begin, steps, k, s) &&
          Explains(cfg, world, begin, steps, k, s)
  {
    hide Agrees, Legal, Replay, LeavesAt, Explains;
    EventsLeaveOnce(cfg, world, watermark, begin, steps, s);
    if s !in Replay(cfg, begin, steps).events {
      var k: nat :| k < |steps| && LeavesAt(cfg, begin, steps, k, s);
      LeavingIsExplained(cfg, world, watermark, begin, steps, k, s);
      assert OnlyLeavesAt(cfg, begin, steps, k, s);
    }
  }

  /** What is in quarantine stays there. */
  lemma {:induction false} QuarantineStays(
    cfg: Config, world: World, watermark: nat, begin: Db, steps: seq<Step>, k: nat, id: string)
    requires Agrees(begin) && Legal(cfg, world, watermark, begin, steps) && k <= |steps|
    requires id in Replay(cfg, begin, steps[..k]).quarantine
    ensures id in Replay(cfg, begin, steps).quarantine
    decreases |steps|
  {
    hide Agrees, Legal, MayFollow, Replay, Effect;
    if k == |steps| {
      assert steps[..k] == steps;
    } else {
      var n := |steps| - 1;
      var before := Replay(cfg, begin, steps[..n]);
      assert steps[..n][..k] == steps[..k];
      LegalAt(cfg, world, watermark, begin, steps, n);
      LegalShrinks(cfg, world, watermark, begin, steps[..n]);
      QuarantineStays(cfg, world, watermark, begin, steps[..n], k, id);
      MayFollowFormed(world, watermark, before, steps[..n], steps[n]);
      StepKeepsQuarantine(cfg, before, steps[n], id);
      ReplayEnds(cfg, begin, steps);
    }
  }

  lemma StepKeepsQuarantine(cfg: Config, db: Db, step: Step, id: string)
    requires Agrees(db) && id in db.quarantine
    requires step.Own? ==> step.tx.WellFormed() && !step.tx.TxAppend?
    ensures id in Effect(cfg, db, step).quarantine
  {
    hide Agrees, Prune, Append, Acknowledge, Quarantine, Leaves, Sequences, Ids;
    match step
    case Own(tx) =>
      match tx {
        case TxPrune(t0, t1) => PruneLeaves(cfg, db, t0, t1);
        case TxAcknowledge(batch, ats) => AcknowledgeEffect(db, batch, ats);
        case TxQuarantine(batch, rejected) => QuarantineEffect(db, batch, rejected);
        case TxAppend(_, _, _, _) =>
      }
    case Foreign(call) =>
      if call.WellFormed() {
        AppendShrinks(cfg, db, call);
      }
    case Sent(_, _) =>
  }

  // ---------------------------------------------------------------- how a drain ends

  lemma OnlyAppendsFollow(world: World, watermark: nat, db: Db, past: seq<Step>, step: Step)
    requires Pending(past).Some? && (Fails(Pending(past).value) || CannotQuarantine(Pending(past).value))
    requires MayFollow(world, watermark, db, past, step)
    ensures step.Foreign?
  {
    hide IsBatch, Quarantinable, Trimmed, Ticks, Sends;
    match step
    case Own(tx) =>
      if tx.TxQuarantine? {
        QuarantinableNames(tx.batch, Pending(past).value.outcome.ids);
      }
      assert false;
    case Foreign(_) =>
    case Sent(_, _) => assert false;
  }

  /** After a send the drain cannot get past, nothing but appends by others can follow. */
  lemma {:induction false} StuckStays(
    cfg: Config, world: World, watermark: nat, begin: Db, steps: seq<Step>, k: nat)
    requires Legal(cfg, world, watermark, begin, steps) && k < |steps|
    requires Fails(steps[k]) || CannotQuarantine(steps[k])
    ensures Pending(steps) == Some(steps[k])
  {
    hide MayFollow, Quarantinable, Replay;
    var n := |steps| - 1;
    if k < n {
      assert steps[..n][k] == steps[k];
      StuckStays(cfg, world, watermark, begin, steps[..n], k);
      OnlyAppendsFollow(world, watermark, Replay(cfg, begin, steps[..n]), steps[..n], steps[n]);
    }
  }

  /** A drain fails to quarantine exactly when some send of it was rejected with ids that cannot be quarantined
      from its batch, fails to send exactly when some send of it failed or was rejected without ids, and
      otherwise has settled every batch it sent. */
  lemma DrainEndsIff(
    cfg: Config, world: World, watermark: nat, begin: Db, steps: seq<Step>, result: DrainResult)
    requires IsDrain(cfg, world, watermark, begin, steps, result)
    ensures result.QuarantineFailed? <==> exists k: nat :: k < |steps| && CannotQuarantine(steps[k])
    ensures result.SendFailed? <==> exists k: nat :: k < |steps| && Fails(steps[k])
    ensures result.Drained? || result.DrainedWithQuarantine? <==> Pending(steps) == None
  {
    hide Legal, Opens, Draining, Replay, Quarantinable, Pending;
    if k: nat :| 0 <= k < |steps| && CannotQuarantine(steps[k]) {
      StuckStays(cfg, world, watermark, begin, steps, k);
    }
    if k: nat :| 0 <= k < |steps| && Fails(steps[k]) {
      StuckStays(cfg, world, watermark, begin, steps, k);
    }
    if Pending(steps).Some? {
      var j := PendingWasSent(steps);
    }
  }

  // ---------------------------------------------------------------- the world decides a drain

  /** There is one batch to read below a watermark. */
  lemma BatchIsUnique(events: map<nat, Event>, watermark: nat, a: seq<Queued>, b: seq<Queued>)
    requires IsBatch(events, watermark, DRAIN_BATCH_SIZE, a) && IsBatch(events, watermark, DRAIN_BATCH_SIZE, b)
    ensures a == b
  {
    hide IsBatch;
    forall i: nat | i < |a| && i < |b| ensures a[i] == b[i] {
      SameEntry(events, watermark, a, b, i);
    }
    NoLonger(events, watermark, a, b);
    NoLonger(events, watermark, b, a);
  }

  lemma {:induction false} SameEntry(events: map<nat, Event>, watermark: nat, a: seq<Queued>, b: seq<Queued>, i: nat)
    requires IsBatch(events, watermark, DRAIN_BATCH_SIZE, a) && IsBatch(events, watermark, DRAIN_BATCH_SIZE, b)
    requires i < |a| && i < |b|
    ensures a[i] == b[i]
  {
    hide IsBatch;
    forall j: nat | j < i ensures a[j] == b[j] {
      SameEntry(events, watermark, a, b, j);
    }
    NotBefore(events, watermark, a, b, i);
    NotBefore(events, watermark, b, a, i);
    SameEvent(events, watermark, a, b, i);
  }

  lemma SameEvent(events: map<nat, Event>, watermark: nat, a: seq<Queued>, b: seq<Queued>, i: nat)
    requires IsBatch(events, watermark, DRAIN_BATCH_SIZE, a) && IsBatch(events, watermark, DRAIN_BATCH_SIZE, b)
    requires i < |a| && i < |b| && a[i].sqn == b[i].sqn
    ensures a[i] == b[i]
  {}

  lemma NotBefore(events: map<nat, Event>, watermark: nat, a: seq<Queued>, b: seq<Queued>, i: nat)
    requires IsBatch(events, watermark, DRAIN_BATCH_SIZE, a) && IsBatch(events, watermark, DRAIN_BATCH_SIZE, b)
    requires i < |a| && i < |b| && forall j: nat :: j < i ==> a[j] == b[j]
    ensures b[i].sqn <= a[i].sqn
  {
    if InBatch(b, a[i].sqn) {
      var j: nat :| j < |b| && b[j].sqn == a[i].sqn;
    }
  }

  lemma NoLonger(events: map<nat, Event>, watermark: nat, a: seq<Queued>, b: seq<Queued>)
    requires IsBatch(events, watermark, DRAIN_BATCH_SIZE, a) && IsBatch(events, watermark, DRAIN_BATCH_SIZE, b)
    requires forall i: nat :: i < |a| && i < |b| ==> a[i] == b[i]
    ensures |b| <= |a|
  {
    if |a| < |b| {
      Unread(a, b);
    }
  }

  lemma Unread(a: seq<Queued>, b: seq<Queued>)
    requires |a| < |b| && forall i: nat :: i < |a| ==> a[i] == b[i]
    requires forall i, j :: 0 <= i < j < |b| ==> b[i].sqn < b[j].sqn
    ensures !InBatch(a, b[|a|].sqn)
  {
    forall i | 0 <= i < |a| ensures a[i].sqn != b[|a|].sqn {
      assert b[i].sqn < b[|a|].sqn;
    }
  }

  /** At most one step may follow. */
  lemma NextIsDetermined(world: World, watermark: nat, db: Db, past: seq<Step>, a: Step, b: Step)
    requires MayFollow(world, watermark, db, past, a) && MayFollow(world, watermark, db, past, b)
    ensures a == b
  {
    hide IsBatch, Pending, Ticks, Sends, Landed, Gap, Quarantinable, Trimmed, JustRead;
    if a.Own? && a.tx.TxAcknowledge? && b.Own? && b.tx.TxAcknowledge? {
      assert a.tx.ats == b.tx.ats;
    }
    if a.Sent? && b.Sent? {
      BatchIsUnique(db.events, watermark, a.batch, b.batch);
    }
  }

  lemma {:induction false} LegalIsDetermined(
    cfg: Config, world: World, watermark: nat, begin: Db, a: seq<Step>, b: seq<Step>)
    requires Legal(cfg, world, watermark, begin, a) && Legal(cfg, world, watermark, begin, b) && |a| <= |b|
    ensures a <= b
  {
    hide MayFollow, Replay;
    if a != [] {
      var n := |a| - 1;
      LegalIsDetermined(cfg, world, watermark, begin, a[..n], b);
      assert a[..n] == b[..n];
      LegalAt(cfg, world, watermark, begin, b, n);
      NextIsDetermined(world, watermark, Replay(cfg, begin, a[..n]), a[..n], a[n], b[n]);
    }
  }

  /** The watermark is settled by the first read. */
  lemma WatermarkIsDetermined(
    cfg: Config, world: World, begin: Db, w: nat, v: nat, a: seq<Step>, b: seq<Step>, r: DrainResult, q: DrainResult)
    requires IsDrain(cfg, world, w, begin, a, r) && IsDrain(cfg, world, v, begin, b, q)
    ensures w == v && (FindsNothing(cfg, begin, w, a) <==> FindsNothing(cfg, begin, v, b))
  {
    hide Replay, EndsWith, Draining, AllLanded, MayFollow, JustRead;
    FirstStep(cfg, world, w, begin, a, r);
    FirstStep(cfg, world, v, begin, b, q);
    assert |a| == 1 ==> a[..1] == a;
    assert |b| == 1 ==> b[..1] == b;
  }

  lemma FirstStep(
    cfg: Config, world: World, watermark: nat, begin: Db, steps: seq<Step>, result: DrainResult)
    requires IsDrain(cfg, world, watermark, begin, steps, result)
    ensures steps != [] && steps[..1] == [Own(TxPrune(world.clock(0), world.clock(1)))]
  {
    hide Replay, EndsWith, Draining, AllLanded;
    LegalAt(cfg, world, watermark, begin, steps, 0);
    NothingDone(cfg, world, watermark, begin);
    assert steps[..0] == [];
    assert steps[..1][0] == steps[0];
  }

  /** After its last step a drain has no next one. */
  lemma NothingFollows(
    cfg: Config, world: World, watermark: nat, begin: Db, steps: seq<Step>, result: DrainResult, step: Step)
    requires IsDrain(cfg, world, watermark, begin, steps, result) && !FindsNothing(cfg, begin, watermark, steps)
    ensures !MayFollow(world, watermark, Replay(cfg, begin, steps), steps, step)
  {
    hide Legal, Replay, Quarantinable, Landed, Gap, Ticks, Sends, Pending;
    var db := Replay(cfg, begin, steps);
    assert |steps| == 1 ==> steps[..1] == steps;
    if MayFollow(world, watermark, db, steps, step) {
      if Pending(steps).Some? {
        OnlyAppendsFollow(world, watermark, db, steps, step);
      }
      if step.Sent? {
        var _ := SentIsQueued(world, watermark, db, steps, step);
      }
    }
  }

  lemma SentIsQueued(world: World, watermark: nat, db: Db, past: seq<Step>, step: Step)
    returns (s: nat)
    requires MayFollow(world, watermark, db, past, step) && step.Sent?
    ensures s in db.events && s <= watermark
  {
    hide Sends;
    s := step.batch[0].sqn;
  }

  lemma ShorterIsSame(
    cfg: Config, world: World, begin: Db, w: nat, v: nat, a: seq<Step>, b: seq<Step>, r: DrainResult, q: DrainResult)
    requires IsDrain(cfg, world, w, begin, a, r) && IsDrain(cfg, world, v, begin, b, q) && |a| <= |b|
    ensures w == v && a == b
  {
    hide Legal, EndsWith, Opens, Draining, AllLanded, Replay, MayFollow, Pending, JustRead;
    WatermarkIsDetermined(cfg, world, begin, w, v, a, b, r, q);
    LegalIsDetermined(cfg, world, w, begin, a, b);
    if |a| < |b| {
      LegalAt(cfg, world, w, begin, b, |a|);
      assert b[..|a|] == a;
      NothingFollows(cfg, world, w, begin, a, r, b[|a|]);
    }
  }

  /** The queue, the server's answers, the clock and the appends decide the whole drain: the steps it makes, the
      database it leaves and its result. */
  lemma DrainIsDetermined(
    cfg: Config, world: World, begin: Db, w: nat, v: nat, a: seq<Step>, b: seq<Step>, r: DrainResult, q: DrainResult)
    requires IsDrain(cfg, world, w, begin, a, r) && IsDrain(cfg, world, v, begin, b, q)
    ensures w == v && a == b && r == q
  {
    hide Legal, EndsWith, Opens, FindsNothing, Draining, AllLanded, Replay, Pending;
    if |a| <= |b| {
      ShorterIsSame(cfg, world, begin, w, v, a, b, r, q);
    } else {
      ShorterIsSame(cfg, world, begin, v, w, b, a, q, r);
    }
    EndIsDetermined(a, r, q);
  }

  lemma EndIsDetermined(steps: seq<Step>, r: DrainResult, q: DrainResult)
    requires EndsWith(steps, r) && EndsWith(steps, q)
    ensures r == q
  {
    hide Pending, Quarantined, Quarantinable;
  }

  // ---------------------------------------------------------------- drains in runs

  /** The transactions of a drain and of the appends that landed in it. */
  ghost function Txs(steps: seq<Step>): seq<Tx> {
    if steps == [] then [] else
      Txs(steps[..|steps| - 1]) +
      match steps[|steps| - 1]
      case Own(tx) => [tx]
      case Foreign(call) => [TxAppend(call.t0, call.t1, call.es, call.nows)]
      case Sent(_, _) => []
  }

  /** No append lands between a send of the drain and its settlement. */
  ghost predicate Undisturbed(steps: seq<Step>) {
    forall k :: 0 <= k < |steps| && steps[k].Foreign? ==> Pending(steps[..k]) == None
  }

  /** In a world where appends land only before reads, every drain is undisturbed. */
  lemma QuietGapsAreUndisturbed(cfg: Config, world: World, watermark: nat, begin: Db, steps: seq<Step>)
    requires Legal(cfg, world, watermark, begin, steps)
    requires forall n: nat :: world.appends(2 * n + 1) == []
    ensures Undisturbed(steps)
  {
    hide Legal, Replay, Pending, Sends;
    forall k | 0 <= k < |steps| && steps[k].Foreign? ensures Pending(steps[..k]) == None {
      LegalAt(cfg, world, watermark, begin, steps, k);
      if Pending(steps[..k]).Some? {
        var _ := PendingGapIsOdd(steps[..k]);
      }
    }
  }

  lemma PendingGapIsOdd(steps: seq<Step>) returns (n: nat)
    requires Pending(steps).Some?
    ensures Gap(steps) == 2 * n + 1
  {
    hide Pending, Sends;
    PendingMeansSent(steps);
    n := Sends(steps) - 1;
  }

  lemma {:induction false} PendingMeansSent(steps: seq<Step>)
    requires Pending(steps).Some?
    ensures Sends(steps) > 0
  {
    if !steps[|steps| - 1].Sent? {
      PendingMeansSent(steps[..|steps| - 1]);
    }
  }

  /** A run that ends with a drain under way: the pending batch is what a read returned before transaction `r`,
      and only appends have come since. */
  ghost predicate PendingRead(cfg: Config, run: seq<Tx>, steps: seq<Step>, r: nat)
    requires WellFormed(run)
  {
    && Pending(steps).Some? && Pending(steps).value.Sent? && r <= |run|
    && Fresh(Run(cfg, run[..r]), Pending(steps).value.batch)
    && forall i :: r <= i < |run| ==> run[i].TxAppend?
  }

  lemma UninterleavedGrows(cfg: Config, run: seq<Tx>, tx: Tx)
    requires WellFormed(run) && tx.WellFormed() && Uninterleaved(cfg, run)
    requires Settles(tx) ==> Fresh(Run(cfg, run), tx.batch)
    ensures WellFormed(run + [tx]) && Uninterleaved(cfg, run + [tx])
  {
    hide Run, Fresh;
    var grown := run + [tx];
    forall n | 0 <= n < |grown|
      ensures Settles(grown[n]) ==> Fresh(Run(cfg, grown[..n]), grown[n].batch)
    {
      if n < |run| {
        assert grown[..n] == run[..n] && grown[n] == run[n];
      } else {
        assert grown[..n] == run;
      }
    }
  }

  /** What is known of a run that ends with some steps of a drain. */
  ghost predicate Extends(cfg: Config, prior: seq<Tx>, steps: seq<Step>, run: seq<Tx>, r: nat) {
    && WellFormed(prior) && WellFormed(run) && Run(cfg, run) == Replay(cfg, Run(cfg, prior), steps)
    && (Sequential(cfg, prior) ==> Sequential(cfg, run))
    && (Uninterleaved(cfg, prior) && Undisturbed(steps) ==> Uninterleaved(cfg, run))
    && (Pending(steps).Some? ==> PendingRead(cfg, run, steps, r) && (Undisturbed(steps) ==> r == |run|))
  }

  lemma OwnExtends(
    cfg: Config, world: World, watermark: nat, prior: seq<Tx>, past: seq<Step>, run: seq<Tx>, r: nat, tx: Tx)
    requires Extends(cfg, prior, past, run, r)
    requires MayFollow(world, watermark, Replay(cfg, Run(cfg, prior), past), past, Own(tx))
    ensures Extends(cfg, prior, past + [Own(tx)], run + [tx], r)
  {
    hide Run, Apply, MayFollow, Fresh, Sequential, Uninterleaved, Undisturbed, Replay, Legal, Pending;
    var begin := Run(cfg, prior);
    var step := Own(tx);
    StepAdds(cfg, world, watermark, begin, past, step);
    StepCounts(past, step);
    UndisturbedGrows(past, step);
    MayFollowFormed(world, watermark, Replay(cfg, begin, past), past, step);
    RunGrows(cfg, run, tx);
    if Settles(tx) {
      SettledIsPending(world, watermark, Replay(cfg, begin, past), past, tx);
    }
    if Sequential(cfg, prior) {
      SequentialGrows(cfg, run, tx, r);
    }
    if Uninterleaved(cfg, prior) && Undisturbed(past) {
      assert run[..|run|] == run;
      UninterleavedGrows(cfg, run, tx);
    }
  }

  lemma ForeignExtends(
    cfg: Config, world: World, watermark: nat, prior: seq<Tx>, past: seq<Step>, run: seq<Tx>, r: nat, call: AppendCall)
    requires Extends(cfg, prior, past, run, r) && call.WellFormed()
    ensures Extends(cfg, prior, past + [Foreign(call)], run + [TxAppend(call.t0, call.t1, call.es, call.nows)], r)
  {
    hide Run, Apply, MayFollow, Fresh, Sequential, Uninterleaved, Undisturbed, Replay, Legal, Pending;
    var begin := Run(cfg, prior);
    var step := Foreign(call);
    var tx := TxAppend(call.t0, call.t1, call.es, call.nows);
    StepAdds(cfg, world, watermark, begin, past, step);
    StepCounts(past, step);
    UndisturbedGrows(past, step);
    AppendApplies(cfg, Replay(cfg, begin, past), call);
    RunGrows(cfg, run, tx);
    if Sequential(cfg, prior) {
      SequentialGrows(cfg, run, tx, r);
    }
    if Uninterleaved(cfg, prior) && Undisturbed(past) {
      UninterleavedGrows(cfg, run, tx);
    }
    if Pending(past).Some? {
      assert (run + [tx])[..r] == run[..r];
    }
  }

  lemma SentExtends(
    cfg: Config, world: World, watermark: nat, prior: seq<Tx>, past: seq<Step>, run: seq<Tx>, r: nat, step: Step)
    requires Extends(cfg, prior, past, run, r) && step.Sent?
    requires MayFollow(world, watermark, Replay(cfg, Run(cfg, prior), past), past, step)
    ensures Extends(cfg, prior, past + [step], run, |run|)
  {
    hide Run, MayFollow, Fresh, Sequential, Uninterleaved, Undisturbed, Replay, Legal, Pending;
    var begin := Run(cfg, prior);
    StepAdds(cfg, world, watermark, begin, past, step);
    StepCounts(past, step);
    UndisturbedGrows(past, step);
    SentIsFresh(world, watermark, Replay(cfg, begin, past), past, step);
    assert run[..|run|] == run;
  }

  /** Appending a drain to a run whose rounds follow one another gives such a run, in the state the drain leaves;
      and if no append lands between a send and its settlement, an uninterleaved run stays one. */
  lemma {:induction false} DrainExtendsRun(
    cfg: Config, world: World, watermark: nat, prior: seq<Tx>, steps: seq<Step>)
    returns (r: nat)
    requires WellFormed(prior) && Legal(cfg, world, watermark, Run(cfg, prior), steps)
    ensures Extends(cfg, prior, steps, prior + Txs(steps), r)
  {
    hide Run, MayFollow, Extends;
    if steps == [] {
      r := 0;
      assert prior + [] == prior;
      NothingExtends(cfg, prior, r);
    } else {
      var n := |steps| - 1;
      var run := prior + Txs(steps[..n]);
      r := DrainExtendsRun(cfg, world, watermark, prior, steps[..n]);
      MayFollowFormed(world, watermark, Replay(cfg, Run(cfg, prior), steps[..n]), steps[..n], steps[n]);
      assert steps == steps[..n] + [steps[n]];
      match steps[n]
      case Own(tx) =>
        assert prior + Txs(steps) == run + [tx];
        OwnExtends(cfg, world, watermark, prior, steps[..n], run, r, tx);
      case Foreign(call) =>
        assert prior + Txs(steps) == run + [TxAppend(call.t0, call.t1, call.es, call.nows)];
        ForeignExtends(cfg, world, watermark, prior, steps[..n], run, r, call);
      case Sent(_, _) =>
        assert prior + Txs(steps) == run;
        SentExtends(cfg, world, watermark, prior, steps[..n], run, r, steps[n]);
        r := |run|;
    }
  }

  lemma NothingExtends(cfg: Config, prior: seq<Tx>, r: nat)
    requires WellFormed(prior)
    ensures Extends(cfg, prior, [], prior, r)
  {
    hide Run, Sequential, Uninterleaved;
  }

  lemma AppendApplies(cfg: Config, db: Db, call: AppendCall)
    requires call.WellFormed()
    ensures Effect(cfg, db, Foreign(call)) == Apply(cfg, db, TxAppend(call.t0, call.t1, call.es, call.nows))
  {
    hide Append;
  }

  lemma UndisturbedGrows(past: seq<Step>, step: Step)
    ensures Undisturbed(past + [step]) ==> Undisturbed(past) && (step.Foreign? ==> Pending(past) == None)
  {
    hide Pending;
    var steps := past + [step];
    assert steps[..|past|] == past && steps[|past|] == step;
    assert forall k :: 0 <= k < |past| ==> past[k] == steps[k] && past[..k] == steps[..k];
  }

  lemma SettledIsPending(world: World, watermark: nat, db: Db, past: seq<Step>, tx: Tx)
    requires MayFollow(world, watermark, db, past, Own(tx)) && Settles(tx)
    ensures Pending(past).Some? && Pending(past).value.Sent? && Pending(past).value.batch == tx.batch
  {
    hide Quarantinable, Pending, Ticks, Trimmed;
  }

  lemma SentIsFresh(world: World, watermark: nat, db: Db, past: seq<Step>, step: Step)
    requires MayFollow(world, watermark, db, past, step) && step.Sent?
    ensures Fresh(db, step.batch)
  {
    hide IsBatch, Sends;
  }

  /** So a drain joins the whole-run theorems: whatever run it follows, and whatever lands in it, an id is
      acknowledged at most once as long as that id is never queued again between a read that returns it and its
      acknowledgement; and an undisturbed drain keeps every id in one place and acknowledges it at most once without
      further conditions. */
  lemma DrainAcknowledgesAtMostOnce(
    cfg: Config, world: World, watermark: nat, prior: seq<Tx>, steps: seq<Step>, id: string, created: int)
    requires WellFormed(prior) && Legal(cfg, world, watermark, Run(cfg, prior), steps)
    requires WellFormed(prior + Txs(steps)) && NonDecreasing(Clock(prior + Txs(steps)))
    requires id != "" && CreatedOnceAt(prior + Txs(steps), id, created)
    ensures Sequential(cfg, prior) && NeverRequeued(cfg, prior + Txs(steps), id) ==>
      Acknowledgements(prior + Txs(steps), id) <= 1
    ensures Uninterleaved(cfg, prior) && Undisturbed(steps) ==>
      Acknowledgements(prior + Txs(steps), id) <= 1 && Disjoint(Run(cfg, prior + Txs(steps)))
  {
    hide Run, Legal, Sequential, Uninterleaved, Undisturbed, NeverRequeued, Clock, NonDecreasing, CreatedOnceAt,
      Acknowledgements, Disjoint, Txs, Pending, PendingRead, Replay;
    var r := DrainExtendsRun(cfg, world, watermark, prior, steps);
    var run := prior + Txs(steps);
    if Sequential(cfg, prior) && NeverRequeued(cfg, run, id) {
      AcknowledgedAtMostOnce(cfg, run, id, created);
    }
    if Uninterleaved(cfg, prior) && Undisturbed(steps) {
      UninterleavedAtMostOnce(cfg, run, id, created);
      RunDisjoint(cfg, run);
    }
  }
}
