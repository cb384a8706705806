/** Whole runs of the queue whose drain rounds are not interleaved with other transactions: an id is
    never in two places, and it is acknowledged at most once. */
module QueueRuns {
  import opened Options
  import opened QueueInvariants
  import opened QueueModel

  // ---------------------------------------------------------------- the effect of settling a batch

  ghost function Sequences(batch: seq<Queued>): set<nat> {
    if batch == [] then {} else Sequences(batch[..|batch| - 1]) + {batch[|batch| - 1].sqn}
  }

  /** The non-empty ids of a batch. */
  ghost function Ids(batch: seq<Queued>): set<string> {
    if batch == [] then {} else
      var last := batch[|batch| - 1].event.id;
      Ids(batch[..|batch| - 1]) + (if last == "" then {} else {last})
  }

  /** The entries of a batch whose id the server named. */
  ghost function Named(batch: seq<Queued>, rejected: set<string>): seq<Queued> {
    if batch == [] then [] else
      var n := |batch| - 1;
      var earlier := Named(batch[..n], rejected);
      if batch[n].event.id in rejected then earlier + [batch[n]] else earlier
  }

  lemma {:induction false} SequencesAre(batch: seq<Queued>)
    ensures forall i :: 0 <= i < |batch| ==> batch[i].sqn in Sequences(batch)
    ensures forall s :: s in Sequences(batch) ==> InBatch(batch, s)
  {
    if batch != [] {
      var n := |batch| - 1;
      SequencesAre(batch[..n]);
      forall s | s in Sequences(batch) ensures InBatch(batch, s) {
        if s != batch[n].sqn {
          var i :| 0 <= i < n && batch[..n][i].sqn == s;
          assert batch[i].sqn == s;
        }
      }
    }
  }

  ghost predicate HasId(batch: seq<Queued>, id: string) {
    exists i :: 0 <= i < |batch| && batch[i].event.id == id
  }

  lemma {:induction false} IdsAre(batch: seq<Queued>)
    ensures forall i :: 0 <= i < |batch| && batch[i].event.id != "" ==> batch[i].event.id in Ids(batch)
    ensures forall id :: id in Ids(batch) ==> id != "" && HasId(batch, id)
  {
    if batch != [] {
      var n := |batch| - 1;
      IdsAre(batch[..n]);
      forall id | id in Ids(batch) ensures id != "" && HasId(batch, id) {
        if id in Ids(batch[..n]) {
          var i :| 0 <= i < n && batch[..n][i].event.id == id;
          assert batch[i].event.id == id;
        } else {
          assert batch[n].event.id == id;
        }
      }
    }
  }

  /** What removing `dead` leaves of the queue, and what it does not touch. */
  ghost predicate Leaves(db: Db, dead: set<nat>, after: Db) {
    && after.events == db.events - dead
    && (forall id :: id in after.sqnOf <==> id in db.sqnOf && db.sqnOf[id] !in dead)
    && (forall id :: id in after.sqnOf ==> after.sqnOf[id] == db.sqnOf[id])
    && after.nextSeq == db.nextSeq
  }

  lemma LeavesCompose(db: Db, dead: set<nat>, mid: Db, more: set<nat>, after: Db)
    requires Leaves(db, dead, mid) && Leaves(mid, more, after)
    ensures Leaves(db, dead + more, after)
  {
    assert (db.events - dead) - more == db.events - (dead + more);
  }

  lemma WithoutLeaves(db: Db, dead: set<nat>)
    ensures Leaves(db, dead, Without(db, dead))
  {}

  /** The ids recorded as delivered are the old ones and `ids`; nothing else is delivered. */
  ghost predicate Records(db: Db, ids: set<string>, after: Db) {
    && (forall id :: id in after.delivered <==> id in db.delivered || id in ids)
    && after.quarantine == db.quarantine
  }

  ghost predicate Moves(db: Db, ids: set<string>, after: Db) {
    && (forall id :: id in after.quarantine <==> id in db.quarantine || id in ids)
    && after.delivered == db.delivered
  }

  lemma SettleEffect(db: Db, q: Queued, at: int)
    ensures Leaves(db, {q.sqn}, Settle(db, q, at))
    ensures Records(db, if q.event.id == "" then {} else {q.event.id}, Settle(db, q, at))
  {
    hide TotalCharge, TimesWithout;
    var recorded := if q.event.id == "" then db else Deliver(db, q.event.id, at);
    WithoutLeaves(recorded, {q.sqn});
    assert recorded.events == db.events && recorded.sqnOf == db.sqnOf && recorded.nextSeq == db.nextSeq;
    RecordedIds(db, q, at);
  }

  lemma RecordedIds(db: Db, q: Queued, at: int)
    ensures Records(db, if q.event.id == "" then {} else {q.event.id}, Settle(db, q, at))
  {
    hide TotalCharge, TimesWithout, IdsWithout;
    if q.event.id == "" {
      assert Settle(db, q, at).delivered == db.delivered;
    } else {
      assert Settle(db, q, at).delivered == db.delivered[q.event.id := DeliveredKey(at, q.event.id)];
    }
  }

  lemma RecordsCompose(db: Db, ids: set<string>, mid: Db, more: set<string>, after: Db)
    requires Records(db, ids, mid) && Records(mid, more, after)
    ensures Records(db, ids + more, after)
  {}

  /** Acknowledging removes exactly the batch's sequences and records exactly its ids. */
  lemma {:induction false} AcknowledgeEffect(db: Db, batch: seq<Queued>, ats: seq<int>)
    requires |batch| == |ats|
    ensures Leaves(db, Sequences(batch), Acknowledge(db, batch, ats))
    ensures Records(db, Ids(batch), Acknowledge(db, batch, ats))
  {
    if batch == [] {
      NothingLeaves(db);
    } else {
      hide Leaves, Records, Settle;
      var n := |batch| - 1;
      var id := batch[n].event.id;
      AcknowledgeEffect(db, batch[..n], ats[..n]);
      var before := Acknowledge(db, batch[..n], ats[..n]);
      SettleEffect(before, batch[n], ats[n]);
      LeavesCompose(db, Sequences(batch[..n]), before, {batch[n].sqn}, Acknowledge(db, batch, ats));
      RecordsCompose(db, Ids(batch[..n]), before, if id == "" then {} else {id}, Acknowledge(db, batch, ats));
    }
  }

  lemma NothingLeaves(db: Db)
    ensures Leaves(db, {}, db) && Records(db, {}, db) && Moves(db, {}, db)
  {
    assert db.events - {} == db.events;
  }

  lemma MovesCompose(db: Db, ids: set<string>, mid: Db, more: set<string>, after: Db)
    requires Moves(db, ids, mid) && Moves(mid, more, after)
    ensures Moves(db, ids + more, after)
  {}

  lemma MoveEffect(db: Db, q: Queued)
    requires q.event.id != ""
    ensures Leaves(db, {q.sqn}, Reject(db, q)) && Moves(db, {q.event.id}, Reject(db, q))
  {}

  /** Quarantining moves exactly the entries the server named. */
  lemma {:induction false} QuarantineEffect(db: Db, batch: seq<Queued>, rejected: set<string>)
    requires "" !in rejected
    ensures Leaves(db, Sequences(Named(batch, rejected)), Quarantine(db, batch, rejected))
    ensures Moves(db, Ids(Named(batch, rejected)), Quarantine(db, batch, rejected))
  {
    if batch == [] {
      NothingLeaves(db);
    } else {
      hide Leaves, Moves, Reject;
      var n := |batch| - 1;
      QuarantineEffect(db, batch[..n], rejected);
      var named, earlier := Named(batch, rejected), Named(batch[..n], rejected);
      if batch[n].event.id in rejected {
        var before := Quarantine(db, batch[..n], rejected);
        assert named[..|named| - 1] == earlier;
        MoveEffect(before, batch[n]);
        LeavesCompose(db, Sequences(earlier), before, {batch[n].sqn}, Quarantine(db, batch, rejected));
        MovesCompose(db, Ids(earlier), before, {batch[n].event.id}, Quarantine(db, batch, rejected));
      } else {
        assert named == earlier;
      }
    }
  }

  /** The last event of the batch with this id, if any. */
  function LastOf(batch: seq<Queued>, id: string): Option<Event> {
    if batch == [] then None
    else if batch[|batch| - 1].event.id == id then Some(batch[|batch| - 1].event)
    else LastOf(batch[..|batch| - 1], id)
  }

  /** Quarantine keeps a named event as it was, the last one of its id, and leaves every other record alone. */
  lemma {:induction false} QuarantineKeepsEvents(db: Db, batch: seq<Queued>, rejected: set<string>, id: string)
    ensures var after := Quarantine(db, batch, rejected).quarantine;
      if id in rejected && LastOf(batch, id).Some? then id in after && after[id] == LastOf(batch, id).value
      else (id in after <==> id in db.quarantine) && (id in after ==> after[id] == db.quarantine[id])
  {
    hide Reject;
    if batch != [] {
      var n := |batch| - 1;
      QuarantineKeepsEvents(db, batch[..n], rejected, id);
      RejectedRecord(Quarantine(db, batch[..n], rejected), batch[n]);
    }
  }

  lemma RejectedRecord(db: Db, q: Queued)
    ensures Reject(db, q).quarantine == db.quarantine[q.event.id := q.event]
  {}

  lemma {:induction false} NamedEntries(batch: seq<Queued>, rejected: set<string>)
    ensures forall q :: q in Named(batch, rejected) <==> q in batch && q.event.id in rejected
  {
    if batch != [] {
      var n := |batch| - 1;
      NamedEntries(batch[..n], rejected);
      assert batch == batch[..n] + [batch[n]];
    }
  }

  // ---------------------------------------------------------------- one id, one place

  /** Queued, delivered and quarantined ids are pairwise disjoint. */
  ghost predicate Disjoint(db: Db) {
    && (forall id :: id in db.sqnOf ==> id !in db.delivered && id !in db.quarantine)
    && (forall id :: id in db.delivered ==> id !in db.quarantine)
  }

  /** A batch as some watermark would read it from this database. */
  ghost predicate Fresh(db: Db, batch: seq<Queued>) {
    exists watermark: nat :: IsBatch(db.events, watermark, 500, batch)
  }

  /** No id of the batch is quarantined, or queued again under a sequence the batch does not hold. */
  ghost predicate Current(db: Db, batch: seq<Queued>) {
    forall id :: id in Ids(batch) ==> id !in db.quarantine && (id in db.sqnOf ==> db.sqnOf[id] in Sequences(batch))
  }

  lemma RecordsKeepsDisjointIff(db: Db, batch: seq<Queued>, after: Db)
    requires Disjoint(db) && Leaves(db, Sequences(batch), after) && Records(db, Ids(batch), after)
    ensures Disjoint(after) <==> Current(db, batch)
  {
    if Disjoint(after) {
      forall id | id in Ids(batch)
        ensures id !in db.quarantine && (id in db.sqnOf ==> db.sqnOf[id] in Sequences(batch))
      {
        assert id in after.delivered;
      }
    }
  }

  /** Acknowledging any batch, however stale, keeps ids in one place exactly when the batch is current. */
  lemma AcknowledgeKeepsDisjointIff(db: Db, batch: seq<Queued>, ats: seq<int>)
    requires Disjoint(db) && |batch| == |ats|
    ensures Disjoint(Acknowledge(db, batch, ats)) <==> Current(db, batch)
  {
    AcknowledgeEffect(db, batch, ats);
    RecordsKeepsDisjointIff(db, batch, Acknowledge(db, batch, ats));
  }

  /** No named id is already delivered, or queued again under a sequence the batch does not hold. */
  ghost predicate CurrentNamed(db: Db, named: seq<Queued>) {
    forall id :: id in Ids(named) ==> id !in db.delivered && (id in db.sqnOf ==> db.sqnOf[id] in Sequences(named))
  }

  lemma MovesKeepsDisjointIff(db: Db, named: seq<Queued>, after: Db)
    requires Disjoint(db) && Leaves(db, Sequences(named), after) && Moves(db, Ids(named), after)
    ensures Disjoint(after) <==> CurrentNamed(db, named)
  {
    if Disjoint(after) {
      forall id | id in Ids(named)
        ensures id !in db.delivered && (id in db.sqnOf ==> db.sqnOf[id] in Sequences(named))
      {
        assert id in after.quarantine;
      }
    }
  }

  lemma QuarantineKeepsDisjointIff(db: Db, batch: seq<Queued>, rejected: set<string>)
    requires Disjoint(db) && "" !in rejected
    ensures Disjoint(Quarantine(db, batch, rejected)) <==> CurrentNamed(db, Named(batch, rejected))
  {
    QuarantineEffect(db, batch, rejected);
    MovesKeepsDisjointIff(db, Named(batch, rejected), Quarantine(db, batch, rejected));
  }

  lemma ReadEntries(db: Db, batch: seq<Queued>)
    requires IdsAgree(db) && Fresh(db, batch)
    ensures forall i :: 0 <= i < |batch| ==> batch[i].sqn in db.events && db.events[batch[i].sqn] == batch[i].event
    ensures forall i :: 0 <= i < |batch| && batch[i].event.id != "" ==>
      batch[i].event.id in db.sqnOf && db.sqnOf[batch[i].event.id] == batch[i].sqn
  {
    var watermark: nat :| IsBatch(db.events, watermark, DRAIN_BATCH_SIZE, batch);
    forall i | 0 <= i < |batch| && batch[i].event.id != ""
      ensures batch[i].event.id in db.sqnOf && db.sqnOf[batch[i].event.id] == batch[i].sqn
    {
      assert batch[i].sqn in db.idOf;
    }
  }

  lemma FreshIsCurrent(db: Db, batch: seq<Queued>)
    requires IdsAgree(db) && Disjoint(db) && Fresh(db, batch)
    ensures Current(db, batch)
  {
    ReadEntries(db, batch);
    SequencesAre(batch);
    IdsAre(batch);
  }

  lemma FreshIsCurrentNamed(db: Db, batch: seq<Queued>, rejected: set<string>)
    requires IdsAgree(db) && Disjoint(db) && Fresh(db, batch)
    ensures CurrentNamed(db, Named(batch, rejected))
  {
    var named := Named(batch, rejected);
    ReadEntries(db, batch);
    NamedEntries(batch, rejected);
    SequencesAre(named);
    IdsAre(named);
    forall id | id in Ids(named)
      ensures id !in db.delivered && id in db.sqnOf && db.sqnOf[id] in Sequences(named)
    {
      var i :| 0 <= i < |named| && named[i].event.id == id;
      assert named[i] in batch;
    }
  }

  // ---------------------------------------------------------------- uninterleaved runs

  /** Every acknowledgement or quarantine settles a batch that is still what a read would return. */
  ghost predicate Uninterleaved(cfg: Config, txs: seq<Tx>)
    requires WellFormed(txs)
  {
    forall n :: 0 <= n < |txs| ==>
      match txs[n]
      case TxAcknowledge(batch, _) => Fresh(Run(cfg, txs[..n]), batch)
      case TxQuarantine(batch, _) => Fresh(Run(cfg, txs[..n]), batch)
      case _ => true
  }

  lemma UninterleavedPrefix(cfg: Config, txs: seq<Tx>)
    requires WellFormed(txs) && Uninterleaved(cfg, txs) && txs != []
    ensures Uninterleaved(cfg, txs[..|txs| - 1])
  {
    var before := txs[..|txs| - 1];
    forall n | 0 <= n < |before|
      ensures before[..n] == txs[..n] && before[n] == txs[n]
    {}
  }

  lemma InsertKeepsDisjoint(db: Db, e: Event)
    requires Disjoint(db)
    ensures Disjoint(Insert(db, e))
  {
    if Replaces(db, e) {
      assert Disjoint(Without(db, {db.sqnOf[e.id]}));
    }
  }

  lemma {:induction false} InsertAllKeepsDisjoint(cfg: Config, db: Db, es: seq<Event>, nows: seq<int>)
    requires Disjoint(db) && |es| == |nows|
    ensures Disjoint(InsertAll(cfg, db, es, nows))
  {
    if es != [] {
      var n := |es| - 1;
      InsertAllKeepsDisjoint(cfg, db, es[..n], nows[..n]);
      InsertKeepsDisjoint(InsertAll(cfg, db, es[..n], nows[..n]), es[n]);
    }
  }

  predicate Settles(tx: Tx) { tx.TxAcknowledge? || tx.TxQuarantine? }

  /** The batch settled by transaction `n` is what a read returned before transaction `r`, and nothing has been
      settled since: rounds follow one another, as the drain lock makes them. */
  ghost predicate ReadAt(cfg: Config, txs: seq<Tx>, n: nat, r: nat)
    requires WellFormed(txs) && n < |txs|
  {
    && Settles(txs[n]) && r <= n
    && Fresh(Run(cfg, txs[..r]), txs[n].batch)
    && forall i :: r <= i < n ==> !Settles(txs[i])
  }

  ghost predicate Sequential(cfg: Config, txs: seq<Tx>)
    requires WellFormed(txs)
  {
    forall n :: 0 <= n < |txs| && Settles(txs[n]) ==> exists r: nat :: ReadAt(cfg, txs, n, r)
  }

  /** Every batch is current when it is settled: none of the ids it settles has gone elsewhere, or been queued
      again, since the read. */
  ghost predicate AllCurrent(cfg: Config, txs: seq<Tx>)
    requires WellFormed(txs)
  {
    forall n :: 0 <= n < |txs| ==> CurrentTx(Run(cfg, txs[..n]), txs[n])
  }

  ghost predicate CurrentTx(db: Db, tx: Tx) {
    match tx
    case TxAcknowledge(batch, _) => Current(db, batch)
    case TxQuarantine(batch, rejected) => CurrentNamed(db, Named(batch, rejected))
    case _ => true
  }

  /** If the transaction acknowledges this id, the id has not been queued again under a sequence that the batch does
      not hold. */
  ghost predicate CurrentFor(db: Db, tx: Tx, id: string) {
    tx.TxAcknowledge? && id in Ids(tx.batch) && id in db.sqnOf ==> db.sqnOf[id] in Sequences(tx.batch)
  }

  /** The id is never queued again between a read that returns it and its acknowledgement. */
  ghost predicate NeverRequeued(cfg: Config, txs: seq<Tx>, id: string)
    requires WellFormed(txs)
  {
    forall n :: 0 <= n < |txs| ==> CurrentFor(Run(cfg, txs[..n]), txs[n], id)
  }

  /** An acknowledgement of an id leaves it out of the queue exactly when the id was not queued again meanwhile. */
  lemma AcknowledgedLeavesIff(cfg: Config, db: Db, tx: Tx, id: string)
    requires tx.WellFormed() && tx.TxAcknowledge? && id in Ids(tx.batch)
    ensures id !in Apply(cfg, db, tx).sqnOf <==> CurrentFor(db, tx, id)
  {
    AcknowledgeEffect(db, tx.batch, tx.ats);
  }

  lemma AllCurrentNeverRequeued(cfg: Config, txs: seq<Tx>, id: string)
    requires WellFormed(txs) && AllCurrent(cfg, txs)
    ensures NeverRequeued(cfg, txs, id)
  {
    hide Run;
    forall n | 0 <= n < |txs| ensures CurrentFor(Run(cfg, txs[..n]), txs[n], id) {
      assert CurrentTx(Run(cfg, txs[..n]), txs[n]);
    }
  }

  /** A transaction keeps ids in one place exactly when it settles a current batch, or nothing. */
  lemma ApplyKeepsDisjointIff(cfg: Config, db: Db, tx: Tx)
    requires tx.WellFormed() && Disjoint(db)
    ensures Disjoint(Apply(cfg, db, tx)) <==> CurrentTx(db, tx)
  {
    hide Current, CurrentNamed, Named;
    match tx
    case TxAppend(t0, t1, es, nows) =>
      PruneKeepsDisjoint(cfg, db, t0, t1);
      InsertAllKeepsDisjoint(cfg, Prune(cfg, db, t0, t1), es, nows);
    case TxPrune(t0, t1) => PruneKeepsDisjoint(cfg, db, t0, t1);
    case TxAcknowledge(batch, ats) => AcknowledgeKeepsDisjointIff(db, batch, ats);
    case TxQuarantine(batch, rejected) => QuarantineKeepsDisjointIff(db, batch, rejected);
  }

  lemma PruneKeepsDisjoint(cfg: Config, db: Db, t0: int, t1: int)
    requires Disjoint(db)
    ensures Disjoint(Prune(cfg, db, t0, t1))
  {}

  /** Over any run, an id is queued, delivered or quarantined and never two of them, in every state, if and only
      if every settled batch was current. */
  lemma RunDisjointIff(cfg: Config, txs: seq<Tx>)
    requires WellFormed(txs)
    ensures (forall n :: 0 <= n <= |txs| ==> Disjoint(Run(cfg, txs[..n]))) <==> AllCurrent(cfg, txs)
  {
    hide Disjoint, CurrentTx, Apply;
    if AllCurrent(cfg, txs) {
      forall n | 0 <= n <= |txs| ensures Disjoint(Run(cfg, txs[..n])) {
        AllCurrentPrefix(cfg, txs, n);
        CurrentDisjoint(cfg, txs[..n]);
      }
    }
    if forall n :: 0 <= n <= |txs| ==> Disjoint(Run(cfg, txs[..n])) {
      forall n | 0 <= n < |txs| ensures CurrentTx(Run(cfg, txs[..n]), txs[n]) {
        assert txs[..n + 1][..n] == txs[..n];
        assert Disjoint(Run(cfg, txs[..n + 1]));
        ApplyKeepsDisjointIff(cfg, Run(cfg, txs[..n]), txs[n]);
      }
    }
  }

  lemma AllCurrentPrefix(cfg: Config, txs: seq<Tx>, n: nat)
    requires WellFormed(txs) && AllCurrent(cfg, txs) && n <= |txs|
    ensures WellFormed(txs[..n]) && AllCurrent(cfg, txs[..n])
  {
    hide CurrentTx;
    forall k | 0 <= k < n ensures txs[..n][..k] == txs[..k] && txs[..n][k] == txs[k] {}
  }

  lemma {:induction false} CurrentDisjoint(cfg: Config, txs: seq<Tx>)
    requires WellFormed(txs) && AllCurrent(cfg, txs)
    ensures Disjoint(Run(cfg, txs))
  {
    if txs == [] {
      NothingIsDisjoint();
    } else {
      hide Disjoint, CurrentTx, Apply;
      AllCurrentPrefix(cfg, txs, |txs| - 1);
      CurrentDisjoint(cfg, txs[..|txs| - 1]);
      ApplyKeepsDisjointIff(cfg, Run(cfg, txs[..|txs| - 1]), txs[|txs| - 1]);
    }
  }

  lemma NothingIsDisjoint()
    ensures Disjoint(EMPTY)
  {}

  /** In every state of an uninterleaved run an id is queued, delivered or quarantined, never two of them. */
  lemma {:induction false} RunDisjoint(cfg: Config, txs: seq<Tx>)
    requires WellFormed(txs) && Uninterleaved(cfg, txs)
    ensures AllCurrent(cfg, txs) && Disjoint(Run(cfg, txs))
  {
    hide Disjoint, CurrentTx, Apply, Agrees, Fresh, Run, Uninterleaved;
    if txs == [] {
      RunBegins(cfg);
      NothingIsDisjoint();
      assert txs == [];
    } else {
      var n := |txs| - 1;
      UninterleavedPrefix(cfg, txs);
      UninterleavedLast(cfg, txs);
      RunDisjoint(cfg, txs[..n]);
      RunAgrees(cfg, txs[..n]);
      RunEnds(cfg, txs);
      FreshTxIsCurrent(Run(cfg, txs[..n]), txs[n]);
      ApplyKeepsDisjointIff(cfg, Run(cfg, txs[..n]), txs[n]);
      forall k | 0 <= k < |txs| ensures CurrentTx(Run(cfg, txs[..k]), txs[k]) {
        assert k < n ==> txs[..n][..k] == txs[..k] && txs[..n][k] == txs[k];
      }
    }
  }

  lemma RunBegins(cfg: Config)
    ensures Run(cfg, []) == EMPTY
  {}

  lemma RunEnds(cfg: Config, txs: seq<Tx>)
    requires WellFormed(txs) && txs != []
    ensures Run(cfg, txs) == Apply(cfg, Run(cfg, txs[..|txs| - 1]), txs[|txs| - 1])
  {
    hide Apply;
  }

  lemma UninterleavedLast(cfg: Config, txs: seq<Tx>)
    requires WellFormed(txs) && Uninterleaved(cfg, txs) && txs != []
    ensures Settles(txs[|txs| - 1]) ==> Fresh(Run(cfg, txs[..|txs| - 1]), txs[|txs| - 1].batch)
  {
    hide Run, Fresh;
  }

  lemma FreshTxIsCurrent(db: Db, tx: Tx)
    requires Agrees(db) && Disjoint(db) && (Settles(tx) ==> Fresh(db, tx.batch))
    ensures CurrentTx(db, tx)
  {
    match tx
    case TxAcknowledge(batch, _) => FreshIsCurrent(db, batch);
    case TxQuarantine(batch, rejected) => FreshIsCurrentNamed(db, batch, rejected);
    case _ =>
  }

  lemma UninterleavedIsSequential(cfg: Config, txs: seq<Tx>)
    requires WellFormed(txs) && Uninterleaved(cfg, txs)
    ensures Sequential(cfg, txs) && AllCurrent(cfg, txs)
  {
    hide Fresh;
    RunDisjoint(cfg, txs);
    forall n | 0 <= n < |txs| && Settles(txs[n]) ensures exists r: nat :: ReadAt(cfg, txs, n, r) {
      assert ReadAt(cfg, txs, n, n);
    }
  }

  // ---------------------------------------------------------------- a stale batch

  /** The drain lock does not exclude appends. Whenever a queued snapshot is replaced between the read of
      its batch and the acknowledgement, its id ends up both delivered and queued. */
  lemma StaleAcknowledgeBreaksDisjoint(db: Db, e: Event, at: int)
    requires Agrees(db) && Disjoint(db) && Replaces(db, e) && db.sqnOf[e.id] in db.events
    ensures var read := Queued(db.sqnOf[e.id], db.events[db.sqnOf[e.id]]);
      read.event.id == e.id && Disjoint(Insert(db, e)) && !Disjoint(Acknowledge(Insert(db, e), [read], [at]))
  {
    hide Agrees, Insert, Acknowledge, Disjoint;
    var read, after := Queued(db.sqnOf[e.id], db.events[db.sqnOf[e.id]]), Insert(db, e);
    ReplacedIsRequeued(db, e);
    InsertKeepsDisjoint(db, e);
    AcknowledgeKeepsDisjointIff(after, [read], [at]);
    IdsAre([read]);
    SequencesAre([read]);
    assert [read][0].event.id in Ids([read]);
  }

  lemma ReplacedIsRequeued(db: Db, e: Event)
    requires Agrees(db) && Replaces(db, e)
    ensures db.sqnOf[e.id] in db.events && db.events[db.sqnOf[e.id]].id == e.id
    ensures e.id in Insert(db, e).sqnOf && Insert(db, e).sqnOf[e.id] == db.nextSeq + 1 != db.sqnOf[e.id]
  {
    hide TotalCharge, TimesWithout;
  }

  const SNAPSHOT: Event := Event("s", "agent.discovery", 5, "")

  /** Such a database is one append away from the empty one. */
  lemma SnapshotCanBeReplaced()
    ensures Agrees(Insert(EMPTY, SNAPSHOT)) && Disjoint(Insert(EMPTY, SNAPSHOT))
    ensures Replaces(Insert(EMPTY, SNAPSHOT), SNAPSHOT)
  {
    assert TotalCharge(EMPTY.events) == 0;
    InsertAgrees(EMPTY, SNAPSHOT);
    InsertKeepsDisjoint(EMPTY, SNAPSHOT);
  }

  // ---------------------------------------------------------------- at most one acknowledgement

  /** How often an id is acknowledged by a batch, and over a run. */
  ghost function Occurs(batch: seq<Queued>, id: string): nat {
    if batch == [] then 0 else
      Occurs(batch[..|batch| - 1], id) + (if batch[|batch| - 1].event.id == id then 1 else 0)
  }

  ghost function Acknowledgements(txs: seq<Tx>, id: string): nat {
    if txs == [] then 0 else
      Acknowledgements(txs[..|txs| - 1], id) +
      match txs[|txs| - 1]
      case TxAcknowledge(batch, _) => Occurs(batch, id)
      case _ => 0
  }

  function Readings(tx: Tx): seq<int> {
    match tx
    case TxAppend(t0, t1, _, nows) => [t0, t1] + nows
    case TxPrune(t0, t1) => [t0, t1]
    case TxAcknowledge(_, ats) => ats
    case TxQuarantine(_, _) => []
  }

  /** All clock readings of a run, in order. */
  ghost function Clock(txs: seq<Tx>): seq<int> {
    if txs == [] then [] else Clock(txs[..|txs| - 1]) + Readings(txs[|txs| - 1])
  }

  ghost predicate NonDecreasing(ts: seq<int>) {
    forall i, j :: 0 <= i < j < |ts| ==> ts[i] <= ts[j]
  }

  /** Every event appended under `id` was created at `created`, and is acknowledged no earlier. */
  ghost predicate CreatedOnceAt(txs: seq<Tx>, id: string, created: int) {
    forall n :: 0 <= n < |txs| ==> TxCreatedAt(txs[n], id, created)
  }

  ghost predicate TxCreatedAt(tx: Tx, id: string, created: int) {
    match tx
    case TxAppend(_, _, es, _) => forall i :: 0 <= i < |es| && es[i].id == id ==> es[i].createdAt == created
    case TxAcknowledge(batch, ats) =>
      |batch| == |ats| && forall i :: 0 <= i < |batch| && batch[i].event.id == id ==> created <= ats[i]
    case _ => true
  }

  /** Once acknowledged, an id is out of the queue and either still remembered as delivered, or so old
      that every later append refuses it. */
  ghost predicate Retired(cfg: Config, db: Db, id: string, created: int, clock: seq<int>) {
    && id !in db.sqnOf
    && ((id in db.delivered && db.delivered[id].at >= created) ||
        (clock != [] && created < clock[|clock| - 1] - cfg.maxAge))
  }

  lemma OccursInFresh(db: Db, watermark: nat, batch: seq<Queued>, id: string)
    requires IdsAgree(db) && id != "" && IsBatch(db.events, watermark, DRAIN_BATCH_SIZE, batch)
    ensures Occurs(batch, id) <= (if id in db.sqnOf then 1 else 0)
    ensures Occurs(batch, id) > 0 <==> id in Ids(batch)
  {
    ReadEntries(db, batch);
    IdsAre(batch);
    OccursOnce(batch, id, if id in db.sqnOf then db.sqnOf[id] else 0);
  }

  lemma {:induction false} OccursOnce(batch: seq<Queued>, id: string, s: nat)
    requires id != ""
    requires forall i :: 0 <= i < |batch| && batch[i].event.id == id ==> batch[i].sqn == s
    requires forall i, j :: 0 <= i < j < |batch| ==> batch[i].sqn < batch[j].sqn
    ensures Occurs(batch, id) <= 1
    ensures Occurs(batch, id) > 0 <==> id in Ids(batch)
  {
    if batch != [] {
      var n := |batch| - 1;
      OccursOnce(batch[..n], id, s);
      IdsAre(batch[..n]);
      if id in Ids(batch[..n]) {
        var i :| 0 <= i < n && batch[..n][i].event.id == id;
        assert batch[i].sqn < batch[n].sqn;
      }
    }
  }

  /** Deliveries of an id happen at clock readings of the acknowledging transaction. */
  lemma {:induction false} DeliveredWhen(db: Db, batch: seq<Queued>, ats: seq<int>, id: string, created: int)
    requires |batch| == |ats| && id != ""
    requires forall i :: 0 <= i < |batch| && batch[i].event.id == id ==> created <= ats[i]
    requires id in Ids(batch) || (id in db.delivered && db.delivered[id].at >= created)
    ensures var after := Acknowledge(db, batch, ats); id in after.delivered && after.delivered[id].at >= created
  {
    if batch != [] {
      var n := |batch| - 1;
      if batch[n].event.id != id {
        DeliveredWhen(db, batch[..n], ats[..n], id, created);
      }
    }
  }

  lemma {:induction false} AppendKeepsRetired(
    cfg: Config, db: Db, es: seq<Event>, nows: seq<int>, id: string, created: int, clock: seq<int>)
    requires |es| == |nows| && id != "" && NonDecreasing(clock + nows)
    requires forall i :: 0 <= i < |es| && es[i].id == id ==> es[i].createdAt == created
    requires Retired(cfg, db, id, created, clock)
    ensures Retired(cfg, InsertAll(cfg, db, es, nows), id, created, clock)
  {
    if es != [] {
      var n := |es| - 1;
      assert clock + nows[..n] == (clock + nows)[..|clock| + n];
      AppendKeepsRetired(cfg, db, es[..n], nows[..n], id, created, clock);
      var before := InsertAll(cfg, db, es[..n], nows[..n]);
      if es[n].id == id && !TooOld(cfg, es[n], nows[n]) {
        if clock != [] {
          assert (clock + nows)[|clock| - 1] <= (clock + nows)[|clock| + n];
        }
        assert Settled(before, id);
      }
    }
  }

  lemma PruneKeepsRetired(cfg: Config, db: Db, t0: int, t1: int, id: string, created: int, clock: seq<int>)
    requires NonDecreasing(clock + [t0, t1]) && Retired(cfg, db, id, created, clock)
    ensures Retired(cfg, Prune(cfg, db, t0, t1), id, created, clock + [t0, t1])
  {
    var after := clock + [t0, t1];
    assert after[|clock|] == t0 && after[|clock| + 1] == t1;
    if clock != [] {
      assert after[|clock| - 1] == clock[|clock| - 1];
    }
    var pruned := Prune(cfg, db, t0, t1);
    if id in db.delivered && db.delivered[id].at >= created && db.delivered[id].at >= t0 - cfg.maxAge {
      assert id in pruned.delivered;
    }
  }

  /** The invariant of the whole-run theorem. */
  lemma {:induction false} AcknowledgedThenRetired(cfg: Config, txs: seq<Tx>, id: string, created: int)
    requires WellFormed(txs) && Sequential(cfg, txs) && NonDecreasing(Clock(txs))
    requires id != "" && CreatedOnceAt(txs, id, created) && NeverRequeued(cfg, txs, id)
    ensures Acknowledgements(txs, id) <= 1
    ensures Acknowledgements(txs, id) == 1 ==> Retired(cfg, Run(cfg, txs), id, created, Clock(txs))
    decreases |txs|
  {
    if txs != [] {
      var n := |txs| - 1;
      var before, clock, tx := Run(cfg, txs[..n]), Clock(txs[..n]), txs[n];
      assert clock == Clock(txs)[..|clock|];
      SequentialPrefix(cfg, txs, n);
      NeverRequeuedPrefix(cfg, txs, n, id);
      AcknowledgedThenRetired(cfg, txs[..n], id, created);
      RunAgrees(cfg, txs[..n]);
      assert TxCreatedAt(tx, id, created);
      if Acknowledgements(txs[..n], id) == 1 {
        RetiredStaysRetired(cfg, before, tx, id, created, clock);
      }
      if tx.TxAcknowledge? {
        ReadUnacknowledged(cfg, txs, id, created, tx.batch, tx.ats);
        if id in Ids(tx.batch) {
          DeliveredWhen(before, tx.batch, tx.ats, id, created);
          AcknowledgedLeavesIff(cfg, before, tx, id);
        }
      }
    }
  }

  /** The batch holds the id at most once, and not if it was acknowledged before. */
  ghost predicate Unacknowledged(txs: seq<Tx>, batch: seq<Queued>, id: string) {
    && Occurs(batch, id) <= 1 && (Occurs(batch, id) > 0 <==> id in Ids(batch))
    && (id in Ids(batch) ==> Acknowledgements(txs, id) == 0)
  }

  /** A batch holds an id at most once, and only one that was not acknowledged when the batch was read, and so
      not since. */
  lemma {:induction false} ReadUnacknowledged(
    cfg: Config, txs: seq<Tx>, id: string, created: int, batch: seq<Queued>, ats: seq<int>)
    requires txs != [] && txs[|txs| - 1] == TxAcknowledge(batch, ats)
    requires WellFormed(txs) && Sequential(cfg, txs) && NonDecreasing(Clock(txs))
    requires id != "" && CreatedOnceAt(txs, id, created) && NeverRequeued(cfg, txs, id)
    ensures Unacknowledged(txs[..|txs| - 1], batch, id)
    decreases |txs|, 0
  {
    hide Run, Fresh, Agrees, CurrentFor, Occurs, Ids, CreatedOnceAt;
    var n := |txs| - 1;
    var r: nat :| ReadAt(cfg, txs, n, r);
    RunAgrees(cfg, txs[..r]);
    OccursWhenRead(Run(cfg, txs[..r]), batch, id);
    CreatedPrefix(txs, r, id, created);
    SequentialPrefix(cfg, txs, r);
    NeverRequeuedPrefix(cfg, txs, r, id);
    ClockPrefix(txs, r);
    AcknowledgedThenRetired(cfg, txs[..r], id, created);
    assert txs[..n][..r] == txs[..r];
    NothingSettledSince(txs[..n], r, id);
  }

  lemma OccursWhenRead(db: Db, batch: seq<Queued>, id: string)
    requires Agrees(db) && Fresh(db, batch) && id != ""
    ensures Occurs(batch, id) <= 1 && (Occurs(batch, id) > 0 <==> id in Ids(batch))
    ensures id in Ids(batch) ==> id in db.sqnOf
  {
    var watermark: nat :| IsBatch(db.events, watermark, DRAIN_BATCH_SIZE, batch);
    OccursInFresh(db, watermark, batch, id);
  }

  lemma CreatedPrefix(txs: seq<Tx>, r: nat, id: string, created: int)
    requires r <= |txs| && CreatedOnceAt(txs, id, created)
    ensures CreatedOnceAt(txs[..r], id, created)
  {
    hide TxCreatedAt;
  }

  lemma SequentialPrefix(cfg: Config, txs: seq<Tx>, r: nat)
    requires WellFormed(txs) && Sequential(cfg, txs) && r <= |txs|
    ensures WellFormed(txs[..r]) && Sequential(cfg, txs[..r])
  {
    hide Run, Fresh;
    var before := txs[..r];
    forall n | 0 <= n < r && Settles(before[n]) ensures exists k: nat :: ReadAt(cfg, before, n, k) {
      assert before[..n] == txs[..n] && before[n] == txs[n];
      var k: nat :| ReadAt(cfg, txs, n, k);
      assert before[..k] == txs[..k];
      assert ReadAt(cfg, before, n, k);
    }
  }

  lemma NeverRequeuedPrefix(cfg: Config, txs: seq<Tx>, r: nat, id: string)
    requires WellFormed(txs) && NeverRequeued(cfg, txs, id) && r <= |txs|
    ensures WellFormed(txs[..r]) && NeverRequeued(cfg, txs[..r], id)
  {
    hide Run, CurrentFor;
    forall n | 0 <= n < r ensures txs[..r][..n] == txs[..n] && txs[..r][n] == txs[n] {}
  }

  lemma {:induction false} ClockPrefix(txs: seq<Tx>, r: nat)
    requires r <= |txs| && NonDecreasing(Clock(txs))
    ensures NonDecreasing(Clock(txs[..r]))
    decreases |txs|
  {
    if r == |txs| {
      assert txs[..r] == txs;
    } else {
      var n := |txs| - 1;
      assert Clock(txs[..n]) == Clock(txs)[..|Clock(txs[..n])|];
      ClockPrefix(txs[..n], r);
      assert txs[..n][..r] == txs[..r];
    }
  }

  lemma {:induction false} NothingSettledSince(txs: seq<Tx>, r: nat, id: string)
    requires r <= |txs| && forall i :: r <= i < |txs| ==> !Settles(txs[i])
    ensures Acknowledgements(txs, id) == Acknowledgements(txs[..r], id)
    decreases |txs|
  {
    if r == |txs| {
      assert txs[..r] == txs;
    } else {
      var n := |txs| - 1;
      NothingSettledSince(txs[..n], r, id);
      assert txs[..n][..r] == txs[..r];
      assert !Settles(txs[n]);
    }
  }

  lemma RetiredStaysRetired(cfg: Config, db: Db, tx: Tx, id: string, created: int, clock: seq<int>)
    requires tx.WellFormed() && id != ""
    requires NonDecreasing(clock + Readings(tx)) && TxCreatedAt(tx, id, created)
    requires Retired(cfg, db, id, created, clock)
    ensures Retired(cfg, Apply(cfg, db, tx), id, created, clock + Readings(tx))
  {
    match tx
    case TxAppend(t0, t1, es, nows) =>
      var ticks := clock + [t0, t1];
      assert clock + Readings(tx) == ticks + nows;
      assert ticks == (ticks + nows)[..|ticks|];
      PruneKeepsRetired(cfg, db, t0, t1, id, created, clock);
      AppendKeepsRetired(cfg, Prune(cfg, db, t0, t1), es, nows, id, created, ticks);
      LaterClockRetired(cfg, Apply(cfg, db, tx), id, created, ticks, nows);
    case TxPrune(t0, t1) => PruneKeepsRetired(cfg, db, t0, t1, id, created, clock);
    case TxAcknowledge(batch, ats) =>
      AcknowledgeEffect(db, batch, ats);
      if id in db.delivered && db.delivered[id].at >= created {
        DeliveredWhen(db, batch, ats, id, created);
      } else {
        LaterClockRetired(cfg, db, id, created, clock, ats);
      }
    case TxQuarantine(batch, rejected) =>
      QuarantineEffect(db, batch, rejected);
      assert clock + [] == clock;
  }

  lemma LaterClockRetired(cfg: Config, db: Db, id: string, created: int, clock: seq<int>, more: seq<int>)
    requires NonDecreasing(clock + more) && Retired(cfg, db, id, created, clock)
    ensures Retired(cfg, db, id, created, clock + more)
  {
    var all := clock + more;
    if clock != [] {
      assert all[|clock| - 1] == clock[|clock| - 1];
      assert |more| > 0 ==> all[|clock| - 1] <= all[|all| - 1];
    }
  }

  /** Whole-run at-most-once acknowledgement of one id, for rounds that follow one another, as long as that id is not
      queued again between a read that returns it and its acknowledgement. Anything may happen to other ids. */
  lemma AcknowledgedAtMostOnce(cfg: Config, txs: seq<Tx>, id: string, created: int)
    requires WellFormed(txs) && Sequential(cfg, txs) && NonDecreasing(Clock(txs))
    requires id != "" && CreatedOnceAt(txs, id, created) && NeverRequeued(cfg, txs, id)
    ensures Acknowledgements(txs, id) <= 1
  {
    AcknowledgedThenRetired(cfg, txs, id, created);
  }

  /** In particular when drain rounds are not interleaved with anything. */
  lemma UninterleavedAtMostOnce(cfg: Config, txs: seq<Tx>, id: string, created: int)
    requires WellFormed(txs) && Uninterleaved(cfg, txs) && NonDecreasing(Clock(txs))
    requires id != "" && CreatedOnceAt(txs, id, created)
    ensures Acknowledgements(txs, id) <= 1
  {
    UninterleavedIsSequential(cfg, txs);
    AllCurrentNeverRequeued(cfg, txs, id);
    AcknowledgedAtMostOnce(cfg, txs, id, created);
  }

  // ---------------------------------------------------------------- when an id can be acknowledged again

  lemma RunGrows(cfg: Config, run: seq<Tx>, tx: Tx)
    requires WellFormed(run) && tx.WellFormed()
    ensures WellFormed(run + [tx]) && Run(cfg, run + [tx]) == Apply(cfg, Run(cfg, run), tx)
  {
    hide Apply;
    assert (run + [tx])[..|run|] == run;
    RunEnds(cfg, run + [tx]);
  }

  /** A settlement of what a read returned, with only appends and reads since, is the next round. */
  lemma SequentialGrows(cfg: Config, run: seq<Tx>, tx: Tx, r: nat)
    requires WellFormed(run) && tx.WellFormed() && Sequential(cfg, run)
    requires Settles(tx) ==>
      r <= |run| && Fresh(Run(cfg, run[..r]), tx.batch) && forall i :: r <= i < |run| ==> !Settles(run[i])
    ensures WellFormed(run + [tx]) && Sequential(cfg, run + [tx])
  {
    hide Run, Fresh;
    var grown := run + [tx];
    forall n | 0 <= n < |grown| && Settles(grown[n]) ensures exists k: nat :: ReadAt(cfg, grown, n, k) {
      if n < |run| {
        assert grown[n] == run[n];
        var k: nat :| ReadAt(cfg, run, n, k);
        assert grown[..k] == run[..k];
        assert ReadAt(cfg, grown, n, k);
      } else {
        assert grown[..r] == run[..r];
        assert ReadAt(cfg, grown, n, r);
      }
    }
  }

  /** A run the drain lock and a clock that never goes back allow, in which `id` is created once. */
  ghost predicate Admissible(cfg: Config, txs: seq<Tx>, id: string, created: int) {
    WellFormed(txs) && Sequential(cfg, txs) && NonDecreasing(Clock(txs)) && CreatedOnceAt(txs, id, created)
  }

  /** The run has just acknowledged `id`. */
  ghost predicate JustAcknowledged(txs: seq<Tx>, id: string) {
    txs != [] && txs[|txs| - 1].TxAcknowledge? && id in Ids(txs[|txs| - 1].batch)
  }

  lemma AdmissiblePrefix(cfg: Config, txs: seq<Tx>, r: nat, id: string, created: int)
    requires Admissible(cfg, txs, id, created) && r <= |txs|
    ensures Admissible(cfg, txs[..r], id, created)
  {
    hide Sequential, NonDecreasing, Clock, CreatedOnceAt;
    SequentialPrefix(cfg, txs, r);
    ClockPrefix(txs, r);
    CreatedPrefix(txs, r, id, created);
  }

  lemma ClockEnds(txs: seq<Tx>)
    requires txs != []
    ensures Clock(txs) == Clock(txs[..|txs| - 1]) + Readings(txs[|txs| - 1])
  {
    hide Readings;
  }

  /** Just acknowledged and not in the queue, an id is retired. */
  lemma OutIsRetired(cfg: Config, txs: seq<Tx>, id: string, created: int)
    requires Admissible(cfg, txs, id, created) && id != "" && JustAcknowledged(txs, id) && id !in Run(cfg, txs).sqnOf
    ensures Retired(cfg, Run(cfg, txs), id, created, Clock(txs))
  {
    hide Sequential, NonDecreasing, Clock, Acknowledge, Ids, Run;
    var tx := txs[|txs| - 1];
    assert TxCreatedAt(tx, id, created);
    RunEnds(cfg, txs);
    DeliveredWhen(Run(cfg, txs[..|txs| - 1]), tx.batch, tx.ats, id, created);
  }

  /** What is retired right after a settlement stays so, and is not acknowledged again. */
  lemma {:induction false} RetiredForever(cfg: Config, txs: seq<Tx>, more: seq<Tx>, id: string, created: int)
    requires Admissible(cfg, txs + more, id, created) && WellFormed(txs) && id != ""
    requires txs != [] && Settles(txs[|txs| - 1]) && Retired(cfg, Run(cfg, txs), id, created, Clock(txs))
    ensures Retired(cfg, Run(cfg, txs + more), id, created, Clock(txs + more))
    ensures Acknowledgements(txs + more, id) == Acknowledgements(txs, id)
    decreases |more|
  {
    hide Sequential, NonDecreasing, CreatedOnceAt, Run, Clock, Apply, Fresh, Retired, Readings, Occurs;
    if more == [] {
      assert txs + more == txs;
    } else {
      var n := |more| - 1;
      var all, before, tx := txs + more, txs + more[..n], more[n];
      assert all[..|all| - 1] == before && all[|all| - 1] == tx;
      AdmissiblePrefix(cfg, all, |before|, id, created);
      assert all[..|before|] == before;
      RetiredForever(cfg, txs, more[..n], id, created);
      StepRetired(cfg, all, id, created);
      if tx.TxAcknowledge? {
        var r := ReadAfter(cfg, txs, more);
        var read := txs + more[..r];
        assert all[..|txs| + r] == read;
        AdmissiblePrefix(cfg, all, |read|, id, created);
        RetiredForever(cfg, txs, more[..r], id, created);
        RunAgrees(cfg, read);
        RetiredNotRead(cfg, Run(cfg, read), tx.batch, id, created, Clock(read));
      }
    }
  }

  lemma StepRetired(cfg: Config, txs: seq<Tx>, id: string, created: int)
    requires Admissible(cfg, txs, id, created) && txs != [] && id != ""
    requires Retired(cfg, Run(cfg, txs[..|txs| - 1]), id, created, Clock(txs[..|txs| - 1]))
    ensures Retired(cfg, Run(cfg, txs), id, created, Clock(txs))
  {
    hide Sequential, NonDecreasing, Run, Clock, Apply, Retired, Readings, TxCreatedAt;
    var n := |txs| - 1;
    RunEnds(cfg, txs);
    ClockEnds(txs);
    RetiredStaysRetired(cfg, Run(cfg, txs[..n]), txs[n], id, created, Clock(txs[..n]));
  }

  /** A batch settled after an earlier settlement was read after it. */
  lemma ReadAfter(cfg: Config, txs: seq<Tx>, more: seq<Tx>) returns (r: nat)
    requires WellFormed(txs + more) && Sequential(cfg, txs + more)
    requires txs != [] && Settles(txs[|txs| - 1]) && more != [] && Settles(more[|more| - 1])
    ensures r < |more| && WellFormed(txs + more[..r]) && Fresh(Run(cfg, txs + more[..r]), more[|more| - 1].batch)
  {
    hide Run, Fresh;
    var all, n := txs + more, |txs| + |more| - 1;
    assert all[n] == more[|more| - 1] && all[|txs| - 1] == txs[|txs| - 1];
    var k: nat :| ReadAt(cfg, all, n, k);
    assert k >= |txs|;
    r := k - |txs|;
    assert all[..k] == txs + more[..r];
  }

  lemma RetiredNotRead(
    cfg: Config, db: Db, batch: seq<Queued>, id: string, created: int, clock: seq<int>)
    requires Agrees(db) && Fresh(db, batch) && id != "" && Retired(cfg, db, id, created, clock)
    ensures Occurs(batch, id) == 0
  {
    hide Agrees, Fresh, Occurs, Ids;
    OccursWhenRead(db, batch, id);
  }

  function Later(clock: seq<int>, created: int): int {
    if clock == [] || clock[|clock| - 1] < created then created else clock[|clock| - 1]
  }

  lemma {:induction false} LeastQueued(events: map<nat, Event>) returns (s: nat)
    requires events != map[]
    ensures s in events && forall r :: r in events ==> s <= r
    decreases |events|
  {
    var p :| p in events;
    var rest := events - {p};
    if rest == map[] {
      s := p;
      assert forall r :: r in events ==> r == p || r in rest;
    } else {
      var q := LeastQueued(rest);
      s := if p < q then p else q;
      assert forall r :: r in events ==> r == p || r in rest;
    }
  }

  /** Reading and acknowledging the first queued event alone is a round the run can go on with. */
  lemma FirstCanBeAcknowledged(cfg: Config, txs: seq<Tx>, id: string, created: int, s: nat)
    requires Admissible(cfg, txs, id, created)
    requires var events := Run(cfg, txs).events; s in events && forall r :: r in events ==> s <= r
    ensures var e := Run(cfg, txs).events[s];
      Admissible(cfg, txs + [TxAcknowledge([Queued(s, e)], [Later(Clock(txs), created)])], id, created)
  {
    hide Run, Sequential, Clock, Apply;
    var db, t := Run(cfg, txs), Later(Clock(txs), created);
    var batch := [Queued(s, db.events[s])];
    var tx := TxAcknowledge(batch, [t]);
    var grown := txs + [tx];
    assert grown[..|txs|] == txs && txs[..|txs|] == txs;
    assert Fresh(db, batch) by {
      assert batch[0].sqn == s;
      assert IsBatch(db.events, s, DRAIN_BATCH_SIZE, batch);
    }
    SequentialGrows(cfg, txs, tx, |txs|);
    ClockEnds(grown);
    forall n | 0 <= n < |grown| ensures TxCreatedAt(grown[n], id, created) {
      assert n < |txs| ==> grown[n] == txs[n];
    }
  }

  /** An id that is queued can still be acknowledged: round after round takes the first event out until it comes. */
  lemma {:induction false} QueuedCanBeAcknowledged(cfg: Config, txs: seq<Tx>, id: string, created: int)
    returns (more: seq<Tx>)
    requires Admissible(cfg, txs, id, created) && id != "" && id in Run(cfg, txs).sqnOf
    ensures Admissible(cfg, txs + more, id, created) && Acknowledgements(txs + more, id) > Acknowledgements(txs, id)
    decreases |Run(cfg, txs).events|
  {
    hide Run, Sequential, NonDecreasing, Clock, Apply, CreatedOnceAt, Agrees, Acknowledgements;
    var db := Run(cfg, txs);
    RunAgrees(cfg, txs);
    QueuedSomewhere(db, id);
    var s := LeastQueued(db.events);
    var batch, t := [Queued(s, db.events[s])], Later(Clock(txs), created);
    var tx := TxAcknowledge(batch, [t]);
    FirstCanBeAcknowledged(cfg, txs, id, created, s);
    AcknowledgingOne(txs, tx, id);
    if db.events[s].id == id {
      more := [tx];
    } else {
      RunGrows(cfg, txs, tx);
      OthersStayQueued(cfg, db, s, t, id);
      var rest := QueuedCanBeAcknowledged(cfg, txs + [tx], id, created);
      more := [tx] + rest;
      assert txs + more == (txs + [tx]) + rest;
    }
  }

  lemma QueuedSomewhere(db: Db, id: string)
    requires Agrees(db) && id in db.sqnOf
    ensures db.sqnOf[id] in db.events && db.events[db.sqnOf[id]].id == id
  {}

  lemma AcknowledgingOne(txs: seq<Tx>, tx: Tx, id: string)
    requires tx.TxAcknowledge? && |tx.batch| == 1
    ensures Acknowledgements(txs + [tx], id) ==
      Acknowledgements(txs, id) + if tx.batch[0].event.id == id then 1 else 0
  {
    var grown := txs + [tx];
    assert grown[..|grown| - 1] == txs && grown[|grown| - 1] == tx;
    assert tx.batch[..0] == [] && Occurs([], id) == 0;
    assert Occurs(tx.batch, id) == if tx.batch[0].event.id == id then 1 else 0;
  }

  lemma OthersStayQueued(cfg: Config, db: Db, s: nat, t: int, id: string)
    requires Agrees(db) && s in db.events && id in db.sqnOf && db.events[s].id != id
    ensures var after := Apply(cfg, db, TxAcknowledge([Queued(s, db.events[s])], [t]));
      id in after.sqnOf && |after.events| < |db.events|
  {
    hide Agrees, Acknowledge;
    var batch := [Queued(s, db.events[s])];
    QueuedSomewhere(db, id);
    AcknowledgeEffect(db, batch, [t]);
    SequencesAre(batch);
    assert Sequences(batch) == {s};
    OneFewer(db.events, s);
  }

  lemma OneFewer(events: map<nat, Event>, s: nat)
    requires s in events
    ensures |events - {s}| < |events|
  {
    var rest := events - {s};
    assert rest.Keys == events.Keys - {s};
    assert |rest.Keys| == |rest| && |events.Keys| == |events|;
  }

  /** Exactly when an acknowledged id can be acknowledged again: some admissible way to go on does so if and only if
      the id is still queued, and that is so if and only if it was queued again, under a sequence the batch does not
      hold, between the read of the batch and its acknowledgement. */
  lemma AcknowledgedAgainIff(cfg: Config, txs: seq<Tx>, id: string, created: int)
    requires Admissible(cfg, txs, id, created) && id != "" && JustAcknowledged(txs, id)
    ensures (exists more ::
               Admissible(cfg, txs + more, id, created) && Acknowledgements(txs + more, id) > Acknowledgements(txs, id))
      <==> id in Run(cfg, txs).sqnOf
    ensures id in Run(cfg, txs).sqnOf <==> !CurrentFor(Run(cfg, txs[..|txs| - 1]), txs[|txs| - 1], id)
  {
    hide Run, Acknowledgements, CurrentFor, Retired, Apply, Sequential, NonDecreasing, Clock, CreatedOnceAt;
    RunEnds(cfg, txs);
    AcknowledgedLeavesIff(cfg, Run(cfg, txs[..|txs| - 1]), txs[|txs| - 1], id);
    if id in Run(cfg, txs).sqnOf {
      var _ := QueuedCanBeAcknowledged(cfg, txs, id, created);
    } else {
      OutIsRetired(cfg, txs, id, created);
      forall more | Admissible(cfg, txs + more, id, created)
        ensures Acknowledgements(txs + more, id) == Acknowledgements(txs, id)
      {
        RetiredForever(cfg, txs, more, id, created);
      }
    }
  }

  /** Once the run has acknowledged `id` for the first time it never does again, however it goes on. */
  ghost predicate OnceForAll(cfg: Config, txs: seq<Tx>, id: string, created: int) {
    forall more ::
      Admissible(cfg, txs + more, id, created) && Acknowledgements(txs, id) > 0 ==>
        Acknowledgements(txs + more, id) == 1
  }

  /** Over any run: after every prefix that has acknowledged the id it stays acknowledged once, however the prefix is
      continued, if and only if the run never queues it again between a read that returns it and its
      acknowledgement. */
  lemma AtMostOnceIff(cfg: Config, txs: seq<Tx>, id: string, created: int)
    requires Admissible(cfg, txs, id, created) && id != ""
    ensures (forall k: nat :: k <= |txs| ==> OnceForAll(cfg, txs[..k], id, created)) <==> NeverRequeued(cfg, txs, id)
  {
    hide Run, Acknowledgements, CurrentFor, Sequential, NonDecreasing, Clock, CreatedOnceAt, OnceForAll;
    if NeverRequeued(cfg, txs, id) {
      forall k: nat | k <= |txs| ensures OnceForAll(cfg, txs[..k], id, created) {
        AdmissiblePrefix(cfg, txs, k, id, created);
        NeverRequeuedPrefix(cfg, txs, k, id);
        NeverAgain(cfg, txs[..k], id, created);
      }
    }
    if forall k: nat :: k <= |txs| ==> OnceForAll(cfg, txs[..k], id, created) {
      forall n: nat | n < |txs| ensures CurrentFor(Run(cfg, txs[..n]), txs[n], id) {
        AdmissiblePrefix(cfg, txs, n + 1, id, created);
        assert txs[..n + 1][..n] == txs[..n];
        OnceForAllIsCurrent(cfg, txs[..n + 1], id, created);
      }
    }
  }

  lemma OnceForAllIsCurrent(cfg: Config, txs: seq<Tx>, id: string, created: int)
    requires Admissible(cfg, txs, id, created) && id != "" && txs != [] && OnceForAll(cfg, txs, id, created)
    ensures CurrentFor(Run(cfg, txs[..|txs| - 1]), txs[|txs| - 1], id)
  {
    hide Run, Acknowledgements, Sequential, NonDecreasing, Clock, CreatedOnceAt;
    if JustAcknowledged(txs, id) {
      AcknowledgedCounts(cfg, txs, id, created);
      AcknowledgedAgainIff(cfg, txs, id, created);
      assert forall more :: Admissible(cfg, txs + more, id, created) ==> Acknowledgements(txs + more, id) == 1;
    }
  }

  lemma AcknowledgedCounts(cfg: Config, txs: seq<Tx>, id: string, created: int)
    requires Admissible(cfg, txs, id, created) && id != "" && txs != [] && txs[|txs| - 1].TxAcknowledge?
    ensures JustAcknowledged(txs, id) <==> Acknowledgements(txs, id) > Acknowledgements(txs[..|txs| - 1], id)
  {
    hide Run, NonDecreasing, Clock, CreatedOnceAt, Agrees, Fresh, Occurs, Ids;
    var n := |txs| - 1;
    var r: nat :| ReadAt(cfg, txs, n, r);
    RunAgrees(cfg, txs[..r]);
    OccursWhenRead(Run(cfg, txs[..r]), txs[n].batch, id);
  }

  lemma {:induction false} FirstAcknowledgement(cfg: Config, txs: seq<Tx>, id: string, created: int) returns (n: nat)
    requires Admissible(cfg, txs, id, created) && id != "" && Acknowledgements(txs, id) > 0
    ensures n < |txs| && JustAcknowledged(txs[..n + 1], id) && Acknowledgements(txs[..n], id) == 0
    decreases |txs|
  {
    hide Sequential, NonDecreasing, Clock, CreatedOnceAt, Ids;
    n := |txs| - 1;
    if Acknowledgements(txs[..n], id) > 0 {
      AdmissiblePrefix(cfg, txs, n, id, created);
      var m := FirstAcknowledgement(cfg, txs[..n], id, created);
      assert txs[..n][..m + 1] == txs[..m + 1] && txs[..n][..m] == txs[..m];
      n := m;
    } else {
      assert txs[..n + 1] == txs;
      if txs[n].TxAcknowledge? {
        AcknowledgedCounts(cfg, txs, id, created);
      }
    }
  }

  lemma NeverAgain(cfg: Config, txs: seq<Tx>, id: string, created: int)
    requires Admissible(cfg, txs, id, created) && id != "" && NeverRequeued(cfg, txs, id)
    ensures OnceForAll(cfg, txs, id, created)
  {
    hide Run, Acknowledgements, Sequential, NonDecreasing, Clock, CreatedOnceAt, Ids, Retired, CurrentFor;
    if Acknowledgements(txs, id) > 0 {
      var n := FirstAcknowledgement(cfg, txs, id, created);
      var first, later := txs[..n + 1], txs[n + 1..];
      assert first[..n] == txs[..n] && first[n] == txs[n];
      AdmissiblePrefix(cfg, txs, n + 1, id, created);
      NeverRequeuedPrefix(cfg, txs, n + 1, id);
      AcknowledgedAtMostOnce(cfg, first, id, created);
      AcknowledgedCounts(cfg, first, id, created);
      AcknowledgedAgainIff(cfg, first, id, created);
      assert CurrentFor(Run(cfg, txs[..n]), txs[n], id);
      OutIsRetired(cfg, first, id, created);
      forall more | Admissible(cfg, txs + more, id, created) ensures Acknowledgements(txs + more, id) == 1 {
        assert txs + more == first + (later + more);
        RetiredForever(cfg, first, later + more, id, created);
      }
    }
  }

  // ---------------------------------------------------------------- appending again

  /** Appending an event again changes nothing while its id is queued, delivered or quarantined. */
  lemma {:induction false} ReappendChangesNothing(cfg: Config, db: Db, es: seq<Event>, nows: seq<int>)
    requires |es| == |nows|
    requires forall i :: 0 <= i < |es| ==> Duplicate(db, es[i]) || TooOld(cfg, es[i], nows[i])
    ensures InsertAll(cfg, db, es, nows) == db
  {
    if es != [] {
      ReappendChangesNothing(cfg, db, es[..|es| - 1], nows[..|es| - 1]);
    }
  }

  /** The queue has this id, or remembers having settled it. */
  predicate Known(db: Db, id: string) { Settled(db, id) || id in db.sqnOf }

  lemma InsertKeepsKnown(db: Db, e: Event, id: string)
    requires IdsAgree(db) && id != "" && Known(db, id)
    ensures Known(Insert(db, e), id)
  {
    hide TotalCharge, TimesWithout;
  }

  lemma InsertKnows(db: Db, e: Event)
    requires e.id != ""
    ensures Known(Insert(db, e), e.id)
  {
    hide TotalCharge, TimesWithout, IdsWithout;
  }

  lemma {:induction false} InsertAllKeepsKnown(cfg: Config, db: Db, es: seq<Event>, nows: seq<int>, id: string)
    requires Agrees(db) && |es| == |nows| && id != "" && Known(db, id)
    ensures Known(InsertAll(cfg, db, es, nows), id)
  {
    hide Agrees, Insert, Known, TooOld;
    if es != [] {
      var n := |es| - 1;
      InsertAllKeepsKnown(cfg, db, es[..n], nows[..n], id);
      InsertAllAgrees(cfg, db, es[..n], nows[..n]);
      AgreedIds(InsertAll(cfg, db, es[..n], nows[..n]));
      InsertKeepsKnown(InsertAll(cfg, db, es[..n], nows[..n]), es[n], id);
    }
  }

  lemma AgreedIds(db: Db)
    requires Agrees(db)
    ensures IdsAgree(db)
  {}

  /** After an append every event of it is known, unless it was too old to be looked at. */
  lemma {:induction false} InsertAllKnows(cfg: Config, db: Db, es: seq<Event>, nows: seq<int>, i: nat)
    requires Agrees(db) && |es| == |nows| && i < |es| && es[i].id != ""
    ensures TooOld(cfg, es[i], nows[i]) || Known(InsertAll(cfg, db, es, nows), es[i].id)
  {
    hide Agrees, Insert, Known, TooOld;
    var n := |es| - 1;
    var before := InsertAll(cfg, db, es[..n], nows[..n]);
    InsertAllAgrees(cfg, db, es[..n], nows[..n]);
    if i == n {
      InsertKnows(before, es[n]);
    } else {
      InsertAllKnows(cfg, db, es[..n], nows[..n], i);
      AgreedIds(before);
      if Known(before, es[i].id) {
        InsertKeepsKnown(before, es[n], es[i].id);
      }
    }
  }

  /** Nothing queued or delivered has expired at these clock readings. */
  ghost predicate Unexpired(cfg: Config, db: Db, t0: int, t1: int) {
    && (forall id :: id in db.delivered ==> db.delivered[id].at >= t0 - cfg.maxAge)
    && (forall s :: s in db.events ==> db.events[s].createdAt >= t1 - cfg.maxAge)
  }

  lemma PruneNothing(cfg: Config, db: Db, t0: int, t1: int)
    requires Agrees(db) && Unexpired(cfg, db, t0, t1)
    ensures Prune(cfg, db, t0, t1) == db
  {
    ForgetNothing(cfg, db, t0);
    assert Expired(db.events, cfg.Cutoff(t1)) == {};
    WithoutNothing(db);
  }

  lemma ForgetNothing(cfg: Config, db: Db, t0: int)
    requires Agrees(db) && forall id :: id in db.delivered ==> db.delivered[id].at >= t0 - cfg.maxAge
    ensures Forget(db, cfg.Cutoff(t0)) == db
  {
    var forgotten := Forget(db, cfg.Cutoff(t0));
    assert forgotten.delivered == db.delivered;
    assert forgotten.deliveredTimes == db.deliveredTimes;
  }

  lemma EvictNothing(cfg: Config, db: Db)
    requires Agrees(db) && TotalCharge(db.events) <= cfg.maxBytes
    ensures Evict(cfg, db) == db
  {
    hide TotalCharge;
    assert Overflow(db.events, cfg.maxBytes) == {};
    WithoutNothing(db);
  }

  /** Appending the same events again changes nothing at all, as long as they fitted the first time, nothing has
      expired since, and none is a snapshot. */
  lemma AppendTwiceChangesNothing(
    cfg: Config, db: Db, es: seq<Event>, t0: int, t1: int, nows: seq<int>, u0: int, u1: int, later: seq<int>)
    requires Agrees(db) && |es| == |nows| == |later|
    requires forall i :: 0 <= i < |es| ==> es[i].id != "" && !Compactable(es[i]) && nows[i] <= later[i]
    requires TotalCharge(InsertAll(cfg, Prune(cfg, db, t0, t1), es, nows).events) <= cfg.maxBytes
    requires Unexpired(cfg, Append(cfg, db, t0, t1, es, nows), u0, u1)
    ensures Append(cfg, Append(cfg, db, t0, t1, es, nows), u0, u1, es, later) == Append(cfg, db, t0, t1, es, nows)
  {
    hide Agrees, Prune, InsertAll, Evict, Unexpired, TotalCharge;
    var pruned := Prune(cfg, db, t0, t1);
    var first := InsertAll(cfg, pruned, es, nows);
    PruneAgrees(cfg, db, t0, t1);
    InsertAllAgrees(cfg, pruned, es, nows);
    EvictNothing(cfg, first);
    PruneNothing(cfg, first, u0, u1);
    forall i | 0 <= i < |es| ensures Duplicate(first, es[i]) || TooOld(cfg, es[i], later[i]) {
      InsertAllKnows(cfg, pruned, es, nows, i);
    }
    ReappendChangesNothing(cfg, first, es, later);
  }

  /** An append without snapshots keeps everything queued where it is, and what it adds is new to the queue. */
  lemma {:induction false} InsertAllAddsUnknown(cfg: Config, db: Db, es: seq<Event>, nows: seq<int>)
    requires Agrees(db) && |es| == |nows| && forall i :: 0 <= i < |es| ==> es[i].id != "" && !Compactable(es[i])
    ensures var after := InsertAll(cfg, db, es, nows);
      && (forall s :: s in db.events ==> s in after.events && after.events[s] == db.events[s])
      && (forall s :: s in after.events && s !in db.events ==> after.events[s] in es && !Known(db, after.events[s].id))
  {
    hide Agrees, Insert, Known, TooOld, Compactable;
    if es != [] {
      var n := |es| - 1;
      var before := InsertAll(cfg, db, es[..n], nows[..n]);
      InsertAllAddsUnknown(cfg, db, es[..n], nows[..n]);
      InsertAllAgrees(cfg, db, es[..n], nows[..n]);
      NumbersAgreed(before);
      InsertAddsUnknown(before, es[n]);
      if Known(db, es[n].id) {
        InsertAllKeepsKnown(cfg, db, es[..n], nows[..n], es[n].id);
      }
      assert forall e :: e in es[..n] ==> e in es;
    }
  }

  lemma NumbersAgreed(db: Db)
    requires Agrees(db)
    ensures forall s :: s in db.events ==> s <= db.nextSeq
  {}

  lemma InsertAddsUnknown(db: Db, e: Event)
    requires e.id != "" && !Compactable(e) && forall s :: s in db.events ==> s <= db.nextSeq
    ensures var after := Insert(db, e);
      after == db || (!Known(db, e.id) && after.events == db.events[db.nextSeq + 1 := e])
  {
    hide TotalCharge, TimesWithout, IdsWithout;
  }

  // ---------------------------------------------------------------- versions of one id

  /** The event queued under an id, if any. */
  ghost function VersionOf(db: Db, id: string): Option<Event> {
    if id in db.sqnOf && db.sqnOf[id] in db.events then Some(db.events[db.sqnOf[id]]) else None
  }

  /** The first event of an append under this id that is not too old. */
  function FirstOf(cfg: Config, es: seq<Event>, nows: seq<int>, id: string): Option<Event>
    requires |es| == |nows|
  {
    if es == [] then None else
      var n := |es| - 1;
      var earlier := FirstOf(cfg, es[..n], nows[..n], id);
      if earlier.Some? || es[n].id != id || TooOld(cfg, es[n], nows[n]) then earlier else Some(es[n])
  }

  lemma InsertVersion(db: Db, e: Event, id: string)
    requires Agrees(db) && id != "" && !Compactable(e)
    ensures var after := Insert(db, e);
      && VersionOf(after, id) == (if e.id == id && !Known(db, id) then Some(e) else VersionOf(db, id))
      && (Known(after, id) <==> Known(db, id) || e.id == id)
  {
    hide TotalCharge, TimesWithout, IdsWithout, TimesAgree, DeliveredAgree, Counted;
  }

  /** Of several versions of one event an append queues the first that is not too old, and none at all while the queue
      knows the id: what is queued under it then stays as it is. */
  lemma {:induction false} OnlyFirstVersionEnters(cfg: Config, db: Db, es: seq<Event>, nows: seq<int>, id: string)
    requires Agrees(db) && |es| == |nows| && id != "" && forall i :: 0 <= i < |es| ==> !Compactable(es[i])
    ensures var after, first := InsertAll(cfg, db, es, nows), FirstOf(cfg, es, nows, id);
      && VersionOf(after, id) == (if Known(db, id) then VersionOf(db, id) else first)
      && (Known(after, id) <==> Known(db, id) || first.Some?)
  {
    hide Agrees, Insert, Known, VersionOf, TooOld, Compactable;
    if es == [] {
      if !Known(db, id) {
        NothingUnknown(db, id);
      }
    } else {
      var n := |es| - 1;
      OnlyFirstVersionEnters(cfg, db, es[..n], nows[..n], id);
      InsertAllAgrees(cfg, db, es[..n], nows[..n]);
      InsertVersion(InsertAll(cfg, db, es[..n], nows[..n]), es[n], id);
    }
  }

  lemma NothingUnknown(db: Db, id: string)
    requires !Known(db, id)
    ensures VersionOf(db, id) == None
  {}
}
