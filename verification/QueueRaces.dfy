/** What overlapping a drain round with an append can do to the queue, although the drain lock keeps rounds apart. */
module QueueRaces {
  import opened QueueInvariants
  import opened QueueModel
  import opened QueueRuns

  const ROOMY: Config := Config(10, 10)
  const APPEND_SNAPSHOT: Tx := TxAppend(5, 5, [SNAPSHOT], [5])

  function SettleSnapshot(sqn: nat): Tx { TxAcknowledge([Queued(sqn, SNAPSHOT)], [5]) }

  /** A snapshot is queued and read; another one replaces it before the first is acknowledged; then the second is
      read and acknowledged. */
  const REPLACED_IN_FLIGHT: seq<Tx> := [APPEND_SNAPSHOT, APPEND_SNAPSHOT, SettleSnapshot(1), SettleSnapshot(2)]

  /** Only the snapshot is queued, under this sequence, and nothing is too old. */
  ghost predicate HoldsSnapshot(db: Db, sqn: nat) {
    && Agrees(db) && db.events == map[sqn := SNAPSHOT] && db.nextSeq == sqn && db.quarantine == map[]
    && forall k :: k in db.deliveredTimes ==> k.at == 5
  }

  lemma ChargeOfOne(sqn: nat)
    ensures TotalCharge(map[sqn := SNAPSHOT]) == 1
  {
    TotalChargeInsert(map[], sqn, SNAPSHOT);
    assert map[][sqn := SNAPSHOT] == map[sqn := SNAPSHOT];
    assert TotalCharge(map[]) == 0;
  }

  lemma NothingTooOld(db: Db)
    requires Agrees(db) && (forall s :: s in db.events ==> db.events[s] == SNAPSHOT)
    requires forall k :: k in db.deliveredTimes ==> k.at == 5
    ensures Prune(ROOMY, db, 5, 5) == db
  {
    hide TotalCharge, TimesWithout, IdsWithout;
    assert Forget(db, -5).delivered == db.delivered by {
      forall id | id in db.delivered ensures db.delivered[id].at == 5 { assert db.delivered[id] in db.deliveredTimes; }
    }
    assert Forget(db, -5).deliveredTimes == db.deliveredTimes;
    assert Forget(db, -5) == db;
    assert Expired(db.events, -5) == {};
    WithoutNothing(db);
  }

  /** Appending the snapshot to a queue that holds none, or only the snapshot, unless it is delivered. */
  lemma AppendingSnapshot(db: Db)
    requires Agrees(db) && "s" !in db.delivered && db.quarantine == map[]
    requires db.events == map[] || (exists s :: db.events == map[s := SNAPSHOT])
    requires forall k :: k in db.deliveredTimes ==> k.at == 5
    ensures HoldsSnapshot(Apply(ROOMY, db, APPEND_SNAPSHOT), db.nextSeq + 1)
    ensures Apply(ROOMY, db, APPEND_SNAPSHOT).delivered == db.delivered
  {
    hide TotalCharge, TimesWithout, IdsWithout, Agrees;
    NothingTooOld(db);
    assert InsertAll(ROOMY, db, [SNAPSHOT], [5]) == Insert(db, SNAPSHOT) by {
      assert [SNAPSHOT][..0] == [] && [5][..0] == [];
      assert InsertAll(ROOMY, db, [], []) == db;
      assert !TooOld(ROOMY, SNAPSHOT, 5);
    }
    var after := Insert(db, SNAPSHOT);
    InsertAgrees(db, SNAPSHOT);
    InsertingSnapshot(db);
    ChargeOfOne(db.nextSeq + 1);
    assert Overflow(after.events, 10) == {};
    WithoutNothing(after);
  }

  lemma InsertingSnapshot(db: Db)
    requires Agrees(db) && "s" !in db.delivered && db.quarantine == map[]
    requires db.events == map[] || (exists s :: db.events == map[s := SNAPSHOT])
    ensures Insert(db, SNAPSHOT).events == map[db.nextSeq + 1 := SNAPSHOT]
    ensures Insert(db, SNAPSHOT).nextSeq == db.nextSeq + 1 && Insert(db, SNAPSHOT).quarantine == map[]
    ensures Insert(db, SNAPSHOT).delivered == db.delivered && Insert(db, SNAPSHOT).deliveredTimes == db.deliveredTimes
  {
    hide TotalCharge, TimesWithout, IdsWithout, TimesAgree, DeliveredMatch, Counted, Enter, Without;
    if db.events == map[] {
      assert "s" !in db.sqnOf;
      Entering(db);
      assert db.events[db.nextSeq + 1 := SNAPSHOT] == map[db.nextSeq + 1 := SNAPSHOT];
    } else {
      var s :| db.events == map[s := SNAPSHOT];
      assert s in db.idOf && db.sqnOf["s"] == s;
      var bare := Without(db, {s});
      Emptying(db, s);
      Entering(bare);
      assert bare.events[db.nextSeq + 1 := SNAPSHOT] == map[db.nextSeq + 1 := SNAPSHOT];
    }
  }

  lemma Entering(db: Db)
    ensures var after := Enter(db, SNAPSHOT);
      && after.events == db.events[db.nextSeq + 1 := SNAPSHOT] && after.nextSeq == db.nextSeq + 1
      && after.quarantine == db.quarantine && after.delivered == db.delivered
      && after.deliveredTimes == db.deliveredTimes
  {}

  lemma Emptying(db: Db, s: nat)
    requires db.events == map[s := SNAPSHOT]
    ensures var bare := Without(db, {s});
      && bare.events == map[] && bare.nextSeq == db.nextSeq
      && bare.quarantine == db.quarantine && bare.delivered == db.delivered && bare.deliveredTimes == db.deliveredTimes
  {
    hide TotalCharge, TimesWithout, IdsWithout;
    assert db.events - {s} == map[];
  }

  lemma SnapshotIsFresh(db: Db, sqn: nat)
    requires db.events == map[sqn := SNAPSHOT]
    ensures Fresh(db, [Queued(sqn, SNAPSHOT)])
  {
    var batch := [Queued(sqn, SNAPSHOT)];
    assert batch[0].sqn == sqn;
    assert IsBatch(db.events, sqn, DRAIN_BATCH_SIZE, batch);
  }

  /** Settling another sequence leaves the queued snapshot where it is. */
  lemma SettlingAnother(db: Db, sqn: nat, other: nat)
    requires HoldsSnapshot(db, sqn) && other != sqn
    ensures Apply(ROOMY, db, SettleSnapshot(other)).events == map[sqn := SNAPSHOT]
  {
    hide Acknowledge, Agrees, TotalCharge;
    var batch := [Queued(other, SNAPSHOT)];
    AcknowledgeEffect(db, batch, [5]);
    assert batch[..0] == [];
    assert Sequences(batch) == Sequences([]) + {other};
    assert db.events - {other} == db.events;
  }

  /** Rounds that follow one another are not enough: here each batch is what a read returned after the last
      settlement, the clock stands still and the snapshot keeps its creation time, and its id is acknowledged
      twice. */
  lemma ReplacedSnapshotIsAcknowledgedTwice()
    ensures WellFormed(REPLACED_IN_FLIGHT) && Sequential(ROOMY, REPLACED_IN_FLIGHT)
    ensures NonDecreasing(Clock(REPLACED_IN_FLIGHT)) && CreatedOnceAt(REPLACED_IN_FLIGHT, "s", 5)
    ensures Acknowledgements(REPLACED_IN_FLIGHT, "s") == 2
  {
    hide Apply, Fresh, HoldsSnapshot, TotalCharge;
    var txs := REPLACED_IN_FLIGHT;
    var one, two, three := txs[..1], txs[..2], txs[..3];
    assert one == [APPEND_SNAPSHOT] && two[..1] == one && three[..2] == two && txs[..3] == three && one[..0] == [];
    ReplacedRun();
    SnapshotIsFresh(Run(ROOMY, one), 1);
    SnapshotIsFresh(Run(ROOMY, three), 2);
    assert ReadAt(ROOMY, txs, 2, 1);
    assert ReadAt(ROOMY, txs, 3, 3);
    ReplacedClock();
  }

  lemma ReplacedRun()
    ensures WellFormed(REPLACED_IN_FLIGHT)
    ensures Run(ROOMY, REPLACED_IN_FLIGHT[..1]).events == map[1 := SNAPSHOT]
    ensures Run(ROOMY, REPLACED_IN_FLIGHT[..3]).events == map[2 := SNAPSHOT]
  {
    hide Apply, Run, Agrees, TotalCharge;
    var txs := REPLACED_IN_FLIGHT;
    assert txs[..1] == [APPEND_SNAPSHOT] && txs[..2] == [APPEND_SNAPSHOT, APPEND_SNAPSHOT];
    assert txs[..1][..0] == [] && txs[..2][..1] == txs[..1] && txs[..3][..2] == txs[..2];
    RunBegins(ROOMY);
    RunAgrees(ROOMY, []);
    RunEnds(ROOMY, txs[..1]);
    RunEnds(ROOMY, txs[..2]);
    RunEnds(ROOMY, txs[..3]);
    AppendingSnapshot(EMPTY);
    AppendingSnapshot(Run(ROOMY, txs[..1]));
    SettlingAnother(Run(ROOMY, txs[..2]), 2, 1);
  }

  lemma OccursOnce(q: Queued)
    ensures Occurs([q], q.event.id) == 1
  {
    assert [q][..0] == [];
    assert Occurs([], q.event.id) == 0;
  }

  lemma ReplacedClock()
    ensures NonDecreasing(Clock(REPLACED_IN_FLIGHT)) && CreatedOnceAt(REPLACED_IN_FLIGHT, "s", 5)
    ensures Acknowledgements(REPLACED_IN_FLIGHT, "s") == 2
  {
    var txs := REPLACED_IN_FLIGHT;
    assert txs[..1][..0] == [] && txs[..2][..1] == txs[..1] && txs[..3][..2] == txs[..2];
    assert Clock(txs[..1]) == [5, 5, 5];
    assert Clock(txs[..2]) == [5, 5, 5, 5, 5, 5];
    assert Clock(txs[..3]) == [5, 5, 5, 5, 5, 5, 5];
    assert Clock(txs) == [5, 5, 5, 5, 5, 5, 5, 5];
    OccursOnce(Queued(1, SNAPSHOT));
    OccursOnce(Queued(2, SNAPSHOT));
    assert Acknowledgements(txs[..1], "s") == 0;
    assert Acknowledgements(txs[..2], "s") == 0;
    assert Acknowledgements(txs[..3], "s") == 1;
  }
}
