/** Fork accounting over runs: while sessions only grow, every collection charges each distinct invocation
    exactly once. */
module ForkRuns {
  import opened ForkAccounting
  import opened ForkModel

  /** The sessions of one collection: each hash once, each invocation once per session, and copies of an
      invocation agree wherever they are. */
  ghost predicate Consistent(sessions: seq<Session>, what: Catalog) {
    Distinct(sessions) &&
    forall i :: 0 <= i < |sessions| ==> OncePerId(sessions[i].invocations) && Conforms(sessions[i].invocations, what)
  }

  /** Every earlier session is still there, with at least its earlier invocations. */
  ghost predicate Grown(earlier: seq<Session>, later: seq<Session>) {
    forall i :: 0 <= i < |earlier| ==> GrownIn(earlier[i], later)
  }

  ghost predicate GrownIn(s: Session, later: seq<Session>) {
    exists j :: 0 <= j < |later| && later[j].hash == s.hash && Ids(s.invocations) <= Ids(later[j].invocations)
  }

  function SumTotals(accounted: seq<Accounted>): Usage {
    if accounted == [] then ZERO else SumTotals(accounted[..|accounted| - 1]).Plus(accounted[|accounted| - 1].total)
  }

  /** The stored offsets of a session are what its inherited invocations add up to, and subtracting them
      never clips. */
  ghost predicate ExactOffsets(sessions: seq<Session>, ranks: map<nat, nat>, s: Session, offsets: Buckets) {
    forall b :: Get(offsets, b) == Observed(sessions, ranks, s, b) && Get(offsets, b).AtMost(Recorded(s, b))
  }

  /** Each session is charged its own invocations, bucket by bucket, and all sessions together each distinct
      invocation once. */
  ghost predicate Conserved(sessions: seq<Session>, next: Store, accounted: seq<Accounted>, what: Catalog) {
    && |accounted| == |sessions|
    && (forall i :: 0 <= i < |sessions| ==>
          && ExactOffsets(sessions, next.ranks, sessions[i], OffsetsOf(next.offsets, sessions[i].hash))
          && HoldsSums(accounted[i].buckets, OwnedIds(sessions, next.ranks, sessions[i]), what)
          && accounted[i].total == SumIds(OwnedIds(sessions, next.ranks, sessions[i]), UsageOf(what)))
    && SumTotals(accounted) == SumIds(AllIds(sessions), UsageOf(what))
  }

  // ---------------------------------------------------------------- one collection

  /** No stored offset exceeds what is observed now. */
  ghost predicate Behind(offsets: map<nat, Buckets>, sessions: seq<Session>, ranks: map<nat, nat>) {
    forall i :: 0 <= i < |sessions| ==> BehindOne(OffsetsOf(offsets, sessions[i].hash), sessions, ranks, sessions[i])
  }

  ghost predicate BehindOne(stored: Buckets, sessions: seq<Session>, ranks: map<nat, nat>, s: Session) {
    forall b :: Get(stored, b).AtMost(Observed(sessions, ranks, s, b))
  }

  lemma MaxOfSmaller(a: Usage, b: Usage)
    requires a.AtMost(b)
    ensures a.Max(b) == b
  {}

  lemma SubtractPart(whole: Usage, part: Usage, rest: Usage)
    requires whole == rest.Plus(part)
    ensures whole.Minus(part) == rest && part.AtMost(whole)
  {}

  /** What a session records in a bucket splits into what it owns and what it inherits. */
  lemma RecordedSplits(sessions: seq<Session>, ranks: map<nat, nat>, s: Session, b: Bucket, what: Catalog)
    requires OncePerId(s.invocations) && Conforms(s.invocations, what)
    ensures var owned := SumIds(OwnedIds(sessions, ranks, s), UsageIn(what, b));
      Recorded(s, b) == owned.Plus(Observed(sessions, ranks, s, b))
  {
    hide Usage.Plus, SumIds, Inherited;
    var all, inherited := Ids(s.invocations), InheritedIds(sessions, ranks, s);
    BucketSumIsSumIds(s.invocations, all, b, what);
    BucketSumIsSumIds(s.invocations, inherited, b, what);
    assert all * all == all && all * inherited == inherited;
    SumIdsUnion(OwnedIds(sessions, ranks, s), inherited, UsageIn(what, b));
    assert OwnedIds(sessions, ranks, s) + inherited == all;
  }

  /** One session of a collection that starts behind. */
  lemma SessionExact(
    stored: map<nat, Buckets>, sessions: seq<Session>, ranks: map<nat, nat>, s: Session, next: map<nat, Buckets>,
    a: Accounted, what: Catalog)
    requires CollectedOne(stored, sessions, ranks, s, next, a)
    requires BehindOne(OffsetsOf(stored, s.hash), sessions, ranks, s)
    requires OncePerId(s.invocations) && Conforms(s.invocations, what)
    ensures ExactOffsets(sessions, ranks, s, OffsetsOf(next, s.hash))
    ensures HoldsSums(a.buckets, OwnedIds(sessions, ranks, s), what)
    ensures a.total == SumIds(OwnedIds(sessions, ranks, s), UsageOf(what))
  {
    hide Usage.Plus, Usage.Minus, Usage.Max, Usage.AtMost, SumIds, SumBuckets, OwnedIds, Observed, Recorded;
    var offsets, owned := OffsetsOf(next, s.hash), OwnedIds(sessions, ranks, s);
    forall b
      ensures Get(offsets, b) == Observed(sessions, ranks, s, b) && Get(offsets, b).AtMost(Recorded(s, b))
      ensures Get(a.buckets, b) == SumIds(owned, UsageIn(what, b))
    {
      MaxOfSmaller(Get(OffsetsOf(stored, s.hash), b), Observed(sessions, ranks, s, b));
      RecordedSplits(sessions, ranks, s, b, what);
      SubtractPart(Recorded(s, b), Observed(sessions, ranks, s, b), SumIds(owned, UsageIn(what, b)));
    }
    BucketsPartition(owned, what, a.buckets);
  }

  // ---------------------------------------------------------------- every invocation has one owner

  ghost function OwnedUpTo(sessions: seq<Session>, ranks: map<nat, nat>, k: nat): set<string>
    requires k <= |sessions|
  {
    if k == 0 then {} else OwnedUpTo(sessions, ranks, k - 1) + OwnedIds(sessions, ranks, sessions[k - 1])
  }

  lemma OwnersDiffer(sessions: seq<Session>, store: Store, i: nat, j: nat, id: string)
    requires Distinct(sessions) && RanksSound(store) && Hashes(sessions) <= store.ranks.Keys
    requires i < |sessions| && j < |sessions| && i != j
    requires id in OwnedIds(sessions, store.ranks, sessions[i])
    ensures id !in OwnedIds(sessions, store.ranks, sessions[j])
  {
    HashesMembers(sessions);
    HoldersMembers(sessions, id);
    var g, h := sessions[i].hash, sessions[j].hash;
    assert g != h && store.ranks[g] != store.ranks[h];
    if id in Ids(sessions[j].invocations) {
      assert !Inherited(sessions, store.ranks, g, id);
      assert g in Holders(sessions, id) && h in Holders(sessions, id);
      assert RankOf(store.ranks, g) < RankOf(store.ranks, h);
      assert Inherited(sessions, store.ranks, h, id);
    }
  }

  lemma {:induction false} OwnedUpToDisjoint(sessions: seq<Session>, store: Store, k: nat, j: nat)
    requires Distinct(sessions) && RanksSound(store) && Hashes(sessions) <= store.ranks.Keys && k <= j < |sessions|
    ensures OwnedUpTo(sessions, store.ranks, k) !! OwnedIds(sessions, store.ranks, sessions[j])
  {
    if k > 0 {
      OwnedUpToDisjoint(sessions, store, k - 1, j);
      forall id | id in OwnedIds(sessions, store.ranks, sessions[k - 1])
        ensures id !in OwnedIds(sessions, store.ranks, sessions[j])
      {
        OwnersDiffer(sessions, store, k - 1, j, id);
      }
    }
  }

  /** Among finitely many sessions one has the least rank. */
  lemma LeastRankExists(holders: set<nat>, ranks: map<nat, nat>) returns (h: nat)
    requires holders != {}
    ensures h in holders && forall g :: g in holders ==> RankOf(ranks, h) <= RankOf(ranks, g)
  {
    h :| h in holders;
    var rest := holders - {h};
    while rest != {}
      invariant rest <= holders && h in holders
      invariant forall g :: g in holders && g !in rest ==> RankOf(ranks, h) <= RankOf(ranks, g)
    {
      var g :| g in rest;
      if RankOf(ranks, g) < RankOf(ranks, h) {
        h := g;
      }
      rest := rest - {g};
    }
  }

  lemma {:induction false} HolderIndex(sessions: seq<Session>, id: string, h: nat) returns (i: nat)
    requires h in Holders(sessions, id)
    ensures i < |sessions| && sessions[i].hash == h && id in Ids(sessions[i].invocations)
  {
    var n := |sessions| - 1;
    if id in Ids(sessions[n].invocations) && sessions[n].hash == h {
      i := n;
    } else {
      i := HolderIndex(sessions[..n], id, h);
    }
  }

  lemma {:induction false} OwnedUpToMember(sessions: seq<Session>, ranks: map<nat, nat>, k: nat, i: nat, id: string)
    requires i < k <= |sessions| && id in OwnedIds(sessions, ranks, sessions[i])
    ensures id in OwnedUpTo(sessions, ranks, k)
  {
    if i < k - 1 {
      OwnedUpToMember(sessions, ranks, k - 1, i, id);
    }
  }

  lemma {:induction false} OwnedUpToBound(sessions: seq<Session>, ranks: map<nat, nat>, k: nat)
    requires k <= |sessions|
    ensures OwnedUpTo(sessions, ranks, k) <= AllIds(sessions[..k])
  {
    if k > 0 {
      OwnedUpToBound(sessions, ranks, k - 1);
      assert sessions[..k][..k - 1] == sessions[..k - 1];
    }
  }

  /** The owned invocations of all sessions are the distinct invocations. */
  lemma OwnedCoversAll(sessions: seq<Session>, ranks: map<nat, nat>)
    ensures OwnedUpTo(sessions, ranks, |sessions|) == AllIds(sessions)
  {
    OwnedUpToBound(sessions, ranks, |sessions|);
    assert sessions[..|sessions|] == sessions;
    forall id | id in AllIds(sessions)
      ensures id in OwnedUpTo(sessions, ranks, |sessions|)
    {
      HoldersMembers(sessions, id);
      var h := LeastRankExists(Holders(sessions, id), ranks);
      var i := HolderIndex(sessions, id, h);
      assert !Inherited(sessions, ranks, h, id);
      OwnedUpToMember(sessions, ranks, |sessions|, i, id);
    }
  }

  lemma {:induction false} TotalsUpTo(
    sessions: seq<Session>, store: Store, accounted: seq<Accounted>, k: nat, what: Catalog)
    requires Distinct(sessions) && RanksSound(store) && Hashes(sessions) <= store.ranks.Keys
    requires |accounted| == |sessions| && k <= |sessions|
    requires forall i :: 0 <= i < |sessions| ==>
      accounted[i].total == SumIds(OwnedIds(sessions, store.ranks, sessions[i]), UsageOf(what))
    ensures SumTotals(accounted[..k]) == SumIds(OwnedUpTo(sessions, store.ranks, k), UsageOf(what))
  {
    hide Usage.Plus, SumIds, Hashes, OwnedIds;
    if k == 0 {
      NoIds(UsageOf(what));
    } else {
      TotalsUpTo(sessions, store, accounted, k - 1, what);
      assert accounted[..k][..k - 1] == accounted[..k - 1];
      OwnedUpToDisjoint(sessions, store, k - 1, k - 1);
      SumIdsUnion(OwnedUpTo(sessions, store.ranks, k - 1), OwnedIds(sessions, store.ranks, sessions[k - 1]),
        UsageOf(what));
    }
  }

  /** A collection that starts behind conserves usage. */
  lemma CollectionConserves(
    store: Store, sessions: seq<Session>, next: Store, accounted: seq<Accounted>, what: Catalog)
    requires Collected(store, sessions, next, accounted) && Consistent(sessions, what)
    requires Behind(store.offsets, sessions, next.ranks)
    ensures Conserved(sessions, next, accounted, what)
  {
    hide SumIds, OwnedIds, CollectedOne, BehindOne, ExactOffsets, Hashes, HoldsSums;
    forall i | 0 <= i < |sessions|
      ensures ExactOffsets(sessions, next.ranks, sessions[i], OffsetsOf(next.offsets, sessions[i].hash))
      ensures HoldsSums(accounted[i].buckets, OwnedIds(sessions, next.ranks, sessions[i]), what)
      ensures accounted[i].total == SumIds(OwnedIds(sessions, next.ranks, sessions[i]), UsageOf(what))
    {
      SessionExact(store.offsets, sessions, next.ranks, sessions[i], next.offsets, accounted[i], what);
    }
    TotalsUpTo(sessions, next, accounted, |sessions|, what);
    OwnedCoversAll(sessions, next.ranks);
    assert accounted[..|sessions|] == accounted;
  }

  // ---------------------------------------------------------------- from one collection to the next

  lemma InheritedStays(
    earlier: seq<Session>, ranks: map<nat, nat>, later: seq<Session>, laterRanks: map<nat, nat>, s: Session, t: Session)
    requires Grown(earlier, later) && Ids(s.invocations) <= Ids(t.invocations) && s.hash == t.hash && s.hash in ranks
    requires Hashes(earlier) <= ranks.Keys && forall h :: h in ranks ==> h in laterRanks && laterRanks[h] == ranks[h]
    ensures InheritedIds(earlier, ranks, s) <= InheritedIds(later, laterRanks, t)
  {
    forall id | id in InheritedIds(earlier, ranks, s)
      ensures id in InheritedIds(later, laterRanks, t)
    {
      var g :| g in Holders(earlier, id) && RankOf(ranks, g) < RankOf(ranks, s.hash);
      HoldersMembers(earlier, id);
      var i := HolderIndex(earlier, id, g);
      assert GrownIn(earlier[i], later);
      var j :| 0 <= j < |later| && later[j].hash == g && Ids(earlier[i].invocations) <= Ids(later[j].invocations);
      HoldersMembers(later, id);
      assert g in Holders(later, id);
    }
  }

  lemma ObservedGrows(
    earlier: seq<Session>, ranks: map<nat, nat>, later: seq<Session>, laterRanks: map<nat, nat>, s: Session, t: Session,
    b: Bucket, what: Catalog)
    requires OncePerId(s.invocations) && Conforms(s.invocations, what)
    requires OncePerId(t.invocations) && Conforms(t.invocations, what)
    requires InheritedIds(earlier, ranks, s) <= InheritedIds(later, laterRanks, t)
    ensures Observed(earlier, ranks, s, b).AtMost(Observed(later, laterRanks, t, b))
  {
    hide SumIds, Inherited, BucketSum;
    var before, after := InheritedIds(earlier, ranks, s), InheritedIds(later, laterRanks, t);
    BucketSumIsSumIds(s.invocations, before, b, what);
    BucketSumIsSumIds(t.invocations, after, b, what);
    assert Ids(s.invocations) * before == before && Ids(t.invocations) * after == after;
    SumIdsMonotone(before, after, UsageIn(what, b));
  }

  /** After a collection that conserved usage, the stored offsets are behind the next one. */
  lemma StaysBehind(
    earlier: seq<Session>, store: Store, accounted: seq<Accounted>, later: seq<Session>, next: Store, what: Catalog)
    requires Conserved(earlier, store, accounted, what) && Consistent(earlier, what) && Consistent(later, what)
    requires Grown(earlier, later) && store.offsets.Keys <= Hashes(earlier) <= store.ranks.Keys
    requires forall h :: h in store.ranks ==> h in next.ranks && next.ranks[h] == store.ranks[h]
    ensures Behind(store.offsets, later, next.ranks)
  {
    hide SumIds, SumTotals, Observed, Recorded, Hashes, Inherited, Conforms, OncePerId;
    forall j | 0 <= j < |later|
      ensures BehindOne(OffsetsOf(store.offsets, later[j].hash), later, next.ranks, later[j])
    {
      var t := later[j];
      if t.hash in store.offsets {
        HashesMembers(earlier);
        var i :| 0 <= i < |earlier| && earlier[i].hash == t.hash;
        var s := earlier[i];
        assert GrownIn(s, later);
        var k :| 0 <= k < |later| && later[k].hash == s.hash && Ids(s.invocations) <= Ids(later[k].invocations);
        assert k == j;
        InheritedStays(earlier, store.ranks, later, next.ranks, s, t);
        forall b ensures Get(OffsetsOf(store.offsets, t.hash), b).AtMost(Observed(later, next.ranks, t, b)) {
          ObservedGrows(earlier, store.ranks, later, next.ranks, s, t, b, what);
          assert ExactOffsets(earlier, store.ranks, s, OffsetsOf(store.offsets, s.hash));
        }
      }
    }
  }

  /** A run of collections from an empty store. */
  ghost predicate IsRun(collections: seq<seq<Session>>, stores: seq<Store>, results: seq<seq<Accounted>>) {
    && |stores| == |collections| + 1 && |results| == |collections|
    && stores[0] == NEW_STORE
    && forall n :: 0 <= n < |collections| ==> Collected(stores[n], collections[n], stores[n + 1], results[n])
  }

  ghost predicate Growing(collections: seq<seq<Session>>, what: Catalog) {
    && (forall n :: 0 <= n < |collections| ==> Consistent(collections[n], what))
    && (forall n :: 1 <= n < |collections| ==> Grown(collections[n - 1], collections[n]))
  }

  /** Fork conservation: at every collection of a run the accounted totals of all sessions add up to the
      usage of the distinct invocations. */
  lemma {:induction false} RunConserves(
    collections: seq<seq<Session>>, stores: seq<Store>, results: seq<seq<Accounted>>, what: Catalog, n: nat)
    requires IsRun(collections, stores, results) && Growing(collections, what) && n < |collections|
    ensures Conserved(collections[n], stores[n + 1], results[n], what)
  {
    hide Conserved, Consistent, Grown, Behind, Collected, Hashes;
    assert Collected(stores[n], collections[n], stores[n + 1], results[n]);
    if n == 0 {
      NothingStored(collections[0], stores[1].ranks);
    } else {
      RunConserves(collections, stores, results, what, n - 1);
      assert Collected(stores[n - 1], collections[n - 1], stores[n], results[n - 1]);
      RanksExtend(stores[n - 1], collections[n - 1], stores[n], results[n - 1]);
      RanksExtend(stores[n], collections[n], stores[n + 1], results[n]);
      StaysBehind(collections[n - 1], stores[n], results[n - 1], collections[n], stores[n + 1], what);
    }
    CollectionConserves(stores[n], collections[n], stores[n + 1], results[n], what);
  }

  lemma RanksExtend(store: Store, sessions: seq<Session>, next: Store, accounted: seq<Accounted>)
    requires Collected(store, sessions, next, accounted)
    ensures next.offsets.Keys <= Hashes(sessions) <= next.ranks.Keys
    ensures forall h :: h in store.ranks ==> h in next.ranks && next.ranks[h] == store.ranks[h]
  {}

  lemma NothingStored(sessions: seq<Session>, ranks: map<nat, nat>)
    ensures Behind(NEW_STORE.offsets, sessions, ranks)
  {}
}
