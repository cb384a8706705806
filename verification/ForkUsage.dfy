/** Fork accounting composed with usage accounting: what the queued deltas of a run of forked sessions add up to. */
module ForkUsage {
  import opened ForkAccounting
  import opened ForkModel
  import opened ForkRuns
  import opened Options
  import UsageModel
  import UsageRuns

  /** A bucket of a session, for which one running total is reported. */
  datatype Key = Key(session: nat, bucket: Bucket)

  // ---------------------------------------------------------------- sums over keys

  ghost function SumKeys(keys: set<Key>, f: Key -> nat): nat {
    if keys == {} then 0 else
      var k :| k in keys;
      f(k) + SumKeys(keys - {k}, f)
  }

  lemma {:induction false} SumKeysSplit(keys: set<Key>, k: Key, f: Key -> nat)
    requires k in keys
    ensures SumKeys(keys, f) == f(k) + SumKeys(keys - {k}, f)
    decreases |keys|
  {
    var p :| p in keys && SumKeys(keys, f) == f(p) + SumKeys(keys - {p}, f);
    if p != k {
      SumKeysSplit(keys - {p}, k, f);
      SumKeysSplit(keys - {k}, p, f);
      assert (keys - {p}) - {k} == (keys - {k}) - {p};
    }
  }

  /** Sums keep an order that holds everywhere, and are equal exactly when the summands are. */
  lemma {:induction false} SumKeysCompare(keys: set<Key>, f: Key -> nat, g: Key -> nat)
    requires forall k :: k in keys ==> f(k) <= g(k)
    ensures SumKeys(keys, f) <= SumKeys(keys, g)
    ensures SumKeys(keys, f) == SumKeys(keys, g) <==> forall k :: k in keys ==> f(k) == g(k)
    decreases |keys|
  {
    if keys != {} {
      var k :| k in keys;
      SumKeysSplit(keys, k, f);
      SumKeysSplit(keys, k, g);
      SumKeysCompare(keys - {k}, f, g);
      assert forall j :: j in keys ==> j == k || j in keys - {k};
    }
  }

  lemma {:induction false} SumKeysPlus(keys: set<Key>, f: Key -> nat, g: Key -> nat, h: Key -> nat)
    requires forall k :: k in keys ==> f(k) + g(k) == h(k)
    ensures SumKeys(keys, f) + SumKeys(keys, g) == SumKeys(keys, h)
    decreases |keys|
  {
    if keys != {} {
      var k :| k in keys;
      SumKeysSplit(keys, k, f);
      SumKeysSplit(keys, k, g);
      SumKeysSplit(keys, k, h);
      SumKeysPlus(keys - {k}, f, g, h);
    }
  }

  // ---------------------------------------------------------------- what a collection charges

  /** The tokens a collection charges to a bucket of a session. */
  function Charge(accounted: seq<Accounted>, k: Key): nat {
    if accounted == [] then 0 else
      var last := accounted[|accounted| - 1];
      if last.hash == k.session then Get(last.buckets, k.bucket).Total() else Charge(accounted[..|accounted| - 1], k)
  }

  function ChargeOf(accounted: seq<Accounted>): Key -> nat { k => Charge(accounted, k) }

  function InSession(h: nat, m: Buckets): Key -> nat {
    (k: Key) => if k.session == h then Get(m, k.bucket).Total() else 0
  }

  predicate OncePerSession(accounted: seq<Accounted>) {
    forall i, j :: 0 <= i < j < |accounted| ==> accounted[i].hash != accounted[j].hash
  }

  /** The keys leave out no bucket of the collection. */
  ghost predicate Covers(keys: set<Key>, accounted: seq<Accounted>) {
    forall i, b: Bucket :: 0 <= i < |accounted| && b in accounted[i].buckets ==> Key(accounted[i].hash, b) in keys
  }

  lemma {:induction false} SessionCharges(keys: set<Key>, h: nat, m: Buckets)
    requires forall b :: b in m ==> Key(h, b) in keys
    ensures SumKeys(keys, InSession(h, m)) == SumBuckets(m).Total()
    decreases |m|
  {
    hide SumBuckets, SumKeys, Usage.Plus, Usage.Total, InSession;
    if m == map[] {
      NoBuckets();
      NothingCharged(keys, h);
    } else {
      var b :| b in m;
      var k, rest := Key(h, b), m - {b};
      SessionCharges(keys, h, rest);
      SumBucketsSplit(m, b);
      PlusTotal(m[b], SumBuckets(rest));
      SumKeysSplit(keys, k, InSession(h, m));
      SumKeysSplit(keys, k, InSession(h, rest));
      InSessionWithout(h, m, b);
      SumKeysCompare(keys - {k}, InSession(h, rest), InSession(h, m));
    }
  }

  lemma InSessionWithout(h: nat, m: Buckets, b: Bucket)
    requires b in m
    ensures InSession(h, m)(Key(h, b)) == m[b].Total() && InSession(h, m - {b})(Key(h, b)) == 0
    ensures forall k :: k != Key(h, b) ==> InSession(h, m - {b})(k) == InSession(h, m)(k)
  {
    hide Usage.Total;
    ZeroTotal();
    forall k | k != Key(h, b) ensures InSession(h, m - {b})(k) == InSession(h, m)(k) {
      assert k.session == h ==> Get(m - {b}, k.bucket) == Get(m, k.bucket);
    }
  }

  lemma NoBuckets()
    ensures SumBuckets(map[]).Total() == 0
  {}

  lemma {:induction false} NothingCharged(keys: set<Key>, h: nat)
    ensures SumKeys(keys, InSession(h, map[])) == 0
    decreases |keys|
  {
    if keys != {} {
      var k :| k in keys;
      SumKeysSplit(keys, k, InSession(h, map[]));
      NothingCharged(keys - {k}, h);
    }
  }

  lemma {:induction false} ChargeElsewhere(accounted: seq<Accounted>, k: Key)
    requires forall i :: 0 <= i < |accounted| ==> accounted[i].hash != k.session
    ensures Charge(accounted, k) == 0
  {
    if accounted != [] {
      ChargeElsewhere(accounted[..|accounted| - 1], k);
    }
  }

  lemma {:induction false} ChargeAt(accounted: seq<Accounted>, i: nat, k: Key)
    requires OncePerSession(accounted) && i < |accounted| && accounted[i].hash == k.session
    ensures Charge(accounted, k) == Get(accounted[i].buckets, k.bucket).Total()
  {
    if i < |accounted| - 1 {
      ChargeAt(accounted[..|accounted| - 1], i, k);
    }
  }

  lemma PlusTotal(a: Usage, b: Usage)
    ensures a.Plus(b).Total() == a.Total() + b.Total()
  {}

  /** What a collection charges to the buckets of all sessions adds up to the sessions' totals. */
  lemma {:induction false} ChargesAddUp(keys: set<Key>, accounted: seq<Accounted>)
    requires OncePerSession(accounted) && Covers(keys, accounted)
    requires forall i :: 0 <= i < |accounted| ==> accounted[i].total == SumBuckets(accounted[i].buckets)
    ensures SumKeys(keys, ChargeOf(accounted)) == SumTotals(accounted).Total()
  {
    hide SumBuckets, Usage.Plus, Usage.Total;
    if accounted == [] {
      ZeroTotal();
      SumKeysOfZero(keys, ChargeOf([]));
    } else {
      var n := |accounted| - 1;
      var before, last := accounted[..n], accounted[n];
      ChargesAddUp(keys, before);
      SessionCharges(keys, last.hash, last.buckets);
      PlusTotal(SumTotals(before), last.total);
      forall k | k in keys
        ensures ChargeOf(before)(k) + InSession(last.hash, last.buckets)(k) == ChargeOf(accounted)(k)
      {
        if k.session == last.hash {
          ChargeElsewhere(before, k);
        }
      }
      SumKeysPlus(keys, ChargeOf(before), InSession(last.hash, last.buckets), ChargeOf(accounted));
    }
  }

  lemma ZeroTotal()
    ensures ZERO.Total() == 0
  {}

  lemma {:induction false} SumKeysOfZero(keys: set<Key>, f: Key -> nat)
    requires forall k :: k in keys ==> f(k) == 0
    ensures SumKeys(keys, f) == 0
    decreases |keys|
  {
    if keys != {} {
      var k :| k in keys;
      SumKeysSplit(keys, k, f);
      SumKeysOfZero(keys - {k}, f);
    }
  }

  /** The tokens of the distinct invocations of a collection. */
  ghost function DistinctTokens(sessions: seq<Session>, what: Catalog): nat {
    var sum := SumIds(AllIds(sessions), UsageOf(what));
    sum.input + sum.output + sum.cacheCreation + sum.cacheRead
  }

  lemma ChargesAreDistinctTokens(
    collections: seq<seq<Session>>, stores: seq<Store>, results: seq<seq<Accounted>>, what: Catalog, n: nat,
    keys: set<Key>)
    requires IsRun(collections, stores, results) && Growing(collections, what) && n < |collections|
    requires Covers(keys, results[n])
    ensures OncePerSession(results[n])
    ensures SumKeys(keys, ChargeOf(results[n])) == DistinctTokens(collections[n], what)
  {
    hide SumIds, AllIds, SumBuckets, SumTotals, ExactOffsets, HoldsSums, MergedOffsets, Grown, OwnedIds;
    RunConserves(collections, stores, results, what, n);
    CollectedShape(stores[n], collections[n], stores[n + 1], results[n]);
    assert Consistent(collections[n], what);
    ChargesAddUp(keys, results[n]);
  }

  lemma CollectedShape(store: Store, sessions: seq<Session>, next: Store, accounted: seq<Accounted>)
    requires Collected(store, sessions, next, accounted)
    ensures |accounted| == |sessions|
    ensures forall i :: 0 <= i < |sessions| ==>
      accounted[i].hash == sessions[i].hash && accounted[i].total == SumBuckets(accounted[i].buckets)
  {
    hide SumBuckets, MergedOffsets, Ranked, Recorded;
    forall i | 0 <= i < |sessions|
      ensures accounted[i].hash == sessions[i].hash && accounted[i].total == SumBuckets(accounted[i].buckets)
    {
      assert CollectedOne(store.offsets, sessions, next.ranks, sessions[i], next.offsets, accounted[i]);
    }
  }

  // ---------------------------------------------------------------- what is queued

  /** Different buckets are reported under different, non-empty keys. */
  ghost predicate Names(name: Key -> string) {
    (forall k :: name(k) != "") && forall j, k :: name(j) == name(k) ==> j == k
  }

  function CursorOf(name: Key -> string, accounting: string, k: Key): UsageModel.CursorKey {
    UsageModel.CursorKey(name(k), accounting)
  }

  /** The cycle reports, for every bucket of every session, what the collection charges to it. */
  ghost predicate Reports(c: UsageModel.Cycle, accounted: seq<Accounted>, name: Key -> string, accounting: string) {
    forall k ::
      UsageRuns.Regular(c, CursorOf(name, accounting, k)) &&
      UsageRuns.Reported(c.usage, name(k)).GetOr(0) == Charge(accounted, k)
  }

  /** A run of uncut usage cycles, one for each collection. */
  ghost predicate ReportsAll(
    cycles: seq<UsageModel.Cycle>, results: seq<seq<Accounted>>, name: Key -> string, accounting: string)
  {
    |cycles| == |results| &&
    forall n :: 0 <= n < |cycles| ==> cycles[n].cut.Whole? && Reports(cycles[n], results[n], name, accounting)
  }

  /** The most any collection charges to a bucket. */
  ghost function Highest(results: seq<seq<Accounted>>, k: Key): nat {
    if results == [] then 0 else
      Larger(Highest(results[..|results| - 1], k), Charge(results[|results| - 1], k))
  }

  ghost function HighestOf(results: seq<seq<Accounted>>): Key -> nat { k => Highest(results, k) }

  lemma {:induction false} HighestIs(results: seq<seq<Accounted>>, k: Key)
    ensures forall n :: 0 <= n < |results| ==> Charge(results[n], k) <= Highest(results, k)
    ensures results != [] ==> exists n :: 0 <= n < |results| && Charge(results[n], k) == Highest(results, k)
  {
    hide Charge;
    if results != [] {
      var n := |results| - 1;
      HighestIs(results[..n], k);
      assert n == 0 ==> results[..n] == [] && Highest([], k) == 0;
      if Highest(results, k) != Charge(results[n], k) {
        var m :| 0 <= m < n && Charge(results[..n][m], k) == Highest(results[..n], k);
        assert results[m] == results[..n][m];
      }
    }
  }

  /** Uncut cycles initialise the baseline with the first collection and follow the highest charge from there. */
  lemma {:induction false} PeakIsHighest(
    cycles: seq<UsageModel.Cycle>, results: seq<seq<Accounted>>, name: Key -> string, accounting: string, k: Key)
    requires ReportsAll(cycles, results, name, accounting) && cycles != []
    ensures UsageModel.Run(cycles).initialized
    ensures UsageRuns.Base(cycles, name(k)) == Charge(results[0], k)
    ensures UsageRuns.Peak(cycles, name(k)) == Highest(results, k)
  {
    hide Charge, UsageRuns.Regular, UsageRuns.Reported, UsageModel.CycleDeltas, UsageModel.CycleSessions,
      UsageModel.CycleCursors;
    var n := |cycles| - 1;
    assert Reports(cycles[n], results[n], name, accounting);
    if n > 0 {
      PeakIsHighest(cycles[..n], results[..n], name, accounting, k);
    } else {
      assert cycles[..0] == [] && results[..0] == [];
    }
  }

  function QueuedFor(queued: seq<UsageModel.Delta>, name: Key -> string, accounting: string): Key -> nat {
    k => UsageRuns.Sum(queued, CursorOf(name, accounting, k))
  }

  lemma QueuedIsRise(
    cycles: seq<UsageModel.Cycle>, results: seq<seq<Accounted>>, name: Key -> string, accounting: string, k: Key)
    requires Names(name) && ReportsAll(cycles, results, name, accounting) && cycles != []
    ensures QueuedFor(UsageModel.Run(cycles).queued, name, accounting)(k) + Charge(results[0], k) == Highest(results, k)
  {
    hide Charge, Highest, UsageRuns.Regular, UsageRuns.Reported, UsageRuns.Sum, UsageRuns.Base, UsageRuns.Peak,
      UsageModel.Run;
    assert forall n :: 0 <= n < |cycles| ==> Reports(cycles[n], results[n], name, accounting);
    PeakIsHighest(cycles, results, name, accounting, k);
    UsageRuns.UncutIsExact(cycles, CursorOf(name, accounting, k));
  }

  /** No bucket of any session was ever charged more than at the end. */
  ghost predicate EndsHighest(results: seq<seq<Accounted>>, keys: set<Key>) {
    forall n, k :: 0 <= n < |results| && k in keys ==> Charge(results[n], k) <= Charge(results[|results| - 1], k)
  }

  /** Over a growing run of forked sessions the queued deltas add up to at least the growth of the distinct
      invocations' usage, and to exactly that if and only if no bucket was ever charged more than at the end. */
  lemma QueuedIsDistinctIff(
    collections: seq<seq<Session>>, stores: seq<Store>, results: seq<seq<Accounted>>, what: Catalog,
    cycles: seq<UsageModel.Cycle>, name: Key -> string, accounting: string, keys: set<Key>)
    requires IsRun(collections, stores, results) && Growing(collections, what) && collections != []
    requires Names(name) && ReportsAll(cycles, results, name, accounting)
    requires forall n :: 0 <= n < |results| ==> Covers(keys, results[n])
    ensures var queued := SumKeys(keys, QueuedFor(UsageModel.Run(cycles).queued, name, accounting));
      var first, last := DistinctTokens(collections[0], what), DistinctTokens(collections[|collections| - 1], what);
      queued + first >= last && (queued + first == last <==> EndsHighest(results, keys))
  {
    hide IsRun, Growing, ReportsAll, Covers, Charge, Highest, DistinctTokens, SumKeys, UsageModel.Run;
    RunShape(collections, stores, results);
    var n := |collections| - 1;
    var queued := QueuedFor(UsageModel.Run(cycles).queued, name, accounting);
    CyclesShape(cycles, results, name, accounting);
    ChargesAreDistinctTokens(collections, stores, results, what, 0, keys);
    ChargesAreDistinctTokens(collections, stores, results, what, n, keys);
    forall k | k in keys
      ensures queued(k) + ChargeOf(results[0])(k) == HighestOf(results)(k)
      ensures ChargeOf(results[n])(k) <= HighestOf(results)(k)
      ensures ChargeOf(results[n])(k) == HighestOf(results)(k) <==>
        forall m :: 0 <= m < |results| ==> Charge(results[m], k) <= Charge(results[n], k)
    {
      QueuedIsRise(cycles, results, name, accounting, k);
      HighestIs(results, k);
    }
    SumKeysPlus(keys, queued, ChargeOf(results[0]), HighestOf(results));
    SumKeysCompare(keys, ChargeOf(results[n]), HighestOf(results));
  }

  lemma RunShape(collections: seq<seq<Session>>, stores: seq<Store>, results: seq<seq<Accounted>>)
    requires IsRun(collections, stores, results)
    ensures |results| == |collections| && |stores| == |collections| + 1
  {
    hide Collected;
  }

  lemma CyclesShape(
    cycles: seq<UsageModel.Cycle>, results: seq<seq<Accounted>>, name: Key -> string, accounting: string)
    requires ReportsAll(cycles, results, name, accounting)
    ensures |cycles| == |results|
  {
    hide Reports;
  }

  // ---------------------------------------------------------------- while owners stay

  /** Sessions keep what they own from one collection to the next. */
  ghost predicate OwnersStay(
    earlier: seq<Session>, ranks: map<nat, nat>, later: seq<Session>, laterRanks: map<nat, nat>)
  {
    forall i, j :: 0 <= i < |earlier| && 0 <= j < |later| && earlier[i].hash == later[j].hash ==>
      OwnedIds(earlier, ranks, earlier[i]) <= OwnedIds(later, laterRanks, later[j])
  }

  /** What is charged to a bucket is the usage of the invocations its session owns in it. */
  lemma ChargeIsOwned(
    collections: seq<seq<Session>>, stores: seq<Store>, results: seq<seq<Accounted>>, what: Catalog, n: nat, i: nat,
    b: Bucket)
    requires IsRun(collections, stores, results) && Growing(collections, what) && n < |collections|
    requires i < |collections[n]|
    ensures Charge(results[n], Key(collections[n][i].hash, b)) ==
      SumIds(OwnedIds(collections[n], stores[n + 1].ranks, collections[n][i]), UsageIn(what, b)).Total()
  {
    hide SumIds, AllIds, SumBuckets, SumTotals, ExactOffsets, Collected, OwnedIds, Usage.Total, Grown, Conforms, Charge;
    assert Consistent(collections[n], what);
    RunConserves(collections, stores, results, what, n);
    CollectedShape(stores[n], collections[n], stores[n + 1], results[n]);
    ChargeAt(results[n], i, Key(collections[n][i].hash, b));
  }

  lemma NotCollected(
    collections: seq<seq<Session>>, stores: seq<Store>, results: seq<seq<Accounted>>, n: nat, k: Key)
    requires IsRun(collections, stores, results) && n < |collections|
    requires forall i :: 0 <= i < |collections[n]| ==> collections[n][i].hash != k.session
    ensures Charge(results[n], k) == 0
  {
    hide Collected, Charge;
    CollectedShape(stores[n], collections[n], stores[n + 1], results[n]);
    ChargeElsewhere(results[n], k);
  }

  lemma AtMostTotal(a: Usage, b: Usage)
    requires a.AtMost(b)
    ensures a.Total() <= b.Total()
  {}

  lemma StillCollected(earlier: seq<Session>, later: seq<Session>, i: nat) returns (j: nat)
    requires Grown(earlier, later) && i < |earlier|
    ensures j < |later| && later[j].hash == earlier[i].hash
  {
    hide Ids;
    assert GrownIn(earlier[i], later);
    j :| j < |later| && later[j].hash == earlier[i].hash;
  }

  lemma ChargesRise(
    collections: seq<seq<Session>>, stores: seq<Store>, results: seq<seq<Accounted>>, what: Catalog, n: nat, k: Key)
    requires IsRun(collections, stores, results) && Growing(collections, what) && 1 <= n < |collections|
    requires OwnersStay(collections[n - 1], stores[n].ranks, collections[n], stores[n + 1].ranks)
    ensures Charge(results[n - 1], k) <= Charge(results[n], k)
  {
    hide SumIds, Collected, OwnedIds, Charge, Consistent, Grown, Usage.Total, Usage.AtMost;
    var earlier, later, b := collections[n - 1], collections[n], k.bucket;
    assert Grown(earlier, later);
    if i: nat :| i < |earlier| && earlier[i].hash == k.session {
      var j := StillCollected(earlier, later, i);
      var before, after := OwnedIds(earlier, stores[n].ranks, earlier[i]),
        OwnedIds(later, stores[n + 1].ranks, later[j]);
      ChargeIsOwned(collections, stores, results, what, n - 1, i, b);
      ChargeIsOwned(collections, stores, results, what, n, j, b);
      SumIdsMonotone(before, after, UsageIn(what, b));
      AtMostTotal(SumIds(before, UsageIn(what, b)), SumIds(after, UsageIn(what, b)));
    } else {
      NotCollected(collections, stores, results, n - 1, k);
    }
  }

  /** While sessions keep what they own the queued deltas add up to exactly the growth of the distinct usage. */
  lemma SteadyOwnersAreExact(
    collections: seq<seq<Session>>, stores: seq<Store>, results: seq<seq<Accounted>>, what: Catalog, keys: set<Key>)
    requires IsRun(collections, stores, results) && Growing(collections, what) && collections != []
    requires forall n :: 1 <= n < |collections| ==>
      OwnersStay(collections[n - 1], stores[n].ranks, collections[n], stores[n + 1].ranks)
    ensures |results| == |collections| && EndsHighest(results, keys)
  {
    hide IsRun, Growing, OwnersStay, Charge;
    RunShape(collections, stores, results);
    forall m: nat, k | m < |results| && k in keys ensures Charge(results[m], k) <= Charge(results[|results| - 1], k) {
      RisesTo(collections, stores, results, what, m, |results| - 1, k);
    }
  }

  lemma {:induction false} RisesTo(
    collections: seq<seq<Session>>, stores: seq<Store>, results: seq<seq<Accounted>>, what: Catalog,
    m: nat, n: nat, k: Key)
    requires IsRun(collections, stores, results) && Growing(collections, what) && m <= n < |collections|
    requires forall n :: 1 <= n < |collections| ==>
      OwnersStay(collections[n - 1], stores[n].ranks, collections[n], stores[n + 1].ranks)
    ensures Charge(results[m], k) <= Charge(results[n], k)
    decreases n - m
  {
    hide IsRun, Growing, OwnersStay, Charge;
    RunShape(collections, stores, results);
    if m < n {
      RisesTo(collections, stores, results, what, m, n - 1, k);
      ChargesRise(collections, stores, results, what, n, k);
    }
  }

  /** Ownership moves only to a session that was ranked before, below the old owner, and has gained a copy. */
  lemma OwnershipMovesTo(
    store: Store, earlier: seq<Session>, later: seq<Session>, next: Store, s: Session, t: Session, id: string)
    returns (g: nat)
    requires Ranked(store, later, next) && RanksSound(store) && Hashes(earlier) <= store.ranks.Keys
    requires s.hash == t.hash && s.hash in store.ranks && Ids(s.invocations) <= Ids(t.invocations)
    requires id in OwnedIds(earlier, store.ranks, s) && id !in OwnedIds(later, next.ranks, t)
    ensures g in Holders(later, id) && g !in Holders(earlier, id)
    ensures g in store.ranks && RankOf(store.ranks, g) < RankOf(store.ranks, s.hash)
  {
    hide Holders, Hashes, Ids;
    assert Inherited(later, next.ranks, t.hash, id);
    g :| g in Holders(later, id) && RankOf(next.ranks, g) < RankOf(next.ranks, t.hash);
    HoldersMembers(later, id);
    assert g in Hashes(later);
    assert !Inherited(earlier, store.ranks, s.hash, id);
  }

  // ---------------------------------------------------------------- when an owner changes

  const SOME_BUCKET: Bucket := Bucket("m", "d")
  const ONE_TOKEN: Usage := Usage(1, 0, 0, 0)
  const COPIED: Invocation := Invocation("x", SOME_BUCKET, ONE_TOKEN)

  /** First only the session of higher rank has the invocation, then both do. */
  const COPY_RUN: seq<seq<Session>> := [
    [Session(1, []), Session(2, [COPIED])],
    [Session(1, [COPIED]), Session(2, [COPIED])]]

  const COPY_RANKS: map<nat, nat> := map[1 := 1, 2 := 2]

  const COPY_STORES: seq<Store> := [
    NEW_STORE, Store(2, COPY_RANKS, map[]), Store(2, COPY_RANKS, map[2 := map[SOME_BUCKET := ONE_TOKEN]])]

  const COPY_RESULTS: seq<seq<Accounted>> := [
    [Accounted(1, map[], ZERO), Accounted(2, map[SOME_BUCKET := ONE_TOKEN], ONE_TOKEN)],
    [Accounted(1, map[SOME_BUCKET := ONE_TOKEN], ONE_TOKEN), Accounted(2, map[], ZERO)]]

  function CopyCatalog(): Catalog { _ => COPIED }

  lemma OneBucket()
    ensures SumBuckets(map[SOME_BUCKET := ONE_TOKEN]) == ONE_TOKEN && SumBuckets(map[]) == ZERO
  {
    SumBucketsSplit(map[SOME_BUCKET := ONE_TOKEN], SOME_BUCKET);
    assert map[SOME_BUCKET := ONE_TOKEN] - {SOME_BUCKET} == map[];
    PlusZero(ONE_TOKEN);
  }

  lemma OneInvocation(ids: set<string>, b: Bucket)
    ensures Ids([COPIED]) == {"x"} && Ids([]) == {} && BucketSum([], ids, b) == ZERO
    ensures BucketSum([COPIED], ids, b) == if "x" in ids && b == SOME_BUCKET then ONE_TOKEN else ZERO
  {
    hide Usage.Plus;
    PlusZero(ONE_TOKEN);
    var one := [COPIED];
    assert one[..0] == [] && one[0].id == "x" && |one| == 1;
    assert Ids(one) == Ids(one[..0]) + {"x"};
    assert BucketSum(one[..0], ids, b) == ZERO;
  }

  /** The collected session either owns the invocation, has none, or inherits it from one of lower rank. */
  lemma CopyOne(
    stored: map<nat, Buckets>, sessions: seq<Session>, s: Session, next: map<nat, Buckets>, a: Accounted)
    requires s.invocations in {[], [COPIED]} && OffsetsOf(stored, s.hash) == map[] && a.hash == s.hash
    requires var owned := map[SOME_BUCKET := ONE_TOKEN]; var inherited := Inherited(sessions, COPY_RANKS, s.hash, "x");
      && OffsetsOf(next, s.hash) == (if s.invocations == [COPIED] && inherited then owned else map[])
      && a.buckets == (if s.invocations == [COPIED] && !inherited then owned else map[])
      && a.total == (if s.invocations == [COPIED] && !inherited then ONE_TOKEN else ZERO)
    ensures CollectedOne(stored, sessions, COPY_RANKS, s, next, a)
  {
    hide Inherited, SumBuckets, Ids, BucketSum, Usage.Plus;
    OneBucket();
    forall b
      ensures Get(OffsetsOf(next, s.hash), b) == Observed(sessions, COPY_RANKS, s, b)
      ensures Get(a.buckets, b) == Recorded(s, b).Minus(Get(OffsetsOf(next, s.hash), b))
    {
      OneInvocation(InheritedIds(sessions, COPY_RANKS, s), b);
      OneInvocation(Ids(s.invocations), b);
    }
  }

  lemma TwoSessions(a: Session, b: Session, id: string)
    ensures Hashes([a, b]) == {a.hash, b.hash}
    ensures Holders([a, b], id) == (if id in Ids(a.invocations) then {a.hash} else {}) +
      (if id in Ids(b.invocations) then {b.hash} else {})
  {
    hide Ids;
    var one, two := [a], [a, b];
    assert two[..1] == one && one[..0] == [];
    assert Hashes([]) == {} && Holders([], id) == {};
    assert Hashes(one) == {a.hash};
  }

  lemma CopyHolders()
    ensures forall n :: 0 <= n < 2 ==> Hashes(COPY_RUN[n]) == {1, 2}
    ensures Holders(COPY_RUN[0], "x") == {2} && Holders(COPY_RUN[1], "x") == {1, 2}
  {
    hide Hashes, Holders;
    OneInvocation({}, SOME_BUCKET);
    TwoSessions(Session(1, []), Session(2, [COPIED]), "x");
    TwoSessions(Session(1, [COPIED]), Session(2, [COPIED]), "x");
  }

  /** When a session of lower rank gains a copy the invocation is charged to it, and what was charged to the other
      session stays in the baseline: the run ends with a bucket below its highest charge. */
  lemma MovedInvocationEndsLower()
    ensures IsRun(COPY_RUN, COPY_STORES, COPY_RESULTS) && Growing(COPY_RUN, CopyCatalog())
    ensures !EndsHighest(COPY_RESULTS, {Key(2, SOME_BUCKET)})
  {
    hide CollectedOne, Hashes, Holders;
    CopyHolders();
    CopyCollected(0);
    CopyCollected(1);
    CopyGrows();
    CopyCharges();
  }

  lemma CopyCollected(n: nat)
    requires n < 2
    ensures Collected(COPY_STORES[n], COPY_RUN[n], COPY_STORES[n + 1], COPY_RESULTS[n])
  {
    hide CollectedOne, Hashes, Holders;
    CopyHolders();
    assert Inherited(COPY_RUN[1], COPY_RANKS, 2, "x") by { assert 1 in Holders(COPY_RUN[1], "x"); }
    forall i | 0 <= i < 2
      ensures CollectedOne(
        COPY_STORES[n].offsets, COPY_RUN[n], COPY_RANKS, COPY_RUN[n][i], COPY_STORES[n + 1].offsets, COPY_RESULTS[n][i])
    {
      CopyOne(COPY_STORES[n].offsets, COPY_RUN[n], COPY_RUN[n][i], COPY_STORES[n + 1].offsets, COPY_RESULTS[n][i]);
    }
  }

  lemma CopyGrows()
    ensures Growing(COPY_RUN, CopyCatalog())
  {
    hide Ids;
    OneInvocation({}, SOME_BUCKET);
    forall i | 0 <= i < 2 ensures GrownIn(COPY_RUN[0][i], COPY_RUN[1]) {
      assert COPY_RUN[1][i].hash == COPY_RUN[0][i].hash;
    }
  }

  lemma OneTotal()
    ensures ONE_TOKEN.Total() == 1 && ZERO.Total() == 0
  {}

  lemma CopyCharges()
    ensures !EndsHighest(COPY_RESULTS, {Key(2, SOME_BUCKET)})
  {
    hide Usage.Total, Charge;
    var k := Key(2, SOME_BUCKET);
    OneTotal();
    ChargeAt(COPY_RESULTS[0], 1, k);
    ChargeAt(COPY_RESULTS[1], 1, k);
    assert Charge(COPY_RESULTS[0], k) == 1 && Charge(COPY_RESULTS[1], k) == 0;
    assert k in {k};
  }
}
