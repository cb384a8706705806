/** Fork de-duplication: a session that was forked copies its parent's invocations; each invocation is
    charged to the session with the lowest rank that contains it, and the others subtract it. */
module ForkAccounting {
  import opened ForkModel
  import Text

  /** A session by its hash, which orders like the number it stands for. */
  datatype Session = Session(hash: nat, invocations: seq<Invocation>)

  datatype Store = Store(nextRank: nat, ranks: map<nat, nat>, offsets: map<nat, Buckets>)

  const NEW_STORE: Store := Store(0, map[], map[])

  datatype Accounted = Accounted(hash: nat, buckets: Buckets, total: Usage)

  // ---------------------------------------------------------------- what each step means

  ghost predicate RanksSound(store: Store) {
    && (forall h :: h in store.ranks ==> store.ranks[h] <= store.nextRank)
    && (forall g, h :: g in store.ranks && h in store.ranks && store.ranks[g] == store.ranks[h] ==> g == h)
  }

  function Hashes(sessions: seq<Session>): set<nat> {
    if sessions == [] then {} else Hashes(sessions[..|sessions| - 1]) + {sessions[|sessions| - 1].hash}
  }

  lemma {:induction false} HashesMembers(sessions: seq<Session>)
    ensures forall i :: 0 <= i < |sessions| ==> sessions[i].hash in Hashes(sessions)
    ensures forall h :: h in Hashes(sessions) ==> exists i :: 0 <= i < |sessions| && sessions[i].hash == h
  {
    if sessions != [] {
      var n := |sessions| - 1;
      HashesMembers(sessions[..n]);
      forall h | h in Hashes(sessions) ensures exists i :: 0 <= i < |sessions| && sessions[i].hash == h {
        if h != sessions[n].hash {
          var i :| 0 <= i < n && sessions[..n][i].hash == h;
          assert sessions[i].hash == h;
        }
      }
    }
  }

  predicate Distinct(sessions: seq<Session>) {
    forall i, j :: 0 <= i < j < |sessions| ==> sessions[i].hash != sessions[j].hash
  }

  /** New sessions get ranks above all old ones, in the order of their hashes; old ranks stay. */
  ghost predicate Ranked(store: Store, sessions: seq<Session>, next: Store) {
    && RanksSound(next)
    && next.offsets == store.offsets
    && next.ranks.Keys == store.ranks.Keys + Hashes(sessions)
    && (forall h :: h in store.ranks ==> next.ranks[h] == store.ranks[h])
    && (forall h :: h in next.ranks && h !in store.ranks ==> next.ranks[h] > store.nextRank)
    && (forall g, h :: g in next.ranks && h in next.ranks && g !in store.ranks && h !in store.ranks && g < h ==>
          next.ranks[g] < next.ranks[h])
  }

  /** The hashes of the sessions that contain an invocation. */
  ghost function Holders(sessions: seq<Session>, id: string): set<nat> {
    if sessions == [] then {} else
      var last := sessions[|sessions| - 1];
      Holders(sessions[..|sessions| - 1], id) + (if id in Ids(last.invocations) then {last.hash} else {})
  }

  /** The distinct invocations of all sessions. */
  ghost function AllIds(sessions: seq<Session>): set<string> {
    if sessions == [] then {} else
      AllIds(sessions[..|sessions| - 1]) + Ids(sessions[|sessions| - 1].invocations)
  }

  lemma {:induction false} HoldersMembers(sessions: seq<Session>, id: string)
    ensures forall i :: 0 <= i < |sessions| && id in Ids(sessions[i].invocations) ==>
      sessions[i].hash in Holders(sessions, id)
    ensures Holders(sessions, id) <= Hashes(sessions)
    ensures id in AllIds(sessions) <==> Holders(sessions, id) != {}
  {
    if sessions != [] {
      HoldersMembers(sessions[..|sessions| - 1], id);
    }
  }

  /** Some session of lower rank has a copy. */
  ghost predicate Inherited(sessions: seq<Session>, ranks: map<nat, nat>, h: nat, id: string) {
    exists g :: g in Holders(sessions, id) && RankOf(ranks, g) < RankOf(ranks, h)
  }

  function RankOf(ranks: map<nat, nat>, h: nat): nat {
    if h in ranks then ranks[h] else 0
  }

  ghost function InheritedIds(sessions: seq<Session>, ranks: map<nat, nat>, s: Session): set<string> {
    set id | id in Ids(s.invocations) && Inherited(sessions, ranks, s.hash, id)
  }

  ghost function OwnedIds(sessions: seq<Session>, ranks: map<nat, nat>, s: Session): set<string> {
    Ids(s.invocations) - InheritedIds(sessions, ranks, s)
  }

  function OffsetsOf(offsets: map<nat, Buckets>, h: nat): Buckets {
    if h in offsets then offsets[h] else map[]
  }

  /** The usage of a session's inherited invocations in one bucket. */
  ghost function Observed(sessions: seq<Session>, ranks: map<nat, nat>, s: Session, b: Bucket): Usage {
    BucketSum(s.invocations, InheritedIds(sessions, ranks, s), b)
  }

  ghost predicate MergedOffsets(
    sessions: seq<Session>, ranks: map<nat, nat>, s: Session, stored: Buckets, next: Buckets)
  {
    forall b :: Get(next, b) == Get(stored, b).Max(Observed(sessions, ranks, s, b))
  }

  ghost function Recorded(s: Session, b: Bucket): Usage {
    BucketSum(s.invocations, Ids(s.invocations), b)
  }

  ghost predicate Subtracted(s: Session, offsets: Buckets, a: Accounted) {
    && a.hash == s.hash
    && (forall b :: Get(a.buckets, b) == Recorded(s, b).Minus(Get(offsets, b)))
    && a.total == SumBuckets(a.buckets)
  }

  /** One collection: ranks assigned, offsets raised to what is observed, usage reduced by the offsets. */
  ghost predicate Collected(store: Store, sessions: seq<Session>, next: Store, accounted: seq<Accounted>) {
    && Ranked(store, sessions, next.(offsets := store.offsets))
    && |accounted| == |sessions|
    && next.offsets.Keys <= Hashes(sessions)
    && (forall i :: 0 <= i < |sessions| ==>
          CollectedOne(store.offsets, sessions, next.ranks, sessions[i], next.offsets, accounted[i]))
  }

  ghost predicate CollectedOne(
    stored: map<nat, Buckets>, sessions: seq<Session>, ranks: map<nat, nat>, s: Session, next: map<nat, Buckets>,
    a: Accounted)
  {
    && MergedOffsets(sessions, ranks, s, OffsetsOf(stored, s.hash), OffsetsOf(next, s.hash))
    && Subtracted(s, OffsetsOf(next, s.hash), a)
  }

  // ---------------------------------------------------------------- the steps

  method Least(hashes: set<nat>) returns (h: nat)
    requires hashes != {}
    ensures h in hashes && forall g :: g in hashes ==> h <= g
  {
    h :| h in hashes;
    var rest := hashes - {h};
    while rest != {}
      invariant rest <= hashes && h in hashes
      invariant forall g :: g in hashes && g !in rest ==> h <= g
    {
      var g :| g in rest;
      if g < h {
        h := g;
      }
      rest := rest - {g};
    }
  }

  /** Ranking under way: `newcomers` are still without a rank. */
  ghost predicate Ranking(store: Store, hashes: set<nat>, newcomers: set<nat>, next: Store) {
    && RanksSound(next) && next.offsets == store.offsets && store.nextRank <= next.nextRank
    && newcomers !! next.ranks.Keys && next.ranks.Keys + newcomers == store.ranks.Keys + hashes
    && store.ranks.Keys <= next.ranks.Keys
    && (forall h :: h in store.ranks ==> next.ranks[h] == store.ranks[h])
    && (forall h :: h in next.ranks && h !in store.ranks ==> next.ranks[h] > store.nextRank)
    && (forall g, h :: g in next.ranks && g !in store.ranks && h in newcomers ==> g < h)
    && (forall g, h :: g in next.ranks && h in next.ranks && g !in store.ranks && h !in store.ranks && g < h ==>
          next.ranks[g] < next.ranks[h])
  }

  lemma RankNext(store: Store, hashes: set<nat>, newcomers: set<nat>, next: Store, h: nat)
    requires Ranking(store, hashes, newcomers, next) && h in newcomers && forall g :: g in newcomers ==> h <= g
    ensures Ranking(store, hashes, newcomers - {h},
      next.(nextRank := next.nextRank + 1, ranks := next.ranks[h := next.nextRank + 1]))
  {
    assert h !in next.ranks && h !in store.ranks;
  }

  method AssignSessionRanks(store: Store, sessions: seq<Session>) returns (next: Store)
    requires RanksSound(store)
    ensures Ranked(store, sessions, next)
  {
    hide Ranking, Hashes;
    RankingBegins(store, Hashes(sessions));
    var newcomers := Hashes(sessions) - store.ranks.Keys;
    next := store;
    while newcomers != {}
      invariant Ranking(store, Hashes(sessions), newcomers, next)
    {
      var h := Least(newcomers);
      RankNext(store, Hashes(sessions), newcomers, next, h);
      var rank := next.nextRank + 1;
      next := next.(nextRank := rank, ranks := next.ranks[h := rank]);
      newcomers := newcomers - {h};
    }
    RankingEnds(store, sessions, next);
  }

  lemma RankingBegins(store: Store, hashes: set<nat>)
    requires RanksSound(store)
    ensures Ranking(store, hashes, hashes - store.ranks.Keys, store)
  {}

  lemma RankingEnds(store: Store, sessions: seq<Session>, next: Store)
    requires Ranking(store, Hashes(sessions), {}, next)
    ensures Ranked(store, sessions, next)
  {
    assert next.ranks.Keys + {} == next.ranks.Keys;
  }

  /** The sessions each identity occurs in. */
  method AccountingOccurrences(sessions: seq<Session>) returns (occurrences: map<string, set<nat>>)
    ensures OccurrencesOf(sessions, occurrences)
  {
    occurrences := map[];
    for i := 0 to |sessions|
      invariant OccurrencesOf(sessions[..i], occurrences)
    {
      assert sessions[..i + 1][..i] == sessions[..i];
      ghost var before := occurrences;
      occurrences := AddOccurrences(occurrences, sessions[i]);
      forall id ensures Members(occurrences, id) == Holders(sessions[..i + 1], id) {
        assert Members(before, id) == Holders(sessions[..i], id);
      }
    }
    assert sessions[..|sessions|] == sessions;
  }

  ghost predicate OccurrencesOf(sessions: seq<Session>, occurrences: map<string, set<nat>>) {
    forall id :: Members(occurrences, id) == Holders(sessions, id)
  }

  function Members(occurrences: map<string, set<nat>>, id: string): set<nat> {
    if id in occurrences then occurrences[id] else {}
  }

  /** A session has been entered under some identities. */
  ghost predicate Joined(before: map<string, set<nat>>, ids: set<string>, h: nat, after: map<string, set<nat>>) {
    forall id :: Members(after, id) == if id in ids then Members(before, id) + {h} else Members(before, id)
  }

  lemma JoinedMore(
    before: map<string, set<nat>>, ids: set<string>, h: nat, after: map<string, set<nat>>, more: string)
    requires Joined(before, ids, h, after)
    ensures Joined(before, ids + {more}, h, after[more := Members(after, more) + {h}])
  {}

  method AddOccurrences(before: map<string, set<nat>>, s: Session) returns (occurrences: map<string, set<nat>>)
    ensures Joined(before, Ids(s.invocations), s.hash, occurrences)
  {
    occurrences := before;
    for k := 0 to |s.invocations|
      invariant Joined(before, Ids(s.invocations[..k]), s.hash, occurrences)
    {
      assert s.invocations[..k + 1][..k] == s.invocations[..k];
      JoinedMore(before, Ids(s.invocations[..k]), s.hash, occurrences, s.invocations[k].id);
      var id := s.invocations[k].id;
      occurrences := occurrences[id := Members(occurrences, id) + {s.hash}];
    }
    assert s.invocations[..|s.invocations|] == s.invocations;
  }

  predicate Precedes(ranks: map<nat, nat>, g: nat, h: nat) {
    RankOf(ranks, g) < RankOf(ranks, h) || (RankOf(ranks, g) == RankOf(ranks, h) && g < h)
  }

  ghost predicate IsOwner(ranks: map<nat, nat>, holders: set<nat>, owner: nat) {
    owner in holders && forall h :: h in holders && h != owner ==> Precedes(ranks, owner, h)
  }

  /** An identity found in several sessions belongs to the one of least rank. */
  method ResolveOwners(occurrences: map<string, set<nat>>, ranks: map<nat, nat>) returns (owners: map<string, nat>)
    ensures forall id :: id in owners <==> |Members(occurrences, id)| >= 2
    ensures forall id :: id in owners ==> IsOwner(ranks, Members(occurrences, id), owners[id])
  {
    owners := map[];
    var identities := occurrences.Keys;
    while identities != {}
      invariant identities <= occurrences.Keys
      invariant forall id :: id in owners <==> id !in identities && |Members(occurrences, id)| >= 2
      invariant forall id :: id in owners ==> IsOwner(ranks, Members(occurrences, id), owners[id])
    {
      var id :| id in identities;
      identities := identities - {id};
      if |occurrences[id]| >= 2 {
        var owner := LeastRank(occurrences[id], ranks);
        owners := owners[id := owner];
      }
    }
  }

  method LeastRank(holders: set<nat>, ranks: map<nat, nat>) returns (owner: nat)
    requires holders != {}
    ensures IsOwner(ranks, holders, owner)
  {
    owner :| owner in holders;
    var rest := holders - {owner};
    while rest != {}
      invariant rest <= holders && owner in holders
      invariant forall h :: h in holders && h !in rest && h != owner ==> Precedes(ranks, owner, h)
    {
      var h :| h in rest;
      if Precedes(ranks, h, owner) {
        owner := h;
      }
      rest := rest - {h};
    }
  }

  /** The owners say exactly which invocations of a session are inherited. */
  ghost predicate OwnersOf(sessions: seq<Session>, ranks: map<nat, nat>, owners: map<string, nat>) {
    forall h, id :: h in Holders(sessions, id) ==>
      (id in owners && owners[id] != h <==> Inherited(sessions, ranks, h, id))
  }

  lemma OwnersAreRight(
    sessions: seq<Session>, store: Store, occurrences: map<string, set<nat>>, owners: map<string, nat>)
    requires RanksSound(store) && Hashes(sessions) <= store.ranks.Keys && OccurrencesOf(sessions, occurrences)
    requires forall id :: id in owners <==> |Members(occurrences, id)| >= 2
    requires forall id :: id in owners ==> IsOwner(store.ranks, Members(occurrences, id), owners[id])
    ensures OwnersOf(sessions, store.ranks, owners)
  {
    forall h, id | h in Holders(sessions, id)
      ensures id in owners && owners[id] != h <==> Inherited(sessions, store.ranks, h, id)
    {
      HoldersMembers(sessions, id);
      var holders := Members(occurrences, id);
      assert holders == Holders(sessions, id);
      if id in owners && owners[id] != h {
        assert Precedes(store.ranks, owners[id], h);
        assert store.ranks[owners[id]] != store.ranks[h];
      }
      if Inherited(sessions, store.ranks, h, id) {
        var g :| g in Holders(sessions, id) && RankOf(store.ranks, g) < RankOf(store.ranks, h);
        TwoMembers(holders, g, h);
        assert owners[id] == h ==> Precedes(store.ranks, h, g);
      }
    }
  }

  lemma TwoMembers(s: set<nat>, g: nat, h: nat)
    requires g in s && h in s && g != h
    ensures |s| >= 2
  {
    assert {g, h} <= s;
    assert s == {g, h} + (s - {g, h});
  }

  /** The offsets of one session: what its inherited invocations add up to, never less than before. */
  method SessionOffsets(s: Session, owners: map<string, nat>, stored: Buckets,
    ghost sessions: seq<Session>, ghost ranks: map<nat, nat>, ghost i: nat) returns (next: Buckets)
    requires i < |sessions| && sessions[i] == s && OwnersOf(sessions, ranks, owners)
    ensures MergedOffsets(sessions, ranks, s, stored, next)
  {
    ghost var inherited := InheritedIds(sessions, ranks, s);
    InheritedByOwners(sessions, ranks, owners, i);
    hide Holders, Inherited, OwnersOf, InheritedIds, Usage.Plus, Usage.Max, Ids;
    var observed: Buckets := map[];
    IdsMembers(s.invocations);
    for k := 0 to |s.invocations|
      invariant forall b :: Get(observed, b) == BucketSum(s.invocations[..k], inherited, b)
    {
      assert s.invocations[..k + 1][..k] == s.invocations[..k];
      var invocation := s.invocations[k];
      assert invocation.id in Ids(s.invocations);
      if invocation.id in owners && owners[invocation.id] != s.hash {
        observed := observed[invocation.bucket := Get(observed, invocation.bucket).Plus(invocation.usage)];
      }
    }
    assert s.invocations[..|s.invocations|] == s.invocations;
    next := MergeOffsets(stored, observed);
    forall b ensures Get(next, b) == Get(stored, b).Max(Observed(sessions, ranks, s, b)) {
      assert Get(observed, b) == Observed(sessions, ranks, s, b);
    }
  }

  lemma InheritedByOwners(
    sessions: seq<Session>, ranks: map<nat, nat>, owners: map<string, nat>, i: nat)
    requires i < |sessions| && OwnersOf(sessions, ranks, owners)
    ensures forall id :: id in Ids(sessions[i].invocations) ==>
      (id in InheritedIds(sessions, ranks, sessions[i]) <==> id in owners && owners[id] != sessions[i].hash)
  {
    forall id | id in Ids(sessions[i].invocations)
      ensures id in InheritedIds(sessions, ranks, sessions[i]) <==> id in owners && owners[id] != sessions[i].hash
    {
      HoldersMembers(sessions, id);
    }
  }

  method MergeOffsets(left: Buckets, right: Buckets) returns (merged: Buckets)
    ensures forall b :: Get(merged, b) == Get(left, b).Max(Get(right, b))
  {
    merged := left;
    var rest := right.Keys;
    while rest != {}
      invariant rest <= right.Keys
      invariant forall b :: Get(merged, b) == if b in rest then Get(left, b) else Get(left, b).Max(Get(right, b))
    {
      var b :| b in rest;
      merged := merged[b := Get(merged, b).Max(right[b])];
      rest := rest - {b};
    }
  }

  // ---------------------------------------------------------------- one entry per invocation

  /** `merged` keeps, for every id that is not blank, one of its copies with the largest total. */
  ghost predicate KeepsLargest(copies: seq<Invocation>, merged: seq<Invocation>) {
    && (forall i, j :: 0 <= i < j < |merged| ==> Text.Trim(merged[i].id) != Text.Trim(merged[j].id))
    && (forall i :: 0 <= i < |merged| ==> merged[i] in copies && Text.Trim(merged[i].id) != "")
    && (forall k :: 0 <= k < |copies| && Text.Trim(copies[k].id) != "" ==> KeptFor(copies[k], merged))
  }

  ghost predicate KeptFor(copy: Invocation, merged: seq<Invocation>) {
    exists i :: 0 <= i < |merged| && Text.Trim(merged[i].id) == Text.Trim(copy.id) &&
      NoMore(copy.usage, merged[i].usage)
  }

  /** All tiers together. */
  predicate NoMore(u: Usage, v: Usage) {
    u.input + u.output + u.cacheCreation + u.cacheRead <= v.input + v.output + v.cacheCreation + v.cacheRead
  }

  /** Whatever was kept for a copy is still kept when entries are only added or replaced by larger ones. */
  lemma KeptForGrows(copy: Invocation, merged: seq<Invocation>, after: seq<Invocation>)
    requires KeptFor(copy, merged) && |merged| <= |after|
    requires forall i :: 0 <= i < |merged| ==>
      Text.Trim(after[i].id) == Text.Trim(merged[i].id) && NoMore(merged[i].usage, after[i].usage)
    ensures KeptFor(copy, after)
  {
    hide Text.Trim;
    var i :| 0 <= i < |merged| && Text.Trim(merged[i].id) == Text.Trim(copy.id) &&
      NoMore(copy.usage, merged[i].usage);
    assert Text.Trim(after[i].id) == Text.Trim(copy.id);
  }

  lemma KeepsMore(copies: seq<Invocation>, merged: seq<Invocation>, next: Invocation, after: seq<Invocation>)
    requires KeepsLargest(copies, merged) && |merged| <= |after|
    requires forall i :: 0 <= i < |merged| ==>
      Text.Trim(after[i].id) == Text.Trim(merged[i].id) && NoMore(merged[i].usage, after[i].usage)
    requires forall i, j :: 0 <= i < j < |after| ==> Text.Trim(after[i].id) != Text.Trim(after[j].id)
    requires forall i :: 0 <= i < |after| ==> (after[i] == next || after[i] in merged) && Text.Trim(after[i].id) != ""
    requires Text.Trim(next.id) != "" ==> KeptFor(next, after)
    ensures KeepsLargest(copies + [next], after)
  {
    hide Text.Trim, KeptFor;
    var all := copies + [next];
    forall k | 0 <= k < |all| && Text.Trim(all[k].id) != "" ensures KeptFor(all[k], after) {
      if k < |copies| {
        KeptForGrows(copies[k], merged, after);
      }
    }
    forall i | 0 <= i < |after| ensures after[i] in all {
      if after[i] != next {
        var j :| 0 <= j < |merged| && merged[j] == after[i];
        assert merged[j] in copies;
      }
    }
  }

  /** Merge the invocations of several transcript files of one session. */
  method MergeInvocations(existing: seq<Invocation>, more: seq<Invocation>) returns (merged: seq<Invocation>)
    ensures KeepsLargest(existing + more, merged)
    ensures OncePerId(merged)
  {
    hide KeepsLargest, Text.Trim;
    var copies := existing + more;
    var indexes: map<string, nat> := map[];
    merged := [];
    assert KeepsLargest([], []) by { NothingKept(); }
    for k := 0 to |copies|
      invariant KeepsLargest(copies[..k], merged)
      invariant forall i :: 0 <= i < |merged| ==> Text.Trim(merged[i].id) in indexes
      invariant forall key :: key in indexes ==> indexes[key] < |merged| && Text.Trim(merged[indexes[key]].id) == key
    {
      assert copies[..k + 1] == copies[..k] + [copies[k]];
      var invocation := copies[k];
      var key := Text.Trim(invocation.id);
      ghost var before := merged;
      if key != "" {
        if key in indexes {
          var i := indexes[key];
          if invocation.usage.Total() > merged[i].usage.Total() {
            merged := merged[i := invocation];
          }
          KeptReplacing(copies[..k], before, invocation, i);
        } else {
          KeptAdding(copies[..k], before, invocation);
          indexes := indexes[key := |merged|];
          merged := merged + [invocation];
        }
      } else {
        KeptBlank(copies[..k], before, invocation);
      }
    }
    assert copies[..|copies|] == copies;
    KeptOnce(copies, merged);
  }

  lemma KeptBlank(copies: seq<Invocation>, merged: seq<Invocation>, next: Invocation)
    requires KeepsLargest(copies, merged) && Text.Trim(next.id) == ""
    ensures KeepsLargest(copies + [next], merged)
  {
    hide Text.Trim, KeptFor;
    forall i | 0 <= i < |merged| ensures merged[i] in copies + [next] {}
  }

  lemma KeptAdding(copies: seq<Invocation>, merged: seq<Invocation>, next: Invocation)
    requires KeepsLargest(copies, merged) && Text.Trim(next.id) != ""
    requires forall i :: 0 <= i < |merged| ==> Text.Trim(merged[i].id) != Text.Trim(next.id)
    ensures KeepsLargest(copies + [next], merged + [next])
  {
    hide Text.Trim;
    var after := merged + [next];
    assert Text.Trim(after[|merged|].id) == Text.Trim(next.id);
    KeepsMore(copies, merged, next, after);
  }

  lemma KeptReplacing(copies: seq<Invocation>, merged: seq<Invocation>, next: Invocation, i: nat)
    requires KeepsLargest(copies, merged) && Text.Trim(next.id) != ""
    requires i < |merged| && Text.Trim(merged[i].id) == Text.Trim(next.id)
    ensures KeepsLargest(copies + [next],
      if next.usage.Total() > merged[i].usage.Total() then merged[i := next] else merged)
  {
    hide Text.Trim;
    var after := if next.usage.Total() > merged[i].usage.Total() then merged[i := next] else merged;
    assert Text.Trim(after[i].id) == Text.Trim(next.id);
    KeepsMore(copies, merged, next, after);
  }

  lemma NothingKept()
    ensures KeepsLargest([], [])
  {}

  lemma KeptOnce(copies: seq<Invocation>, merged: seq<Invocation>)
    requires KeepsLargest(copies, merged)
    ensures OncePerId(merged)
  {}

  /** Usage by (model, day) and in total, rebuilt from the invocations. */
  method RebuildInvocationTotals(s: Session) returns (a: Accounted)
    ensures a.hash == s.hash && a.total == SumBuckets(a.buckets)
    ensures forall b :: Get(a.buckets, b) == Recorded(s, b)
  {
    var buckets: Buckets, total := map[], ZERO;
    IdsMembers(s.invocations);
    for k := 0 to |s.invocations|
      invariant forall b :: Get(buckets, b) == BucketSum(s.invocations[..k], Ids(s.invocations), b)
      invariant total == SumBuckets(buckets)
    {
      assert s.invocations[..k + 1][..k] == s.invocations[..k];
      var invocation := s.invocations[k];
      assert invocation.id in Ids(s.invocations);
      SumBucketsUpdate(buckets, invocation.bucket, invocation.usage);
      buckets := buckets[invocation.bucket := Get(buckets, invocation.bucket).Plus(invocation.usage)];
      total := total.Plus(invocation.usage);
    }
    assert s.invocations[..|s.invocations|] == s.invocations;
    a := Accounted(s.hash, buckets, total);
  }

  /** Subtract the offsets, dropping buckets that become empty. */
  method ApplyInheritedOffsets(s: Session, recorded: Accounted, offsets: Buckets) returns (a: Accounted)
    requires recorded.hash == s.hash && recorded.total == SumBuckets(recorded.buckets)
    requires forall b :: Get(recorded.buckets, b) == Recorded(s, b)
    ensures Subtracted(s, offsets, a)
  {
    if offsets == map[] {
      return recorded;
    }
    var buckets: Buckets, total := map[], ZERO;
    var rest := recorded.buckets.Keys;
    while rest != {}
      invariant rest <= recorded.buckets.Keys
      invariant forall b :: Get(buckets, b) == if b in rest then ZERO else Recorded(s, b).Minus(Get(offsets, b))
      invariant total == SumBuckets(buckets)
    {
      var b :| b in rest;
      var usage := recorded.buckets[b].Minus(Get(offsets, b));
      assert recorded.buckets[b] == Get(recorded.buckets, b);
      assert Get(buckets, b) == ZERO;
      if !usage.IsZero() {
        SumBucketsUpdate(buckets, b, usage);
        buckets := buckets[b := Get(buckets, b).Plus(usage)];
        total := total.Plus(usage);
      }
      rest := rest - {b};
    }
    a := Accounted(s.hash, buckets, total);
  }

  /** One collection, as the adapter prepares it. */
  method PrepareForkAccounting(store: Store, sessions: seq<Session>) returns (next: Store, accounted: seq<Accounted>)
    requires RanksSound(store) && Distinct(sessions)
    ensures Collected(store, sessions, next, accounted)
  {
    hide Ranked, OwnersOf, OccurrencesOf, CollectedOne, Holders, IsOwner, Hashes;
    var ranked := AssignSessionRanks(store, sessions);
    RankedFacts(store, sessions, ranked);
    var occurrences := AccountingOccurrences(sessions);
    var owners := ResolveOwners(occurrences, ranked.ranks);
    OwnersAreRight(sessions, ranked, occurrences, owners);
    var offsets;
    offsets, accounted := AccountSessions(store.offsets, sessions, ranked.ranks, owners);
    next := ranked.(offsets := offsets);
    assert next.(offsets := store.offsets) == ranked;
  }

  /** Offsets and accounted usage of every session, given the owners. */
  method AccountSessions(
    stored: map<nat, Buckets>, sessions: seq<Session>, ghost ranks: map<nat, nat>, owners: map<string, nat>)
    returns (offsets: map<nat, Buckets>, accounted: seq<Accounted>)
    requires Distinct(sessions) && OwnersOf(sessions, ranks, owners)
    ensures |accounted| == |sessions| && offsets.Keys <= Hashes(sessions)
    ensures forall i :: 0 <= i < |sessions| ==>
      CollectedOne(stored, sessions, ranks, sessions[i], offsets, accounted[i])
  {
    hide OwnersOf, MergedOffsets, Subtracted, Holders, SumBuckets, Recorded;
    offsets, accounted := map[], [];
    for i := 0 to |sessions|
      invariant |accounted| == i && offsets.Keys <= Hashes(sessions[..i])
      invariant forall j :: 0 <= j < i ==> CollectedOne(stored, sessions, ranks, sessions[j], offsets, accounted[j])
    {
      var s := sessions[i];
      assert sessions[..i + 1][..i] == sessions[..i];
      NewHash(sessions, i);
      var merged := SessionOffsets(s, owners, OffsetsOf(stored, s.hash), sessions, ranks, i);
      ghost var before := offsets;
      if merged != map[] {
        offsets := offsets[s.hash := merged];
      }
      assert OffsetsOf(offsets, s.hash) == merged;
      var recorded := RebuildInvocationTotals(s);
      var a := ApplyInheritedOffsets(s, recorded, merged);
      accounted := accounted + [a];
      assert forall j :: 0 <= j < i ==> OffsetsOf(offsets, sessions[j].hash) == OffsetsOf(before, sessions[j].hash);
    }
    assert sessions[..|sessions|] == sessions;
  }

  lemma NewHash(sessions: seq<Session>, i: nat)
    requires Distinct(sessions) && i < |sessions|
    ensures sessions[i].hash !in Hashes(sessions[..i])
    ensures forall j :: 0 <= j < i ==> sessions[j].hash != sessions[i].hash
  {
    HashesMembers(sessions[..i]);
  }

  lemma RankedFacts(store: Store, sessions: seq<Session>, ranked: Store)
    requires Ranked(store, sessions, ranked)
    ensures RanksSound(ranked) && Hashes(sessions) <= ranked.ranks.Keys && ranked.offsets == store.offsets
  {}
}
