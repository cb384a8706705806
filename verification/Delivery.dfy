/** The drain composed with the client: what a drain against a real server does to every event. */
module Delivery {
  import opened ControlClient
  import opened GreedySplit
  import opened Options
  import opened QueueDrain
  import opened QueueDrainTheorems
  import opened QueueInvariants
  import opened QueueModel
  import opened QueueRuns
  import opened QueueStore
  import Text

  /** What the client does to events before they are split: some are never uploaded, the others are bound
      to the current daemon. */
  datatype Route = Route(uploadable: Event -> bool, bind: Event -> Event)

  ghost predicate KeepsIds(route: Route) {
    forall e :: route.bind(e).id == e.id
  }

  function Upload(route: Route, es: seq<Event>): seq<Event> {
    if es == [] then [] else
      (if route.uploadable(es[0]) then [route.bind(es[0])] else []) + Upload(route, es[1..])
  }

  function OutcomeOf(verdict: Verdict): Outcome {
    match verdict
    case Sent => Accepted
    case RejectedEvent(e) => Rejected([e.id])
    case Broken(_) => Failed
  }

  function SendOutcome(server: Server, n: nat, route: Route, es: seq<Event>): Outcome {
    var batches := Greedy(FitsBody(MAX_REQUEST_BODY_BYTES), Upload(route, es));
    GreedyIsSplit(FitsBody(MAX_REQUEST_BODY_BYTES), Upload(route, es));
    OutcomeOf(SendAll(server, n, batches).verdict)
  }

  /** Filter, bind, split, and send batch by batch until one fails. */
  method SendEventsForDaemon(wire: Wire, route: Route, es: seq<Event>) returns (outcome: Outcome)
    modifies wire
    ensures outcome == SendOutcome(wire.server, old(wire.posts), route, es)
    ensures old(wire.taken) <= wire.taken
    ensures Means(wire.server, Upload(route, es), wire.taken[|old(wire.taken)|..], outcome)
  {
    hide Greedy, Bisect, SendAll, Means;
    SendOutcomeMeans(wire.server, wire.posts, route, es);
    var up := Upload(route, es);
    var split := SplitEventBatches(up, MAX_REQUEST_BODY_BYTES);
    var batches := split.value;
    var verdict := SendBatches(wire, batches);
    outcome := OutcomeOf(verdict);
  }

  ghost predicate NoneEmpty(batches: seq<seq<Event>>) {
    forall i :: 0 <= i < |batches| ==> batches[i] != []
  }

  lemma SendAllStep(server: Server, n: nat, batches: seq<seq<Event>>, i: nat)
    requires NoneEmpty(batches) && i <= |batches|
    ensures NoneEmpty(batches[i..])
    ensures i == |batches| ==> SendAll(server, n, batches[i..]) == Trace(Verdict.Sent, [], 0)
    ensures i < |batches| ==> (
      var first := Bisect(server, n, batches[i]);
      SendAll(server, n, batches[i..]) ==
        if !first.verdict.Sent? then first else
          var rest := SendAll(server, n + first.posts, batches[i + 1..]);
          Trace(rest.verdict, first.taken + rest.taken, first.posts + rest.posts))
  {
    hide Bisect;
    if i < |batches| {
      assert batches[i..][1..] == batches[i + 1..];
    }
  }

  /** The batches in order, stopping at the first that is not sent. */
  method SendBatches(wire: Wire, batches: seq<seq<Event>>) returns (verdict: Verdict)
    requires NoneEmpty(batches)
    modifies wire
    ensures verdict == SendAll(wire.server, old(wire.posts), batches).verdict
    ensures wire.posts == old(wire.posts) + SendAll(wire.server, old(wire.posts), batches).posts
    ensures wire.taken == old(wire.taken) + SendAll(wire.server, old(wire.posts), batches).taken
  {
    hide SendAll, Bisect;
    ghost var whole := SendAll(wire.server, wire.posts, batches);
    assert batches[0..] == batches;
    for i := 0 to |batches|
      invariant NoneEmpty(batches[i..])
      invariant var rest := SendAll(wire.server, wire.posts, batches[i..]);
        && rest.verdict == whole.verdict
        && wire.posts + rest.posts == old(wire.posts) + whole.posts
        && wire.taken + rest.taken == old(wire.taken) + whole.taken
    {
      SendAllStep(wire.server, wire.posts, batches, i);
      SendAllStep(wire.server, wire.posts, batches, i + 1);
      ghost var before := wire.taken;
      ghost var first := Bisect(wire.server, wire.posts, batches[i]);
      ghost var rest := SendAll(wire.server, wire.posts + first.posts, batches[i + 1..]);
      verdict := wire.SendEventBatch(batches[i]);
      if !verdict.Sent? {
        return;
      }
      assert before + (first.taken + rest.taken) == (before + first.taken) + rest.taken;
    }
    SendAllStep(wire.server, wire.posts, batches, |batches|);
    assert wire.taken + [] == wire.taken;
    verdict := Verdict.Sent;
  }

  ghost function Batches(route: Route, es: seq<Event>): (batches: seq<seq<Event>>)
    ensures forall i :: 0 <= i < |batches| ==> batches[i] != []
  {
    GreedyIsSplit(FitsBody(MAX_REQUEST_BODY_BYTES), Upload(route, es));
    Greedy(FitsBody(MAX_REQUEST_BODY_BYTES), Upload(route, es))
  }

  /** What an upload holds: the uploadable events, bound, each in its place. */
  lemma {:induction false} UploadOfEach(route: Route, a: seq<Event>, e: Event, b: seq<Event>)
    ensures Upload(route, a + [e] + b) ==
      Upload(route, a) + (if route.uploadable(e) then [route.bind(e)] else []) + Upload(route, b)
  {
    if a == [] {
      assert (a + [e] + b)[0] == e && (a + [e] + b)[1..] == b;
    } else {
      assert (a + [e] + b)[1..] == a[1..] + [e] + b;
      UploadOfEach(route, a[1..], e, b);
    }
  }

  /** What the outcome of sending `up` means, whatever the server does: accepted exactly when the server took every
      event; rejected when it took those before the named one and said it will never accept that one; failed when
      it gave some other answer. */
  ghost predicate Means(server: Server, up: seq<Event>, taken: seq<Event>, outcome: Outcome) {
    && taken <= up && (forall e :: e in taken ==> Took(server, e))
    && (outcome == Accepted <==> taken == up)
    && (outcome.Rejected? ==>
          |taken| < |up| && outcome.ids == [up[|taken|].id] && RejectedAlone(server, up[|taken|]))
    && (outcome.Failed? ==> exists reply ::
          Answered(server, reply) && reply != Ok && reply != Status(400) && reply != Status(413))
  }

  lemma SendOutcomeMeans(server: Server, n: nat, route: Route, es: seq<Event>)
    ensures var outcome := SendOutcome(server, n, route, es);
      Means(server, Upload(route, es), SendAll(server, n, Batches(route, es)).taken, outcome)
  {
    hide SendAll;
    GreedyIsSplit(FitsBody(MAX_REQUEST_BODY_BYTES), Upload(route, es));
    SendAllAccounts(server, n, Batches(route, es));
    assert Flatten(Batches(route, es)) == Upload(route, es);
  }

  /** The bodies that are posted stay within 8 MiB, unless a single event is larger, and are as few as that allows. */
  lemma BatchesWithinLimit(route: Route, es: seq<Event>)
    ensures BodySplit(8388608, Batches(route, es), Upload(route, es))
    ensures forall other :: BodySplit(8388608, other, Upload(route, es)) ==> |Batches(route, es)| <= |other|
  {
    hide BodySplit;
    SplitFacts(Upload(route, es), MAX_REQUEST_BODY_BYTES);
  }

  /** The server would reject this event, and it would be sent. */
  predicate Refused(route: Route, accepts: seq<Event> -> bool, e: Event) {
    route.uploadable(e) && !accepts([route.bind(e)])
  }

  /** Where the first refused event of a request comes from. */
  lemma {:induction false} UploadFindsFirst(route: Route, accepts: seq<Event> -> bool, es: seq<Event>)
    ensures var up := Upload(route, es); var k := FirstRefused(accepts, up);
      if k == |up| then forall e :: e in es ==> !Refused(route, accepts, e)
      else exists i :: 0 <= i < |es| && Refused(route, accepts, es[i]) && up[k] == route.bind(es[i]) &&
             forall j :: 0 <= j < i ==> !Refused(route, accepts, es[j])
  {
    if es != [] {
      var head := if route.uploadable(es[0]) then [route.bind(es[0])] else [];
      var up := Upload(route, es);
      var rest := Upload(route, es[1..]);
      UploadFindsFirst(route, accepts, es[1..]);
      FirstRefusedJoin(accepts, head, rest);
      var k := FirstRefused(accepts, rest);
      if Refused(route, accepts, es[0]) {
        assert up[0] == route.bind(es[0]);
      } else if k < |rest| {
        var i :| 0 <= i < |es[1..]| && Refused(route, accepts, es[1..][i]) && rest[k] == route.bind(es[1..][i]) &&
          forall j :: 0 <= j < i ==> !Refused(route, accepts, es[1..][j]);
        assert es[i + 1] == es[1..][i];
        forall j | 0 <= j < i + 1 ensures !Refused(route, accepts, es[j]) {
          assert j > 0 ==> es[j] == es[1..][j - 1];
        }
      }
    }
  }

  /** A send is accepted exactly when no event is refused; otherwise it names the first refused event. */
  lemma SendOutcomeExact(server: Server, accepts: seq<Event> -> bool, n: nat, route: Route, es: seq<Event>)
    requires Closed(accepts) && Decides(server, accepts) && KeepsIds(route)
    ensures (forall e :: e in es ==> !Refused(route, accepts, e)) ==> SendOutcome(server, n, route, es) == Accepted
    ensures (exists e :: e in es && Refused(route, accepts, e)) ==>
      exists i :: 0 <= i < |es| && Refused(route, accepts, es[i]) &&
        (forall j :: 0 <= j < i ==> !Refused(route, accepts, es[j])) &&
        SendOutcome(server, n, route, es) == Rejected([es[i].id])
  {
    var up := Upload(route, es);
    GreedyIsSplit(FitsBody(MAX_REQUEST_BODY_BYTES), up);
    SendAllFindsFirst(server, accepts, n, Batches(route, es));
    UploadFindsFirst(route, accepts, es);
    FirstRefusedMeans(accepts, up);
  }

  /** The queue can name this event: its id is not blank and has no white space around it. */
  predicate Addressable(e: Event) {
    e.id != "" && Text.Trim(e.id) == e.id
  }

  /** A rejection of one event can be quarantined exactly when its trimmed id is an id of the batch. */
  lemma QuarantinableIff(batch: seq<Queued>, id: string)
    ensures Quarantinable(batch, [id]) <==> Text.Trim(id) != "" && HasId(batch, Text.Trim(id))
  {
    TrimmedOne(id);
    BatchIdsAre(batch);
    BatchHasIds(batch);
  }

  lemma TrimmedOne(id: string)
    ensures Trimmed([id]) == {Text.Trim(id)}
  {
    assert [id][..0] == [];
    assert Trimmed([]) == {};
  }

  lemma {:induction false} BatchHasIds(batch: seq<Queued>)
    ensures forall i :: 0 <= i < |batch| ==> batch[i].event.id in BatchIds(batch)
  {
    if batch != [] {
      BatchHasIds(batch[..|batch| - 1]);
    }
  }

  // ---------------------------------------------------------------- a drain against a server

  /** The world of a drain against a server that is `servers(n)` during the n-th send. */
  function ServerWorld(servers: nat -> Server, route: Route, clock: nat -> int, appends: nat -> seq<AppendCall>)
    : World
  {
    World((n: nat, es: seq<Event>) => SendOutcome(servers(n), 0, route, es), clock, appends)
  }

  /** A server that decides on each event by itself, and a client that does not change ids. */
  ghost predicate Consistent(servers: nat -> Server, accepts: seq<Event> -> bool, route: Route) {
    Closed(accepts) && (forall n :: Decides(servers(n), accepts)) && KeepsIds(route)
  }

  /** Entry `i` is the first of the batch that the server refuses. */
  ghost predicate FirstRefusal(route: Route, accepts: seq<Event> -> bool, batch: seq<Queued>, i: nat) {
    && i < |batch| && Refused(route, accepts, batch[i].event)
    && forall j: nat :: j < i ==> !Refused(route, accepts, batch[j].event)
  }

  /** A send of the drain is accepted exactly when its batch holds no refused event; otherwise the first refused
      one is named. */
  lemma SentExact(
    servers: nat -> Server, accepts: seq<Event> -> bool, route: Route, world: World,
    cfg: Config, watermark: nat, begin: Db, steps: seq<Step>, k: nat)
    requires Consistent(servers, accepts, route) && world == ServerWorld(servers, route, world.clock, world.appends)
    requires Legal(cfg, world, watermark, begin, steps) && k < |steps| && steps[k].Sent?
    ensures steps[k].outcome == Accepted <==> forall q :: q in steps[k].batch ==> !Refused(route, accepts, q.event)
    ensures steps[k].outcome != Accepted ==>
      exists i: nat :: FirstRefusal(route, accepts, steps[k].batch, i) &&
        steps[k].outcome == Rejected([steps[k].batch[i].event.id])
  {
    hide Legal, Replay, Closed, Decides, KeepsIds, SendOutcome, IsBatch;
    LegalAt(cfg, world, watermark, begin, steps, k);
    var batch, n := steps[k].batch, Sends(steps[..k]);
    var es := EventsOf(batch);
    SendOutcomeExact(servers(n), accepts, 0, route, es);
    if e :| e in es && Refused(route, accepts, e) {
      var i: nat :| i < |es| && Refused(route, accepts, es[i]) &&
        (forall j :: 0 <= j < i ==> !Refused(route, accepts, es[j])) &&
        SendOutcome(servers(n), 0, route, es) == Rejected([es[i].id]);
      assert FirstRefusal(route, accepts, batch, i) by {
        forall j: nat | j < i ensures !Refused(route, accepts, batch[j].event) { assert es[j] == batch[j].event; }
      }
      assert batch[i] in batch;
    } else {
      forall q | q in batch ensures !Refused(route, accepts, q.event) {
        var i :| 0 <= i < |batch| && batch[i] == q;
        assert es[i] in es;
      }
    }
  }

  /** The first event this send is refused has no id, or none that the queue finds in the batch. */
  ghost predicate Unanswerable(route: Route, accepts: seq<Event> -> bool, step: Step) {
    step.Sent? && exists i: nat :: FirstRefusal(route, accepts, step.batch, i) && Unnamed(step.batch, i)
  }

  ghost predicate Unnamed(batch: seq<Queued>, i: nat)
    requires i < |batch|
  {
    var id := Text.Trim(batch[i].event.id);
    id == "" || !HasId(batch, id)
  }

  lemma FirstRefusalUnique(route: Route, accepts: seq<Event> -> bool, batch: seq<Queued>, i: nat, j: nat)
    requires FirstRefusal(route, accepts, batch, i) && FirstRefusal(route, accepts, batch, j)
    ensures i == j
  {}

  /** Against such a server a send never fails, and it cannot be quarantined exactly when it is unanswerable. */
  lemma CannotQuarantineIff(
    servers: nat -> Server, accepts: seq<Event> -> bool, route: Route, world: World,
    cfg: Config, watermark: nat, begin: Db, steps: seq<Step>, k: nat)
    requires Consistent(servers, accepts, route) && world == ServerWorld(servers, route, world.clock, world.appends)
    requires Legal(cfg, world, watermark, begin, steps) && k < |steps|
    ensures !Fails(steps[k])
    ensures CannotQuarantine(steps[k]) <==> Unanswerable(route, accepts, steps[k])
  {
    hide Legal, Quarantinable, Refused, Consistent;
    if steps[k].Sent? {
      var batch := steps[k].batch;
      SentExact(servers, accepts, route, world, cfg, watermark, begin, steps, k);
      if steps[k].outcome == Accepted {
        forall i: nat ensures !FirstRefusal(route, accepts, batch, i) {
          if i < |batch| { assert batch[i] in batch; }
        }
      } else {
        var i: nat :| FirstRefusal(route, accepts, batch, i) && steps[k].outcome == Rejected([batch[i].event.id]);
        QuarantinableIff(batch, batch[i].event.id);
        forall j: nat | FirstRefusal(route, accepts, batch, j) ensures i == j {
          FirstRefusalUnique(route, accepts, batch, i, j);
        }
      }
    }
  }

  /** What the server had said of the event at `s` that leaves at step `k`: an acknowledged one it accepts; a
      quarantined one carries the id of the first event refused, and is that event if its id is clean. */
  ghost predicate AsAnswered(route: Route, accepts: seq<Event> -> bool, begin: Db, steps: seq<Step>, k: nat, s: nat)
    requires k < |steps| && s in begin.events
  {
    var e := begin.events[s];
    match steps[k]
    case Own(TxAcknowledge(_, _)) => !Refused(route, accepts, e)
    case Own(TxQuarantine(batch, _)) =>
      exists i: nat :: FirstRefusal(route, accepts, batch, i) && e.id == Text.Trim(batch[i].event.id) &&
        (Addressable(batch[i].event) ==> batch[i] == Queued(s, e))
    case _ => true
  }

  lemma QuarantinedIsRefusal(
    servers: nat -> Server, accepts: seq<Event> -> bool, route: Route, world: World,
    cfg: Config, watermark: nat, begin: Db, steps: seq<Step>, k: nat, s: nat)
    requires Consistent(servers, accepts, route) && world == ServerWorld(servers, route, world.clock, world.appends)
    requires Agrees(begin) && Legal(cfg, world, watermark, begin, steps) && watermark <= begin.nextSeq
    requires s in begin.events && k < |steps| && steps[k].Own? && steps[k].tx.TxQuarantine?
    requires s in Sequences(Named(steps[k].tx.batch, steps[k].tx.rejected))
    ensures AsAnswered(route, accepts, begin, steps, k, s)
  {
    hide Legal, Agrees, Consistent, Refused, Named, Trimmed, Quarantinable, SendOf, Sequences;
    var batch, rejected := steps[k].tx.batch, steps[k].tx.rejected;
    var q := Queued(s, begin.events[s]);
    var j := SettlementAnswersSend(cfg, world, watermark, begin, steps, k);
    SettledBatch(world, steps, j, k);
    NamedEntries(batch, rejected);
    BatchEntry(cfg, world, watermark, begin, steps, j, Named(batch, rejected), s);
    SentExact(servers, accepts, route, world, cfg, watermark, begin, steps, j);
    var i: nat :| FirstRefusal(route, accepts, batch, i) && i < |batch| &&
      steps[j].outcome == Rejected([batch[i].event.id]);
    FirstRefusalAt(route, accepts, batch, i);
    TrimmedOne(batch[i].event.id);
    assert q in batch && q.event.id == Text.Trim(batch[i].event.id);
    var h: nat :| h < |batch| && batch[h] == q;
    if Addressable(batch[i].event) && h != i {
      SentIdsDiffer(cfg, world, watermark, begin, steps, j, h, i);
    }
  }

  lemma FirstRefusalAt(route: Route, accepts: seq<Event> -> bool, batch: seq<Queued>, i: nat)
    requires FirstRefusal(route, accepts, batch, i)
    ensures i < |batch| && Refused(route, accepts, batch[i].event)
  {}

  lemma AcknowledgedIsAccepted(
    servers: nat -> Server, accepts: seq<Event> -> bool, route: Route, world: World,
    cfg: Config, watermark: nat, begin: Db, steps: seq<Step>, k: nat, s: nat)
    requires Consistent(servers, accepts, route) && world == ServerWorld(servers, route, world.clock, world.appends)
    requires Agrees(begin) && Legal(cfg, world, watermark, begin, steps) && watermark <= begin.nextSeq
    requires s in begin.events && k < |steps| && steps[k].Own? && steps[k].tx.TxAcknowledge?
    requires s in Sequences(steps[k].tx.batch)
    ensures AsAnswered(route, accepts, begin, steps, k, s)
  {
    hide Legal, Agrees, Consistent, Refused, SendOf, FirstRefusal, Sequences;
    var j := SettlementAnswersSend(cfg, world, watermark, begin, steps, k);
    SettledBatch(world, steps, j, k);
    BatchEntry(cfg, world, watermark, begin, steps, j, steps[k].tx.batch, s);
    SentExact(servers, accepts, route, world, cfg, watermark, begin, steps, j);
    var q := Queued(s, begin.events[s]);
    assert q in steps[j].batch && q.event == begin.events[s];
  }

  lemma LeavingIsAnswered(
    servers: nat -> Server, accepts: seq<Event> -> bool, route: Route, world: World,
    cfg: Config, watermark: nat, begin: Db, steps: seq<Step>, k: nat, s: nat)
    requires Consistent(servers, accepts, route) && world == ServerWorld(servers, route, world.clock, world.appends)
    requires Agrees(begin) && Legal(cfg, world, watermark, begin, steps) && watermark <= begin.nextSeq
    requires s in begin.events && k < |steps| && LeavesAt(cfg, begin, steps, k, s)
    ensures AsAnswered(route, accepts, begin, steps, k, s)
  {
    hide Legal, Replay, Agrees, Consistent, Refused, Named, FirstRefusal, Sequences, AppendRemoves;
    if steps[k].Own? && steps[k].tx.TxAcknowledge? {
      AcknowledgedIsAccepted(servers, accepts, route, world, cfg, watermark, begin, steps, k, s);
    } else if steps[k].Own? && steps[k].tx.TxQuarantine? {
      QuarantinedIsRefusal(servers, accepts, route, world, cfg, watermark, begin, steps, k, s);
    }
  }

  /** What became of the event at `s`: it is still queued as it was, or it left at exactly one step, for the
      reason that step had and as the server had answered. */
  ghost predicate Accounted(route: Route, accepts: seq<Event> -> bool, cfg: Config, world: World,
    begin: Db, steps: seq<Step>, s: nat)
    requires s in begin.events
  {
    var db := Replay(cfg, begin, steps);
    if s in db.events then db.events[s] == begin.events[s]
    else exists k: nat :: (
      k < |steps| && OnlyLeavesAt(cfg, begin, steps, k, s) &&
      Explains(cfg, world, begin, steps, k, s) && AsAnswered(route, accepts, begin, steps, k, s))
  }

  lemma EveryEventIsAccounted(
    servers: nat -> Server, accepts: seq<Event> -> bool, route: Route, world: World,
    cfg: Config, watermark: nat, begin: Db, steps: seq<Step>, s: nat)
    requires Consistent(servers, accepts, route) && world == ServerWorld(servers, route, world.clock, world.appends)
    requires Agrees(begin) && Legal(cfg, world, watermark, begin, steps) && watermark <= begin.nextSeq
    requires s in begin.events
    ensures Accounted(route, accepts, cfg, world, begin, steps, s)
  {
    hide Legal, Replay, Agrees, Consistent, LeavesAt, Explains, AsAnswered;
    DrainConserves(cfg, world, watermark, begin, steps, s);
    if s !in Replay(cfg, begin, steps).events {
      var k: nat :| k < |steps| && OnlyLeavesAt(cfg, begin, steps, k, s) && Explains(cfg, world, begin, steps, k, s);
      LeavingIsAnswered(servers, accepts, route, world, cfg, watermark, begin, steps, k, s);
    }
  }

  /** What had happened at the server to the event at `s` that leaves at step `k`, whatever the server does: an
      acknowledged one was taken, unless it is never uploaded; a quarantined one carries the trimmed id of an uploaded
      event that the server said it will never accept. */
  ghost predicate AsSent(
    servers: nat -> Server, route: Route, world: World, begin: Db, steps: seq<Step>, k: nat, s: nat)
    requires k < |steps| && s in begin.events
  {
    var e := begin.events[s];
    match steps[k]
    case Own(TxAcknowledge(_, _)) =>
      exists j: nat :: (
        SendOf(world, steps, j, k) && Queued(s, e) in steps[j].batch &&
        (route.uploadable(e) ==> Took(servers(Sends(steps[..j])), route.bind(e))))
    case Own(TxQuarantine(_, _)) =>
      exists j: nat, u: Event :: (
        SendOf(world, steps, j, k) && Queued(s, e) in steps[j].batch && u in Upload(route, EventsOf(steps[j].batch)) &&
        RejectedAlone(servers(Sends(steps[..j])), u) && e.id == Text.Trim(u.id))
    case _ => true
  }

  /** Every send of a drain means what its outcome says. */
  lemma SentMeans(
    servers: nat -> Server, route: Route, world: World, cfg: Config, watermark: nat, begin: Db, steps: seq<Step>,
    k: nat)
    returns (taken: seq<Event>)
    requires world == ServerWorld(servers, route, world.clock, world.appends)
    requires Legal(cfg, world, watermark, begin, steps) && k < |steps| && steps[k].Sent?
    ensures taken == SendAll(servers(Sends(steps[..k])), 0, Batches(route, EventsOf(steps[k].batch))).taken
    ensures Means(servers(Sends(steps[..k])), Upload(route, EventsOf(steps[k].batch)), taken, steps[k].outcome)
  {
    hide Legal, Replay, SendOutcome, IsBatch, Means, SendAll, Batches, Upload;
    LegalAt(cfg, world, watermark, begin, steps, k);
    var server, es := servers(Sends(steps[..k])), EventsOf(steps[k].batch);
    taken := SendAll(server, 0, Batches(route, es)).taken;
    SendOutcomeMeans(server, 0, route, es);
  }

  lemma UploadHolds(route: Route, batch: seq<Queued>, q: Queued)
    requires q in batch && route.uploadable(q.event)
    ensures route.bind(q.event) in Upload(route, EventsOf(batch))
  {
    hide Upload;
    var es := EventsOf(batch);
    var i :| 0 <= i < |batch| && batch[i] == q;
    assert es == es[..i] + [q.event] + es[i + 1..];
    UploadOfEach(route, es[..i], q.event, es[i + 1..]);
  }

  lemma LeavingWasSent(
    servers: nat -> Server, route: Route, world: World,
    cfg: Config, watermark: nat, begin: Db, steps: seq<Step>, k: nat, s: nat)
    requires world == ServerWorld(servers, route, world.clock, world.appends)
    requires Agrees(begin) && Legal(cfg, world, watermark, begin, steps) && watermark <= begin.nextSeq
    requires s in begin.events && k < |steps| && LeavesAt(cfg, begin, steps, k, s)
    ensures AsSent(servers, route, world, begin, steps, k, s)
  {
    if steps[k].Own? && steps[k].tx.TxAcknowledge? {
      AcknowledgedWasTaken(servers, route, world, cfg, watermark, begin, steps, k, s);
    } else if steps[k].Own? && steps[k].tx.TxQuarantine? {
      QuarantinedWasRejected(servers, route, world, cfg, watermark, begin, steps, k, s);
    }
  }

  lemma AcknowledgedWasTaken(
    servers: nat -> Server, route: Route, world: World,
    cfg: Config, watermark: nat, begin: Db, steps: seq<Step>, k: nat, s: nat)
    requires world == ServerWorld(servers, route, world.clock, world.appends)
    requires Agrees(begin) && Legal(cfg, world, watermark, begin, steps) && watermark <= begin.nextSeq
    requires s in begin.events && k < |steps| && steps[k].Own? && steps[k].tx.TxAcknowledge?
    requires s in Sequences(steps[k].tx.batch)
    ensures AsSent(servers, route, world, begin, steps, k, s)
  {
    hide Legal, Agrees, SendOf, Sequences, Upload, Took, Replay;
    var j := SettlementAnswersSend(cfg, world, watermark, begin, steps, k);
    SettledBatch(world, steps, j, k);
    BatchEntry(cfg, world, watermark, begin, steps, j, steps[k].tx.batch, s);
    var taken := SentMeans(servers, route, world, cfg, watermark, begin, steps, j);
    var e := begin.events[s];
    if route.uploadable(e) {
      UploadHolds(route, steps[j].batch, Queued(s, e));
    }
    assert SendOf(world, steps, j, k) && Queued(s, e) in steps[j].batch;
  }

  lemma QuarantinedWasRejected(
    servers: nat -> Server, route: Route, world: World,
    cfg: Config, watermark: nat, begin: Db, steps: seq<Step>, k: nat, s: nat)
    requires world == ServerWorld(servers, route, world.clock, world.appends)
    requires Agrees(begin) && Legal(cfg, world, watermark, begin, steps) && watermark <= begin.nextSeq
    requires s in begin.events && k < |steps| && steps[k].Own? && steps[k].tx.TxQuarantine?
    requires s in Sequences(Named(steps[k].tx.batch, steps[k].tx.rejected))
    ensures AsSent(servers, route, world, begin, steps, k, s)
  {
    hide Legal, Agrees, SendOf, Sequences, Upload, Took, Replay, Named, Trimmed, Quarantinable, RejectedAlone;
    var batch, rejected := steps[k].tx.batch, steps[k].tx.rejected;
    var j := SettlementAnswersSend(cfg, world, watermark, begin, steps, k);
    SettledBatch(world, steps, j, k);
    NamedEntries(batch, rejected);
    BatchEntry(cfg, world, watermark, begin, steps, j, Named(batch, rejected), s);
    var taken := SentMeans(servers, route, world, cfg, watermark, begin, steps, j);
    var u := Upload(route, EventsOf(steps[j].batch))[|taken|];
    TrimmedOne(u.id);
    assert Queued(s, begin.events[s]) in Named(batch, rejected);
    assert SendOf(world, steps, j, k) && u in Upload(route, EventsOf(steps[j].batch));
  }

  /** What became of the event at `s`, whatever the server does: it is still queued as it was, or it left at exactly one
      step, for the reason that step had and after what the server had done. */
  ghost predicate Handled(servers: nat -> Server, route: Route, cfg: Config, world: World,
    begin: Db, steps: seq<Step>, s: nat)
    requires s in begin.events
  {
    var db := Replay(cfg, begin, steps);
    if s in db.events then db.events[s] == begin.events[s]
    else exists k: nat :: (
      k < |steps| && OnlyLeavesAt(cfg, begin, steps, k, s) &&
      Explains(cfg, world, begin, steps, k, s) && AsSent(servers, route, world, begin, steps, k, s))
  }

  lemma EveryEventIsHandled(
    servers: nat -> Server, route: Route, world: World,
    cfg: Config, watermark: nat, begin: Db, steps: seq<Step>, s: nat)
    requires world == ServerWorld(servers, route, world.clock, world.appends)
    requires Agrees(begin) && Legal(cfg, world, watermark, begin, steps) && watermark <= begin.nextSeq
    requires s in begin.events
    ensures Handled(servers, route, cfg, world, begin, steps, s)
  {
    hide Legal, Replay, Agrees, LeavesAt, Explains, AsSent;
    DrainConserves(cfg, world, watermark, begin, steps, s);
    if s !in Replay(cfg, begin, steps).events {
      var k: nat :| k < |steps| && OnlyLeavesAt(cfg, begin, steps, k, s) && Explains(cfg, world, begin, steps, k, s);
      LeavingWasSent(servers, route, world, cfg, watermark, begin, steps, k, s);
    }
  }

  /** When a drain fails to send, the server gave some answer to a post of it that neither takes nor rejects. */
  lemma FailedWasBroken(
    servers: nat -> Server, route: Route, world: World,
    cfg: Config, watermark: nat, begin: Db, steps: seq<Step>, result: DrainResult)
    returns (k: nat, reply: Reply)
    requires world == ServerWorld(servers, route, world.clock, world.appends)
    requires IsDrain(cfg, world, watermark, begin, steps, result) && result.SendFailed?
    ensures k < |steps| && steps[k].Sent? && Answered(servers(Sends(steps[..k])), reply)
    ensures reply != Ok && reply != Status(400) && reply != Status(413)
  {
    hide Legal, Opens, EndsWith, Draining, Replay, AllLanded, Upload, Answered, Took, RejectedAlone;
    DrainEndsIff(cfg, world, watermark, begin, steps, result);
    k :| k < |steps| && Fails(steps[k]);
    var taken := SentMeans(servers, route, world, cfg, watermark, begin, steps, k);
    reply :| Answered(servers(Sends(steps[..k])), reply) && reply != Ok && reply != Status(400) && reply != Status(413);
  }

  /** A queue drained against a server. Whatever the server does, every event is handled, and unless the drain fails
      nothing queued before is left. Against one that decides on each event by itself the drain stops before its end
      exactly when some batch it sent was unanswerable, which takes a queued refused event without a clean id; and
      every event is treated as the server decides. */
  method DrainToServer(q: Queue, servers: nat -> Server, ghost accepts: seq<Event> -> bool, route: Route,
    clock: nat -> int, appends: nat -> seq<AppendCall>)
    returns (result: DrainResult, ghost watermark: nat, ghost steps: seq<Step>)
    requires Agrees(q.State()) && ServerWorld(servers, route, clock, appends).WellFormed()
    modifies q
    ensures Agrees(q.State()) && q.State() == Replay(q.cfg, old(q.State()), steps)
    ensures IsDrain(q.cfg, ServerWorld(servers, route, clock, appends), watermark, old(q.State()), steps, result)
    ensures forall s :: s in old(q.events) ==>
      Handled(servers, route, q.cfg, ServerWorld(servers, route, clock, appends), old(q.State()), steps, s)
    ensures result.Drained? || result.DrainedWithQuarantine? ==> forall s :: s in q.events ==> s > old(q.nextSeq)
    ensures Consistent(servers, accepts, route) ==>
      !result.SendFailed? &&
      (result.QuarantineFailed? <==> exists k: nat :: k < |steps| && Unanswerable(route, accepts, steps[k]))
    ensures Consistent(servers, accepts, route) && (forall s :: s in old(q.events) ==>
               Refused(route, accepts, old(q.events)[s]) ==> Addressable(old(q.events)[s]))
      ==> result.Drained? || result.DrainedWithQuarantine?
    ensures Consistent(servers, accepts, route) ==> forall s :: s in old(q.events) ==>
      Accounted(route, accepts, q.cfg, ServerWorld(servers, route, clock, appends), old(q.State()), steps, s)
  {
    hide Agrees, Legal, Opens, EndsWith, Draining, Replay, Consistent, Unanswerable, Accounted, Handled, SendOutcome,
      Refused, Fails, CannotQuarantine, Addressable;
    var world := ServerWorld(servers, route, clock, appends);
    ghost var begin, cfg := q.State(), q.cfg;
    result, watermark, steps := Drain(q, world);
    BelowTheMark(cfg, world, watermark, begin, steps, result);
    forall s | s in begin.events ensures Handled(servers, route, cfg, world, begin, steps, s) {
      EveryEventIsHandled(servers, route, world, cfg, watermark, begin, steps, s);
    }
    if Consistent(servers, accepts, route) {
      DecidedDrain(servers, accepts, route, world, cfg, watermark, begin, steps, result);
    }
  }

  lemma DecidedDrain(
    servers: nat -> Server, accepts: seq<Event> -> bool, route: Route, world: World,
    cfg: Config, watermark: nat, begin: Db, steps: seq<Step>, result: DrainResult)
    requires Consistent(servers, accepts, route) && world == ServerWorld(servers, route, world.clock, world.appends)
    requires Agrees(begin) && IsDrain(cfg, world, watermark, begin, steps, result) && watermark <= begin.nextSeq
    ensures !result.SendFailed?
    ensures result.QuarantineFailed? <==> exists k: nat :: k < |steps| && Unanswerable(route, accepts, steps[k])
    ensures (forall s :: s in begin.events ==>
               Refused(route, accepts, begin.events[s]) ==> Addressable(begin.events[s]))
      ==> !result.QuarantineFailed?
    ensures forall s :: s in begin.events ==> Accounted(route, accepts, cfg, world, begin, steps, s)
  {
    hide Agrees, Legal, Opens, EndsWith, Draining, Replay, Consistent, Unanswerable, Accounted, SendOutcome, Refused,
      Fails, CannotQuarantine, Addressable;
    DrainEndsIff(cfg, world, watermark, begin, steps, result);
    forall k: nat | k < |steps|
      ensures !Fails(steps[k]) && (CannotQuarantine(steps[k]) <==> Unanswerable(route, accepts, steps[k]))
    {
      CannotQuarantineIff(servers, accepts, route, world, cfg, watermark, begin, steps, k);
    }
    if forall s :: s in begin.events ==> Refused(route, accepts, begin.events[s]) ==> Addressable(begin.events[s]) {
      forall k: nat | k < |steps| ensures !Unanswerable(route, accepts, steps[k]) {
        AddressableIsAnswerable(route, accepts, cfg, world, watermark, begin, steps, k);
      }
    }
    forall s | s in begin.events ensures Accounted(route, accepts, cfg, world, begin, steps, s) {
      EveryEventIsAccounted(servers, accepts, route, world, cfg, watermark, begin, steps, s);
    }
  }

  lemma BelowTheMark(
    cfg: Config, world: World, watermark: nat, begin: Db, steps: seq<Step>, result: DrainResult)
    requires IsDrain(cfg, world, watermark, begin, steps, result)
    ensures watermark <= begin.nextSeq
  {
    hide Legal, Opens, EndsWith, Replay;
  }

  lemma AddressableIsAnswerable(
    route: Route, accepts: seq<Event> -> bool, cfg: Config, world: World, watermark: nat, begin: Db,
    steps: seq<Step>, k: nat)
    requires Agrees(begin) && Legal(cfg, world, watermark, begin, steps) && watermark <= begin.nextSeq && k < |steps|
    requires forall s :: s in begin.events && Refused(route, accepts, begin.events[s]) ==> Addressable(begin.events[s])
    ensures !Unanswerable(route, accepts, steps[k])
  {
    hide Agrees, Legal, Refused;
    if steps[k].Sent? {
      var batch := steps[k].batch;
      forall i: nat | FirstRefusal(route, accepts, batch, i) ensures !Unnamed(batch, i) {
        SentWasQueued(cfg, world, watermark, begin, steps, k, i);
        assert Addressable(batch[i].event) && HasId(batch, batch[i].event.id);
      }
    }
  }

  // ---------------------------------------------------------------- refused events without an id

  /** The queue cannot name this event at all. */
  predicate Blank(e: Event) { Text.Trim(e.id) == "" }

  /** Nothing but a settlement took the event at `s`: it did not expire, and no append removed it. */
  ghost predicate OnlySettled(cfg: Config, begin: Db, steps: seq<Step>, s: nat) {
    forall k: nat :: k < |steps| && LeavesAt(cfg, begin, steps, k, s) ==> steps[k].Own? && Settles(steps[k].tx)
  }

  /** A drain gets past a refused event without an id only if the event expires or an append removes it:
      otherwise it fails to quarantine, and it will do so again. */
  lemma BlankRefusalStopsDrain(
    servers: nat -> Server, accepts: seq<Event> -> bool, route: Route, world: World,
    cfg: Config, watermark: nat, begin: Db, steps: seq<Step>, result: DrainResult, s: nat)
    requires Consistent(servers, accepts, route) && world == ServerWorld(servers, route, world.clock, world.appends)
    requires Agrees(begin) && IsDrain(cfg, world, watermark, begin, steps, result)
    requires s in begin.events && Refused(route, accepts, begin.events[s]) && Blank(begin.events[s])
    requires OnlySettled(cfg, begin, steps, s)
    ensures result.QuarantineFailed?
    ensures s in Replay(cfg, begin, steps).events && Replay(cfg, begin, steps).events[s] == begin.events[s]
  {
    hide Agrees, Legal, Opens, EndsWith, Draining, Replay, Consistent, Refused, Fails, CannotQuarantine, LeavesAt,
      Explains;
    BelowTheMark(cfg, world, watermark, begin, steps, result);
    EveryEventIsAccounted(servers, accepts, route, world, cfg, watermark, begin, steps, s);
    if s !in Replay(cfg, begin, steps).events {
      var k: nat :| k < |steps| && OnlyLeavesAt(cfg, begin, steps, k, s) && Explains(cfg, world, begin, steps, k, s) &&
        AsAnswered(route, accepts, begin, steps, k, s);
      BlankIsNeverSettled(route, accepts, cfg, world, watermark, begin, steps, k, s);
    }
    AgreesNumbers(begin, s);
    DrainEndsIff(cfg, world, watermark, begin, steps, result);
    forall k: nat | k < |steps| ensures !Fails(steps[k]) {
      CannotQuarantineIff(servers, accepts, route, world, cfg, watermark, begin, steps, k);
    }
  }

  lemma BlankIsNeverSettled(
    route: Route, accepts: seq<Event> -> bool, cfg: Config, world: World, watermark: nat, begin: Db,
    steps: seq<Step>, k: nat, s: nat)
    requires s in begin.events && Refused(route, accepts, begin.events[s]) && Blank(begin.events[s])
    requires k < |steps| && Explains(cfg, world, begin, steps, k, s) && AsAnswered(route, accepts, begin, steps, k, s)
    ensures !(steps[k].Own? && Settles(steps[k].tx))
  {
    hide Refused, Quarantinable, Trimmed, Replay;
    if steps[k].Own? && steps[k].tx.TxQuarantine? {
      var batch := steps[k].tx.batch;
      var j: nat :| SendOf(world, steps, j, k) && Queued(s, begin.events[s]) in steps[j].batch &&
        steps[j].outcome.Rejected? && Quarantinable(steps[j].batch, steps[j].outcome.ids) &&
        begin.events[s].id in Trimmed(steps[j].outcome.ids);
      QuarantinableNames(steps[j].batch, steps[j].outcome.ids);
      var i: nat :| FirstRefusal(route, accepts, batch, i) && begin.events[s].id == Text.Trim(batch[i].event.id);
      Text.TrimTwice(batch[i].event.id);
    }
  }

  /** No append lands in the drain, and the event at `s` is within retention at every clock reading. */
  ghost predicate Quiet(cfg: Config, world: World, begin: Db, s: nat)
    requires s in begin.events
  {
    (forall g: nat :: world.appends(g) == []) &&
    forall n: nat :: begin.events[s].createdAt >= world.clock(n) - cfg.maxAge
  }

  lemma QuietIsOnlySettled(
    cfg: Config, world: World, watermark: nat, begin: Db, steps: seq<Step>, s: nat)
    requires Agrees(begin) && Legal(cfg, world, watermark, begin, steps) && watermark <= begin.nextSeq
    requires s in begin.events && Quiet(cfg, world, begin, s)
    ensures OnlySettled(cfg, begin, steps, s)
  {
    hide Agrees, Legal, Replay, LeavesAt, Gap, Ticks, AppendRemoves, SendOf, Trimmed, Quarantinable;
    forall k: nat | k < |steps| && LeavesAt(cfg, begin, steps, k, s) ensures steps[k].Own? && Settles(steps[k].tx) {
      LeavingIsExplained(cfg, world, watermark, begin, steps, k, s);
      assert world.appends(Gap(steps[..k])) == [];
    }
  }

  /** When nothing else takes events and every refused id is clean or blank, a drain fails to quarantine exactly
      when a refused event without an id was queued. */
  lemma StopsAtBlankIff(
    servers: nat -> Server, accepts: seq<Event> -> bool, route: Route, world: World,
    cfg: Config, watermark: nat, begin: Db, steps: seq<Step>, result: DrainResult)
    requires Consistent(servers, accepts, route) && world == ServerWorld(servers, route, world.clock, world.appends)
    requires Agrees(begin) && IsDrain(cfg, world, watermark, begin, steps, result)
    requires forall s :: s in begin.events && Refused(route, accepts, begin.events[s]) ==>
      Quiet(cfg, world, begin, s) && (Addressable(begin.events[s]) || Blank(begin.events[s]))
    ensures result.QuarantineFailed? <==>
      exists s :: s in begin.events && Refused(route, accepts, begin.events[s]) && Blank(begin.events[s])
  {
    hide Agrees, Legal, Opens, EndsWith, Draining, Replay, Consistent, Refused, CannotQuarantine, Fails, Unanswerable,
      Quiet, Addressable, Blank, OnlySettled;
    BelowTheMark(cfg, world, watermark, begin, steps, result);
    if s :| s in begin.events && Refused(route, accepts, begin.events[s]) && Blank(begin.events[s]) {
      QuietIsOnlySettled(cfg, world, watermark, begin, steps, s);
      BlankRefusalStopsDrain(servers, accepts, route, world, cfg, watermark, begin, steps, result, s);
    } else {
      DrainEndsIff(cfg, world, watermark, begin, steps, result);
      forall k: nat | k < |steps| ensures !CannotQuarantine(steps[k]) {
        CannotQuarantineIff(servers, accepts, route, world, cfg, watermark, begin, steps, k);
        AddressableIsAnswerable(route, accepts, cfg, world, watermark, begin, steps, k);
      }
    }
  }

  /** When nothing but a settlement takes an event and every refused id is clean, the drain takes it out of the
      queue, into quarantine exactly when the server refuses it and otherwise acknowledged and recorded. */
  lemma DrainSortsEvents(
    servers: nat -> Server, accepts: seq<Event> -> bool, route: Route, world: World,
    cfg: Config, watermark: nat, begin: Db, steps: seq<Step>, result: DrainResult, s: nat)
    returns (k: nat)
    requires Consistent(servers, accepts, route) && world == ServerWorld(servers, route, world.clock, world.appends)
    requires Agrees(begin) && IsDrain(cfg, world, watermark, begin, steps, result)
    requires forall r :: r in begin.events && Refused(route, accepts, begin.events[r]) ==> Addressable(begin.events[r])
    requires s in begin.events && OnlySettled(cfg, begin, steps, s)
    ensures s !in Replay(cfg, begin, steps).events
    ensures k < |steps| && OnlyLeavesAt(cfg, begin, steps, k, s) && steps[k].Own? && Settles(steps[k].tx)
    ensures steps[k].tx.TxQuarantine? <==> Refused(route, accepts, begin.events[s])
    ensures steps[k].tx.TxQuarantine? ==> begin.events[s].id in Replay(cfg, begin, steps).quarantine
    ensures steps[k].tx.TxAcknowledge? && begin.events[s].id != "" ==>
      begin.events[s].id in Replay(cfg, begin, steps[..k + 1]).delivered
  {
    hide Agrees, Legal, Opens, EndsWith, Draining, Replay, Consistent, CannotQuarantine, Fails, Unanswerable,
      Addressable, LeavesAt, Explains, AsAnswered, OnlyLeavesAt;
    BelowTheMark(cfg, world, watermark, begin, steps, result);
    DrainEndsIff(cfg, world, watermark, begin, steps, result);
    forall j: nat | j < |steps| ensures !CannotQuarantine(steps[j]) && !Fails(steps[j]) {
      CannotQuarantineIff(servers, accepts, route, world, cfg, watermark, begin, steps, j);
      AddressableIsAnswerable(route, accepts, cfg, world, watermark, begin, steps, j);
    }
    AgreesNumbers(begin, s);
    EveryEventIsAccounted(servers, accepts, route, world, cfg, watermark, begin, steps, s);
    k :| k < |steps| && OnlyLeavesAt(cfg, begin, steps, k, s) && Explains(cfg, world, begin, steps, k, s) &&
      AsAnswered(route, accepts, begin, steps, k, s);
    OnlySettlementTakes(cfg, begin, steps, k, s);
    SettledAsAnswered(route, accepts, cfg, world, watermark, begin, steps, k, s);
    if steps[k].tx.TxQuarantine? {
      QuarantineStays(cfg, world, watermark, begin, steps, k + 1, begin.events[s].id);
    }
  }

  lemma OnlySettlementTakes(cfg: Config, begin: Db, steps: seq<Step>, k: nat, s: nat)
    requires OnlySettled(cfg, begin, steps, s) && k < |steps| && OnlyLeavesAt(cfg, begin, steps, k, s)
    ensures steps[k].Own? && Settles(steps[k].tx)
  {
    hide LeavesAt;
  }

  lemma SettledAsAnswered(
    route: Route, accepts: seq<Event> -> bool, cfg: Config, world: World, watermark: nat, begin: Db,
    steps: seq<Step>, k: nat, s: nat)
    requires Agrees(begin) && Legal(cfg, world, watermark, begin, steps) && watermark <= begin.nextSeq
    requires forall r :: r in begin.events && Refused(route, accepts, begin.events[r]) ==> Addressable(begin.events[r])
    requires s in begin.events && k < |steps| && steps[k].Own? && Settles(steps[k].tx)
    requires Explains(cfg, world, begin, steps, k, s) && AsAnswered(route, accepts, begin, steps, k, s)
    ensures steps[k].tx.TxQuarantine? <==> Refused(route, accepts, begin.events[s])
    ensures steps[k].tx.TxQuarantine? ==> begin.events[s].id in Replay(cfg, begin, steps[..k + 1]).quarantine
    ensures steps[k].tx.TxAcknowledge? && begin.events[s].id != "" ==>
      begin.events[s].id in Replay(cfg, begin, steps[..k + 1]).delivered
  {
    hide Agrees, Legal, Replay, Refused, Trimmed, Quarantinable, SendOf;
    if steps[k].tx.TxQuarantine? {
      var batch := steps[k].tx.batch;
      var i: nat :| FirstRefusal(route, accepts, batch, i) && begin.events[s].id == Text.Trim(batch[i].event.id) &&
        (Addressable(batch[i].event) ==> batch[i] == Queued(s, begin.events[s]));
      var j := SettlementAnswersSend(cfg, world, watermark, begin, steps, k);
      SettledBatch(world, steps, j, k);
      SentWasQueued(cfg, world, watermark, begin, steps, j, i);
    }
  }
}
