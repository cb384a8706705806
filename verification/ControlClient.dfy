/** Delivery to the control plane: split by request size, post each batch, and bisect a batch the server
    rejects for good until the offending event stands alone. */
module ControlClient {
  import opened GreedySplit
  import opened Options
  import opened QueueModel

  // ---------------------------------------------------------------- splitting by encoded size

  const MAX_REQUEST_BODY_BYTES: int := 8 * 1024 * 1024

  /** Length of `{"events":[]}`. */
  const BATCH_OVERHEAD: nat := 13

  function Lengths(es: seq<Event>): nat {
    if es == [] then 0 else Lengths(es[..|es| - 1]) + |es[|es| - 1].encoded|
  }

  /** The size of a request body: the envelope, the events and the commas between them. */
  function EncodedSize(es: seq<Event>): nat {
    BATCH_OVERHEAD + Lengths(es) + (if es == [] then 0 else |es| - 1)
  }

  function FitsBody(maxBytes: int): seq<Event> -> bool {
    es => EncodedSize(es) <= maxBytes
  }

  /** The encoded events, separated by commas. */
  function JoinEncoded(es: seq<Event>): string {
    if es == [] then "" else
      var n := |es| - 1;
      JoinEncoded(es[..n]) + (if n == 0 then "" else ",") + es[n].encoded
  }

  /** The body of a request. */
  function Body(es: seq<Event>): string { "{\"events\":[" + JoinEncoded(es) + "]}" }

  lemma {:induction false} JoinedLength(es: seq<Event>)
    ensures |JoinEncoded(es)| == Lengths(es) + (if es == [] then 0 else |es| - 1)
  {
    if es != [] {
      JoinedLength(es[..|es| - 1]);
    }
  }

  /** The size that is added up event by event is that of the body. */
  lemma EncodedSizeIsBody(es: seq<Event>)
    ensures EncodedSize(es) == |Body(es)|
  {
    JoinedLength(es);
  }

  /** The batches are the events in order, none is empty, and each body is within the limit unless it is a single
      event. */
  ghost predicate BodySplit(maxBytes: int, batches: seq<seq<Event>>, es: seq<Event>) {
    Flatten(batches) == es &&
    forall i :: 0 <= i < |batches| ==> batches[i] != [] && (|batches[i]| == 1 || |Body(batches[i])| <= maxBytes)
  }

  lemma SplitIsBodySplit(maxBytes: int, batches: seq<seq<Event>>, es: seq<Event>)
    ensures IsSplit(FitsBody(maxBytes), batches, es) <==> BodySplit(maxBytes, batches, es)
  {
    hide EncodedSize, Body, Flatten;
    forall i | 0 <= i < |batches|
      ensures Allowed(FitsBody(maxBytes), batches[i]) <==>
        batches[i] != [] && (|batches[i]| == 1 || |Body(batches[i])| <= maxBytes)
    {
      EncodedSizeIsBody(batches[i]);
    }
  }

  lemma {:induction false} LengthsSplit(a: seq<Event>, b: seq<Event>)
    ensures Lengths(a + b) == Lengths(a) + Lengths(b)
  {
    if b == [] {
      assert a + b == a;
    } else {
      LengthsSplit(a, b[..|b| - 1]);
      assert (a + b)[..|a + b| - 1] == a + b[..|b| - 1];
    }
  }

  lemma FitsBodyHereditary(maxBytes: int)
    ensures Hereditary(FitsBody(maxBytes))
  {
    forall xs: seq<Event>, i: nat, j: nat | i < j <= |xs| && FitsBody(maxBytes)(xs)
      ensures FitsBody(maxBytes)(Part(xs, i, j))
    {
      assert xs == xs[..i] + xs[i..j] + xs[j..];
      LengthsSplit(xs[..i] + xs[i..j], xs[j..]);
      LengthsSplit(xs[..i], xs[i..j]);
    }
  }

  /** Fails only for a body limit that is not positive. The batches are the greedy ones: in order, none
      empty, each body within the limit unless it is a single event, and as few as possible. */
  method SplitEventBatches(es: seq<Event>, maxBytes: int) returns (batches: Option<seq<seq<Event>>>)
    ensures batches.None? <==> es != [] && maxBytes <= 0
    ensures batches.Some? ==> batches.value == Greedy(FitsBody(maxBytes), es)
    ensures batches.Some? ==> BodySplit(maxBytes, batches.value, es)
    ensures batches.Some? ==> forall other :: BodySplit(maxBytes, other, es) ==> |batches.value| <= |other|
  {
    var fits := FitsBody(maxBytes);
    SplitFacts(es, maxBytes);
    if es == [] {
      return Some([]);
    }
    if maxBytes <= 0 {
      return None;
    }
    hide Open, IsSplit, BodySplit, Greedy, FitsBody, Lengths, EncodedSize;
    var done: seq<seq<Event>> := [];
    var current: seq<Event> := [];
    var currentBytes := BATCH_OVERHEAD;
    OpenBegin(fits, es);
    SizeGrows([], es[0], maxBytes);
    for i := 0 to |es|
      invariant Open(fits, es, done, current, i)
      invariant currentBytes == EncodedSize(current) && (i > 0 ==> current != [])
    {
      var e := es[i];
      var separator := if |current| > 0 then 1 else 0;
      SizeGrows(current, e, maxBytes);
      if |current| > 0 && currentBytes + separator + |e.encoded| > maxBytes {
        OpenFlush(fits, es, done, current, i);
        done := done + [current];
        current := [];
        currentBytes := BATCH_OVERHEAD;
        separator := 0;
        SizeGrows([], e, maxBytes);
      }
      OpenExtend(fits, es, done, current, i);
      current := current + [e];
      currentBytes := currentBytes + separator + |e.encoded|;
    }
    OpenEnd(fits, es, done, current);
    done := done + [current];
    batches := Some(done);
  }

  lemma SizeGrows(current: seq<Event>, e: Event, maxBytes: int)
    ensures EncodedSize(current + [e]) == EncodedSize(current) + (if current == [] then 0 else 1) + |e.encoded|
    ensures EncodedSize([]) == BATCH_OVERHEAD
    ensures FitsBody(maxBytes)(current + [e]) <==> EncodedSize(current + [e]) <= maxBytes
  {
    assert (current + [e])[..|current|] == current;
  }

  lemma SplitFacts(es: seq<Event>, maxBytes: int)
    ensures BodySplit(maxBytes, Greedy(FitsBody(maxBytes), es), es)
    ensures forall other :: BodySplit(maxBytes, other, es) ==> |Greedy(FitsBody(maxBytes), es)| <= |other|
  {
    hide IsSplit, BodySplit, FitsBody, Greedy;
    GreedyIsSplit(FitsBody(maxBytes), es);
    SplitIsBodySplit(maxBytes, Greedy(FitsBody(maxBytes), es), es);
    FitsBodyHereditary(maxBytes);
    forall other | BodySplit(maxBytes, other, es)
      ensures |Greedy(FitsBody(maxBytes), es)| <= |other|
    {
      SplitIsBodySplit(maxBytes, other, es);
      GreedyIsMinimal(FitsBody(maxBytes), es, other);
    }
  }

  // ---------------------------------------------------------------- bisection

  datatype Reply = Ok | Status(code: int) | Unreachable

  /** HTTP 400 and 413 mean the batch will never be accepted. */
  predicate Permanent(reply: Reply) {
    reply == Status(400) || reply == Status(413)
  }

  datatype Verdict = Sent | RejectedEvent(event: Event) | Broken(reply: Reply)

  /** How a send went: its verdict, the events of the posts the server accepted, and how many posts it took. */
  datatype Trace = Trace(verdict: Verdict, taken: seq<Event>, posts: nat)

  /** The server: its answer to the n-th post. */
  type Server = (nat, seq<Event>) -> Reply

  function Bisect(server: Server, n: nat, es: seq<Event>): Trace
    requires es != []
    decreases |es|
  {
    var reply := server(n, es);
    if reply == Ok then Trace(Sent, es, 1)
    else if !Permanent(reply) then Trace(Broken(reply), [], 1)
    else if |es| == 1 then Trace(RejectedEvent(es[0]), [], 1)
    else
      var first := Bisect(server, n + 1, es[..|es| / 2]);
      if !first.verdict.Sent? then first.(posts := 1 + first.posts)
      else
        var second := Bisect(server, n + 1 + first.posts, es[|es| / 2..]);
        Trace(second.verdict, first.taken + second.taken, 1 + first.posts + second.posts)
  }

  /** The batches one after the other, stopping at the first that is not sent. */
  function SendAll(server: Server, n: nat, batches: seq<seq<Event>>): Trace
    requires forall i :: 0 <= i < |batches| ==> batches[i] != []
    decreases |batches|
  {
    if batches == [] then Trace(Sent, [], 0) else
      var first := Bisect(server, n, batches[0]);
      if !first.verdict.Sent? then first
      else
        var rest := SendAll(server, n + first.posts, batches[1..]);
        Trace(rest.verdict, first.taken + rest.taken, first.posts + rest.posts)
  }

  class Wire {
    const server: Server
    var posts: nat
    var taken: seq<Event>

    constructor (server: Server)
      ensures this.server == server && posts == 0 && taken == []
    {
      this.server := server;
      posts, taken := 0, [];
    }

    method Post(es: seq<Event>) returns (reply: Reply)
      modifies this
      ensures reply == server(old(posts), es) && posts == old(posts) + 1
      ensures taken == old(taken) + (if reply == Ok then es else [])
    {
      reply := server(posts, es);
      posts := posts + 1;
      if reply == Ok {
        taken := taken + es;
      }
    }

    method SendEventBatch(es: seq<Event>) returns (verdict: Verdict)
      requires es != []
      modifies this
      ensures var trace := Bisect(server, old(posts), es);
        verdict == trace.verdict && posts == old(posts) + trace.posts && taken == old(taken) + trace.taken
      decreases |es|
    {
      hide Bisect;
      BisectCases(server, posts, es);
      ghost var start, at := taken, posts;
      var reply := Post(es);
      if reply == Ok {
        return Sent;
      }
      if !Permanent(reply) {
        return Broken(reply);
      }
      if |es| == 1 {
        return RejectedEvent(es[0]);
      }
      var middle := |es| / 2;
      ghost var first := Bisect(server, at + 1, es[..middle]);
      verdict := SendEventBatch(es[..middle]);
      if verdict.Sent? {
        ghost var second := Bisect(server, at + 1 + first.posts, es[middle..]);
        verdict := SendEventBatch(es[middle..]);
        assert start + (first.taken + second.taken) == (start + first.taken) + second.taken;
      }
    }
  }

  /** The cases of a bisection, one post at a time. */
  lemma BisectCases(server: Server, n: nat, es: seq<Event>)
    requires es != []
    ensures var trace := Bisect(server, n, es); var reply := server(n, es);
      && (reply == Ok ==> trace == Trace(Sent, es, 1))
      && (reply != Ok && !Permanent(reply) ==> trace == Trace(Broken(reply), [], 1))
      && (reply != Ok && Permanent(reply) && |es| == 1 ==> trace == Trace(RejectedEvent(es[0]), [], 1))
      && (reply != Ok && Permanent(reply) && |es| > 1 ==>
            var first := Bisect(server, n + 1, es[..|es| / 2]);
            var second := Bisect(server, n + 1 + first.posts, es[|es| / 2..]);
            trace == if first.verdict.Sent?
                     then Trace(second.verdict, first.taken + second.taken, 1 + first.posts + second.posts)
                     else first.(posts := 1 + first.posts))
  {}

  lemma {:induction false} BisectCost(server: Server, n: nat, es: seq<Event>)
    requires es != []
    ensures 1 <= Bisect(server, n, es).posts <= 2 * |es| - 1
    decreases |es|
  {
    var reply := server(n, es);
    if reply != Ok && Permanent(reply) && |es| > 1 {
      var middle := |es| / 2;
      BisectCost(server, n + 1, es[..middle]);
      BisectCost(server, n + 1 + Bisect(server, n + 1, es[..middle]).posts, es[middle..]);
    }
  }

  /** How often `n` events can be halved, rounding up, before one is left. */
  function Halvings(n: nat): nat { if n <= 1 then 0 else 1 + Halvings((n + 1) / 2) }

  lemma {:induction false} HalvingsGrow(m: nat, n: nat)
    requires m <= n
    ensures Halvings(m) <= Halvings(n)
  {
    if m > 1 {
      HalvingsGrow((m + 1) / 2, (n + 1) / 2);
    }
  }

  ghost predicate HasBad(bad: Event -> bool, es: seq<Event>) { exists e :: e in es && bad(e) }

  lemma HasBadSplit(bad: Event -> bool, es: seq<Event>, i: nat)
    requires i <= |es|
    ensures HasBad(bad, es) <==> HasBad(bad, es[..i]) || HasBad(bad, es[i..])
  {
    assert es == es[..i] + es[i..];
  }

  /** The server rejects a batch for good exactly when some event of it is bad, and takes it otherwise. */
  ghost predicate RejectsBy(server: Server, bad: Event -> bool) {
    forall n: nat, part: seq<Event> :: server(n, part) == if HasBad(bad, part) then Status(400) else Ok
  }

  lemma ReplyIs(server: Server, bad: Event -> bool, n: nat, es: seq<Event>)
    requires RejectsBy(server, bad)
    ensures server(n, es) == if HasBad(bad, es) then Status(400) else Ok
  {}

  /** Halving finds the first bad event among `n` with at most 1 + 2 log n posts. */
  lemma {:induction false} BisectIsLogarithmic(server: Server, n: nat, es: seq<Event>, bad: Event -> bool)
    requires es != [] && RejectsBy(server, bad)
    ensures Bisect(server, n, es).posts <= 1 + 2 * Halvings(|es|)
    ensures Bisect(server, n, es).verdict.Sent? <==> !HasBad(bad, es)
    ensures Bisect(server, n, es).verdict.Sent? ==> Bisect(server, n, es).posts == 1
    decreases |es|
  {
    hide Bisect, RejectsBy, HasBad;
    BisectCases(server, n, es);
    ReplyIs(server, bad, n, es);
    if HasBad(bad, es) && |es| > 1 {
      var middle := |es| / 2;
      var first := Bisect(server, n + 1, es[..middle]);
      BisectIsLogarithmic(server, n + 1, es[..middle], bad);
      BisectIsLogarithmic(server, n + 1 + first.posts, es[middle..], bad);
      HalvingsGrow(middle, (|es| + 1) / 2);
      HasBadSplit(bad, es, middle);
    }
  }

  /** The server took a post that holds this event. */
  ghost predicate Took(server: Server, e: Event) {
    exists n: nat, part: seq<Event> :: e in part && server(n, part) == Ok
  }

  /** The server answered some post like this. */
  ghost predicate Answered(server: Server, reply: Reply) {
    exists n: nat, part: seq<Event> :: server(n, part) == reply
  }

  /** `trace` took a prefix of the events, each in a post the server accepted, and says how it went: sent when the
      server took them all; rejected when it said 400 or 413 to the next event alone; broken when it said neither
      that nor Ok to some post. */
  ghost predicate TookPrefix(server: Server, es: seq<Event>, trace: Trace) {
    && |trace.taken| <= |es|
    && trace.taken == es[..|trace.taken|]
    && (forall e :: e in trace.taken ==> Took(server, e))
    && (trace.verdict.Sent? <==> |trace.taken| == |es|)
    && (trace.verdict.RejectedEvent? ==>
          trace.verdict.event == es[|trace.taken|] && RejectedAlone(server, es[|trace.taken|]))
    && (trace.verdict.Broken? ==>
          Answered(server, trace.verdict.reply) &&
          trace.verdict.reply != Ok && trace.verdict.reply != Status(400) && trace.verdict.reply != Status(413))
  }

  lemma TookPrefixJoin(server: Server, a: seq<Event>, b: seq<Event>, first: Trace, second: Trace, posts: nat)
    requires TookPrefix(server, a, first) && TookPrefix(server, b, second)
    ensures first.verdict.Sent? ==> TookPrefix(server, a + b, Trace(second.verdict, first.taken + second.taken, posts))
    ensures !first.verdict.Sent? ==> TookPrefix(server, a + b, first.(posts := posts))
  {
    if first.verdict.Sent? {
      assert first.taken == a;
      assert first.taken + second.taken == (a + b)[..|a| + |second.taken|];
    } else {
      assert (a + b)[..|first.taken|] == a[..|first.taken|];
    }
  }

  /** Whatever the server answers, at most 2n-1 posts; the accepted events are a prefix of the batch, all
      of it when the batch is sent; and the event a rejection names is the first one not accepted, which the
      server has rejected on its own. */
  lemma {:induction false} BisectAccounts(server: Server, n: nat, es: seq<Event>)
    requires es != []
    ensures 1 <= Bisect(server, n, es).posts <= 2 * |es| - 1
    ensures TookPrefix(server, es, Bisect(server, n, es))
    decreases |es|
  {
    hide Bisect;
    BisectCost(server, n, es);
    BisectCases(server, n, es);
    var reply := server(n, es);
    if reply == Ok {
      assert es == es[..|es|];
      assert server(n, es) == Ok;
    } else if Permanent(reply) {
      if |es| == 1 {
        assert es == [es[0]];
        assert server(n, [es[0]]) == reply;
      } else {
        var middle := |es| / 2;
        var first := Bisect(server, n + 1, es[..middle]);
        var second := Bisect(server, n + 1 + first.posts, es[middle..]);
        BisectAccounts(server, n + 1, es[..middle]);
        BisectAccounts(server, n + 1 + first.posts, es[middle..]);
        assert es[..middle] + es[middle..] == es;
        TookPrefixJoin(server, es[..middle], es[middle..], first, second, Bisect(server, n, es).posts);
      }
    } else {
      assert Answered(server, reply);
    }
  }

  /** The server said that it will never accept this event by itself. */
  ghost predicate RejectedAlone(server: Server, e: Event) {
    exists n: nat :: server(n, [e]) == Status(400) || server(n, [e]) == Status(413)
  }

  /** The same for a whole request split into batches. */
  lemma {:induction false} SendAllAccounts(server: Server, n: nat, batches: seq<seq<Event>>)
    requires forall i :: 0 <= i < |batches| ==> batches[i] != []
    ensures TookPrefix(server, Flatten(batches), SendAll(server, n, batches))
    decreases |batches|
  {
    if batches != [] {
      hide Bisect, TookPrefix;
      var first := Bisect(server, n, batches[0]);
      var rest := SendAll(server, n + first.posts, batches[1..]);
      BisectAccounts(server, n, batches[0]);
      SendAllAccounts(server, n + first.posts, batches[1..]);
      TookPrefixJoin(server, batches[0], Flatten(batches[1..]), first, rest, SendAll(server, n, batches).posts);
    }
  }

  // ---------------------------------------------------------------- a server that decides by content

  /** The server accepts a batch whenever it accepts a larger one containing it. */
  ghost predicate Closed(accepts: seq<Event> -> bool) {
    forall es, i: nat, j: nat :: i < j <= |es| && accepts(es) ==> accepts(Part(es, i, j))
  }

  /** It accepts exactly the batches in `accepts` and permanently rejects the others, always. */
  ghost predicate Decides(server: Server, accepts: seq<Event> -> bool) {
    forall n: nat, es :: es != [] ==> if accepts(es) then server(n, es) == Ok else Permanent(server(n, es))
  }

  /** Index of the first event the server would not accept by itself. */
  ghost function FirstRefused(accepts: seq<Event> -> bool, es: seq<Event>): (k: nat)
    ensures k <= |es|
  {
    if es == [] then 0
    else if !accepts([es[0]]) then 0
    else 1 + FirstRefused(accepts, es[1..])
  }

  lemma {:induction false} FirstRefusedMeans(accepts: seq<Event> -> bool, es: seq<Event>)
    ensures var k := FirstRefused(accepts, es);
      (k < |es| ==> !accepts([es[k]])) && forall i :: 0 <= i < k ==> accepts([es[i]])
  {
    if es != [] && accepts([es[0]]) {
      FirstRefusedMeans(accepts, es[1..]);
      forall i | 0 <= i < FirstRefused(accepts, es) ensures accepts([es[i]]) {
        assert i > 0 ==> es[i] == es[1..][i - 1];
      }
    }
  }

  lemma FirstRefusedIs(accepts: seq<Event> -> bool, es: seq<Event>, k: nat)
    requires k <= |es| && (k < |es| ==> !accepts([es[k]])) && forall i :: 0 <= i < k ==> accepts([es[i]])
    ensures FirstRefused(accepts, es) == k
  {
    FirstRefusedMeans(accepts, es);
  }

  /** Bisection finds exactly the first individually rejected event, after an accepted prefix. */
  lemma BisectFindsFirst(server: Server, accepts: seq<Event> -> bool, n: nat, es: seq<Event>)
    requires es != [] && Closed(accepts) && Decides(server, accepts)
    ensures FindsFirst(accepts, es, Bisect(server, n, es))
  {
    var trace := Bisect(server, n, es);
    var k := |trace.taken|;
    BisectAccounts(server, n, es);
    BisectNeverBreaks(server, accepts, n, es);
    TakenAreAccepted(server, accepts, n, es);
    if k < |es| {
      var m: nat :| server(m, [es[k]]) == Status(400) || server(m, [es[k]]) == Status(413);
      assert !accepts([es[k]]);
    }
    FirstRefusedIs(accepts, es, k);
  }

  lemma {:induction false} BisectNeverBreaks(server: Server, accepts: seq<Event> -> bool, n: nat, es: seq<Event>)
    requires es != [] && Decides(server, accepts)
    ensures !Bisect(server, n, es).verdict.Broken?
    decreases |es|
  {
    if !accepts(es) && |es| > 1 {
      var middle := |es| / 2;
      BisectNeverBreaks(server, accepts, n + 1, es[..middle]);
      BisectNeverBreaks(server, accepts, n + 1 + Bisect(server, n + 1, es[..middle]).posts, es[middle..]);
    }
  }

  lemma {:induction false} TakenAreAccepted(server: Server, accepts: seq<Event> -> bool, n: nat, es: seq<Event>)
    requires es != [] && Closed(accepts) && Decides(server, accepts)
    ensures forall i :: 0 <= i < |Bisect(server, n, es).taken| ==> accepts([Bisect(server, n, es).taken[i]])
    decreases |es|
  {
    if accepts(es) {
      forall i | 0 <= i < |es| ensures accepts([es[i]]) {
        assert Part(es, i, i + 1) == [es[i]];
      }
    } else if |es| > 1 {
      var middle := |es| / 2;
      TakenAreAccepted(server, accepts, n + 1, es[..middle]);
      TakenAreAccepted(server, accepts, n + 1 + Bisect(server, n + 1, es[..middle]).posts, es[middle..]);
    }
  }

  lemma FirstRefusedJoin(accepts: seq<Event> -> bool, a: seq<Event>, b: seq<Event>)
    ensures FirstRefused(accepts, a + b) ==
      var j := FirstRefused(accepts, a); if j < |a| then j else |a| + FirstRefused(accepts, b)
  {
    var j := FirstRefused(accepts, a);
    var k := if j < |a| then j else |a| + FirstRefused(accepts, b);
    FirstRefusedMeans(accepts, a);
    FirstRefusedMeans(accepts, b);
    forall i | 0 <= i < k ensures accepts([(a + b)[i]]) {
      assert i >= |a| ==> (a + b)[i] == b[i - |a|];
    }
    FirstRefusedIs(accepts, a + b, k);
  }

  /** `trace` took what comes before the first refused event, and names that event. */
  ghost predicate FindsFirst(accepts: seq<Event> -> bool, es: seq<Event>, trace: Trace) {
    var k := FirstRefused(accepts, es);
    trace.taken == es[..k] && trace.verdict == if k == |es| then Sent else RejectedEvent(es[k])
  }

  lemma FindsFirstJoin(
    accepts: seq<Event> -> bool, a: seq<Event>, b: seq<Event>, first: Trace, second: Trace, posts: nat)
    requires FindsFirst(accepts, a, first) && (first.verdict.Sent? ==> FindsFirst(accepts, b, second))
    ensures FindsFirst(accepts, a + b,
      if first.verdict.Sent? then Trace(second.verdict, first.taken + second.taken, posts) else first)
  {
    hide FirstRefused;
    FirstRefusedJoin(accepts, a, b);
    FirstRefusedMeans(accepts, a);
    var j, k := FirstRefused(accepts, a), FirstRefused(accepts, b);
    if j < |a| {
      assert (a + b)[..j] == a[..j];
    } else {
      assert (a + b)[..|a| + k] == a + b[..k];
    }
  }

  /** The same for a whole request split into batches. */
  lemma {:induction false} SendAllFindsFirst(
    server: Server, accepts: seq<Event> -> bool, n: nat, batches: seq<seq<Event>>)
    requires Closed(accepts) && Decides(server, accepts) && forall i :: 0 <= i < |batches| ==> batches[i] != []
    ensures FindsFirst(accepts, Flatten(batches), SendAll(server, n, batches))
    decreases |batches|
  {
    if batches == [] {
      assert FirstRefused(accepts, []) == 0;
    } else {
      hide Closed, Decides, Bisect, FirstRefused, FindsFirst;
      var first := Bisect(server, n, batches[0]);
      BisectFindsFirst(server, accepts, n, batches[0]);
      if first.verdict.Sent? {
        SendAllFindsFirst(server, accepts, n + first.posts, batches[1..]);
      }
      FindsFirstJoin(accepts, batches[0], Flatten(batches[1..]), first,
        SendAll(server, n + first.posts, batches[1..]), SendAll(server, n, batches).posts);
    }
  }
}
