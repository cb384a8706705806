/** Forked Codex sessions: the scanner that emits turns and the simpler parser that lists the turns a parent
    has completed agree, so a fork does not report its parent's turns again. */
module CodexForks {
  import opened CodexModel
  import opened CodexScanner
  import opened CodexTheorems
  import opened Options

  /** A record that cannot make the two parsers disagree about the open turn: a turn context names no turn
      other than the open one, and an end names its turn or ends a started one. */
  predicate Tidy(open: string, r: Record) {
    match r.body
    case TurnContext(_, id) => id == "" || open == "" || id == open
    case TaskEnded(id, _) => id != "" || open != ""
    case _ => true
  }

  /** Every record after the first `from` is tidy. */
  ghost predicate TidyFrom(rs: seq<Record>, from: nat) {
    forall k :: from <= k < |rs| ==> Tidy(Open(rs[..k]), rs[k])
  }

  /** The open turn of the scanner is the one the simpler parser follows, unless that one follows none. */
  predicate SameOpen(t: Turns, open: string) {
    t.active.Some? ==> t.active.value.id != "" && (open == "" || open == t.active.value.id)
  }

  /** The inherited flag of the open turn says whether the parent completed it. */
  predicate Flagged(s: Session, t: Turns) {
    t.active.Some? ==> (t.active.value.inherited <==> t.active.value.id in s.inherited)
  }

  function OpenAfter(open: string, r: Record): string {
    match r.body
    case TaskStarted(id) => id
    case TaskEnded(_, _) => ""
    case _ => open
  }

  /** The turn a record completes, as the simpler parser sees it. */
  function Completes(open: string, r: Record): set<string> {
    if !r.body.TaskEnded? then {} else
      var id := if r.body.turnId == "" then open else r.body.turnId;
      if id != "" && (open == "" || id == open) then {id} else {}
  }

  lemma FollowSameOpen(t: Turns, r: Record, at: int, inherited: set<string>, open: string)
    requires SameOpen(t, open) && Tidy(open, r) && !r.body.TaskEnded?
    ensures SameOpen(Follow(t, r.body, at, inherited), OpenAfter(open, r))
  {
    hide Tokens.DecreasedFrom, Reported.Tiers;
  }

  lemma FollowFlagged(s: Session, t: Turns, r: Record, at: int)
    requires Flagged(s, t)
    ensures Flagged(s, Follow(t, r.body, at, s.inherited))
  {
    hide Tokens.DecreasedFrom, Reported.Tiers;
  }

  /** One step of both parsers. */
  lemma StepSameOpen(s: Session, t: Turns, r: Record, now: int, emit: bool, open: string)
    requires SameOpen(t, open) && Tidy(open, r)
    ensures var step := Process(s, t, r, now, emit);
      && SameOpen(step.turns, OpenAfter(open, r))
      && (step.usage.Some? ==> step.usage.value.turnId in Completes(open, r))
  {
    var at := r.timestamp.GetOr(now);
    if r.body.TaskEnded? {
      EndKeepsOthers(s, t, r.body.turnId, r.body.aborted, at, emit);
      hide Tokens.Delta, Tokens.Total, Tokens.DecreasedFrom;
    } else {
      hide Follow, Score;
      FollowSameOpen(t, r, at, s.inherited, open);
      ScoreKeeps(s, Follow(t, r.body, at, s.inherited), r.body);
    }
  }

  lemma StepFlagged(s: Session, t: Turns, r: Record, now: int, emit: bool)
    requires Flagged(s, t)
    ensures var step := Process(s, t, r, now, emit);
      && Flagged(s, step.turns)
      && (step.usage.Some? ==> step.usage.value.turnId !in s.inherited)
  {
    var at := r.timestamp.GetOr(now);
    if r.body.TaskEnded? {
      EndKeepsOthers(s, t, r.body.turnId, r.body.aborted, at, emit);
      hide Tokens.Delta, Tokens.Total, Tokens.DecreasedFrom;
    } else {
      hide Follow, Score;
      FollowFlagged(s, t, r, at);
      ScoreKeeps(s, Follow(t, r.body, at, s.inherited), r.body);
    }
  }

  lemma CompletedStep(rs: seq<Record>, r: Record)
    ensures Open(rs + [r]) == OpenAfter(Open(rs), r)
    ensures CompletedIds(rs + [r]) == CompletedIds(rs) + Completes(Open(rs), r)
  {
    CompletedSnoc(rs, r);
  }

  /** What a log completes it has completed ever after. */
  lemma {:induction false} CompletedGrows(rs: seq<Record>, more: seq<Record>)
    ensures CompletedIds(rs) <= CompletedIds(rs + more)
  {
    hide CompletedIds, Completes;
    if more == [] {
      assert rs + more == rs;
    } else {
      var n := |more| - 1;
      CompletedGrows(rs, more[..n]);
      assert rs + more == (rs + more[..n]) + [more[n]];
      CompletedStep(rs + more[..n], more[n]);
    }
  }

  /** Every turn a scan emits is one the simpler parser finds completed in the same log, wherever in the log
      the scan starts. */
  lemma {:induction false} EmittedAreCompleted(
    s: Session, t: Turns, past: seq<Record>, rs: seq<Record>, now: int, emit: bool)
    requires SameOpen(t, Open(past))
    requires TidyFrom(past + rs, |past|)
    ensures SameOpen(After(s, t, rs, now, emit), Open(past + rs))
    ensures forall u :: u in Emitted(s, t, rs, now, emit) ==> u.turnId in CompletedIds(past + rs)
  {
    hide Process, Tidy, SameOpen, CompletedIds, Completes, Open, OpenAfter, After, Emitted;
    if rs == [] {
      assert past + rs == past;
      NothingAfter(s, t, now, emit);
    } else {
      var n := |rs| - 1;
      var before, log := After(s, t, rs[..n], now, emit), past + rs[..n];
      assert rs == rs[..n] + [rs[n]];
      assert past + rs == log + [rs[n]];
      TidyPrefix(log, rs[n], |past|);
      EmittedAreCompleted(s, t, past, rs[..n], now, emit);
      StepSameOpen(s, before, rs[n], now, emit, Open(log));
      CompletedStep(log, rs[n]);
      SnocAfter(s, t, rs[..n], rs[n], now, emit);
    }
  }

  lemma TidyPrefix(log: seq<Record>, r: Record, from: nat)
    requires from <= |log| && TidyFrom(log + [r], from)
    ensures TidyFrom(log, from) && Tidy(Open(log), r)
  {
    hide Tidy, Open;
    forall k | from <= k < |log| ensures Tidy(Open(log[..k]), log[k]) {
      assert (log + [r])[..k] == log[..k] && (log + [r])[k] == log[k];
    }
    assert (log + [r])[..|log|] == log && (log + [r])[|log|] == r;
  }

  /** A scan that starts with no open turn emits no turn the parent has completed. */
  lemma {:induction false} InheritedNeverEmitted(s: Session, t: Turns, rs: seq<Record>, now: int, emit: bool)
    requires Flagged(s, t)
    ensures Flagged(s, After(s, t, rs, now, emit))
    ensures forall u :: u in Emitted(s, t, rs, now, emit) ==> u.turnId !in s.inherited
  {
    hide Process, Flagged, After, Emitted;
    if rs == [] {
      NothingAfter(s, t, now, emit);
    } else {
      var n := |rs| - 1;
      InheritedNeverEmitted(s, t, rs[..n], now, emit);
      StepFlagged(s, After(s, t, rs[..n], now, emit), rs[n], now, emit);
      assert rs == rs[..n] + [rs[n]];
      SnocAfter(s, t, rs[..n], rs[n], now, emit);
    }
  }

  /** A fork that inherits the completed turns of its parent's file reports none of the turns a scan of that
      file reports, whatever the fork's own file holds. */
  lemma ForkNeverRepeatsParent(
    parent: Session, file: string, parentNow: int, child: Session, own: string, childNow: int, childTurns: Turns)
    requires child.inherited == CompletedIds(AllRecords(parent.parse, file))
    requires TidyFrom(Records(parent.parse, file, 0), 0)
    requires childTurns.active.None?
    ensures var reported := ScanFile(parent, file, Cursor(0, NO_TURNS), parentNow, true).usages;
      var again := ScanFile(child, own, Cursor(0, childTurns), childNow, true).usages;
      forall p, c :: p in reported && c in again ==> p.turnId != c.turnId
  {
    hide Records, ScanEnd, CompletedIds, Emitted, After, Reports, TidyFrom, Open;
    var rs := Records(parent.parse, file, 0);
    var end := ScanEnd(file, 0);
    assert [] + rs == rs;
    EmittedAreCompleted(parent, NO_TURNS, [], rs, parentNow, true);
    CompletedGrows(rs, if end < |file| then OptionSeq(parent.parse(file[end..])) else []);
    InheritedNeverEmitted(child, childTurns, Records(child.parse, own, 0), childNow, true);
  }

  // ---------------------------------------------------------------- when the parsers agree

  /** The open turn of the scanner, if there is one, has an id: a scan never opens one without. */
  predicate Identified(t: Turns) {
    t.active.Some? ==> t.active.value.id != ""
  }

  /** Either the simpler parser follows this very turn, or it follows none and the end names its turn. */
  predicate Followed(open: string, turnId: string, r: Record) {
    open == turnId || (open == "" && r.body.TaskEnded? && r.body.turnId != "")
  }

  /** At the record that emits a turn the simpler parser completes it exactly when it follows the turn. */
  lemma EmissionCompletedIff(s: Session, t: Turns, r: Record, now: int, emit: bool, open: string)
    requires Identified(t)
    ensures var step := Process(s, t, r, now, emit);
      && Identified(step.turns)
      && (step.usage.Some? ==>
            step.usage.value.turnId != "" &&
            (step.usage.value.turnId in Completes(open, r) <==> Followed(open, step.usage.value.turnId, r)))
  {
    var at := r.timestamp.GetOr(now);
    if r.body.TaskEnded? {
      EndKeepsOthers(s, t, r.body.turnId, r.body.aborted, at, emit);
      hide Tokens.Delta, Tokens.Total, Tokens.DecreasedFrom;
    } else {
      hide Score, Tokens.DecreasedFrom, Reported.Tiers;
      ScoreKeeps(s, Follow(t, r.body, at, s.inherited), r.body);
    }
  }

  /** What the record at `k` emits in a scan. */
  function EmittedAt(s: Session, t: Turns, rs: seq<Record>, now: int, emit: bool, k: nat): Option<Usage>
    requires k < |rs|
  {
    Process(s, After(s, t, rs[..k], now, emit), rs[k], now, emit).usage
  }

  lemma {:induction false} EmittedSomewhere(s: Session, t: Turns, rs: seq<Record>, now: int, emit: bool, u: Usage)
    ensures u in Emitted(s, t, rs, now, emit) <==>
      exists k: nat :: k < |rs| && EmittedAt(s, t, rs, now, emit, k) == Some(u)
  {
    hide Process, After, EmittedAt;
    if rs == [] {
    } else {
      var n := |rs| - 1;
      EmittedSomewhere(s, t, rs[..n], now, emit, u);
      forall k: nat | k < n ensures EmittedAt(s, t, rs[..n], now, emit, k) == EmittedAt(s, t, rs, now, emit, k) {
        SameEmission(s, t, rs, now, emit, n, k);
      }
      EmittedLast(s, t, rs, now, emit);
    }
  }

  lemma EmittedLast(s: Session, t: Turns, rs: seq<Record>, now: int, emit: bool)
    requires rs != []
    ensures Emitted(s, t, rs, now, emit) ==
      Emitted(s, t, rs[..|rs| - 1], now, emit) + OptionSeq(EmittedAt(s, t, rs, now, emit, |rs| - 1))
  {
    hide Process, After;
  }

  lemma SameEmission(s: Session, t: Turns, rs: seq<Record>, now: int, emit: bool, n: nat, k: nat)
    requires k < n <= |rs|
    ensures EmittedAt(s, t, rs[..n], now, emit, k) == EmittedAt(s, t, rs, now, emit, k)
  {
    hide Process, After;
    assert rs[..n][..k] == rs[..k];
  }

  lemma {:induction false} ScanIdentified(s: Session, t: Turns, rs: seq<Record>, now: int, emit: bool)
    requires Identified(t)
    ensures Identified(After(s, t, rs, now, emit))
  {
    hide Process, Identified;
    if rs != [] {
      var n := |rs| - 1;
      ScanIdentified(s, t, rs[..n], now, emit);
      EmissionCompletedIff(s, After(s, t, rs[..n], now, emit), rs[n], now, emit, "");
    }
  }

  predicate CompletesAt(rs: seq<Record>, j: nat, id: string)
    requires j < |rs|
  {
    id in Completes(Open(rs[..j]), rs[j])
  }

  lemma {:induction false} CompletedSomewhere(rs: seq<Record>, id: string)
    ensures id in CompletedIds(rs) <==> exists j: nat :: j < |rs| && CompletesAt(rs, j, id)
  {
    hide CompletedIds, Completes, Open;
    if rs == [] {
      NothingCompleted();
    } else {
      var n := |rs| - 1;
      CompletedSomewhere(rs[..n], id);
      assert rs == rs[..n] + [rs[n]];
      CompletedStep(rs[..n], rs[n]);
      forall j: nat | j < n ensures CompletesAt(rs[..n], j, id) <==> CompletesAt(rs, j, id) {
        assert rs[..n][..j] == rs[..j];
      }
      assert CompletesAt(rs, n, id) <==> id in Completes(Open(rs[..n]), rs[n]);
    }
  }

  /** A turn emitted at record `k` is found completed in the log exactly when the simpler parser follows it there,
      or another record of the log completes the same id. */
  lemma EmittedCompletedIff(
    s: Session, t: Turns, past: seq<Record>, rs: seq<Record>, now: int, emit: bool, k: nat)
    requires Identified(t) && k < |rs| && EmittedAt(s, t, rs, now, emit, k).Some?
    ensures var id := EmittedAt(s, t, rs, now, emit, k).value.turnId; var log := past + rs;
      id in CompletedIds(log) <==>
        Followed(Open(past + rs[..k]), id, rs[k]) ||
        exists j: nat :: j < |log| && j != |past| + k && CompletesAt(log, j, id)
  {
    hide Process, Followed, Open, Completes, CompletedIds, After, Identified;
    var id, log := EmittedAt(s, t, rs, now, emit, k).value.turnId, past + rs;
    ScanIdentified(s, t, rs[..k], now, emit);
    EmissionCompletedIff(s, After(s, t, rs[..k], now, emit), rs[k], now, emit, Open(past + rs[..k]));
    CompletedSomewhere(log, id);
    assert log[..|past| + k] == past + rs[..k] && log[|past| + k] == rs[k];
    assert CompletesAt(log, |past| + k, id) <==> id in Completes(Open(past + rs[..k]), rs[k]);
  }

  /** Every emission of a scan is completed at its own record exactly when the simpler parser follows every turn
      where it is emitted. */
  lemma ScanCompletedIff(s: Session, t: Turns, past: seq<Record>, rs: seq<Record>, now: int, emit: bool)
    requires Identified(t)
    ensures (forall k: nat :: k < |rs| && EmittedAt(s, t, rs, now, emit, k).Some? ==>
               CompletesAt(past + rs, |past| + k, EmittedAt(s, t, rs, now, emit, k).value.turnId)) <==>
            (forall k: nat :: k < |rs| && EmittedAt(s, t, rs, now, emit, k).Some? ==>
               Followed(Open(past + rs[..k]), EmittedAt(s, t, rs, now, emit, k).value.turnId, rs[k]))
  {
    hide Process, Followed, Open, Completes, After, Identified;
    var log := past + rs;
    forall k: nat | k < |rs| && EmittedAt(s, t, rs, now, emit, k).Some?
      ensures CompletesAt(log, |past| + k, EmittedAt(s, t, rs, now, emit, k).value.turnId) <==>
        Followed(Open(past + rs[..k]), EmittedAt(s, t, rs, now, emit, k).value.turnId, rs[k])
    {
      ScanIdentified(s, t, rs[..k], now, emit);
      EmissionCompletedIff(s, After(s, t, rs[..k], now, emit), rs[k], now, emit, Open(past + rs[..k]));
      assert log[..|past| + k] == past + rs[..k] && log[|past| + k] == rs[k];
    }
  }

  // ---------------------------------------------------------------- a fork that copies its parent's log

  /** Two cursors that differ at most in the scores and start of the open turn, and in whether it is inherited. */
  predicate Alike(a: Turns, b: Turns) {
    && a.model == b.model && a.last == b.last && a.awaiting == b.awaiting && (a.active.Some? <==> b.active.Some?)
    && (a.active.Some? ==>
          var turn := b.active.value;
          a.active.value.(startedAt := turn.startedAt, scores := turn.scores, inherited := turn.inherited) == turn)
  }

  lemma FollowAlike(
    a: Turns, b: Turns, body: Body, pAt: int, cAt: int, p: set<string>, c: set<string>)
    requires Alike(a, b)
    ensures Alike(Follow(a, body, pAt, p), Follow(b, body, cAt, c))
  {
    hide Tokens.DecreasedFrom, Reported.Tiers;
  }

  lemma ScoreAlike(p: Session, c: Session, a: Turns, b: Turns, body: Body)
    requires Alike(a, b)
    ensures Alike(Score(p, a, body), Score(c, b, body))
  {}

  lemma EndAlike(
    p: Session, c: Session, a: Turns, b: Turns, id: string, aborted: bool, pAt: int, cAt: int)
    requires Alike(a, b) && Flagged(c, b)
    ensures var one, two := End(p, a, id, aborted, pAt, true), End(c, b, id, aborted, cAt, true);
      && Alike(one.turns, two.turns)
      && (one.usage.Some? && one.usage.value.turnId !in c.inherited ==>
            two.usage.Some? && two.usage.value.turnId == one.usage.value.turnId)
  {
    hide Tokens.Delta, Tokens.Total, Tokens.DecreasedFrom;
  }

  /** One record, read by the parent and again by the fork: what the parent emits the fork emits, unless it
      inherits the turn. */
  lemma StepAlike(p: Session, c: Session, a: Turns, b: Turns, r: Record, pNow: int, cNow: int)
    requires Alike(a, b) && Flagged(c, b)
    ensures var one, two := Process(p, a, r, pNow, true), Process(c, b, r, cNow, true);
      && Alike(one.turns, two.turns) && Flagged(c, two.turns)
      && (one.usage.Some? && one.usage.value.turnId !in c.inherited ==>
            two.usage.Some? && two.usage.value.turnId == one.usage.value.turnId)
  {
    StepFlagged(c, b, r, cNow, true);
    var pAt, cAt := r.timestamp.GetOr(pNow), r.timestamp.GetOr(cNow);
    hide Score, Follow, End, Alike, Flagged;
    if r.body.TaskEnded? {
      EndAlike(p, c, a, b, r.body.turnId, r.body.aborted, pAt, cAt);
    } else {
      FollowAlike(a, b, r.body, pAt, cAt, p.inherited, c.inherited);
      ScoreAlike(p, c, Follow(a, r.body, pAt, p.inherited), Follow(b, r.body, cAt, c.inherited), r.body);
    }
  }

  lemma {:induction false} CopyEmits(p: Session, c: Session, rs: seq<Record>, pNow: int, cNow: int)
    ensures Alike(After(p, NO_TURNS, rs, pNow, true), After(c, NO_TURNS, rs, cNow, true))
    ensures Flagged(c, After(c, NO_TURNS, rs, cNow, true))
    ensures forall u :: u in Emitted(p, NO_TURNS, rs, pNow, true) && u.turnId !in c.inherited ==>
      exists v :: v in Emitted(c, NO_TURNS, rs, cNow, true) && v.turnId == u.turnId
  {
    hide Process, Alike, Flagged;
    if rs == [] {
      assert Alike(NO_TURNS, NO_TURNS) && Flagged(c, NO_TURNS) by { BothEmpty(c); }
    } else {
      var n := |rs| - 1;
      CopyEmits(p, c, rs[..n], pNow, cNow);
      var a, b := After(p, NO_TURNS, rs[..n], pNow, true), After(c, NO_TURNS, rs[..n], cNow, true);
      StepAlike(p, c, a, b, rs[n], pNow, cNow);
    }
  }

  lemma BothEmpty(c: Session)
    ensures Alike(NO_TURNS, NO_TURNS) && Flagged(c, NO_TURNS)
  {}

  /** A fork whose own file begins with a copy of its parent's records reports none of the parent's turns again
      exactly when it inherits every turn the parent reports. */
  lemma ForkRepeatsNothingIff(
    p: Session, c: Session, rs: seq<Record>, more: seq<Record>, pNow: int, cNow: int)
    ensures var reported, again := Emitted(p, NO_TURNS, rs, pNow, true), Emitted(c, NO_TURNS, rs + more, cNow, true);
      (forall u, v :: u in reported && v in again ==> u.turnId != v.turnId) <==>
      (forall u :: u in reported ==> u.turnId in c.inherited)
  {
    hide Emitted, After;
    CopyEmits(p, c, rs, pNow, cNow);
    AfterJoin(c, NO_TURNS, rs, more, cNow, true);
    InheritedNeverEmitted(c, NO_TURNS, rs + more, cNow, true);
  }

  // ---------------------------------------------------------------- the parsers can disagree

  function At(body: Body): Record { Record(Some(0), body) }

  const TEN_TOKENS: Body := TokenCount(Some(Reported(10, 0, 0, 0)))

  lemma AfterFour(s: Session, t: Turns, a: Record, b: Record, c: Record, d: Record, now: int)
    ensures var second := Process(s, Process(s, t, a, now, true).turns, b, now, true).turns;
      var before := Process(s, second, c, now, true).turns;
      var last := Process(s, before, d, now, true).usage;
      last.Some? ==> last.value in Emitted(s, t, [a, b, c, d], now, true)
  {
    hide Process;
    assert [a] == [] + [a] && [a, b] == [a] + [b] && [a, b, c] == [a, b] + [c] && [a, b, c, d] == [a, b, c] + [d];
    NothingAfter(s, t, now, true);
    SnocAfter(s, t, [], a, now, true);
    SnocAfter(s, t, [a], b, now, true);
    SnocAfter(s, t, [a, b], c, now, true);
    SnocAfter(s, t, [a, b, c], d, now, true);
  }

  /** Turn `id` is open on its own account, and the counter has risen from zero to `used` under it. */
  predicate Ready(t: Turns, id: string, used: Tokens) {
    && !t.awaiting && t.last == used && t.active.Some?
    && var turn := t.active.value;
       turn.id == id && turn.baseline == NO_TOKENS && turn.latest == used && !turn.reset && !turn.inherited
  }

  lemma ReadySteps(s: Session, t: Turns, id: string, next: Record, wasId: string)
    requires s.inherited == {} && next.timestamp == Some(0)
    requires t == NO_TURNS || Ready(t, wasId, NO_TOKENS)
    requires next.body == TaskStarted(id) || next.body == TurnContext("", id)
    requires id != "" && id != wasId
    ensures Ready(Process(s, t, next, 0, true).turns, id, NO_TOKENS)
  {
    ScoreKeeps(s, Follow(t, next.body, 0, s.inherited), next.body);
    hide Score;
  }

  const TEN: Tokens := Tokens(10, 0, 0, 0)

  lemma ReadyCounts(s: Session, t: Turns, id: string)
    requires Ready(t, id, NO_TOKENS)
    ensures Ready(Process(s, t, At(TEN_TOKENS), 0, true).turns, id, TEN)
  {
    ScoreKeeps(s, Follow(t, TEN_TOKENS, 0, s.inherited), TEN_TOKENS);
    hide Score;
  }

  lemma ReadyNotes(s: Session, t: Turns, id: string, used: Tokens)
    requires Ready(t, id, used)
    ensures Ready(Process(s, t, At(Other("")), 0, true).turns, id, used)
  {
    ScoreKeeps(s, t, Other(""));
    hide Score;
  }

  lemma ReadyEnds(s: Session, t: Turns, id: string, named: string)
    requires Ready(t, id, TEN) && (named == "" || named == id)
    ensures var usage := Process(s, t, At(TaskEnded(named, false)), 0, true).usage;
      usage.Some? && usage.value.turnId == id
  {}

  /** A turn context that names another turn than the started one takes over in the scanner, while the
      simpler parser still waits for the started turn's end: the emitted turn is not found completed. */
  lemma StrayContextIsMissed(s: Session)
    requires s.inherited == {}
    ensures var rs := [At(TaskStarted("a")), At(TurnContext("", "b")), At(TEN_TOKENS), At(TaskEnded("b", false))];
      exists u :: u in Emitted(s, NO_TURNS, rs, 0, true) && u.turnId == "b" && u.turnId !in CompletedIds(rs)
  {
    hide Process, Ready, CompletedIds, Emitted;
    var a, b, c, d := At(TaskStarted("a")), At(TurnContext("", "b")), At(TEN_TOKENS), At(TaskEnded("b", false));
    ReadySteps(s, NO_TURNS, "a", a, "");
    var t1 := Process(s, NO_TURNS, a, 0, true).turns;
    ReadySteps(s, t1, "b", b, "a");
    var t2 := Process(s, t1, b, 0, true).turns;
    ReadyCounts(s, t2, "b");
    ReadyEnds(s, Process(s, t2, c, 0, true).turns, "b", "b");
    AfterFour(s, NO_TURNS, a, b, c, d, 0);
    CompletedOfFour(a, b, c, d);
  }

  /** A turn opened by its context alone and ended without an id is emitted, but not found completed. */
  lemma NamelessEndIsMissed(s: Session)
    requires s.inherited == {}
    ensures var rs := [At(TurnContext("", "b")), At(TEN_TOKENS), At(Other("")), At(TaskEnded("", false))];
      exists u :: u in Emitted(s, NO_TURNS, rs, 0, true) && u.turnId == "b" && u.turnId !in CompletedIds(rs)
  {
    hide Process, Ready, CompletedIds, Emitted;
    var a, b, c, d := At(TurnContext("", "b")), At(TEN_TOKENS), At(Other("")), At(TaskEnded("", false));
    ReadySteps(s, NO_TURNS, "b", a, "");
    var t1 := Process(s, NO_TURNS, a, 0, true).turns;
    ReadyCounts(s, t1, "b");
    var t2 := Process(s, t1, b, 0, true).turns;
    ReadyNotes(s, t2, "b", TEN);
    ReadyEnds(s, Process(s, t2, c, 0, true).turns, "b", "");
    AfterFour(s, NO_TURNS, a, b, c, d, 0);
    CompletedOfFour(a, b, c, d);
  }

  lemma CompletedOfFour(a: Record, b: Record, c: Record, d: Record)
    ensures var o1 := OpenAfter("", a); var o2 := OpenAfter(o1, b); var o3 := OpenAfter(o2, c);
      CompletedIds([a, b, c, d]) == Completes("", a) + Completes(o1, b) + Completes(o2, c) + Completes(o3, d)
  {
    hide Completes, OpenAfter, Open, CompletedIds;
    assert [a] == [] + [a] && [a, b] == [a] + [b] && [a, b, c] == [a, b] + [c] && [a, b, c, d] == [a, b, c] + [d];
    NothingCompleted();
    CompletedStep([], a);
    CompletedStep([a], b);
    CompletedStep([a, b], c);
    CompletedStep([a, b, c], d);
  }
}
