/** Codex turns: a log of records drives a cursor that knows the last counters and the open turn. */
module CodexModel {
  import opened Options

  function NonNegative(n: int): nat { if n < 0 then 0 else n }

  /** Cumulative token counters, by tier. */
  datatype Tokens = Tokens(input: int, output: int, cacheRead: int, cacheWrite: int) {
    function Total(): nat {
      NonNegative(input) + NonNegative(output) + NonNegative(cacheRead) + NonNegative(cacheWrite)
    }

    function Delta(previous: Tokens): Tokens {
      Tokens(NonNegative(input - previous.input), NonNegative(output - previous.output),
             NonNegative(cacheRead - previous.cacheRead), NonNegative(cacheWrite - previous.cacheWrite))
    }

    predicate DecreasedFrom(previous: Tokens) {
      input < previous.input || output < previous.output ||
      cacheRead < previous.cacheRead || cacheWrite < previous.cacheWrite
    }

    function Plus(other: Tokens): Tokens {
      Tokens(input + other.input, output + other.output, cacheRead + other.cacheRead, cacheWrite + other.cacheWrite)
    }

    predicate AtMost(other: Tokens) {
      input <= other.input && output <= other.output && cacheRead <= other.cacheRead && cacheWrite <= other.cacheWrite
    }
  }

  const NO_TOKENS: Tokens := Tokens(0, 0, 0, 0)

  /** A reported counter: the input includes what was read from the cache. */
  datatype Reported = Reported(input: int, output: int, cacheRead: int, cacheWrite: int) {
    function Tiers(): Tokens {
      Tokens(NonNegative(input - cacheRead), output, cacheRead, cacheWrite)
    }
  }

  /** A log record as far as turns go. Turn ids stand for their hashes; "" is no id. */
  datatype Body =
    | TurnContext(model: string, turnId: string)
    | TaskStarted(turnId: string)
    | TokenCount(reported: Option<Reported>)
    | TaskEnded(turnId: string, aborted: bool)
    | Other(text: string)

  datatype Record = Record(timestamp: Option<int>, body: Body)

  type Scores = map<string, int>

  datatype Turn = Turn(
    id: string, startedAt: int, baseline: Tokens, latest: Tokens, scores: Scores, inherited: bool,
    reset: bool, resetPrevious: Tokens, resetCurrent: Tokens)

  /** The cursor without its file offset. */
  datatype Turns = Turns(model: string, last: Tokens, awaiting: bool, active: Option<Turn>)

  const NO_TURNS: Turns := Turns("", NO_TOKENS, false, None)

  datatype Usage = Usage(
    sessionId: string, turnId: string, aborted: bool, startedAt: int, endedAt: int, model: string, tokens: Tokens,
    workType: string)

  datatype CounterReset = CounterReset(turnId: string, previous: Tokens, current: Tokens)

  /** What does not change while a session is scanned; scoring and classifying text stay uninterpreted. */
  datatype Session = Session(
    id: string, model: string, inherited: set<string>,
    parse: string -> Option<Record>, score: (Scores, Body) -> Scores, classify: Scores -> string)

  /** The cursor after a record, and what the record caused. */
  datatype Step = Step(turns: Turns, usage: Option<Usage>, report: Option<CounterReset>)

  function Start(t: Turns, id: string, at: int, inherited: set<string>): Turns {
    if id == "" || (t.active.Some? && t.active.value.id == id) then t
    else t.(active := Some(Turn(id, at, t.last, t.last, map[], id in inherited, false, NO_TOKENS, NO_TOKENS)))
  }

  function Count(t: Turns, totals: Tokens): Turns {
    if t.awaiting then
      t.(last := totals, awaiting := false,
         active := if t.active.None? then None else Some(t.active.value.(baseline := totals, latest := totals)))
    else
      var active :=
        if t.active.None? then None
        else if totals.DecreasedFrom(t.last) then
          Some(t.active.value.(latest := totals, reset := true, resetPrevious := t.last, resetCurrent := totals))
        else Some(t.active.value.(latest := totals));
      t.(last := totals, active := active)
  }

  function FirstModel(model: string, fallback: string): string { if model != "" then model else fallback }

  function End(s: Session, t: Turns, id: string, aborted: bool, at: int, emit: bool): Step {
    if t.active.None? || (id != "" && id != t.active.value.id) then Step(t, None, None)
    else
      var a, after := t.active.value, t.(active := None);
      var delta := a.latest.Delta(a.baseline);
      if a.inherited then Step(after, None, None)
      else if a.reset then Step(after, None, Some(CounterReset(a.id, a.resetPrevious, a.resetCurrent)))
      else if a.latest.DecreasedFrom(a.baseline) then Step(after, None, Some(CounterReset(a.id, a.baseline, a.latest)))
      else if !emit || delta.Total() <= 0 then Step(after, None, None)
      else
        var model, kind := FirstModel(t.model, s.model), s.classify(a.scores);
        Step(after, Some(Usage(s.id, a.id, aborted, a.startedAt, at, model, delta, kind)), None)
  }

  function Score(s: Session, t: Turns, body: Body): Turns {
    if t.active.None? then t else t.(active := Some(t.active.value.(scores := s.score(t.active.value.scores, body))))
  }

  /** What a record says about the model, the open turn and the counter; an end changes nothing here. */
  function Follow(t: Turns, body: Body, at: int, inherited: set<string>): Turns {
    match body
    case TurnContext(model, id) => Start(if model == "" then t else t.(model := model), id, at, inherited)
    case TaskStarted(id) => Start(t, id, at, inherited)
    case TokenCount(reported) => if reported.None? then t else Count(t, reported.value.Tiers())
    case _ => t
  }

  /** One record. A record without a readable timestamp takes the time of the scan. */
  function Process(s: Session, t: Turns, r: Record, now: int, emit: bool): Step {
    var at := r.timestamp.GetOr(now);
    if r.body.TaskEnded? then End(s, t, r.body.turnId, r.body.aborted, at, emit)
    else Step(Score(s, Follow(t, r.body, at, s.inherited), r.body), None, None)
  }

  function OptionSeq<T>(o: Option<T>): seq<T> { if o.Some? then [o.value] else [] }

  /** The cursor after the records, and the usages they emit. */
  function After(s: Session, t: Turns, rs: seq<Record>, now: int, emit: bool): Turns {
    if rs == [] then t else Process(s, After(s, t, rs[..|rs| - 1], now, emit), rs[|rs| - 1], now, emit).turns
  }

  function Emitted(s: Session, t: Turns, rs: seq<Record>, now: int, emit: bool): seq<Usage> {
    if rs == [] then [] else
      var n := |rs| - 1;
      Emitted(s, t, rs[..n], now, emit) + OptionSeq(Process(s, After(s, t, rs[..n], now, emit), rs[n], now, emit).usage)
  }

  function Reports(s: Session, t: Turns, rs: seq<Record>, now: int, emit: bool): seq<CounterReset> {
    if rs == [] then [] else
      var n := |rs| - 1;
      Reports(s, t, rs[..n], now, emit) +
      OptionSeq(Process(s, After(s, t, rs[..n], now, emit), rs[n], now, emit).report)
  }

  // ---------------------------------------------------------------- files

  /** One past the next line break at or after `from`, if there is one. */
  function LineEnd(file: string, from: nat): (end: Option<nat>)
    ensures end.Some? ==> from < end.value <= |file| && file[end.value - 1] == '\n'
    decreases |file| - from
  {
    if from >= |file| then None
    else if file[from] == '\n' then Some(from + 1)
    else LineEnd(file, from + 1)
  }

  /** Where a scan from `from` stops: after the last complete line. */
  function ScanEnd(file: string, from: nat): (end: nat)
    ensures from <= end
    decreases |file| - from
  {
    var end := LineEnd(file, from);
    if end.None? then from else ScanEnd(file, end.value)
  }

  /** The records of the complete lines from `from` on; lines that do not parse are skipped. */
  function Records(parse: string -> Option<Record>, file: string, from: nat): seq<Record>
    decreases |file| - from
  {
    var end := LineEnd(file, from);
    if end.None? then [] else OptionSeq(parse(file[from..end.value])) + Records(parse, file, end.value)
  }

  datatype Cursor = Cursor(offset: nat, turns: Turns)

  datatype Scan = Scan(cursor: Cursor, usages: seq<Usage>, reports: seq<CounterReset>)

  /** Read the complete lines after the cursor. */
  function ScanFile(s: Session, file: string, c: Cursor, now: int, emit: bool): Scan {
    var rs := Records(s.parse, file, c.offset);
    Scan(Cursor(ScanEnd(file, c.offset), After(s, c.turns, rs, now, emit)),
         Emitted(s, c.turns, rs, now, emit), Reports(s, c.turns, rs, now, emit))
  }

  const SEED_TAIL_BYTES: nat := 8 * 1024 * 1024

  /** Seeding reads the tail of a file without emitting, and forgets what the open turn has used so far. */
  function Seed(s: Session, file: string, now: int): Cursor {
    var offset := if |file| < SEED_TAIL_BYTES then 0 else |file| - SEED_TAIL_BYTES;
    var scanned := ScanFile(s, file, Cursor(offset, NO_TURNS.(awaiting := true)), now, false).cursor;
    scanned.(turns := Rebased(scanned.turns))
  }

  function Rebased(t: Turns): Turns {
    if t.active.None? then t else t.(active := Some(t.active.value.(baseline := t.last, latest := t.last)))
  }
}
