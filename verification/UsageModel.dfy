/** Token accounting across two commits, as values. A cycle compares each bucket's running total with a
    max-keeping baseline, turns what advanced into a delta against a separate cursor, queues the deltas,
    then saves the baseline and then the cursors. A crash may fall between any two of those steps. */
module UsageModel {
  import opened Options

  /** What the baseline remembers of one bucket: its total, the total it last advanced from, and whether a
      total was ever seen. */
  datatype Baseline = Baseline(total: nat, previous: nat, observed: bool, accounting: string)

  const NO_BASELINE: Baseline := Baseline(0, 0, false, "")

  /** A usage payload. `hint`, `initial` and `cursorOnly` are the internal markers the filter adds. */
  datatype Payload = Payload(
    key: string, total: Option<nat>, accounting: string, cutover: bool,
    hint: Option<nat>, initial: bool, cursorOnly: bool)

  datatype CursorKey = CursorKey(session: string, accounting: string)

  datatype Delta = Delta(key: CursorKey, tokens: nat)

  type Sessions = map<string, Baseline>
  type Cursors = map<CursorKey, nat>

  // ---------------------------------------------------------------- the baseline

  predicate AccountingChanged(existing: Baseline, p: Payload) {
    p.accounting != "" && existing.accounting != p.accounting
  }

  /** What becomes of one payload: passed on to the delta step, used to update the baseline, ignored. */
  datatype Judgement = Judgement(emit: Option<Payload>, update: Option<Payload>, ignored: bool)

  function JudgeRecord(record: Option<Baseline>, p: Payload): Judgement {
    if p.cutover || (record.Some? && AccountingChanged(record.value, p)) then
      Judgement(None, Some(p.(cutover := true)), true)
    else match record
      case None =>
        var marked := p.(initial := true, cursorOnly := true);
        Judgement(Some(marked), Some(marked), false)
      case Some(b) =>
        if b.observed && p.total.Some? && p.total.value > b.total then
          var marked := p.(hint := Some(b.total), cursorOnly := true);
          Judgement(Some(marked), Some(marked), false)
        else if b.observed && p.total == Some(b.total) && b.previous < b.total then
          Judgement(Some(p.(hint := Some(b.previous), cursorOnly := true)), None, false)
        else
          Judgement(None, if !b.observed && p.total.Some? then Some(p) else None, true)
  }

  function Judge(sessions: Sessions, p: Payload): Judgement {
    if p.key == "" then Judgement(None, None, false) else JudgeRecord(Lookup(sessions, p.key), p)
  }

  function Lookup<K, V>(m: map<K, V>, k: K): Option<V> {
    if k in m then Some(m[k]) else None
  }

  function OptionSeq<T>(o: Option<T>): seq<T> { if o.Some? then [o.value] else [] }

  function Emitted(sessions: Sessions, ps: seq<Payload>): seq<Payload> {
    if ps == [] then [] else
      Emitted(sessions, ps[..|ps| - 1]) + OptionSeq(Judge(sessions, ps[|ps| - 1]).emit)
  }

  function Updates(sessions: Sessions, ps: seq<Payload>): seq<Payload> {
    if ps == [] then [] else
      Updates(sessions, ps[..|ps| - 1]) + OptionSeq(Judge(sessions, ps[|ps| - 1]).update)
  }

  /** One record after one payload. */
  function Advance(existing: Baseline, p: Payload): Baseline {
    var start := if p.cutover then NO_BASELINE else existing;
    var counted :=
      if p.total.Some? && (!start.observed || p.total.value > start.total) then
        start.(total := p.total.value,
               previous := if start.observed then start.total else p.total.value,
               observed := true)
      else start;
    if p.accounting != "" then counted.(accounting := p.accounting) else counted
  }

  function AddSession(sessions: Sessions, p: Payload): Sessions {
    if p.key == "" then sessions
    else sessions[p.key := Advance(Lookup(sessions, p.key).GetOr(NO_BASELINE), p)]
  }

  function AddSessions(sessions: Sessions, ps: seq<Payload>): Sessions {
    if ps == [] then sessions else AddSession(AddSessions(sessions, ps[..|ps| - 1]), ps[|ps| - 1])
  }

  // ---------------------------------------------------------------- the deltas

  function KeyOf(p: Payload): CursorKey { CursorKey(p.key, p.accounting) }

  /** The total a payload's delta is measured from: the saved cursor, else the baseline's hint, else zero
      for a bucket tracked from its start. With none of them the payload only seeds the cursor. */
  function MeasuredFrom(cursor: Option<nat>, p: Payload): Option<nat> {
    if cursor.Some? then cursor
    else if p.hint.Some? then p.hint
    else if p.initial then Some(0)
    else None
  }

  /** A payload without a session or with no positive total is not an observation. */
  predicate Observes(p: Payload) {
    p.key != "" && p.total.Some? && p.total.value > 0
  }

  /** The tokens of a payload's delta; no delta is emitted for 0. */
  function Advanced(cursor: Option<nat>, p: Payload): nat {
    var from := MeasuredFrom(cursor, p);
    if Observes(p) && from.Some? && p.total.value > from.value then p.total.value - from.value else 0
  }

  function DeltaOf(cursors: Cursors, p: Payload): Option<Delta> {
    var tokens := Advanced(Lookup(cursors, KeyOf(p)), p);
    if tokens > 0 then Some(Delta(KeyOf(p), tokens)) else None
  }

  /** Every delta is measured against the cursors loaded at the start of the cycle. */
  function Deltas(cursors: Cursors, ps: seq<Payload>): seq<Delta> {
    if ps == [] then [] else Deltas(cursors, ps[..|ps| - 1]) + OptionSeq(DeltaOf(cursors, ps[|ps| - 1]))
  }

  function NextCursors(cursors: Cursors, ps: seq<Payload>): Cursors {
    if ps == [] then cursors else
      var before, p := NextCursors(cursors, ps[..|ps| - 1]), ps[|ps| - 1];
      if Observes(p) then before[KeyOf(p) := p.total.value] else before
  }

  // ---------------------------------------------------------------- a cycle

  /** Where a cycle is cut short, if it is. A step that returns an error cuts it in the same places. */
  datatype Cut = Whole | BeforeAppend | AfterAppend | AfterBaseline

  /** What one collection observed: usage buckets, and session payloads that only touch the baseline. */
  datatype Cycle = Cycle(usage: seq<Payload>, sessions: seq<Payload>, cut: Cut)

  /** Everything durable: the baseline, the cursors and the deltas handed to the queue. */
  datatype Disk = Disk(initialized: bool, sessions: Sessions, cursors: Cursors, queued: seq<Delta>)

  const FRESH_DISK: Disk := Disk(false, map[], map[], [])

  /** The deltas a cycle would queue: none while it only initialises the baseline. */
  function CycleDeltas(disk: Disk, c: Cycle): seq<Delta> {
    if disk.initialized then Deltas(disk.cursors, Emitted(disk.sessions, c.usage)) else []
  }

  function CycleSessions(disk: Disk, c: Cycle): Sessions {
    if disk.initialized then AddSessions(AddSessions(disk.sessions, Updates(disk.sessions, c.usage)), c.sessions)
    else AddSessions(AddSessions(disk.sessions, c.usage), c.sessions)
  }

  function CycleCursors(disk: Disk, c: Cycle): Cursors {
    if disk.initialized then NextCursors(disk.cursors, Emitted(disk.sessions, c.usage)) else disk.cursors
  }

  function Perform(disk: Disk, c: Cycle): Disk {
    var appended := if c.cut.BeforeAppend? then disk else disk.(queued := disk.queued + CycleDeltas(disk, c));
    var based :=
      if c.cut.BeforeAppend? || c.cut.AfterAppend? then appended
      else appended.(initialized := true, sessions := CycleSessions(disk, c));
    if c.cut.Whole? then based.(cursors := CycleCursors(disk, c)) else based
  }

  function Run(cycles: seq<Cycle>): Disk {
    if cycles == [] then FRESH_DISK else Perform(Run(cycles[..|cycles| - 1]), cycles[|cycles| - 1])
  }
}
