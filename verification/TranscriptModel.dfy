/** Usage accounting while a Claude transcript is read: totals, model and day buckets, invocations and turns. */
module TranscriptModel {
  import opened Options
  import opened Time

  /** What one assistant message reports, by tier. */
  datatype Usage = Usage(input: int, output: int, cacheCreation: int, cacheRead: int) {
    function Add(other: Usage): Usage {
      Usage(input + other.input, output + other.output,
            cacheCreation + other.cacheCreation, cacheRead + other.cacheRead)
    }

    predicate IsZero() { input == 0 && output == 0 && cacheCreation == 0 && cacheRead == 0 }
  }

  const NO_USAGE: Usage := Usage(0, 0, 0, 0)

  datatype Role = User | Assistant | OtherRole

  /** A transcript record as far as usage goes, its texts trimmed. `chat` tells whether the text is a readable
      user message, `continues` whether the assistant goes on with a tool; `fallback` stands for the hash that
      names a record without ids. */
  datatype Record = Record(
    role: Role, uuid: string, isMeta: bool, isSidechain: bool, timestamp: Option<int>,
    id: string, model: string, usage: Usage, chat: bool, continues: bool, fallback: string)
  {
    predicate Real() { role.Assistant? && model != "" && model != SYNTHETIC }

    predicate StartsTurn() { role.User? && !isMeta && !isSidechain && chat }
  }

  const SYNTHETIC: string := "<synthetic>"

  datatype Bucket = Bucket(model: string, day: string)

  datatype Invocation = Invocation(id: string, observedAt: int, bucket: Bucket, usage: Usage)

  datatype Turn = Turn(id: string, aborted: bool, startedAt: int, endedAt: int, usage: Usage)

  datatype Open = Open(id: string, startedAt: int, endedAt: int, usage: Usage)

  datatype Account = Account(
    total: Usage, byModelDay: map<Bucket, Usage>, invocations: seq<Invocation>, turns: seq<Turn>,
    seen: set<string>, active: Option<Open>)

  const NO_ACCOUNT: Account := Account(NO_USAGE, map[], [], [], {}, None)

  function InvocationId(r: Record): string {
    if r.id != "" then "message:" + r.id else if r.uuid != "" then "record:" + r.uuid else "fallback:" + r.fallback
  }

  function InternalId(r: Record): string {
    "internal:" + (if r.id != "" then r.id else if r.uuid != "" then r.uuid else InvocationId(r))
  }

  function BucketOf(r: Record, day: int -> string): Bucket {
    Bucket(r.model, if r.timestamp.Some? then day(r.timestamp.value) else "")
  }

  function InvocationOf(r: Record, day: int -> string): Invocation {
    Invocation(InvocationId(r), r.timestamp.GetOr(ZERO_TIME), BucketOf(r, day), r.usage)
  }

  function At(m: map<Bucket, Usage>, k: Bucket): Usage { if k in m then m[k] else NO_USAGE }

  /** The record's usage is counted: a real model, some tokens, and a message id not met before. */
  predicate Counts(a: Account, r: Record) {
    r.Real() && (r.id == "" || r.id !in a.seen) && !r.usage.IsZero()
  }

  function See(a: Account, r: Record): Account {
    if r.Real() && r.id != "" then a.(seen := a.seen + {r.id}) else a
  }

  function Charge(a: Account, r: Record, day: int -> string): Account {
    var k := BucketOf(r, day);
    a.(byModelDay := a.byModelDay[k := At(a.byModelDay, k).Add(r.usage)], total := a.total.Add(r.usage),
       invocations := a.invocations + [InvocationOf(r, day)])
  }

  /** A turn is kept when it used tokens, its start is known and its end is not before it. */
  predicate Keeps(o: Open) {
    !o.usage.IsZero() && o.startedAt != ZERO_TIME && o.endedAt >= o.startedAt
  }

  function Finish(a: Account, aborted: bool): Account {
    if a.active.None? then a else
      var o := a.active.value;
      a.(active := None,
         turns := a.turns + if Keeps(o) then [Turn(o.id, aborted, o.startedAt, o.endedAt, o.usage)] else [])
  }

  function StartTurn(a: Account, r: Record): Account {
    if !r.StartsTurn() then a
    else Finish(a, true).(active :=
      Some(Open(if r.uuid != "" then r.uuid else r.fallback, r.timestamp.GetOr(ZERO_TIME), ZERO_TIME, NO_USAGE)))
  }

  /** The usage belongs to the turn a user has opened. */
  predicate Assigned(a: Account, r: Record) {
    !r.isMeta && !r.isSidechain && r.timestamp.Some? && a.active.Some?
  }

  function AssignToTurn(a: Account, r: Record): Account
    requires Assigned(a, r)
  {
    var o := a.active.value;
    var grown := a.(active := Some(o.(endedAt := r.timestamp.value, usage := o.usage.Add(r.usage))));
    if r.continues then grown else Finish(grown, false)
  }

  function AddInternal(a: Account, r: Record): Account {
    if r.timestamp.None? then a else
      var at := r.timestamp.value;
      a.(turns := a.turns + [Turn(InternalId(r), false, at, at, r.usage)])
  }

  function AddUsage(a: Account, r: Record, day: int -> string): Account {
    var charged := Charge(See(a, r), r, day);
    if Assigned(charged, r) then AssignToTurn(charged, r) else AddInternal(charged, r)
  }

  /** One record. */
  function Add(a: Account, r: Record, day: int -> string): Account {
    var started := StartTurn(a, r);
    if Counts(started, r) then AddUsage(started, r, day) else See(started, r)
  }

  function Read(rs: seq<Record>, day: int -> string): Account {
    if rs == [] then NO_ACCOUNT else Add(Read(rs[..|rs| - 1], day), rs[|rs| - 1], day)
  }
}
