/** New transcript messages are cut into numbered chunks; a bounded list of message versions remembers what
    has been sent. */
module TranscriptChunks {
  import opened GreedySplit
  import opened Text

  const MAX_MESSAGES: nat := 64
  const MAX_BYTES: nat := 128 * 1024
  const MAX_VERSIONS: nat := 4096

  /** A normalized message: its version names its id and content, `date` is its local date. */
  datatype Message = Message(version: string, encoded: string, date: string)

  datatype Chunk = Chunk(sequence: int, date: string, messages: seq<Message>)

  datatype Cursor = Cursor(versions: seq<string>, sequence: int, initialized: bool)

  function Bytes(ms: seq<Message>): nat {
    if ms == [] then 0 else Bytes(ms[..|ms| - 1]) + |ms[|ms| - 1].encoded|
  }

  ghost predicate OneDate(ms: seq<Message>) {
    forall i, j :: 0 <= i < j < |ms| ==> ms[i].date == ms[j].date
  }

  ghost predicate FitsChunk(ms: seq<Message>) {
    |ms| <= MAX_MESSAGES && Bytes(ms) <= MAX_BYTES && OneDate(ms)
  }

  ghost function Fits(): seq<Message> -> bool { ms => FitsChunk(ms) }

  /** The versions the cursor holds. */
  function Held(versions: seq<string>): set<string> {
    if versions == [] then {} else
      var v := Trim(versions[|versions| - 1]);
      Held(versions[..|versions| - 1]) + if v != "" then {v} else {}
  }

  function Versions(ms: seq<Message>): seq<string> {
    if ms == [] then [] else Versions(ms[..|ms| - 1]) + [ms[|ms| - 1].version]
  }

  /** The messages whose version is neither held nor repeated. */
  function Unseen(ms: seq<Message>, held: set<string>): seq<Message> {
    if ms == [] then [] else
      var m, before := ms[|ms| - 1], Unseen(ms[..|ms| - 1], held);
      if m.version in held || m.version in Versions(before) then before else before + [m]
  }

  function Bounded(versions: seq<string>): seq<string> {
    if |versions| <= MAX_VERSIONS then versions else versions[|versions| - MAX_VERSIONS..]
  }

  function DateOf(ms: seq<Message>): string { if ms == [] then "" else ms[|ms| - 1].date }

  function Numbered(parts: seq<seq<Message>>, from: int): seq<Chunk> {
    if parts == [] then [] else
      var n := |parts| - 1;
      Numbered(parts[..n], from) + [Chunk(from + n + 1, DateOf(parts[n]), parts[n])]
  }

  function Remembered(ms: seq<Message>, c: Cursor): seq<string> {
    c.versions + Versions(Unseen(ms, Held(c.versions)))
  }

  ghost function Prepare(session: string, ms: seq<Message>, c: Cursor): (seq<Chunk>, Cursor) {
    if session == "" then ([], c) else
      var parts := Greedy(Fits(), Unseen(ms, Held(c.versions)));
      (Numbered(parts, c.sequence), Cursor(Bounded(Remembered(ms, c)), c.sequence + |parts|, true))
  }

  function Seed(session: string, ms: seq<Message>, c: Cursor): Cursor {
    if session == "" then c else Cursor(Bounded(Remembered(ms, c)), c.sequence, true)
  }

  // ---------------------------------------------------------------- as it runs

  method CollectHeld(versions: seq<string>) returns (held: set<string>)
    ensures held == Held(versions)
  {
    hide Trim;
    held := {};
    var i := 0;
    while i < |versions|
      invariant 0 <= i <= |versions| && held == Held(versions[..i])
    {
      assert versions[..i + 1][..i] == versions[..i];
      var version := Trim(versions[i]);
      if version != "" {
        held := held + {version};
      }
      i := i + 1;
    }
    assert versions[..i] == versions;
  }

  lemma VersionsSnoc(ms: seq<Message>, m: Message)
    ensures Versions(ms + [m]) == Versions(ms) + [m.version]
  {
    assert (ms + [m])[..|ms|] == ms;
  }

  lemma UnseenSnoc(ms: seq<Message>, i: nat, held: set<string>)
    requires i < |ms|
    ensures var before := Unseen(ms[..i], held);
      Unseen(ms[..i + 1], held) ==
        if ms[i].version in held || ms[i].version in Versions(before) then before else before + [ms[i]]
  {
    assert ms[..i + 1][..i] == ms[..i];
  }

  method RememberUnseen(ms: seq<Message>, c: Cursor) returns (unseen: seq<Message>, versions: seq<string>)
    ensures unseen == Unseen(ms, Held(c.versions)) && versions == Bounded(Remembered(ms, c))
  {
    hide Unseen, Held, Versions;
    var held := CollectHeld(c.versions);
    var seen := held;
    NothingUnseen(held);
    unseen, versions := [], c.versions;
    var i := 0;
    assert ms[..0] == [];
    while i < |ms|
      invariant 0 <= i <= |ms|
      invariant unseen == Unseen(ms[..i], held) && versions == c.versions + Versions(unseen)
      invariant forall v :: v in seen <==> v in held || v in Versions(unseen)
    {
      var m := ms[i];
      UnseenSnoc(ms, i, held);
      i := i + 1;
      if m.version in seen {
        continue;
      }
      VersionsSnoc(unseen, m);
      seen := seen + {m.version};
      versions := versions + [m.version];
      unseen := unseen + [m];
    }
    assert ms[..i] == ms;
    versions := BoundVersions(versions);
  }

  method BoundVersions(versions: seq<string>) returns (kept: seq<string>)
    ensures kept == Bounded(versions)
  {
    if |versions| <= MAX_VERSIONS {
      return versions;
    }
    return versions[|versions| - MAX_VERSIONS..];
  }

  lemma NothingUnseen(held: set<string>)
    ensures Unseen([], held) == [] && Versions([]) == []
  {}

  /** What one more message does to an open chunk. */
  lemma ChunkGrows(current: seq<Message>, m: Message)
    requires current == [] || FitsChunk(current) || |current| == 1
    ensures Bytes(current + [m]) == Bytes(current) + |m.encoded| && DateOf(current + [m]) == m.date
    ensures current != [] ==> (Fits()(current + [m]) <==>
      |current| < MAX_MESSAGES && Bytes(current) + |m.encoded| <= MAX_BYTES && m.date == DateOf(current))
    ensures Bytes([]) == 0
  {
    var grown := current + [m];
    assert grown[..|current|] == current;
    if current != [] {
      assert OneDate(current);
      assert grown[|current|] == m && grown[|current| - 1] == current[|current| - 1];
      if m.date == DateOf(current) {
        assert forall i :: 0 <= i < |current| ==> current[i].date == DateOf(current);
        assert OneDate(grown);
      }
    }
  }

  method PrepareChunks(session: string, ms: seq<Message>, c: Cursor) returns (chunks: seq<Chunk>, next: Cursor)
    ensures (chunks, next) == Prepare(session, ms, c)
  {
    hide Unseen, Held, Versions, Bytes, FitsChunk, Open, Greedy, Fits, DateOf, Numbered, Trim;
    if session == "" {
      return [], c;
    }
    var unseen, versions := RememberUnseen(ms, c);
    var sequence := c.sequence;
    ghost var parts: seq<seq<Message>> := [];
    chunks := [];
    var current: seq<Message>, currentBytes, currentDate := [], 0, "";
    OpenBegin(Fits(), unseen);
    NothingOpen();
    var i := 0;
    while i < |unseen|
      invariant 0 <= i <= |unseen| && Open(Fits(), unseen, parts, current, i)
      invariant current == [] || FitsChunk(current) || |current| == 1
      invariant currentBytes == Bytes(current) && currentDate == DateOf(current)
      invariant if i > 0 then current != [] else current == [] && parts == []
      invariant chunks == Numbered(parts, c.sequence) && sequence == c.sequence + |parts|
    {
      var m := unseen[i];
      ChunkGrows(current, m);
      if |current| > 0 &&
        (|current| >= MAX_MESSAGES || currentBytes + |m.encoded| > MAX_BYTES || m.date != currentDate)
      {
        OpenFlush(Fits(), unseen, parts, current, i);
        sequence := sequence + 1;
        NumberedSnoc(parts, current, c.sequence);
        chunks := chunks + [Chunk(sequence, currentDate, current)];
        parts := parts + [current];
        current, currentBytes := [], 0;
        ChunkGrows(current, m);
      }
      OpenExtend(Fits(), unseen, parts, current, i);
      FitsMeans(current + [m]);
      current := current + [m];
      currentBytes := currentBytes + |m.encoded|;
      currentDate := m.date;
      i := i + 1;
    }
    if |current| > 0 {
      OpenEnd(Fits(), unseen, parts, current);
      sequence := sequence + 1;
      NumberedSnoc(parts, current, c.sequence);
      chunks := chunks + [Chunk(sequence, currentDate, current)];
      parts := parts + [current];
    } else {
      NothingSplit();
    }
    next := Cursor(versions, sequence, true);
  }

  lemma FitsMeans(ms: seq<Message>)
    ensures Fits()(ms) <==> FitsChunk(ms)
  {}

  lemma NothingOpen()
    ensures Bytes([]) == 0 && DateOf([]) == "" && forall from :: Numbered([], from) == []
  {}

  lemma NothingSplit()
    ensures Greedy(Fits(), []) == []
  {}

  lemma NumberedSnoc(parts: seq<seq<Message>>, part: seq<Message>, from: int)
    ensures Numbered(parts + [part], from) ==
      Numbered(parts, from) + [Chunk(from + |parts| + 1, DateOf(part), part)]
  {
    assert (parts + [part])[..|parts|] == parts;
  }

  method SeedCursor(session: string, ms: seq<Message>, c: Cursor) returns (next: Cursor)
    ensures next == Seed(session, ms, c)
  {
    if session == "" {
      return c;
    }
    var _, versions := RememberUnseen(ms, c);
    next := c.(versions := versions, initialized := true);
  }

  // ---------------------------------------------------------------- chunks

  lemma {:induction false} BytesSplit(a: seq<Message>, b: seq<Message>)
    ensures Bytes(a + b) == Bytes(a) + Bytes(b)
  {
    if b == [] {
      assert a + b == a;
    } else {
      BytesSplit(a, b[..|b| - 1]);
      assert (a + b)[..|a + b| - 1] == a + b[..|b| - 1];
    }
  }

  lemma PartFits(xs: seq<Message>, i: nat, j: nat)
    requires i < j <= |xs| && FitsChunk(xs)
    ensures FitsChunk(xs[i..j])
  {
    hide Bytes, OneDate;
    assert xs == (xs[..i] + xs[i..j]) + xs[j..];
    BytesSplit(xs[..i] + xs[i..j], xs[j..]);
    BytesSplit(xs[..i], xs[i..j]);
    PartHasOneDate(xs, i, j);
  }

  lemma PartHasOneDate(xs: seq<Message>, i: nat, j: nat)
    requires i < j <= |xs| && OneDate(xs)
    ensures OneDate(xs[i..j])
  {}

  lemma FitsHereditary()
    ensures Hereditary(Fits())
  {
    hide FitsChunk;
    forall xs: seq<Message>, i: nat, j: nat | i < j <= |xs| && Fits()(xs)
      ensures Fits()(Part(xs, i, j))
    {
      PartFits(xs, i, j);
    }
  }

  lemma {:induction false} NumberedAt(parts: seq<seq<Message>>, from: int)
    ensures |Numbered(parts, from)| == |parts|
    ensures forall i :: 0 <= i < |parts| ==> Numbered(parts, from)[i] == Chunk(from + i + 1, DateOf(parts[i]), parts[i])
  {
    if parts != [] {
      NumberedAt(parts[..|parts| - 1], from);
    }
  }

  /** What is in the chunks. */
  function Contents(chunks: seq<Chunk>): seq<seq<Message>> {
    if chunks == [] then [] else Contents(chunks[..|chunks| - 1]) + [chunks[|chunks| - 1].messages]
  }

  lemma {:induction false} NumberedContents(parts: seq<seq<Message>>, from: int)
    ensures Contents(Numbered(parts, from)) == parts
  {
    if parts != [] {
      var n := |parts| - 1;
      NumberedContents(parts[..n], from);
      var before := Numbered(parts[..n], from);
      assert (before + [Chunk(from + n + 1, DateOf(parts[n]), parts[n])])[..|before|] == before;
      assert parts == parts[..n] + [parts[n]];
    }
  }

  /** The messages' encoded texts, one after the other. */
  function Joined(ms: seq<Message>): string {
    if ms == [] then "" else Joined(ms[..|ms| - 1]) + ms[|ms| - 1].encoded
  }

  lemma {:induction false} BytesAreText(ms: seq<Message>)
    ensures Bytes(ms) == |Joined(ms)|
  {
    if ms != [] {
      BytesAreText(ms[..|ms| - 1]);
    }
  }

  /** At most 64 messages of one date, encoded in at most 128 KiB. */
  ghost predicate InLimits(ms: seq<Message>) {
    |ms| <= 64 && |Joined(ms)| <= 131072 && forall m, n :: m in ms && n in ms ==> m.date == n.date
  }

  ghost function Limits(): seq<Message> -> bool { ms => InLimits(ms) }

  lemma FitsIsInLimits(ms: seq<Message>)
    ensures Fits()(ms) <==> Limits()(ms)
  {
    BytesAreText(ms);
    if InLimits(ms) {
      assert forall i :: 0 <= i < |ms| ==> ms[i] in ms;
    }
    if OneDate(ms) {
      forall m, n | m in ms && n in ms ensures m.date == n.date {
        var i, j :| 0 <= i < |ms| && ms[i] == m && 0 <= j < |ms| && ms[j] == n;
        assert i < j ==> ms[i].date == ms[j].date;
        assert j < i ==> ms[j].date == ms[i].date;
      }
    }
  }

  lemma AllowedIsInLimits(part: seq<Message>)
    ensures Allowed(Fits(), part) <==> Allowed(Limits(), part)
  {
    FitsIsInLimits(part);
  }

  lemma SplitIsInLimits(parts: seq<seq<Message>>, ms: seq<Message>)
    ensures IsSplit(Fits(), parts, ms) <==> IsSplit(Limits(), parts, ms)
  {
    hide Fits, Limits, Allowed;
    forall part: seq<Message> ensures Allowed(Fits(), part) <==> Allowed(Limits(), part) {
      AllowedIsInLimits(part);
    }
  }

  /** The chunks hold the unseen messages in order, each message of a chunk has the chunk's date, no chunk of more
      than one message breaks a limit, sequence numbers are consecutive, and no other cut into such chunks has
      fewer of them. */
  lemma ChunksAreMinimalSplit(session: string, ms: seq<Message>, c: Cursor, other: seq<seq<Message>>)
    requires session != ""
    ensures var (chunks, next) := Prepare(session, ms, c);
      && Flatten(Contents(chunks)) == Unseen(ms, Held(c.versions))
      && (forall i :: 0 <= i < |chunks| ==>
            && chunks[i].sequence == c.sequence + i + 1
            && chunks[i].messages != [] && (|chunks[i].messages| == 1 || InLimits(chunks[i].messages))
            && forall m :: m in chunks[i].messages ==> m.date == chunks[i].date)
      && next.sequence == c.sequence + |chunks|
      && (IsSplit(Limits(), other, Unseen(ms, Held(c.versions))) ==> |chunks| <= |other|)
  {
    hide InLimits, Fits;
    var unseen := Unseen(ms, Held(c.versions));
    var parts := Greedy(Fits(), unseen);
    GreedyIsSplit(Fits(), unseen);
    SplitIsInLimits(parts, unseen);
    SplitIsInLimits(other, unseen);
    FitsHereditary();
    if IsSplit(Fits(), other, unseen) {
      GreedyIsMinimal(Fits(), unseen, other);
    }
    NumberedAt(parts, c.sequence);
    NumberedContents(parts, c.sequence);
    hide Greedy, Numbered, Unseen, Held, Contents;
    forall i | 0 <= i < |parts| ensures forall m: Message :: m in parts[i] ==> m.date == DateOf(parts[i]) {
      assert Allowed(Fits(), parts[i]);
      FitsMeans(parts[i]);
      SameDate(parts[i]);
    }
  }

  lemma SameDate(part: seq<Message>)
    requires |part| == 1 || FitsChunk(part)
    ensures forall m :: m in part ==> m.date == DateOf(part)
  {
    forall m | m in part ensures m.date == DateOf(part) {
      var i :| 0 <= i < |part| && part[i] == m;
      assert i < |part| - 1 ==> part[i].date == part[|part| - 1].date;
    }
  }

  // ---------------------------------------------------------------- running again

  /** Versions as messages have them: not empty, no white space around. */
  ghost predicate Proper(ms: seq<Message>) {
    forall m :: m in ms ==> m.version != "" && Trim(m.version) == m.version
  }

  lemma {:induction false} HeldIs(versions: seq<string>, v: string)
    ensures v in Held(versions) <==> v != "" && exists w :: w in versions && Trim(w) == v
  {
    hide Trim;
    if versions != [] {
      var n := |versions| - 1;
      assert versions == versions[..n] + [versions[n]];
      HeldIs(versions[..n], v);
    }
  }

  lemma {:induction false} VersionsIs(ms: seq<Message>)
    ensures |Versions(ms)| == |ms| && forall i :: 0 <= i < |ms| ==> Versions(ms)[i] == ms[i].version
  {
    if ms != [] {
      VersionsIs(ms[..|ms| - 1]);
    }
  }

  lemma {:induction false} NothingUnseenIff(ms: seq<Message>, held: set<string>)
    ensures Unseen(ms, held) == [] <==> forall m :: m in ms ==> m.version in held
  {
    if ms != [] {
      var n := |ms| - 1;
      assert ms == ms[..n] + [ms[n]];
      NothingUnseenIff(ms[..n], held);
      NothingUnseen(held);
    }
  }

  lemma NoChunksIff(session: string, ms: seq<Message>, c: Cursor)
    requires session != ""
    ensures Prepare(session, ms, c).0 == [] <==> forall m :: m in ms ==> m.version in Held(c.versions)
  {
    var unseen := Unseen(ms, Held(c.versions));
    NothingUnseenIff(ms, Held(c.versions));
    GreedyIsSplit(Fits(), unseen);
    NumberedAt(Greedy(Fits(), unseen), c.sequence);
    hide Unseen, Held;
  }

  /** Every version of the messages is remembered before the list is cut to its bound. */
  lemma {:induction false} AllRemembered(ms: seq<Message>, held: set<string>, m: Message)
    requires m in ms
    ensures m.version in held || m.version in Versions(Unseen(ms, held))
  {
    var n := |ms| - 1;
    assert ms == ms[..n] + [ms[n]];
    var before := Unseen(ms[..n], held);
    if m in ms[..n] {
      AllRemembered(ms[..n], held, m);
    }
    VersionsSnoc(before, ms[n]);
    hide Unseen, Versions;
  }

  /** Running again with the returned cursor emits nothing as long as at most 4096 versions are held. */
  lemma RerunEmitsNothing(session: string, ms: seq<Message>, c: Cursor)
    requires Proper(ms) && |Remembered(ms, c)| <= MAX_VERSIONS
    ensures Prepare(session, ms, Prepare(session, ms, c).1).0 == []
  {
    if session != "" {
      var next := Prepare(session, ms, c).1;
      NoChunksIff(session, ms, next);
      hide Unseen, Held, Versions, Trim, Prepare;
      forall m | m in ms ensures m.version in Held(next.versions) {
        AllRemembered(ms, Held(c.versions), m);
        HeldIs(c.versions, m.version);
        HeldIs(next.versions, m.version);
        PrepareCursor(session, ms, c);
      }
    }
  }

  lemma PrepareCursor(session: string, ms: seq<Message>, c: Cursor)
    requires session != ""
    ensures Prepare(session, ms, c).1.versions == Bounded(Remembered(ms, c))
  {}

  /** The new cursor, sending or seeding, holds the newest versions: all of the old list and the unseen messages while
      there are at most 4096, else the last 4096 of them. */
  lemma NewestAreKept(session: string, ms: seq<Message>, c: Cursor)
    requires session != ""
    ensures var versions := Prepare(session, ms, c).1.versions;
      var all := c.versions + Versions(Unseen(ms, Held(c.versions)));
      && |versions| == (if |all| <= 4096 then |all| else 4096)
      && (forall i :: 0 <= i < |versions| ==> versions[i] == all[|all| - |versions| + i])
      && Seed(session, ms, c) == Cursor(versions, c.sequence, true)
  {}

  /** The first message with its version, and that version is not held. */
  predicate IsNew(ms: seq<Message>, k: nat, held: set<string>)
    requires k < |ms|
  {
    ms[k].version !in held && forall j :: 0 <= j < k ==> ms[j].version != ms[k].version
  }

  function New(ms: seq<Message>, n: nat, held: set<string>): seq<Message>
    requires n <= |ms|
  {
    if n == 0 then [] else New(ms, n - 1, held) + if IsNew(ms, n - 1, held) then [ms[n - 1]] else []
  }

  lemma {:induction false} NewOfPrefix(ms: seq<Message>, n: nat, m: nat, held: set<string>)
    requires n <= m <= |ms|
    ensures New(ms[..m], n, held) == New(ms, n, held)
    decreases n
  {
    if n > 0 {
      NewOfPrefix(ms, n - 1, m, held);
      assert forall j :: 0 <= j < n ==> ms[..m][j] == ms[j];
    }
  }

  /** What is chunked: of each version that is not held the first message, in the transcript's order. */
  lemma {:induction false} UnseenIsNew(ms: seq<Message>, held: set<string>)
    ensures Unseen(ms, held) == New(ms, |ms|, held)
  {
    if ms != [] {
      var n := |ms| - 1;
      UnseenIsNew(ms[..n], held);
      NewOfPrefix(ms, n, n, held);
      VersionSeen(ms[..n], held, ms[n].version);
      assert forall j :: 0 <= j < n ==> ms[..n][j] == ms[j];
    }
  }

  lemma VersionSeen(ms: seq<Message>, held: set<string>, v: string)
    ensures v in held || (v in Versions(Unseen(ms, held)) <==> exists j :: 0 <= j < |ms| && ms[j].version == v)
  {
    hide Unseen, Versions;
    UnseenFacts(ms, held);
    VersionsIs(ms);
    if j :| 0 <= j < |ms| && ms[j].version == v {
      AllRemembered(ms, held, ms[j]);
    }
  }

  ghost predicate NoRepeats(vs: seq<string>) {
    forall i, j :: 0 <= i < j < |vs| ==> vs[i] != vs[j]
  }

  /** A cursor as earlier runs over the growing transcript leave it: no version twice, none that is not in the
      transcript. */
  ghost predicate Current(ms: seq<Message>, c: Cursor) {
    NoRepeats(c.versions) && forall v :: v in c.versions ==> v in Versions(ms)
  }

  lemma {:induction false} UnseenFacts(ms: seq<Message>, held: set<string>)
    ensures NoRepeats(Versions(Unseen(ms, held)))
    ensures forall v :: v in Versions(Unseen(ms, held)) ==> v !in held && v in Versions(ms)
  {
    if ms != [] {
      var n := |ms| - 1;
      var before := Unseen(ms[..n], held);
      UnseenFacts(ms[..n], held);
      VersionsSnoc(before, ms[n]);
      assert Versions(ms) == Versions(ms[..n]) + [ms[n].version];
      hide Unseen, Versions;
    }
  }

  lemma ProperTrimmed(ms: seq<Message>, v: string)
    requires Proper(ms) && v in Versions(ms)
    ensures v != "" && Trim(v) == v
  {
    hide Trim;
    VersionsIs(ms);
    var i :| 0 <= i < |ms| && Versions(ms)[i] == v;
    assert ms[i] in ms;
  }

  lemma NoRepeatsJoin(a: seq<string>, b: seq<string>)
    requires NoRepeats(a) && NoRepeats(b) && forall v :: v in b ==> v !in a
    ensures NoRepeats(a + b)
  {
    var all := a + b;
    forall i, j | 0 <= i < j < |all| ensures all[i] != all[j] {
      assert j >= |a| ==> all[j] in b;
      assert i < |a| ==> all[i] in a;
    }
  }

  lemma RememberedFacts(ms: seq<Message>, c: Cursor)
    requires Proper(ms) && Current(ms, c)
    ensures NoRepeats(Remembered(ms, c))
    ensures forall v :: v in Remembered(ms, c) <==> v in Versions(ms)
  {
    hide Unseen, Held, Versions, Trim;
    var held := Held(c.versions);
    UnseenFacts(ms, held);
    forall v | v in c.versions ensures v in held {
      ProperTrimmed(ms, v);
      HeldIs(c.versions, v);
    }
    NoRepeatsJoin(c.versions, Versions(Unseen(ms, held)));
    forall v | v in Versions(ms) ensures v in Remembered(ms, c) {
      ProperTrimmed(ms, v);
      VersionsIs(ms);
      var i :| 0 <= i < |ms| && Versions(ms)[i] == v;
      AllRemembered(ms, held, ms[i]);
      HeldIs(c.versions, v);
      if v in held {
        var w :| w in c.versions && Trim(w) == v;
        ProperTrimmed(ms, w);
      }
    }
  }

  function SetOf(vs: seq<string>): set<string> {
    if vs == [] then {} else SetOf(vs[..|vs| - 1]) + {vs[|vs| - 1]}
  }

  lemma {:induction false} SetOfIs(vs: seq<string>, v: string)
    ensures v in SetOf(vs) <==> v in vs
  {
    if vs != [] {
      SetOfIs(vs[..|vs| - 1], v);
      assert vs == vs[..|vs| - 1] + [vs[|vs| - 1]];
    }
  }

  lemma {:induction false} SetOfCount(vs: seq<string>)
    requires NoRepeats(vs)
    ensures |SetOf(vs)| == |vs|
  {
    if vs != [] {
      var n := |vs| - 1;
      SetOfCount(vs[..n]);
      SetOfIs(vs[..n], vs[n]);
    }
  }

  /** The cut keeps every version exactly when there is nothing to cut. */
  lemma BoundedKeepsAllIff(vs: seq<string>)
    requires NoRepeats(vs)
    ensures (forall v :: v in vs ==> v in Bounded(vs)) <==> |vs| <= MAX_VERSIONS
  {
    if |vs| > MAX_VERSIONS {
      assert vs[0] in vs;
    }
  }

  /** For a transcript that keeps its messages, running again emits nothing exactly when the transcript has at most
      4096 different message versions. */
  lemma RerunEmitsNothingIff(session: string, ms: seq<Message>, c: Cursor)
    requires session != "" && Proper(ms) && Current(ms, c)
    ensures Prepare(session, ms, Prepare(session, ms, c).1).0 == [] <==> |SetOf(Versions(ms))| <= MAX_VERSIONS
  {
    var next := Prepare(session, ms, c).1;
    var all := Remembered(ms, c);
    PrepareCursor(session, ms, c);
    NoChunksIff(session, ms, next);
    RememberedFacts(ms, c);
    BoundedKeepsAllIff(all);
    SetOfCount(all);
    hide Unseen, Held, Versions, Trim, Prepare, Remembered, SetOf, Bounded;
    assert SetOf(all) == SetOf(Versions(ms)) by {
      forall v ensures v in SetOf(all) <==> v in SetOf(Versions(ms)) {
        SetOfIs(all, v);
        SetOfIs(Versions(ms), v);
      }
    }
    HeldAreKept(ms, c, next.versions);
    VersionsIs(ms);
  }

  /** Every message is held by the cut list exactly when the cut list keeps everything. */
  lemma HeldAreKept(ms: seq<Message>, c: Cursor, kept: seq<string>)
    requires Proper(ms) && kept == Bounded(Remembered(ms, c))
    requires forall v :: v in Remembered(ms, c) <==> v in Versions(ms)
    ensures (forall m :: m in ms ==> m.version in Held(kept)) <==>
      (forall v :: v in Remembered(ms, c) ==> v in kept)
  {
    hide Unseen, Held, Versions, Trim, Remembered;
    VersionsIs(ms);
    forall v | v in Versions(ms) ensures v in Held(kept) <==> v in kept {
      ProperTrimmed(ms, v);
      HeldIs(kept, v);
      if v in Held(kept) {
        var w :| w in kept && Trim(w) == v;
        assert w in Remembered(ms, c);
        ProperTrimmed(ms, w);
      }
    }
    forall m | m in ms ensures m.version in Versions(ms) {
      var i :| 0 <= i < |ms| && ms[i] == m;
      assert Versions(ms)[i] == m.version;
    }
    if forall m :: m in ms ==> m.version in Held(kept) {
      forall v | v in Remembered(ms, c) ensures v in kept {
        var i :| 0 <= i < |ms| && Versions(ms)[i] == v;
        assert ms[i] in ms;
      }
    }
  }
}
