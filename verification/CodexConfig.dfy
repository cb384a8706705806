/** Rewriting `config.toml` so that Codex trusts the Gesta hooks: line by line passes over the text. */
module CodexConfig {
  import opened Text

  // ---------------------------------------------------------------- lines

  predicate NoBreak(line: string) { forall i :: 0 <= i < |line| ==> line[i] != '\n' }

  /** `strings.Split(text, "\n")`. */
  function SplitText(text: string): (ls: seq<string>)
    ensures ls != []
  {
    if text == "" then [""]
    else
      var n := |text| - 1;
      var before := SplitText(text[..n]);
      if text[n] == '\n' then before + [""] else before[..|before| - 1] + [before[|before| - 1] + [text[n]]]
  }

  /** `splitConfigLines`: the empty text has no lines. */
  function Lines(text: string): seq<string> { if text == "" then [] else SplitText(text) }

  /** `strings.Join(lines, "\n")`. */
  function Join(ls: seq<string>): string {
    if ls == [] then "" else if |ls| == 1 then ls[0] else Join(ls[..|ls| - 1]) + "\n" + ls[|ls| - 1]
  }

  predicate IsHeader(trimmed: string) {
    trimmed != "" && trimmed[0] == '[' && trimmed[|trimmed| - 1] == ']'
  }

  predicate Assigns(trimmed: string, key: string) {
    key <= trimmed && "=" <= Trim(trimmed[|key|..])
  }

  // ---------------------------------------------------------------- a pass that ensures an assignment

  /** What else a pass drops from its sections: assignments of a key, or one exact line. */
  datatype Dropped = Assignments(key: string) | Exactly(text: string)

  /** A pass: in every section under `header`, `key` is assigned once, by `line`. */
  datatype Rule = Rule(header: string, key: string, line: string, dropped: Dropped) {
    predicate Drops(trimmed: string) {
      match dropped
      case Assignments(k) => Assigns(trimmed, k)
      case Exactly(text) => trimmed == text
    }
  }

  /** The pass so far: the lines written, whether it is inside one of its sections, whether it has met one, and
      whether the current one has its assignment. */
  datatype Pass = Pass(out: seq<string>, inside: bool, found: bool, done: bool)

  const NO_PASS: Pass := Pass([], false, false, false)

  function Close(rule: Rule, p: Pass): seq<string> {
    if p.inside && !p.done then p.out + [rule.line] else p.out
  }

  function ReadLine(rule: Rule, p: Pass, line: string): Pass {
    var t := Trim(line);
    if IsHeader(t) then Pass(Close(rule, p) + [line], t == rule.header, p.found || t == rule.header, false)
    else if !p.inside then p.(out := p.out + [line])
    else if Assigns(t, rule.key) then
      if p.done then p else p.(out := p.out + [rule.line], done := true)
    else if rule.Drops(t) then p
    else p.(out := p.out + [line])
  }

  function Scan(rule: Rule, ls: seq<string>): Pass {
    if ls == [] then NO_PASS else ReadLine(rule, Scan(rule, ls[..|ls| - 1]), ls[|ls| - 1])
  }

  function Separator(out: seq<string>): seq<string> {
    if out != [] && Trim(out[|out| - 1]) != "" then [""] else []
  }

  function Ensure(rule: Rule, ls: seq<string>): seq<string> {
    var p := Scan(rule, ls);
    var out := Close(rule, p);
    if p.found then out else out + Separator(out) + [rule.header, rule.line]
  }

  // ---------------------------------------------------------------- a pass that removes sections

  datatype Removal = Removal(out: seq<string>, inside: bool)

  function DropLine(header: string, p: Removal, line: string): Removal {
    var t := Trim(line);
    var inside := if IsHeader(t) then t == header else p.inside;
    Removal(if inside then p.out else p.out + [line], inside)
  }

  function Remove(header: string, ls: seq<string>): Removal {
    if ls == [] then Removal([], false) else DropLine(header, Remove(header, ls[..|ls| - 1]), ls[|ls| - 1])
  }

  // ---------------------------------------------------------------- the whole rewrite

  const FEATURES: Rule := Rule("[features]", "hooks", "hooks = true", Assignments("codex_hooks"))

  const EVENTS: seq<string> := ["session_start", "pre_tool_use", "stop", "user_prompt_submit"]

  const RETIRED: seq<string> := ["post_tool_use"]

  function EscapeChar(c: char): string {
    match c
    case '\\' => "\\\\"
    case '\"' => "\\\""
    case '\n' => "\\n"
    case '\r' => "\\r"
    case '\t' => "\\t"
    case _ => [c]
  }

  /** The body of a TOML basic string. */
  function Escape(value: string): string {
    if value == "" then "" else Escape(value[..|value| - 1]) + EscapeChar(value[|value| - 1])
  }

  function StateHeader(hookPath: string, event: string): string {
    "[hooks.state.\"" + Escape(hookPath + ":" + event + ":0:0") + "\"]"
  }

  function StateRule(hookPath: string, event: string, hash: string): Rule {
    Rule(StateHeader(hookPath, event), "trusted_hash", "trusted_hash = \"" + hash + "\"", Exactly("enabled = false"))
  }

  function EnsureText(rule: Rule, text: string): string { Join(Ensure(rule, Lines(text))) }

  function RemoveText(header: string, text: string): string { Join(Remove(header, Lines(text)).out) }

  function RemoveAll(hookPath: string, events: seq<string>, text: string): string {
    if events == [] then text
    else RemoveText(StateHeader(hookPath, events[|events| - 1]), RemoveAll(hookPath, events[..|events| - 1], text))
  }

  function EnsureAll(hookPath: string, events: seq<string>, hash: string -> string, text: string): string {
    if events == [] then text else
      var event := events[|events| - 1];
      EnsureText(StateRule(hookPath, event, hash(event)), EnsureAll(hookPath, events[..|events| - 1], hash, text))
  }

  function EndLine(text: string): string {
    if text != "" && text[|text| - 1] == '\n' then text else text + "\n"
  }

  function Update(text: string, hookPath: string, hash: string -> string): string {
    EndLine(EnsureAll(hookPath, EVENTS, hash, RemoveAll(hookPath, RETIRED, EnsureText(FEATURES, text))))
  }

  // ---------------------------------------------------------------- as it runs

  lemma ScanStep(rule: Rule, ls: seq<string>, i: nat)
    requires i < |ls|
    ensures Scan(rule, ls[..i + 1]) == ReadLine(rule, Scan(rule, ls[..i]), ls[i])
  {
    assert ls[..i + 1][..i] == ls[..i];
  }

  /** The feature pass and the state pass look at the lines of a section in different orders; no line falls under
      both cases. */
  lemma EnabledIsNoHash()
    ensures !Assigns("enabled = false", "trusted_hash")
  {
    assert "enabled = false"[0] != "trusted_hash"[0];
  }

  method EnsureFeatureFlags(text: string) returns (updated: string)
    ensures updated == EnsureText(FEATURES, text)
  {
    hide Trim, IsHeader, Assigns, Join, Lines;
    var lines := Lines(text);
    var out: seq<string> := [];
    var inFeatures, sawFeatures, sawHooks := false, false, false;
    var i := 0;
    while i < |lines|
      invariant 0 <= i <= |lines|
      invariant var p := Scan(FEATURES, lines[..i]);
        out == p.out && inFeatures == p.inside && sawFeatures == p.found && (inFeatures ==> sawHooks == p.done)
    {
      var line := lines[i];
      ScanStep(FEATURES, lines, i);
      i := i + 1;
      var trimmed := Trim(line);
      var isHeader := IsHeader(trimmed);
      if isHeader {
        if inFeatures && !sawHooks {
          out := out + ["hooks = true"];
        }
        inFeatures := trimmed == "[features]";
        if inFeatures {
          sawFeatures := true;
          sawHooks := false;
        }
      }
      if inFeatures && !isHeader {
        if Assigns(trimmed, "hooks") {
          if !sawHooks {
            out := out + ["hooks = true"];
            sawHooks := true;
          }
          continue;
        } else if Assigns(trimmed, "codex_hooks") {
          continue;
        }
      }
      out := out + [line];
    }
    assert lines[..i] == lines;
    if inFeatures && !sawHooks {
      out := out + ["hooks = true"];
    }
    if !sawFeatures {
      assert out + [] == out;
      if |out| > 0 && Trim(out[|out| - 1]) != "" {
        out := out + [""];
      }
      out := out + ["[features]", "hooks = true"];
    }
    updated := Join(out);
  }

  lemma HeadersAreNeither(trimmed: string)
    requires IsHeader(trimmed)
    ensures trimmed != "enabled = false" && !Assigns(trimmed, "trusted_hash")
  {
    assert "enabled = false"[0] != '[' && "trusted_hash"[0] != '[';
  }

  method EnsureHookState(text: string, hookPath: string, event: string, hash: string) returns (updated: string)
    ensures updated == EnsureText(StateRule(hookPath, event, hash), text)
  {
    hide Trim, IsHeader, Assigns, Join, Lines, StateHeader;
    var header, lines := StateHeader(hookPath, event), Lines(text);
    ghost var rule := StateRule(hookPath, event, hash);
    var out: seq<string> := [];
    var inState, foundState, sawHash := false, false, false;
    EnabledIsNoHash();
    var i := 0;
    while i < |lines|
      invariant 0 <= i <= |lines|
      invariant var p := Scan(rule, lines[..i]);
        out == p.out && inState == p.inside && foundState == p.found && (inState ==> sawHash == p.done)
    {
      var line := lines[i];
      ScanStep(rule, lines, i);
      i := i + 1;
      var trimmed := Trim(line);
      if IsHeader(trimmed) {
        HeadersAreNeither(trimmed);
        if inState && !sawHash {
          out := out + ["trusted_hash = \"" + hash + "\""];
          sawHash := true;
        }
        inState := trimmed == header;
        if inState {
          foundState := true;
          sawHash := false;
        }
      }
      if inState && trimmed == "enabled = false" {
        continue;
      }
      if inState && Assigns(trimmed, "trusted_hash") {
        if !sawHash {
          out := out + ["trusted_hash = \"" + hash + "\""];
          sawHash := true;
        }
        continue;
      }
      out := out + [line];
    }
    assert lines[..i] == lines;
    if inState && !sawHash {
      out := out + ["trusted_hash = \"" + hash + "\""];
    }
    if !foundState {
      assert out + [] == out;
      if |out| > 0 && Trim(out[|out| - 1]) != "" {
        out := out + [""];
      }
      out := out + [header, "trusted_hash = \"" + hash + "\""];
    }
    updated := Join(out);
  }

  method RemoveHookState(text: string, hookPath: string, event: string) returns (updated: string)
    ensures updated == RemoveText(StateHeader(hookPath, event), text)
  {
    hide Trim, IsHeader, Join, Lines, StateHeader;
    var header, lines := StateHeader(hookPath, event), Lines(text);
    var out: seq<string> := [];
    var inRetired := false;
    var i := 0;
    while i < |lines|
      invariant 0 <= i <= |lines|
      invariant Removal(out, inRetired) == Remove(header, lines[..i])
    {
      var line := lines[i];
      assert lines[..i + 1][..i] == lines[..i];
      i := i + 1;
      var trimmed := Trim(line);
      if IsHeader(trimmed) {
        inRetired := trimmed == header;
      }
      if !inRetired {
        out := out + [line];
      }
    }
    assert lines[..i] == lines;
    updated := Join(out);
  }

  method UpdateHookConfig(text: string, hookPath: string, hash: string -> string) returns (updated: string)
    ensures updated == Update(text, hookPath, hash)
  {
    hide EnsureText, RemoveText, StateRule, StateHeader;
    updated := EnsureFeatureFlags(text);
    var base := updated;
    var i := 0;
    while i < |RETIRED|
      invariant 0 <= i <= |RETIRED| && updated == RemoveAll(hookPath, RETIRED[..i], base)
    {
      assert RETIRED[..i + 1][..i] == RETIRED[..i];
      updated := RemoveHookState(updated, hookPath, RETIRED[i]);
      i := i + 1;
    }
    assert RETIRED[..i] == RETIRED;
    var cleared := updated;
    i := 0;
    while i < |EVENTS|
      invariant 0 <= i <= |EVENTS| && updated == EnsureAll(hookPath, EVENTS[..i], hash, cleared)
    {
      assert EVENTS[..i + 1][..i] == EVENTS[..i];
      updated := EnsureHookState(updated, hookPath, EVENTS[i], hash(EVENTS[i]));
      i := i + 1;
    }
    assert EVENTS[..i] == EVENTS;
    if !(updated != "" && updated[|updated| - 1] == '\n') {
      updated := updated + "\n";
    }
  }
}
