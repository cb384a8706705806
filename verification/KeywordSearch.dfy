/** Whole-word keyword search: a search that skips a keyword's length after a failed hit, and one that does not. */
module KeywordSearch {
  import opened Options

  type Byte = n: int | 0 <= n < 256 witness 0

  type Text = seq<Byte>

  predicate Letter(b: Byte) { 97 <= b <= 122 }

  predicate Digit(b: Byte) { 48 <= b <= 57 }

  /** Neither a lower case letter nor a digit. */
  predicate Boundary(b: Byte) { !Letter(b) && !Digit(b) }

  /** A space or one of "-_./". */
  predicate Joint(b: Byte) { b in {32, 45, 95, 46, 47} }

  predicate Occurs(text: Text, key: Text, i: nat) {
    i + |key| <= |text| && text[i..i + |key|] == key
  }

  /** The first occurrence at or after `from`. */
  function First(text: Text, key: Text, from: nat): (r: Option<nat>)
    ensures r.Some? ==> from <= r.value && Occurs(text, key, r.value)
    ensures forall i :: from <= i && (r.None? || i < r.value) ==> !Occurs(text, key, i)
    decreases |text| - from
  {
    if Occurs(text, key, from) then Some(from)
    else if from >= |text| then None
    else First(text, key, from + 1)
  }

  /** The occurrence at `i` has boundaries on both sides. */
  predicate Bounded(text: Text, key: Text, i: nat)
    requires i + |key| <= |text|
  {
    (i == 0 || Boundary(text[i - 1])) && (i + |key| == |text| || Boundary(text[i + |key|]))
  }

  /** The search of `keywordMatch` from `start` on. */
  function SkipSearch(text: Text, key: Text, start: nat): bool
    requires key != []
    decreases |text| - start
  {
    var hit := First(text, key, start);
    hit.Some? && (Bounded(text, key, hit.value) || SkipSearch(text, key, hit.value + |key|))
  }

  predicate Literal(key: Text) { exists i :: 0 <= i < |key| && (Joint(key[i]) || key[i] > 127) }

  /** What `keywordMatch` answers for a trimmed, lower-cased keyword. */
  function Match(text: Text, key: Text): bool {
    if key == [] then false
    else if Literal(key) then First(text, key, 0).Some?
    else SkipSearch(text, key, 0)
  }

  /** No lower case letter and no digit is next to the bytes from `i` to `end`. */
  ghost predicate StandsAlone(text: Text, i: nat, end: nat)
    requires i <= end <= |text|
  {
    && (i > 0 ==> !(97 <= text[i - 1] <= 122) && !(48 <= text[i - 1] <= 57))
    && (end < |text| ==> !(97 <= text[end] <= 122) && !(48 <= text[end] <= 57))
  }

  /** What it should answer for a keyword that is one word. */
  ghost predicate WholeWord(text: Text, key: Text) {
    exists i: nat :: Occurs(text, key, i) && StandsAlone(text, i, i + |key|)
  }

  // ---------------------------------------------------------------- as it runs

  /** `strings.Index` on the text from `from` on. */
  method Index(text: Text, key: Text, from: nat) returns (hit: Option<nat>)
    requires from <= |text|
    ensures hit == First(text, key, from)
  {
    var i := from;
    while i < |text| && !Occurs(text, key, i)
      invariant from <= i <= |text| && First(text, key, i) == First(text, key, from)
    {
      i := i + 1;
    }
    if Occurs(text, key, i) {
      return Some(i);
    }
    return None;
  }

  method HasLiteral(key: Text) returns (literal: bool)
    ensures literal <==> Literal(key)
  {
    var i := 0;
    while i < |key|
      invariant 0 <= i <= |key| && forall j :: 0 <= j < i ==> !(Joint(key[j]) || key[j] > 127)
    {
      if Joint(key[i]) || key[i] > 127 {
        return true;
      }
      i := i + 1;
    }
    return false;
  }

  /** `keywordMatch`. It terminates: the start moves on by a whole keyword. */
  method KeywordMatch(text: Text, key: Text) returns (found: bool)
    ensures found == Match(text, key)
  {
    hide First, Literal, Boundary;
    if key == [] {
      return false;
    }
    var literal := HasLiteral(key);
    if literal {
      var hit := Index(text, key, 0);
      return hit.Some?;
    }
    var start := 0;
    while true
      invariant start <= |text| && SkipSearch(text, key, start) == SkipSearch(text, key, 0)
      decreases |text| - start
    {
      var hit := Index(text, key, start);
      if hit.None? {
        return false;
      }
      var index := hit.value;
      var beforeOk := index == 0 || Boundary(text[index - 1]);
      var after := index + |key|;
      var afterOk := after == |text| || Boundary(text[after]);
      if beforeOk && afterOk {
        return true;
      }
      start := index + |key|;
    }
  }

  // ---------------------------------------------------------------- when skipping is harmless

  /** The keyword overlaps itself shifted by `s`, and the byte before the shifted copy is a boundary. */
  predicate SplitBorder(key: Text, s: nat) {
    0 < s < |key| && key[s..] == key[..|key| - s] && Boundary(key[s - 1])
  }

  lemma OverlapIsBorder(text: Text, key: Text, i: nat, j: nat)
    requires Occurs(text, key, i) && Occurs(text, key, j) && i < j < i + |key|
    requires Bounded(text, key, j)
    ensures SplitBorder(key, j - i)
  {
    var s := j - i;
    assert text[j - 1] == text[i..i + |key|][s - 1];
    assert key[s..] == text[j..i + |key|];
    assert key[..|key| - s] == text[j..j + |key|][..|key| - s];
    assert text[j..j + |key|][..|key| - s] == text[j..i + |key|];
  }

  lemma {:induction false} SkipFindsIff(text: Text, key: Text, start: nat)
    requires key != [] && forall s: nat :: !SplitBorder(key, s)
    ensures SkipSearch(text, key, start) <==> exists i :: start <= i && Occurs(text, key, i) && Bounded(text, key, i)
    decreases |text| - start
  {
    hide SplitBorder;
    var hit := First(text, key, start);
    if hit.Some? && !Bounded(text, key, hit.value) {
      SkipFindsIff(text, key, hit.value + |key|);
      forall i | start <= i && Occurs(text, key, i) && Bounded(text, key, i) ensures hit.value + |key| <= i {
        assert hit.value <= i;
        if i < hit.value + |key| && i != hit.value {
          OverlapIsBorder(text, key, hit.value, i);
        }
      }
    }
  }

  /** A text on which skipping misses the keyword: a letter, the keyword, and its overlapping copy's end. */
  function Trap(key: Text, s: nat): Text
    requires s <= |key|
  {
    [97] + key + key[|key| - s..]
  }

  lemma TrapHoldsWord(key: Text, s: nat)
    requires SplitBorder(key, s)
    ensures Occurs(Trap(key, s), key, 1) && Occurs(Trap(key, s), key, 1 + s) && Bounded(Trap(key, s), key, 1 + s)
  {
    var t, n := Trap(key, s), |key|;
    assert t[1..1 + n] == key;
    forall k | 0 <= k < n ensures t[1 + s + k] == key[k] {
      if s + k < n {
        assert t[1 + s + k] == key[s + k] == key[s..][k] == key[..n - s][k];
      } else {
        assert t[1 + s + k] == key[n - s..][s + k - n] == key[k];
      }
    }
    assert t[1 + s..1 + s + n] == key;
    assert t[s] == key[s - 1];
  }

  /** A keyword with a boundary byte does not start at the letter in front of it. */
  lemma {:induction false} NotAtFront(key: Text, rest: Text, k: nat)
    requires k < |key| && Occurs([97] + key + rest, key, 0)
    ensures key[k] == 97
  {
    var t := [97] + key + rest;
    assert t[0..|key|][k] == key[k];
    if k > 0 {
      NotAtFront(key, rest, k - 1);
      assert t[k] == key[k - 1];
    }
  }

  lemma SkipMissesTrap(key: Text, s: nat)
    requires SplitBorder(key, s)
    ensures !SkipSearch(Trap(key, s), key, 0)
  {
    var t, n := Trap(key, s), |key|;
    TrapHoldsWord(key, s);
    if Occurs(t, key, 0) {
      NotAtFront(key, key[n - s..], s - 1);
      assert false;
    }
    assert First(t, key, 0) == Some(1);
    assert t[0] == 97;
    assert First(t, key, 1 + n).None?;
  }

  /** For any keyword that is one ASCII word, skipping gives the right answer on every text exactly when the
      keyword has no overlap with itself that begins after a boundary byte. */
  lemma SkippingIsExactIff(key: Text)
    requires key != [] && !Literal(key)
    ensures (forall text :: Match(text, key) <==> WholeWord(text, key)) <==> forall s: nat :: !SplitBorder(key, s)
  {
    hide SplitBorder, Literal;
    if forall s: nat :: !SplitBorder(key, s) {
      forall text ensures Match(text, key) <==> WholeWord(text, key) {
        SkipFindsIff(text, key, 0);
      }
    } else {
      var s: nat :| SplitBorder(key, s);
      BorderInside(key, s);
      TrapHoldsWord(key, s);
      SkipMissesTrap(key, s);
      assert WholeWord(Trap(key, s), key);
      assert !Match(Trap(key, s), key);
    }
  }

  lemma BorderInside(key: Text, s: nat)
    requires SplitBorder(key, s)
    ensures s < |key|
  {}

  /** A keyword of lower case letters and digits is found exactly where it is a whole word. */
  lemma WordsAreExact(text: Text, key: Text)
    requires key != [] && forall i :: 0 <= i < |key| ==> Letter(key[i]) || Digit(key[i])
    ensures Match(text, key) <==> WholeWord(text, key)
  {
    assert !Literal(key);
    forall s: nat ensures !SplitBorder(key, s) {
      assert 0 < s < |key| ==> Letter(key[s - 1]) || Digit(key[s - 1]);
    }
    SkipFindsIff(text, key, 0);
  }

  /** A keyword with a space, one of "-_./" or a byte beyond ASCII is found wherever it occurs, as "pull request" is;
      the empty keyword is found nowhere. */
  lemma JointKeywordsAreFoundAnywhere(text: Text, key: Text)
    requires key == [] || exists k :: 0 <= k < |key| && (key[k] in {32, 45, 95, 46, 47} || key[k] > 127)
    ensures Match(text, key) <==> key != [] && exists i: nat :: Occurs(text, key, i)
  {}

  /** "a+a" in "aa+a+a" is a whole word that skipping misses. */
  lemma SkippingCanMiss()
    ensures var key: Text := [97, 43, 97];
      !Match([97, 97, 43, 97, 43, 97], key) && WholeWord([97, 97, 43, 97, 43, 97], key)
  {
    var key: Text := [97, 43, 97];
    var text: Text := [97, 97, 43, 97, 43, 97];
    assert key[2..] == key[..1];
    assert SplitBorder(key, 2);
    assert Trap(key, 2) == text;
    TrapHoldsWord(key, 2);
    SkipMissesTrap(key, 2);
    assert !Literal(key);
  }

  // ---------------------------------------------------------------- stepping by one

  predicate WordByte(b: Byte) { Letter(b) || Digit(b) || b == 95 }

  /** A keyword that begins or ends with a word byte may not continue a word there. */
  predicate KeyBounded(text: Text, key: Text, i: nat)
    requires key != [] && i + |key| <= |text|
  {
    var end := i + |key|;
    && !(WordByte(key[0]) && i > 0 && WordByte(text[i - 1]))
    && !(WordByte(key[|key| - 1]) && end < |text| && WordByte(text[end]))
  }

  /** Both bytes belong to words: lower case letters, digits or the low line. */
  ghost predicate RunsOn(a: Byte, b: Byte) {
    && (97 <= a <= 122 || 48 <= a <= 57 || a == 95)
    && (97 <= b <= 122 || 48 <= b <= 57 || b == 95)
  }

  /** `containsBoundedKeyword` finds every non-empty keyword exactly where its boundaries allow it. */
  method ContainsBoundedKeyword(text: Text, key: Text) returns (found: bool)
    ensures found <==> key != [] && exists i: nat :: (
      && Occurs(text, key, i)
      && (i > 0 ==> !RunsOn(text[i - 1], key[0]))
      && (i + |key| < |text| ==> !RunsOn(key[|key| - 1], text[i + |key|])))
  {
    if key == [] {
      return false;
    }
    var offset: nat := 0;
    while offset <= |text| - |key|
      invariant forall i: nat :: i < offset && Occurs(text, key, i) ==> !KeyBounded(text, key, i)
      decreases |text| - offset
    {
      var hit := Index(text, key, offset);
      if hit.None? {
        return false;
      }
      var index := hit.value;
      if KeyBounded(text, key, index) {
        return true;
      }
      offset := index + 1;
    }
    found := false;
  }
}
