/** The string operations the policy uses, with Python's meaning. */
module Strings {
  import opened Wrappers

  predicate IsSpace(c: char) {
    var n := c as int;
    || 0x09 <= n <= 0x0D || 0x1C <= n <= 0x20 || n == 0x85 || n == 0xA0 || n == 0x1680
    || 0x2000 <= n <= 0x200A || n == 0x2028 || n == 0x2029 || n == 0x202F || n == 0x205F || n == 0x3000
  }

  /** Blanks, tabs and line ends are white space; letters, digits and signs of ASCII are not. */
  lemma AsciiSpaces(c: char)
    requires (c as int) < 128
    ensures IsSpace(c) <==> c in {' ', '\t', '\n', '\r'} || 11 <= c as int <= 12 || 28 <= c as int <= 31
  {
  }

  /** `pattern` occurs in `text` at `at`. */
  predicate OccursAt(text: string, pattern: string, at: nat) {
    at + |pattern| <= |text| && text[at..at + |pattern|] == pattern
  }

  /** `str.find`: the first occurrence from `start` on. */
  function Find(text: string, pattern: string, start: nat): (at: Option<nat>)
    ensures at.Some? ==> start <= at.value && OccursAt(text, pattern, at.value)
    ensures at.Some? ==> forall i: nat :: start <= i < at.value ==> !OccursAt(text, pattern, i)
    ensures at.None? ==> forall i: nat :: start <= i ==> !OccursAt(text, pattern, i)
    decreases |text| - start
  {
    if start + |pattern| > |text| then None
    else if OccursAt(text, pattern, start) then Some(start)
    else if start == |text| then None
    else Find(text, pattern, start + 1)
  }

  predicate Contains(text: string, pattern: string) {
    Find(text, pattern, 0).Some?
  }

  /** `pattern in text`. */
  lemma ContainsIfItOccurs(text: string, pattern: string)
    ensures Contains(text, pattern) <==> exists at: nat :: OccursAt(text, pattern, at)
  {
  }

  /** `str.rstrip`. */
  function RStrip(text: string): (kept: string)
    ensures kept <= text
    ensures kept != [] ==> !IsSpace(kept[|kept| - 1])
    ensures forall i :: |kept| <= i < |text| ==> IsSpace(text[i])
  {
    if text != [] && IsSpace(text[|text| - 1]) then RStrip(text[..|text| - 1]) else text
  }

  /** `str.strip`. */
  function Strip(text: string): (kept: string) {
    LStrip(RStrip(text))
  }

  function LStrip(text: string): (kept: string)
    ensures |kept| <= |text| && kept == text[|text| - |kept|..]
    ensures kept != [] ==> !IsSpace(kept[0])
    ensures forall i :: 0 <= i < |text| - |kept| ==> IsSpace(text[i])
  {
    if text != [] && IsSpace(text[0]) then LStrip(text[1..]) else text
  }

  /** No white space at either end. */
  predicate Trimmed(text: string) {
    text != "" ==> !IsSpace(text[0]) && !IsSpace(text[|text| - 1])
  }

  lemma StripTrims(text: string)
    ensures Trimmed(Strip(text))
  {
    var kept, once := RStrip(text), Strip(text);
    assert once != "" ==> once[|once| - 1] == kept[|kept| - 1];
  }

  lemma TrimmedStays(text: string)
    requires Trimmed(text)
    ensures Strip(text) == text
  {
  }

  ghost predicate AllSpace(text: string) {
    forall i :: 0 <= i < |text| ==> IsSpace(text[i])
  }

  /** `Strip` drops the white space at both ends, and nothing else. */
  lemma StripDropsSpace(before: string, kept: string, after: string)
    requires AllSpace(before) && AllSpace(after) && Trimmed(kept)
    ensures Strip(before + kept + after) == kept
  {
    var text := before + kept + after;
    var right := RStrip(text);
    if kept == "" {
      assert AllSpace(text);
      StripsToNothing(text);
    } else {
      assert !IsSpace(text[|before| + |kept| - 1]);
      assert right == before + kept;
      var left := LStrip(right);
      assert right[|before|] == kept[0];
      assert left == kept;
    }
  }

  lemma StripsToNothing(text: string)
    requires AllSpace(text)
    ensures Strip(text) == ""
  {
    var right := RStrip(text);
    assert right == text[..|right|];
  }

  lemma OccursAtChar(text: string, pattern: string, at: nat, k: nat)
    requires OccursAt(text, pattern, at) && k < |pattern|
    ensures text[at + k] == pattern[k]
  {
  }

  /** One differing character rules an occurrence out. */
  lemma NoOccurrence(text: string, pattern: string, at: nat, k: nat)
    requires k < |pattern| && at + k < |text| && text[at + k] != pattern[k]
    ensures !OccursAt(text, pattern, at)
  {
  }

  lemma OccursAtSlice(text: string, pattern: string, at: nat, lo: nat, hi: nat)
    requires OccursAt(text, pattern, at) && lo <= hi <= |pattern|
    ensures text[at + lo..at + hi] == pattern[lo..hi]
  {
    var mid := text[at..at + |pattern|];
    forall i | 0 <= i < hi - lo
      ensures mid[lo..hi][i] == text[at + lo..at + hi][i]
    {
      assert mid[lo + i] == text[at + lo + i];
    }
  }

  lemma FindIs(text: string, pattern: string, at: nat)
    requires OccursAt(text, pattern, at)
    requires forall i: nat :: i < at ==> !OccursAt(text, pattern, i)
    ensures Find(text, pattern, 0) == Some(at)
  {
  }

  /** Stripping trailing white space loses no occurrence of a pattern that ends in another character. */
  lemma StripKeepsOccurrence(text: string, pattern: string, at: nat)
    requires pattern != [] && !IsSpace(pattern[|pattern| - 1])
    ensures OccursAt(RStrip(text), pattern, at) <==> OccursAt(text, pattern, at)
  {
  }
}
