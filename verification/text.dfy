/**
  The handful of Python string operations the provisioning code relies on:
  substring search (`sub in s`), `s.split(sep)[0]`, `s.split(sep)[1]` and
  `s.strip()`. Each executable definition is paired with a declarative one.
 */
module Text {
  import opened Wrappers

  /** `sub` occurs in `s` starting at index `i`. */
  ghost predicate OccursAt(s: string, sub: string, i: int) {
    0 <= i && i + |sub| <= |s| && s[i..i + |sub|] == sub
  }

  /** Reference meaning of Python's `sub in s`. */
  ghost predicate Contains(s: string, sub: string) {
    exists i :: OccursAt(s, sub, i)
  }

  /** Left-to-right search for `sub` in `s`, starting at `from` (Python's `str.find`). */
  function Find(s: string, sub: string, from: nat): (r: Option<nat>)
    ensures r.Some? ==> from <= r.value && OccursAt(s, sub, r.value)
    ensures r.Some? ==> forall j :: from <= j < r.value ==> !OccursAt(s, sub, j)
    ensures r.None? ==> forall j :: from <= j ==> !OccursAt(s, sub, j)
    decreases |s| - from
  {
    if from + |sub| > |s| then None
    else if s[from..from + |sub|] == sub then Some(from)
    else Find(s, sub, from + 1)
  }

  /** Python's `sub in s`, computed by search. */
  function In(sub: string, s: string): (b: bool)
    ensures b <==> Contains(s, sub)
  {
    var r := Find(s, sub, 0);
    if r.Some? then assert OccursAt(s, sub, r.value); true else false
  }

  /** Python's `s.split(sep)[0]`: the text before the first `sep`, or all of `s`. */
  function Before(s: string, sep: string): (r: string)
    requires sep != []
    ensures |r| <= |s| && r == s[..|r|]
    ensures forall j :: 0 <= j < |r| ==> !OccursAt(s, sep, j)
    ensures r == s || OccursAt(s, sep, |r|)
    ensures r == s <==> !Contains(s, sep)
  {
    match Find(s, sep, 0)
    case None => s
    case Some(i) => s[..i]
  }

  /** `i` is where `sub` first occurs in `s`. */
  ghost predicate FirstAt(s: string, sub: string, i: int) {
    OccursAt(s, sub, i) && forall k :: 0 <= k < i ==> !OccursAt(s, sub, k)
  }

  /** What `Find` from the start returns is the first occurrence. */
  lemma FoundFirst(s: string, sep: string, i: nat)
    requires Find(s, sep, 0) == Some(i)
    ensures FirstAt(s, sep, i)
  {
  }

  /** Python's `s.split(sep)[1]`: the text between the first and the second `sep`;
      None where Python raises IndexError because `sep` does not occur. */
  function SecondField(s: string, sep: string): (r: Option<string>)
    requires sep != []
    ensures r.None? <==> !Contains(s, sep)
    ensures r.Some? ==> exists i :: FirstAt(s, sep, i) && FieldAfter(s, sep, i, r.value)
  {
    match Find(s, sep, 0)
    case None => None
    case Some(i) =>
      var field := Before(s[i + |sep|..], sep);
      FoundFirst(s, sep, i);
      assert FieldAfter(s, sep, i, field);
      Some(field)
  }

  /** `field` is the text after the `sep` at `i`, up to the next `sep` or the end. */
  ghost predicate FieldAfter(s: string, sep: string, i: int, field: string)
    requires sep != []
  {
    0 <= i && i + |sep| <= |s| && field == Before(s[i + |sep|..], sep)
  }

  /** Characters Python's `str.isspace()` accepts, hence those `str.strip()` removes. */
  predicate IsSpace(c: char) {
    || c == ' ' || c == '\t' || c == '\n' || c == '\r'
    || c == '\U{0b}' || c == '\U{0c}'
    || ('\U{1c}' <= c <= '\U{1f}')
    || c == '\U{85}' || c == '\U{a0}' || c == '\U{1680}'
    || ('\U{2000}' <= c <= '\U{200a}')
    || c == '\U{2028}' || c == '\U{2029}' || c == '\U{202f}'
    || c == '\U{205f}' || c == '\U{3000}'
  }

  /** Every character of `s` in `[lo, hi)` is whitespace. */
  ghost predicate SpacesIn(s: string, lo: int, hi: int) {
    forall k :: lo <= k < hi && 0 <= k < |s| ==> IsSpace(s[k])
  }

  /** `r` is `s` with its leading and trailing whitespace removed: a slice of `s`
      bordered by whitespace only, which itself neither starts nor ends with whitespace. */
  ghost predicate IsStripOf(s: string, r: string) {
    && (exists a :: StrippedAt(s, r, a))
    && (r == [] || (!IsSpace(r[0]) && !IsSpace(r[|r| - 1])))
  }

  /** `r` sits at offset `a` of `s` with only whitespace before and after it. */
  ghost predicate StrippedAt(s: string, r: string, a: int) {
    0 <= a && a + |r| <= |s| && r == s[a..a + |r|] && SpacesIn(s, 0, a) && SpacesIn(s, a + |r|, |s|)
  }

  /** The first index at or after `i` that does not hold whitespace (or `|s|`). */
  function SkipSpaces(s: string, i: nat): (j: nat)
    requires i <= |s|
    ensures i <= j <= |s| && SpacesIn(s, i, j)
    ensures j == |s| || !IsSpace(s[j])
    decreases |s| - i
  {
    if i < |s| && IsSpace(s[i]) then SkipSpaces(s, i + 1) else i
  }

  /** The end of `s[lo..j]` once trailing whitespace is dropped. */
  function TrimSpaces(s: string, lo: nat, j: nat): (k: nat)
    requires lo <= j <= |s|
    ensures lo <= k <= j && SpacesIn(s, k, j)
    ensures k == lo || !IsSpace(s[k - 1])
    decreases j
  {
    if lo < j && IsSpace(s[j - 1]) then TrimSpaces(s, lo, j - 1) else j
  }

  /** Python's `s.strip()`. */
  function Strip(s: string): (r: string)
    ensures IsStripOf(s, r)
  {
    var a := SkipSpaces(s, 0);
    var b := TrimSpaces(s, a, |s|);
    assert StrippedAt(s, s[a..b], a);
    s[a..b]
  }

  /** Stripping is determined by its declarative meaning: at most one string is the strip of `s`. */
  lemma StripOfUnique(s: string, r1: string, r2: string)
    requires IsStripOf(s, r1) && IsStripOf(s, r2)
    ensures r1 == r2
  {
    var a1 :| StrippedAt(s, r1, a1);
    var a2 :| StrippedAt(s, r2, a2);
    StripBounds(s, r1, a1, r2, a2);
    StripBounds(s, r2, a2, r1, a1);
  }

  /** A non-empty strip `r2` at `a2` lies within the bounds of any strip `r1` at `a1`. */
  lemma StripBounds(s: string, r1: string, a1: int, r2: string, a2: int)
    requires StrippedAt(s, r1, a1) && StrippedAt(s, r2, a2)
    requires r2 == [] || (!IsSpace(r2[0]) && !IsSpace(r2[|r2| - 1]))
    ensures r2 != [] ==> a1 <= a2 && a2 + |r2| <= a1 + |r1|
  {
    if r2 != [] {
      assert s[a2] == r2[0] && s[a2 + |r2| - 1] == r2[|r2| - 1];
    }
  }

  /** Stripping twice is stripping once. */
  lemma StripIdempotent(s: string)
    ensures Strip(Strip(s)) == Strip(s)
  {
    var r := Strip(s);
    assert StrippedAt(r, r, 0);
    assert IsStripOf(r, r);
    StripOfUnique(r, Strip(r), r);
  }
}
