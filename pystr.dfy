/**
 * The handful of Python `str` operations that the core relies on, as pure
 * functions on `seq<char>`: `startswith`, `endswith`, `in` (substring),
 * `strip()`, `rstrip(c)`, and the two `split(c)` selections `[0]` and `[-1]`.
 */
module PyStr {

  /** `s.startswith(p)` */
  predicate StartsWith(s: string, p: string) {
    |p| <= |s| && s[..|p|] == p
  }

  /** `s.endswith(p)` */
  predicate EndsWith(s: string, p: string) {
    |p| <= |s| && s[|s| - |p|..] == p
  }

  /** `sub in s`: some position of `s` starts an occurrence of `sub`. */
  predicate Contains(s: string, sub: string)
    decreases |s|
  {
    StartsWith(s, sub) || (s != [] && Contains(s[1..], sub))
  }

  /**
   * The characters Python's argument-less `strip()` removes: those for which
   * `str.isspace()` holds.
   */
  predicate IsSpace(c: char) {
    ('\U{9}' <= c <= '\U{D}') || ('\U{1C}' <= c <= '\U{20}') || c == '\U{85}' || c == '\U{A0}'
    || c == '\U{1680}' || ('\U{2000}' <= c <= '\U{200A}') || c == '\U{2028}' || c == '\U{2029}'
    || c == '\U{202F}' || c == '\U{205F}' || c == '\U{3000}'
  }

  /** `s.lstrip()`: the suffix of `s` left after dropping its leading whitespace. */
  function TrimStart(s: string): (r: string)
    ensures |r| <= |s| && r == s[|s| - |r|..]
    ensures forall k :: 0 <= k < |s| - |r| ==> IsSpace(s[k])
    ensures r != [] ==> !IsSpace(r[0])
    decreases |s|
  {
    if s != [] && IsSpace(s[0]) then TrimStart(s[1..]) else s
  }

  /** `s.rstrip()`: the prefix of `s` left after dropping its trailing whitespace. */
  function TrimEnd(s: string): (r: string)
    ensures |r| <= |s| && r == s[..|r|]
    ensures forall k :: |r| <= k < |s| ==> IsSpace(s[k])
    ensures r != [] ==> !IsSpace(r[|r| - 1])
    decreases |s|
  {
    if s != [] && IsSpace(s[|s| - 1]) then TrimEnd(s[..|s| - 1]) else s
  }

  /** The string neither starts nor ends with whitespace. */
  predicate Trimmed(s: string) {
    s == [] || (!IsSpace(s[0]) && !IsSpace(s[|s| - 1]))
  }

  /** `s.strip()` */
  function Strip(s: string): (r: string)
    ensures Trimmed(r)
    ensures |r| <= |s|
  {
    var t := TrimEnd(s);
    var r := TrimStart(t);
    assert r != [] ==> r[|r| - 1] == t[|t| - 1];
    r
  }

  /**
   * `strip()` keeps a contiguous part of `s` and drops only whitespace,
   * before it and after it.
   */
  lemma StripSlice(s: string) returns (i: nat)
    ensures i + |Strip(s)| <= |s| && Strip(s) == s[i..i + |Strip(s)|]
    ensures forall k :: 0 <= k < i ==> IsSpace(s[k])
    ensures forall k :: i + |Strip(s)| <= k < |s| ==> IsSpace(s[k])
  {
    var t := TrimEnd(s);
    var r := TrimStart(t);
    i := |t| - |r|;
    assert t == s[..|t|];
    assert r == t[i..];
    forall k | 0 <= k < i ensures IsSpace(s[k]) {
      assert s[k] == t[k];
    }
  }

  /** Stripping changes nothing exactly when there is nothing to strip. */
  lemma StripTrimmed(s: string)
    ensures Strip(s) == s <==> Trimmed(s)
  {
    if Trimmed(s) {
      assert TrimEnd(s) == s;
      assert TrimStart(s) == s;
    }
  }

  /** `strip()` is idempotent. */
  lemma StripIdempotent(s: string)
    ensures Strip(Strip(s)) == Strip(s)
  {
    StripTrimmed(Strip(s));
  }

  /** `s.rstrip(c)`: `s` without every trailing `c`. */
  function TrimEndChar(s: string, c: char): (r: string)
    ensures |r| <= |s| && r == s[..|r|]
    ensures forall k :: |r| <= k < |s| ==> s[k] == c
    ensures r == [] || r[|r| - 1] != c
    decreases |s|
  {
    if s != [] && s[|s| - 1] == c then TrimEndChar(s[..|s| - 1], c) else s
  }

  /** `rstrip(c)` is idempotent: its result has no trailing `c` left to strip. */
  lemma TrimEndCharIdempotent(s: string, c: char)
    ensures TrimEndChar(TrimEndChar(s, c), c) == TrimEndChar(s, c)
  {
  }

  /** `s.split(c)[-1]`: the part of `s` after its last `c`, or all of `s` when it has none. */
  function AfterLast(s: string, c: char): (r: string)
    decreases |s|
  {
    if s == [] then []
    else if s[|s| - 1] == c then []
    else AfterLast(s[..|s| - 1], c) + [s[|s| - 1]]
  }

  /** `s.split(c)[-1]` is the `c`-free suffix of `s` that follows a `c` or starts `s`. */
  lemma {:induction false} AfterLastSpec(s: string, c: char)
    ensures var r := AfterLast(s, c);
      c !in r && |r| <= |s| && r == s[|s| - |r|..] && (|r| == |s| || s[|s| - |r| - 1] == c)
    decreases |s|
  {
    if s != [] && s[|s| - 1] != c {
      AfterLastSpec(s[..|s| - 1], c);
    }
  }

  /** `s.split(c)[0]`: the part of `s` before its first `c`, or all of `s` when it has none. */
  function BeforeFirst(s: string, c: char): (r: string)
    decreases |s|
  {
    if s == [] then []
    else if s[0] == c then []
    else [s[0]] + BeforeFirst(s[1..], c)
  }

  /** `s.split(c)[0]` is the `c`-free prefix of `s` that is followed by a `c` or ends `s`. */
  lemma {:induction false} BeforeFirstSpec(s: string, c: char)
    ensures var r := BeforeFirst(s, c);
      c !in r && |r| <= |s| && r == s[..|r|] && (|r| == |s| || s[|r|] == c)
    decreases |s|
  {
    if s != [] && s[0] != c {
      BeforeFirstSpec(s[1..], c);
    }
  }
}
