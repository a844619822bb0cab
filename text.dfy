/**
 * String helpers used by the portal's file-name and form checks: ASCII
 * lower-casing (Python's `str.lower` on the characters that matter here),
 * `str.endswith`, `str.rfind` on a single character and `str.strip`.
 */
module Text {

  /** Lower-cases an ASCII capital letter and leaves every other character alone. */
  function LowerChar(c: char): char
  {
    if 'A' <= c <= 'Z' then (c as int + 32) as char else c
  }

  function Lower(s: string): (r: string)
    ensures |r| == |s|
  {
    seq(|s|, i requires 0 <= i < |s| => LowerChar(s[i]))
  }

  /**
   * The last `n` characters of `s`, built from the end so that proofs
   * unfold it only as far as they need.
   */
  function Suffix(s: string, n: nat): (r: string)
    requires n <= |s|
    ensures |r| == n
  {
    if n == 0 then [] else Suffix(s[..|s| - 1], n - 1) + [s[|s| - 1]]
  }

  /** `Suffix` is the slice that starts `n` characters before the end. */
  lemma {:induction false} SuffixIsSlice(s: string, n: nat)
    requires n <= |s|
    ensures Suffix(s, n) == s[|s| - n..]
  {
    if n > 0 {
      var front := s[..|s| - 1];
      SuffixIsSlice(front, n - 1);
      assert front[|front| - (n - 1)..] + [s[|s| - 1]] == s[|s| - n..];
    }
  }

  /** A suffix no longer than the right part of a concatenation lies in that part. */
  lemma SuffixOfAppend(a: string, b: string, n: nat)
    requires n <= |b|
    ensures Suffix(a + b, n) == Suffix(b, n)
  {
    SuffixIsSlice(a + b, n);
    SuffixIsSlice(b, n);
    assert (a + b)[|a + b| - n..] == b[|b| - n..];
  }

  predicate EndsWith(s: string, suffix: string)
  {
    |suffix| <= |s| && Suffix(s, |suffix|) == suffix
  }

  /** The index of the last occurrence of `c` in `s`, or -1 when `c` does not occur. */
  function LastIndexOf(s: string, c: char): (i: int)
    ensures -1 <= i < |s|
    ensures i >= 0 ==> s[i] == c
  {
    if |s| == 0 then -1
    else if s[|s| - 1] == c then |s| - 1
    else LastIndexOf(s[..|s| - 1], c)
  }

  /** No occurrence of `c` follows the one `LastIndexOf` finds. */
  lemma {:induction false} LastIndexOfIsLast(s: string, c: char)
    ensures forall j :: LastIndexOf(s, c) < j < |s| ==> s[j] != c
  {
    if |s| > 0 && s[|s| - 1] != c {
      var front := s[..|s| - 1];
      LastIndexOfIsLast(front, c);
      assert forall j :: 0 <= j < |front| ==> front[j] == s[j];
    }
  }

  /** Any index with the properties of the last occurrence is the one `LastIndexOf` returns. */
  lemma {:induction false} LastIndexOfUnique(s: string, c: char, i: int)
    requires -1 <= i < |s|
    requires i >= 0 ==> s[i] == c
    requires forall j :: i < j < |s| ==> s[j] != c
    ensures LastIndexOf(s, c) == i
  {
    if |s| > 0 && s[|s| - 1] != c {
      var front := s[..|s| - 1];
      assert forall j :: 0 <= j < |front| ==> front[j] == s[j];
      LastIndexOfUnique(front, c, i);
    }
  }

  /** Searching a concatenation finds the match in the right part first. */
  lemma LastIndexOfConcat(a: string, b: string, c: char)
    ensures LastIndexOf(a + b, c) ==
              if LastIndexOf(b, c) >= 0 then |a| + LastIndexOf(b, c) else LastIndexOf(a, c)
  {
    var s := a + b;
    var ib, ia := LastIndexOf(b, c), LastIndexOf(a, c);
    LastIndexOfIsLast(a, c);
    LastIndexOfIsLast(b, c);
    if ib >= 0 {
      forall j | |a| + ib < j < |s| ensures s[j] != c {
        assert s[j] == b[j - |a|];
      }
      LastIndexOfUnique(s, c, |a| + ib);
    } else {
      forall j | ia < j < |s| ensures s[j] != c {
        if j >= |a| { assert s[j] == b[j - |a|]; }
      }
      LastIndexOfUnique(s, c, ia);
    }
  }

  /** Lower-casing works character by character, so it distributes over concatenation. */
  lemma LowerAppend(a: string, b: string)
    ensures Lower(a + b) == Lower(a) + Lower(b)
  {
    assert forall i :: 0 <= i < |a + b| ==> Lower(a + b)[i] == (Lower(a) + Lower(b))[i];
  }

  /** A suffix no longer than the right part of a concatenation is decided by that part alone. */
  lemma EndsWithAppend(a: string, b: string, suffix: string)
    requires |suffix| <= |b|
    ensures EndsWith(a + b, suffix) <==> EndsWith(b, suffix)
  {
    SuffixIsSlice(a + b, |suffix|);
    SuffixIsSlice(b, |suffix|);
    assert (a + b)[|a + b| - |suffix|..] == b[|b| - |suffix|..];
  }

  /**
   * Whether the lower-cased string ends in `t` depends only on its last
   * `n` characters, for any `n` at least as long as `t`.
   */
  lemma LowerEndsWithSuffix(s: string, n: nat, t: string)
    requires |t| <= n <= |s|
    ensures EndsWith(Lower(s), t) <==> EndsWith(Lower(Suffix(s, n)), t)
  {
    SuffixIsSlice(s, n);
    var front := s[..|s| - n];
    assert s == front + Suffix(s, n);
    LowerAppend(front, Suffix(s, n));
    EndsWithAppend(Lower(front), Lower(Suffix(s, n)), t);
  }

  // ---------------------------------------------------------------- whitespace

  /** Python's `str.isspace` on one character. */
  predicate IsSpace(c: char)
  {
    var n := c as int;
    || 0x09 <= n <= 0x0d || 0x1c <= n <= 0x20 || n == 0x85 || n == 0xa0 || n == 0x1680
    || 0x2000 <= n <= 0x200a || n == 0x2028 || n == 0x2029 || n == 0x202f || n == 0x205f || n == 0x3000
  }

  /** Every character of `s` is whitespace (the empty string included). */
  predicate Blank(s: string)
  {
    forall i :: 0 <= i < |s| ==> IsSpace(s[i])
  }

  function TrimStart(s: string): (r: string)
    ensures |r| <= |s|
  {
    if s != [] && IsSpace(s[0]) then TrimStart(s[1..]) else s
  }

  function TrimEnd(s: string): (r: string)
    ensures |r| <= |s|
  {
    if s != [] && IsSpace(s[|s| - 1]) then TrimEnd(s[..|s| - 1]) else s
  }

  /** Python's `str.strip()` with no argument. */
  function Strip(s: string): string
  {
    TrimEnd(TrimStart(s))
  }

  /** Trimming the front empties a string exactly when it is blank, and otherwise stops at a non-space. */
  lemma {:induction false} TrimStartBlank(s: string)
    ensures TrimStart(s) == [] <==> Blank(s)
    ensures TrimStart(s) != [] ==> !IsSpace(TrimStart(s)[0])
  {
    if s != [] && IsSpace(s[0]) {
      var rest := s[1..];
      TrimStartBlank(rest);
      assert forall i :: 0 < i < |s| ==> s[i] == rest[i - 1];
    }
  }

  /** Trimming the back empties a string exactly when it is blank. */
  lemma {:induction false} TrimEndBlank(s: string)
    ensures TrimEnd(s) == [] <==> Blank(s)
  {
    if s != [] && IsSpace(s[|s| - 1]) {
      var front := s[..|s| - 1];
      TrimEndBlank(front);
      assert forall i :: 0 <= i < |front| ==> s[i] == front[i];
    }
  }

  /** Stripping leaves nothing exactly when the string is blank. */
  lemma StripBlank(s: string)
    ensures Strip(s) == [] <==> Blank(s)
  {
    TrimStartBlank(s);
    TrimEndBlank(TrimStart(s));
  }
}
