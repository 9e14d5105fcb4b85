/**
 * The few pieces of Python's `str` that the core relies on: `strip`,
 * `upper`, `lower`, the `in` test, `replace`, `str()` of an integer and
 * `int()` of a string.
 */
module Text {
  import opened Common

  // ---------------------------------------------------------------------
  // Whitespace and str.strip()

  /** The characters Python's `str.isspace()` accepts, restricted to Latin-1. */
  predicate IsSpace(c: char) {
    c == ' ' || c == '\t' || c == '\n' || c == '\r' || c == '\U{000B}' || c == '\U{000C}'
    || ('\U{001C}' <= c <= '\U{001F}') || c == '\U{0085}' || c == '\U{00A0}'
  }

  predicate AllSpace(s: string) {
    forall k :: 0 <= k < |s| ==> IsSpace(s[k])
  }

  /** `s.lstrip()`: drops the leading whitespace and nothing else. */
  function StripStart(s: string): (r: string)
    ensures |r| <= |s| && r == s[|s| - |r|..]
    ensures r == [] || !IsSpace(r[0])
    ensures AllSpace(s[..|s| - |r|])
  {
    if s != [] && IsSpace(s[0]) then StripStart(s[1..]) else s
  }

  /** `s.rstrip()`: drops the trailing whitespace and nothing else. */
  function StripEnd(s: string): (r: string)
    ensures |r| <= |s| && r == s[..|r|]
    ensures r == [] || !IsSpace(r[|r| - 1])
    ensures AllSpace(s[|r|..])
  {
    if s != [] && IsSpace(s[|s| - 1]) then StripEnd(s[..|s| - 1]) else s
  }

  /** `s.strip()`: the longest slice of `s` that has no whitespace at either end. */
  function Strip(s: string): (r: string)
    ensures |r| <= |s|
    ensures r == [] <==> AllSpace(s)
    ensures r == [] || (!IsSpace(r[0]) && !IsSpace(r[|r| - 1]))
    ensures (s == [] || (!IsSpace(s[0]) && !IsSpace(s[|s| - 1]))) ==> r == s
  {
    var t := StripStart(s);
    var r := StripEnd(t);
    assert r == [] ==> AllSpace(s) by {
      if r == [] {
        assert s == s[..|s| - |t|] + t;
        assert AllSpace(t[|r|..]) && t[|r|..] == t;
      }
    }
    r
  }

  /** Cutting a whitespace prefix and then a whitespace suffix leaves a slice between two runs of whitespace. */
  lemma TrimSlice(s: string, t: string, r: string)
    requires |t| <= |s| && t == s[|s| - |t|..] && AllSpace(s[..|s| - |t|])
    requires |r| <= |t| && r == t[..|r|] && AllSpace(t[|r|..])
    ensures r == s[|s| - |t|..|s| - |t| + |r|] && AllSpace(s[|s| - |t| + |r|..])
  {
    var i := |s| - |t|;
    assert s[i..][..|r|] == s[i..i + |r|];
    assert s[i..][|r|..] == s[i + |r|..];
  }

  /** `s.strip()` is `s` with a run of whitespace cut from each end, starting at index `i`. */
  lemma StripSlice(s: string) returns (i: nat)
    ensures i + |Strip(s)| <= |s| && Strip(s) == s[i..i + |Strip(s)|]
    ensures AllSpace(s[..i]) && AllSpace(s[i + |Strip(s)|..])
  {
    var t := StripStart(s);
    var r := StripEnd(t);
    i := |s| - |t|;
    assert Strip(s) == r;
    assert AllSpace(s[..i]);
    assert r == s[i..i + |r|] && AllSpace(s[i + |r|..]) by { TrimSlice(s, t, r); }
  }

  /** Whitespace appended to an already stripped text is stripped again. */
  lemma {:induction false} StripPadded(s: string, pad: string)
    requires s != [] && !IsSpace(s[0]) && !IsSpace(s[|s| - 1]) && AllSpace(pad)
    ensures Strip(s + pad) == s
  {
    assert StripStart(s + pad) == s + pad;
    StripEndPadded(s, pad);
  }

  lemma {:induction false} StripEndPadded(s: string, pad: string)
    requires s != [] && !IsSpace(s[|s| - 1]) && AllSpace(pad)
    ensures StripEnd(s + pad) == s
    decreases |pad|
  {
    if pad == [] {
      assert s + pad == s;
    } else {
      var p := pad[..|pad| - 1];
      assert (s + pad)[..|s + pad| - 1] == s + p;
      StripEndPadded(s, p);
    }
  }

  // ---------------------------------------------------------------------
  // Case mapping (ASCII letters only)

  function UpperChar(c: char): char {
    if 'a' <= c <= 'z' then (c as int - 32) as char else c
  }

  function LowerChar(c: char): char {
    if 'A' <= c <= 'Z' then (c as int + 32) as char else c
  }

  /** `s.upper()`, character by character. */
  function Upper(s: string): (r: string)
    ensures |r| == |s| && forall k :: 0 <= k < |s| ==> r[k] == UpperChar(s[k])
  {
    if s == [] then [] else [UpperChar(s[0])] + Upper(s[1..])
  }

  /** Text without lower-case letters is its own upper case. */
  lemma UpperOfUpperCase(s: string)
    requires forall k :: 0 <= k < |s| ==> !('a' <= s[k] <= 'z')
    ensures Upper(s) == s
  {
    assert forall k :: 0 <= k < |s| ==> Upper(s)[k] == s[k];
  }

  /** `s.lower()`, character by character. */
  function Lower(s: string): (r: string)
    ensures |r| == |s| && forall k :: 0 <= k < |s| ==> r[k] == LowerChar(s[k])
  {
    if s == [] then [] else [LowerChar(s[0])] + Lower(s[1..])
  }

  // ---------------------------------------------------------------------
  // Substrings: the `in` test and str.replace()

  /** `pat` occurs in `s` starting at index `i`. */
  predicate MatchAt(s: string, pat: string, i: int) {
    0 <= i && i + |pat| <= |s| && s[i..i + |pat|] == pat
  }

  /** Python's `pat in s`. */
  predicate Contains(s: string, pat: string) {
    exists i :: 0 <= i <= |s| && MatchAt(s, pat, i)
  }

  /**
   * `s.replace(pat, rep)`: scans left to right and replaces every
   * occurrence that does not overlap an earlier replaced one. An empty
   * `pat` inserts `rep` before every character and at the end, as Python does.
   */
  function ReplaceAll(s: string, pat: string, rep: string): (r: string)
    ensures |pat| > 0 && |rep| == |pat| ==> |r| == |s|
    decreases |s|
  {
    if pat == [] then
      if s == [] then rep else rep + [s[0]] + ReplaceAll(s[1..], pat, rep)
    else if MatchAt(s, pat, 0) then rep + ReplaceAll(s[|pat|..], pat, rep)
    else if s == [] then []
    else [s[0]] + ReplaceAll(s[1..], pat, rep)
  }

  lemma MatchShift(s: string, pat: string, i: int)
    requires |s| > 0 && 0 <= i
    ensures MatchAt(s[1..], pat, i) <==> MatchAt(s, pat, i + 1)
  {
    if 0 <= i && i + |pat| <= |s| - 1 {
      assert s[1..][i..i + |pat|] == s[i + 1..i + 1 + |pat|];
    }
  }

  lemma MatchExtend(a: string, b: string, pat: string, i: int)
    ensures MatchAt(a, pat, i) ==> MatchAt(a + b, pat, i)
  {
    if MatchAt(a, pat, i) {
      assert (a + b)[i..i + |pat|] == a[i..i + |pat|];
    }
  }

  lemma MatchChar(s: string, pat: string, i: int, j: int)
    requires MatchAt(s, pat, i) && 0 <= j < |pat|
    ensures s[i + j] == pat[j]
  {
    assert s[i..i + |pat|][j] == s[i + j];
  }

  lemma ConcatAssoc<T>(a: seq<T>, b: seq<T>, c: seq<T>)
    ensures (a + b) + c == a + (b + c)
  {
  }

  /** An occurrence in a suffix is an occurrence in the whole text. */
  lemma MatchInSuffix(s: string, pat: string, n: nat, j: nat)
    requires n <= |s|
    ensures MatchAt(s[n..], pat, j) ==> MatchAt(s, pat, n + j)
  {
    if j + |pat| <= |s| - n {
      assert s[n..][j..j + |pat|] == s[n + j..n + j + |pat|];
    }
  }

  /** A non-empty pattern that occurs only at `k` is replaced there, and the rest is kept. */
  lemma ReplaceOnlyAt(s: string, pat: string, rep: string, k: nat)
    requires |pat| > 0 && MatchAt(s, pat, k)
    requires forall i :: 0 <= i <= |s| && i != k ==> !MatchAt(s, pat, i)
    ensures ReplaceAll(s, pat, rep) == s[..k] + rep + s[k + |pat|..]
  {
    ReplaceLeftmost(s, pat, rep, k);
    var t := s[k + |pat|..];
    forall j | 0 <= j <= |t| ensures !MatchAt(t, pat, j) {
      MatchInSuffix(s, pat, k + |pat|, j);
    }
    ReplaceWithoutMatch(t, pat, rep);
  }

  /** With no occurrence of a non-empty pattern, replacing changes nothing. */
  lemma {:induction false} ReplaceWithoutMatch(s: string, pat: string, rep: string)
    requires |pat| > 0
    requires forall i :: 0 <= i <= |s| ==> !MatchAt(s, pat, i)
    ensures ReplaceAll(s, pat, rep) == s
  {
    if s != [] {
      assert !MatchAt(s, pat, 0);
      forall i | 0 <= i <= |s[1..]| ensures !MatchAt(s[1..], pat, i) {
        MatchShift(s, pat, i);
      }
      ReplaceWithoutMatch(s[1..], pat, rep);
    }
  }

  /** Before the first occurrence, replacing keeps the text as it is. */
  lemma {:induction false} ReplaceKeepsPrefix(s: string, pat: string, rep: string, k: nat)
    requires |pat| > 0 && k <= |s|
    requires forall i :: 0 <= i < k ==> !MatchAt(s, pat, i)
    ensures ReplaceAll(s, pat, rep) == s[..k] + ReplaceAll(s[k..], pat, rep)
  {
    if k > 0 {
      var t := s[1..];
      var rest := ReplaceAll(s[k..], pat, rep);
      assert ReplaceAll(s, pat, rep) == [s[0]] + ReplaceAll(t, pat, rep) by {
        assert !MatchAt(s, pat, 0);
        ReplaceSkip(s, pat, rep);
      }
      assert ReplaceAll(t, pat, rep) == t[..k - 1] + rest by {
        forall i | 0 <= i < k - 1 ensures !MatchAt(t, pat, i) {
          MatchShift(s, pat, i);
        }
        ReplaceKeepsPrefix(t, pat, rep, k - 1);
        assert t[k - 1..] == s[k..];
      }
      assert [s[0]] + t[..k - 1] == s[..k];
      ConcatAssoc([s[0]], t[..k - 1], rest);
    }
  }

  /**
   * The leftmost occurrence is the first one replaced: everything before
   * it is kept, it becomes `rep`, and the scan resumes after it.
   */
  lemma ReplaceLeftmost(s: string, pat: string, rep: string, k: nat)
    requires |pat| > 0 && MatchAt(s, pat, k)
    requires forall i :: 0 <= i < k ==> !MatchAt(s, pat, i)
    ensures ReplaceAll(s, pat, rep) == s[..k] + rep + ReplaceAll(s[k + |pat|..], pat, rep)
  {
    ReplaceKeepsPrefix(s, pat, rep, k);
    assert s[k..][..|pat|] == pat;
    ReplaceHit(s[k..], pat, rep);
    assert s[k..][|pat|..] == s[k + |pat|..];
    ConcatAssoc(s[..k], rep, ReplaceAll(s[k + |pat|..], pat, rep));
  }

  lemma ReplaceHit(s: string, pat: string, rep: string)
    requires |pat| > 0 && MatchAt(s, pat, 0)
    ensures ReplaceAll(s, pat, rep) == rep + ReplaceAll(s[|pat|..], pat, rep)
  {
  }

  lemma ReplaceSkip(s: string, pat: string, rep: string)
    requires |pat| > 0 && |s| > 0 && !MatchAt(s, pat, 0)
    ensures ReplaceAll(s, pat, rep) == [s[0]] + ReplaceAll(s[1..], pat, rep)
  {
  }

  /**
   * Replacing in `a + b` is replacing in each part, provided no occurrence
   * starts in `a` and runs into `b`.
   */
  lemma {:induction false} ReplaceConcat(a: string, b: string, pat: string, rep: string)
    requires |pat| > 0
    requires forall i :: 0 <= i < |a| && MatchAt(a + b, pat, i) ==> i + |pat| <= |a|
    ensures ReplaceAll(a + b, pat, rep) == ReplaceAll(a, pat, rep) + ReplaceAll(b, pat, rep)
    decreases |a|
  {
    if a == [] {
      assert a + b == b;
    } else if MatchAt(a + b, pat, 0) {
      ConcatAfterHit(a, b, pat, rep);
    } else {
      ConcatAfterSkip(a, b, pat, rep);
    }
  }

  lemma {:induction false} ConcatAfterHit(a: string, b: string, pat: string, rep: string)
    requires |pat| > 0 && |a| > 0 && MatchAt(a + b, pat, 0)
    requires forall i :: 0 <= i < |a| && MatchAt(a + b, pat, i) ==> i + |pat| <= |a|
    ensures ReplaceAll(a + b, pat, rep) == ReplaceAll(a, pat, rep) + ReplaceAll(b, pat, rep)
    decreases |a|, 0
  {
    assert (a + b)[..|pat|] == a[..|pat|];
    assert MatchAt(a, pat, 0);
    var a' := a[|pat|..];
    assert (a + b)[|pat|..] == a' + b;
    forall i | 0 <= i < |a'| && MatchAt(a' + b, pat, i) ensures i + |pat| <= |a'| {
      assert (a + b)[|pat| + i..|pat| + i + |pat|] == (a' + b)[i..i + |pat|];
      assert MatchAt(a + b, pat, |pat| + i);
    }
    ReplaceConcat(a', b, pat, rep);
    ReplaceHit(a, pat, rep);
    ReplaceHit(a + b, pat, rep);
    ConcatAssoc(rep, ReplaceAll(a', pat, rep), ReplaceAll(b, pat, rep));
  }

  lemma {:induction false} ConcatAfterSkip(a: string, b: string, pat: string, rep: string)
    requires |pat| > 0 && |a| > 0 && !MatchAt(a + b, pat, 0)
    requires forall i :: 0 <= i < |a| && MatchAt(a + b, pat, i) ==> i + |pat| <= |a|
    ensures ReplaceAll(a + b, pat, rep) == ReplaceAll(a, pat, rep) + ReplaceAll(b, pat, rep)
    decreases |a|, 0
  {
    MatchExtend(a, b, pat, 0);
    var a' := a[1..];
    assert (a + b)[1..] == a' + b;
    forall i | 0 <= i < |a'| && MatchAt(a' + b, pat, i) ensures i + |pat| <= |a'| {
      MatchShift(a + b, pat, i);
    }
    ReplaceConcat(a', b, pat, rep);
    ReplaceSkip(a, pat, rep);
    ReplaceSkip(a + b, pat, rep);
    assert (a + b)[0] == a[0];
    ConcatAssoc([a[0]], ReplaceAll(a', pat, rep), ReplaceAll(b, pat, rep));
  }

  // ---------------------------------------------------------------------
  // Pieces of str.split(c)

  /** `s.split(c)[0]`: the text before the first `c`, or all of `s`. */
  function Before(s: string, c: char): (r: string)
    ensures |r| <= |s| && r == s[..|r|] && c !in r
    ensures |r| < |s| ==> s[|r|] == c
  {
    if s == [] || s[0] == c then [] else [s[0]] + Before(s[1..], c)
  }

  /**
   * The text after the first `c`, or None when `s` has no `c`; so
   * `s.split(c)[1]` is `Before(After(s, c).value, c)` and raises
   * `IndexError` exactly when `After(s, c)` is None.
   */
  function After(s: string, c: char): (r: Option<string>)
    ensures r.None? <==> c !in s
    ensures r.Some? ==> s == Before(s, c) + [c] + r.value
  {
    var b := Before(s, c);
    if |b| == |s| then None else Some(s[|b| + 1..])
  }

  lemma {:induction false} BeforeConcat(a: string, b: string, c: char)
    requires c !in a
    ensures Before(a + b, c) == a + Before(b, c)
  {
    if a != [] {
      assert (a + b)[1..] == a[1..] + b;
      BeforeConcat(a[1..], b, c);
    } else {
      assert a + b == b;
    }
  }

  /** Text that does not contain `c` up to a `c` is split off exactly there. */
  lemma SplitAtFirst(a: string, b: string, c: char)
    requires c !in a
    ensures Before(a + [c] + b, c) == a
    ensures After(a + [c] + b, c) == Some(b)
  {
    BeforeConcat(a, [c] + b, c);
    assert a + [c] + b == a + ([c] + b);
    assert Before([c] + b, c) == [];
  }

  // ---------------------------------------------------------------------
  // str() of an integer and int() of a string

  predicate IsDigit(c: char) {
    '0' <= c <= '9'
  }

  predicate AllDigits(s: string) {
    forall k :: 0 <= k < |s| ==> IsDigit(s[k])
  }

  function DigitChar(d: nat): (c: char)
    requires d < 10
    ensures IsDigit(c)
  {
    ('0' as int + d) as char
  }

  function DigitValue(c: char): nat
    requires IsDigit(c)
  {
    c as int - '0' as int
  }

  /** Decimal digits of `n`, most significant first, without leading zeros. */
  function NatToString(n: nat): (r: string)
    ensures |r| > 0 && AllDigits(r)
  {
    if n < 10 then [DigitChar(n)] else NatToString(n / 10) + [DigitChar(n % 10)]
  }

  /** Python's `str(i)` for an `int`. */
  function IntToString(i: int): (r: string)
    ensures |r| > 0
    ensures forall k :: 0 <= k < |r| ==> IsDigit(r[k]) || (k == 0 && r[k] == '-')
  {
    if i < 0 then "-" + NatToString(-i) else NatToString(i)
  }

  /** The value of a non-empty run of decimal digits. */
  function DigitsValue(s: string): nat
    requires AllDigits(s)
  {
    if s == [] then 0 else DigitsValue(s[..|s| - 1]) * 10 + DigitValue(s[|s| - 1])
  }

  /** An optional sign followed by one or more decimal digits. */
  predicate IsIntLiteral(t: string) {
    || (|t| > 0 && AllDigits(t))
    || (|t| > 1 && (t[0] == '+' || t[0] == '-') && AllDigits(t[1..]))
  }

  /**
   * Python's `int(s)` on a `str`: surrounding whitespace, an optional sign,
   * then one or more decimal digits; anything else raises `ValueError`
   * (returned here as `None`).
   */
  function ParseInt(s: string): Option<int> {
    ParseLiteral(Strip(s))
  }

  /** `int()` once the surrounding whitespace is gone. */
  function ParseLiteral(t: string): Option<int> {
    if |t| > 0 && (t[0] == '+' || t[0] == '-') then
      if |t| > 1 && AllDigits(t[1..]) then
        var v: int := DigitsValue(t[1..]);
        Some(if t[0] == '-' then -v else v)
      else None
    else if |t| > 0 && AllDigits(t) then Some(DigitsValue(t))
    else None
  }

  /**
   * `int(s)` succeeds exactly on an optionally signed run of digits with
   * whitespace around it, and its value is negative only after a minus sign.
   */
  lemma ParseIntSpec(s: string)
    ensures ParseInt(s).Some? <==> IsIntLiteral(Strip(s))
    ensures ParseInt(s).Some? && ParseInt(s).value < 0 ==> Strip(s)[0] == '-'
    ensures ParseInt(s).Some? && Strip(s)[0] != '-' ==> ParseInt(s).value >= 0
  {
  }

  lemma {:induction false} DigitsRoundTrip(n: nat)
    ensures DigitsValue(NatToString(n)) == n
  {
    if n >= 10 {
      var p := NatToString(n / 10);
      var r := NatToString(n);
      assert r == p + [DigitChar(n % 10)];
      assert r[..|r| - 1] == p;
      DigitsRoundTrip(n / 10);
    }
  }

  /** `int(str(i)) == i`: rendering an integer and reading it back is the identity. */
  lemma IntRoundTrip(i: int)
    ensures ParseInt(IntToString(i)) == Some(i)
  {
    var r := IntToString(i);
    assert !IsSpace(r[0]) && !IsSpace(r[|r| - 1]);
    assert Strip(r) == r;
    assert ParseInt(r) == ParseLiteral(r);
    if i < 0 {
      LiteralNegative(-i);
    } else {
      LiteralDigits(i);
    }
  }

  lemma LiteralDigits(n: nat)
    ensures ParseLiteral(NatToString(n)) == Some(n)
  {
    var r := NatToString(n);
    assert IsDigit(r[0]);
    DigitsRoundTrip(n);
  }

  lemma LiteralNegative(n: nat)
    ensures ParseLiteral("-" + NatToString(n)) == Some(-(n as int))
  {
    var digits := NatToString(n);
    var r := "-" + digits;
    assert r[0] == '-' && r[1..] == digits;
    DigitsRoundTrip(n);
  }

  /** Different integers render differently, so `str()` is injective on `int`. */
  lemma IntToStringInjective(i: int, j: int)
    requires IntToString(i) == IntToString(j)
    ensures i == j
  {
    IntRoundTrip(i);
    IntRoundTrip(j);
  }
}
