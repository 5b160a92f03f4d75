/** The option type and the integer helpers shared by the modules below. */
module Wrappers {
  datatype Option<+T> = None | Some(value: T)

  /** Python's max and min on two ints. */
  function Max(a: int, b: int): int { if a >= b then a else b }
  function Min(a: int, b: int): int { if a <= b then a else b }
}

/**
 * String helpers with the meaning Python's str methods have on the inputs
 * used here: lower-casing (ASCII letters only), suffix and substring tests,
 * left-to-right non-overlapping replacement, and decimal rendering of ints.
 */
module Text {

  /** Python's str.lower restricted to ASCII: 'A'..'Z' become 'a'..'z'. */
  function LowerChar(c: char): char
  {
    if 'A' <= c <= 'Z' then (c as int + 32) as char else c
  }

  function Lower(s: string): (r: string)
    ensures |r| == |s|
    ensures forall i :: 0 <= i < |s| ==> r[i] == LowerChar(s[i])
  {
    seq(|s|, i requires 0 <= i < |s| => LowerChar(s[i]))
  }

  /** Lower-casing works character by character, so it distributes over concatenation. */
  lemma LowerConcat(a: string, b: string)
    ensures Lower(a + b) == Lower(a) + Lower(b)
  {
  }

  /** str.endswith */
  predicate EndsWith(s: string, suffix: string)
  {
    |suffix| <= |s| && s[|s| - |suffix|..] == suffix
  }

  /** Python's `t in s` for strings. */
  predicate Contains(s: string, t: string)
  {
    exists i | 0 <= i <= |s| - |t| :: OccursAt(s, t, i)
  }

  predicate OccursAt(s: string, t: string, i: int)
  {
    0 <= i && i + |t| <= |s| && s[i..i + |t|] == t
  }

  /**
   * str.replace(pat, rep): scan from the left, replace every occurrence
   * of pat, and resume scanning after the replaced occurrence.
   */
  function ReplaceAll(s: string, pat: string, rep: string): string
    requires |pat| > 0
    decreases |s|
  {
    if |s| < |pat| then s
    else if s[..|pat|] == pat then rep + ReplaceAll(s[|pat|..], pat, rep)
    else [s[0]] + ReplaceAll(s[1..], pat, rep)
  }

  /** When pat does not occur in s, replacing it changes nothing. */
  lemma {:induction false} ReplaceAllAbsent(s: string, pat: string, rep: string)
    requires |pat| > 0
    requires !Contains(s, pat)
    ensures ReplaceAll(s, pat, rep) == s
    decreases |s|
  {
    if |s| >= |pat| {
      assert !OccursAt(s, pat, 0);
      assert !Contains(s[1..], pat) by {
        forall i | 0 <= i <= |s[1..]| - |pat|
          ensures !OccursAt(s[1..], pat, i)
        {
          assert !OccursAt(s, pat, i + 1);
          assert s[1..][i..i + |pat|] == s[i + 1..i + 1 + |pat|];
        }
      }
      ReplaceAllAbsent(s[1..], pat, rep);
    }
  }

  /**
   * If the first character of pat occurs nowhere else in pat, an occurrence
   * of pat at the very end of a string is always replaced: the result ends
   * with rep, and every character of t was either kept or replaced by a
   * no longer rep.
   */
  lemma {:induction false} ReplaceAllTrailing(t: string, pat: string, rep: string)
    requires 0 < |pat| && |rep| <= |pat|
    requires forall j :: 0 < j < |pat| ==> pat[j] != pat[0]
    ensures EndsWith(ReplaceAll(t + pat, pat, rep), rep)
    ensures |ReplaceAll(t + pat, pat, rep)| <= |t| + |rep|
    decreases |t|, 1
  {
    var s := t + pat;
    if |t| == 0 {
      assert s == pat;
      assert s[|pat|..] == [];
      assert ReplaceAll(s, pat, rep) == rep + ReplaceAll([], pat, rep);
    } else {
      if |t| < |pat| {
        // pat's first character would have to recur at position |t|
        assert s[..|pat|][|t|] == pat[0] != pat[|t|];
      }
      ReplaceAllTrailingStep(t, pat, rep);
    }
  }

  /** One step of ReplaceAllTrailing on a non-empty t. */
  lemma {:induction false} ReplaceAllTrailingStep(t: string, pat: string, rep: string)
    requires 0 < |pat| && |rep| <= |pat| && 0 < |t|
    requires forall j :: 0 < j < |pat| ==> pat[j] != pat[0]
    requires (t + pat)[..|pat|] == pat ==> |pat| <= |t|
    ensures EndsWith(ReplaceAll(t + pat, pat, rep), rep)
    ensures |ReplaceAll(t + pat, pat, rep)| <= |t| + |rep|
    decreases |t|, 0
  {
    var s := t + pat;
    if s[..|pat|] == pat {
      var rest := t[|pat|..];
      assert s[|pat|..] == rest + pat;
      ReplaceAllTrailing(rest, pat, rep);
      var r := ReplaceAll(rest + pat, pat, rep);
      assert ReplaceAll(s, pat, rep) == rep + r;
      EndsWithPrepend(rep, r, rep);
    } else {
      var rest := t[1..];
      assert s[1..] == rest + pat;
      ReplaceAllTrailing(rest, pat, rep);
      var r := ReplaceAll(rest + pat, pat, rep);
      assert ReplaceAll(s, pat, rep) == [s[0]] + r;
      EndsWithPrepend([s[0]], r, rep);
    }
  }

  /** A suffix of r is a suffix of x + r. */
  lemma EndsWithPrepend(x: string, r: string, suffix: string)
    requires EndsWith(r, suffix)
    ensures EndsWith(x + r, suffix)
  {
    assert (x + r)[|x + r| - |suffix|..] == r[|r| - |suffix|..];
  }

  /** A string in which some character of pat never appears does not contain pat. */
  lemma MissingCharNotContained(s: string, pat: string, k: nat)
    requires k < |pat|
    requires forall i :: 0 <= i < |s| ==> s[i] != pat[k]
    ensures !Contains(s, pat)
  {
    forall i | 0 <= i <= |s| - |pat| ensures !OccursAt(s, pat, i) {
      assert s[i..i + |pat|][k] == s[i + k];
    }
  }

  /** Each replacement of a longer pat by a shorter rep shrinks the string. */
  lemma {:induction false} ReplaceAllNotLonger(s: string, pat: string, rep: string)
    requires |rep| < |pat|
    ensures |ReplaceAll(s, pat, rep)| <= |s|
    ensures |ReplaceAll(s, pat, rep)| == |s| ==> ReplaceAll(s, pat, rep) == s
    decreases |s|
  {
    if |s| < |pat| {
    } else if s[..|pat|] == pat {
      ReplaceAllNotLonger(s[|pat|..], pat, rep);
    } else {
      ReplaceAllNotLonger(s[1..], pat, rep);
      assert s == [s[0]] + s[1..];
    }
  }

  function DigitChar(d: nat): char
    requires d < 10
  {
    "0123456789"[d]
  }

  /** Python's str() on a non-negative int: its decimal digits. */
  function NatToString(n: nat): (r: string)
    ensures |r| > 0
    ensures forall i :: 0 <= i < |r| ==> '0' <= r[i] <= '9'
    decreases n
  {
    if n < 10 then [DigitChar(n)] else NatToString(n / 10) + [DigitChar(n % 10)]
  }

  /** Python's str() on an int. */
  function IntToString(n: int): string
  {
    if n < 0 then "-" + NatToString(-n) else NatToString(n)
  }

  /** Value of a string of decimal digits (the inverse of NatToString). */
  function ParseDigits(s: string): int
    decreases |s|
  {
    if |s| == 0 then 0 else 10 * ParseDigits(s[..|s| - 1]) + (s[|s| - 1] as int - '0' as int)
  }

  lemma {:induction false} ParseNatToString(n: nat)
    ensures ParseDigits(NatToString(n)) == n
    decreases n
  {
    if n >= 10 {
      var p := NatToString(n / 10);
      var s := p + [DigitChar(n % 10)];
      assert s[..|s| - 1] == p;
      ParseNatToString(n / 10);
    }
  }
}
