/** The Python string operations the source uses: `in`, `startswith`, slicing,
    `str.replace(old, new, 1)` and `str()` of a non-negative integer. */
module Strings {

  /** Python's `s.startswith(p)`. */
  predicate IsPrefix(p: string, s: string)
  {
    |p| <= |s| && s[..|p|] == p
  }

  /** Python's `sub in s` on strings. */
  predicate IsSubstring(sub: string, s: string)
    decreases |s|
  {
    IsPrefix(sub, s) || (|s| > 0 && IsSubstring(sub, s[1..]))
  }

  /** `sub` occurs in `s` starting at position `i`. */
  predicate OccursAt(sub: string, s: string, i: int)
  {
    0 <= i <= |s| - |sub| && s[i..i + |sub|] == sub
  }

  /** `sub in s` holds exactly when `sub` occurs at some position of `s`. */
  lemma {:induction false} SubstringAt(sub: string, s: string)
    ensures IsSubstring(sub, s) <==> exists i :: OccursAt(sub, s, i)
    decreases |s|
  {
    if IsPrefix(sub, s) {
      assert OccursAt(sub, s, 0);
    } else if |s| == 0 {
    } else {
      SubstringAt(sub, s[1..]);
      if exists i :: OccursAt(sub, s, i) {
        var i :| OccursAt(sub, s, i);
        assert i != 0;
        assert OccursAt(sub, s[1..], i - 1);
      }
      if exists i :: OccursAt(sub, s[1..], i) {
        var i :| OccursAt(sub, s[1..], i);
        assert s[i + 1..i + 1 + |sub|] == s[1..][i..i + |sub|];
        assert OccursAt(sub, s, i + 1);
      }
    }
  }

  /** A string is not a substring of one that lacks one of its characters; this is how
      the concrete scenarios show that a rule's pattern is absent. */
  lemma {:induction false} MissingCharNotSubstring(sub: string, s: string, c: char)
    requires c in sub && c !in s
    ensures !IsSubstring(sub, s)
    decreases |s|
  {
    if !IsPrefix(sub, s) && |s| > 0 {
      MissingCharNotSubstring(sub, s[1..], c);
    }
  }

  /** Being a substring is preserved by extending the string on the right. */
  lemma {:induction false} SubstringOfLonger(sub: string, s: string, t: string)
    requires IsSubstring(sub, s)
    ensures IsSubstring(sub, s + t)
    decreases |s|
  {
    if IsPrefix(sub, s) {
      assert (s + t)[..|sub|] == s[..|sub|];
    } else {
      assert (s + t)[1..] == s[1..] + t;
      SubstringOfLonger(sub, s[1..], t);
    }
  }

  /** Python's slice `s[i:j]` for non-negative bounds: the bounds are clamped to the length. */
  function Slice(s: string, i: nat, j: nat): (r: string)
    ensures |r| <= |s| && |r| <= if j >= i then j - i else 0
  {
    var hi := if j <= |s| then j else |s|;
    if i >= hi then "" else s[i..hi]
  }

  /** Python's `s.replace(old, new, 1)`: the leftmost occurrence of `pattern` is replaced. */
  function ReplaceFirst(s: string, pattern: string, replacement: string): (r: string)
    decreases |s|
  {
    if IsPrefix(pattern, s) then replacement + s[|pattern|..]
    else if |s| == 0 then s
    else [s[0]] + ReplaceFirst(s[1..], pattern, replacement)
  }

  /** Replacing a pattern that does not occur leaves the string unchanged; replacing
      one that occurs changes the length by exactly the difference of the two. */
  lemma {:induction false} ReplaceFirstLength(s: string, pattern: string, replacement: string)
    ensures !IsSubstring(pattern, s) ==> ReplaceFirst(s, pattern, replacement) == s
    ensures IsSubstring(pattern, s) ==> |ReplaceFirst(s, pattern, replacement)| == |s| - |pattern| + |replacement|
    decreases |s|
  {
    if IsPrefix(pattern, s) {
    } else if |s| == 0 {
    } else {
      ReplaceFirstLength(s[1..], pattern, replacement);
    }
  }

  /** A decimal digit. */
  predicate IsDigit(c: char)
  {
    '0' <= c <= '9'
  }

  /** Python's `str(n)` for a non-negative integer: decimal, no leading zeros. */
  function NatToString(n: nat): (r: string)
    ensures |r| > 0 && forall k :: 0 <= k < |r| ==> IsDigit(r[k])
    decreases n
  {
    if n < 10 then [DigitChar(n)] else NatToString(n / 10) + [DigitChar(n % 10)]
  }

  function DigitChar(d: nat): (c: char)
    requires d < 10
    ensures IsDigit(c)
  {
    "0123456789"[d]
  }

  function DigitValue(c: char): (d: nat)
    requires IsDigit(c)
    ensures d < 10
  {
    (c as int - '0' as int) as nat
  }

  /** Python's `int(s)` on a non-empty string of decimal digits. */
  function ParseNat(s: string): nat
    requires forall k :: 0 <= k < |s| ==> IsDigit(s[k])
    decreases |s|
  {
    if |s| == 0 then 0 else 10 * ParseNat(s[..|s| - 1]) + DigitValue(s[|s| - 1])
  }

  /** `int(str(n)) == n`: the rendering of a head index can be read back. */
  lemma {:induction false} ParseNatToString(n: nat)
    ensures ParseNat(NatToString(n)) == n
    decreases n
  {
    var r := NatToString(n);
    if n < 10 {
      assert r[..|r| - 1] == [];
    } else {
      ParseNatToString(n / 10);
      assert r[..|r| - 1] == NatToString(n / 10);
    }
  }

  /** Distinct numbers render as distinct strings. */
  lemma NatToStringInjective(m: nat, n: nat)
    requires NatToString(m) == NatToString(n)
    ensures m == n
  {
    ParseNatToString(m);
    ParseNatToString(n);
  }
}
