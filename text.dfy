/**
 * Character and string helpers used by the keyword scan: an ASCII model of
 * Python's `str.lower` and the substring test behind `word in text`.
 */
module Text {

  /** An ASCII upper-case letter. */
  predicate IsUpper(c: char) {
    'A' <= c <= 'Z'
  }

  /** A string with no ASCII upper-case letter in it. */
  predicate IsLowerCase(s: string) {
    forall i :: 0 <= i < |s| ==> !IsUpper(s[i])
  }

  /** `str.lower` on one character, restricted to ASCII: A-Z become a-z, the rest is kept. */
  function Lower(c: char): (d: char)
    ensures !IsUpper(d)
    ensures !IsUpper(c) ==> d == c
  {
    if IsUpper(c) then (c as int - 'A' as int + 'a' as int) as char else c
  }

  /** `str.lower` on a string: lowers every character and keeps the length. */
  function LowerString(s: string): (t: string)
    ensures |t| == |s|
    ensures forall i :: 0 <= i < |s| ==> t[i] == Lower(s[i])
    ensures IsLowerCase(t)
  {
    seq(|s|, i requires 0 <= i < |s| => Lower(s[i]))
  }

  /** Lowering leaves an already lower-case string as it is. */
  lemma {:induction false} LowerStringKeepsLowerCase(s: string)
    requires IsLowerCase(s)
    ensures LowerString(s) == s
  {
    var t := LowerString(s);
    forall i | 0 <= i < |s|
      ensures t[i] == s[i]
    {
      assert !IsUpper(s[i]);
    }
  }

  /** Lowering twice is lowering once. */
  lemma {:induction false} LowerStringIdempotent(s: string)
    ensures LowerString(LowerString(s)) == LowerString(s)
  {
    LowerStringKeepsLowerCase(LowerString(s));
  }

  /** `p` occurs in `s` starting at index `k`. */
  predicate OccursAt(p: string, s: string, k: nat) {
    k + |p| <= |s| && s[k..k + |p|] == p
  }

  /**
   * Python's `p in s` for strings: `p` is a prefix of `s` or of one of its
   * suffixes. The empty string is a substring of every string.
   */
  predicate IsSubstring(p: string, s: string)
    ensures IsSubstring(p, s) ==> |p| <= |s|
    ensures p == [] ==> IsSubstring(p, s)
    decreases |s|
  {
    p <= s || (|s| > 0 && IsSubstring(p, s[1..]))
  }

  /** The recursive scan agrees with "there is an index where `p` occurs". */
  lemma {:induction false} IsSubstringIffOccurs(p: string, s: string)
    ensures IsSubstring(p, s) <==> exists k: nat :: OccursAt(p, s, k)
    decreases |s|
  {
    assert OccursAt(p, s, 0) <==> p <= s;
    if |s| > 0 {
      IsSubstringIffOccurs(p, s[1..]);
      forall k: nat | OccursAt(p, s[1..], k)
        ensures OccursAt(p, s, k + 1)
      {
        assert s[1..][k..k + |p|] == s[k + 1..k + 1 + |p|];
      }
      forall k: nat | 0 < k && OccursAt(p, s, k)
        ensures OccursAt(p, s[1..], k - 1)
      {
        assert s[1..][k - 1..k - 1 + |p|] == s[k..k + |p|];
      }
    }
  }

  /** `p` occurs in `a + p + b` right after `a`. */
  lemma {:induction false} OccursAfterPrefix(a: string, p: string, b: string)
    ensures OccursAt(p, a + p + b, |a|) && IsSubstring(p, a + p + b)
  {
    assert (a + p + b)[|a|..|a| + |p|] == p;
    assert OccursAt(p, a + p + b, |a|);
    IsSubstringIffOccurs(p, a + p + b);
  }

  /** A string with a character that `s` lacks is not a substring of `s`. */
  lemma {:induction false} MissingCharNotSubstring(p: string, s: string, c: char)
    requires c in p && c !in s
    ensures !IsSubstring(p, s)
    decreases |s|
  {
    var i :| 0 <= i < |p| && p[i] == c;
    assert i < |s| ==> s[i] != c;
    if |s| > 0 {
      MissingCharNotSubstring(p, s[1..], c);
    }
  }
}
