/**
 * What a pattern means to the SQL `LIKE` predicate the resolved schema and
 * object-name patterns are handed to: `%` matches any run of characters and
 * `_` any single character; every other character matches itself.
 */
module LikePattern {

  const AnyRun := '%'
  const AnyChar := '_'

  /** Whether `s` matches the `LIKE` pattern `p` (no escape character). */
  predicate Like(p: string, s: string)
    decreases |p| + |s|
  {
    if p == [] then s == []
    else if p[0] == AnyRun then Like(p[1..], s) || (s != [] && Like(p, s[1..]))
    else s != [] && (p[0] == AnyChar || p[0] == s[0]) && Like(p[1..], s[1..])
  }

  /** A string in which neither `%` nor `_` occurs stands only for itself. */
  predicate NoWildcards(n: string) {
    forall i :: 0 <= i < |n| ==> n[i] != AnyRun && n[i] != AnyChar
  }

  /** The bare wildcard matches every string. */
  lemma {:induction false} AnyRunMatchesAll(s: string)
    ensures Like([AnyRun], s)
    decreases |s|
  {
    if s != [] {
      AnyRunMatchesAll(s[1..]);
    }
  }

  /** A pattern `n%` matches every string that starts with `n`. */
  lemma {:induction false} PrefixPatternMatches(n: string, s: string)
    requires n <= s
    ensures Like(n + [AnyRun], s)
    decreases |n|
  {
    var p := n + [AnyRun];
    if n == [] {
      assert p == [AnyRun];
      AnyRunMatchesAll(s);
    } else {
      assert p[1..] == n[1..] + [AnyRun];
      PrefixPatternMatches(n[1..], s[1..]);
      if p[0] == AnyRun {
        // '%' standing for just the first character of s
        assert Like(p[1..], s[1..]);
        assert Like(p, s[1..]);
      }
    }
  }

  /** Conversely, when `n` holds no wildcard, `n%` matches only strings that start with `n`. */
  lemma {:induction false} PrefixPatternMatchesOnly(n: string, s: string)
    requires NoWildcards(n)
    requires Like(n + [AnyRun], s)
    ensures n <= s
    decreases |n|
  {
    if n != [] {
      var p := n + [AnyRun];
      assert p[0] == n[0] && n[0] != AnyRun && n[0] != AnyChar;
      assert p[1..] == n[1..] + [AnyRun];
      assert NoWildcards(n[1..]) by {
        forall i | 0 <= i < |n[1..]| ensures n[1..][i] != AnyRun && n[1..][i] != AnyChar {
          assert n[1..][i] == n[i + 1];
        }
      }
      PrefixPatternMatchesOnly(n[1..], s[1..]);
    }
  }
}
