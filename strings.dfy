/** The JavaScript string operations the pipeline relies on, on `seq<char>`. */
module Strings {

  /** `sub` occurs in `s` starting at index `i`. */
  predicate OccursAt(s: string, sub: string, i: int) {
    0 <= i <= |s| - |sub| && s[i..i + |sub|] == sub
  }

  /** `s.includes(sub)`. */
  predicate Contains(s: string, sub: string) {
    exists i | 0 <= i <= |s| - |sub| :: OccursAt(s, sub, i)
  }

  /** `s.endsWith(suffix)`. */
  predicate EndsWith(s: string, suffix: string) {
    |suffix| <= |s| && s[|s| - |suffix|..] == suffix
  }

  /** `path.basename(name, suffix)` for a bare file name that ends in
      `suffix`: the name without it. */
  function StripSuffix(s: string, suffix: string): (r: string)
    requires EndsWith(s, suffix)
    ensures r + suffix == s
  {
    assert s == s[..|s| - |suffix|] + s[|s| - |suffix|..];
    s[..|s| - |suffix|]
  }

  /** Stripping a suffix that was appended gives back the stem. */
  lemma StripAppended(stem: string, suffix: string)
    ensures EndsWith(stem + suffix, suffix)
    ensures StripSuffix(stem + suffix, suffix) == stem
  {
    assert (stem + suffix)[|stem|..] == suffix;
    assert (stem + suffix)[..|stem|] == stem;
  }

  /** `s.replace(new RegExp(escaped(p), 'g'), v)` for a literal, non-empty
      pattern `p`: every occurrence found scanning left to right, never
      overlapping and never inside text already inserted, becomes `v`. */
  function ReplaceAll(s: string, p: string, v: string): string
    requires p != []
    decreases |s|
  {
    if |s| < |p| then s
    else if s[..|p|] == p then v + ReplaceAll(s[|p|..], p, v)
    else [s[0]] + ReplaceAll(s[1..], p, v)
  }

  /** The number of occurrences `ReplaceAll` rewrites. */
  function Occurrences(s: string, p: string): nat
    requires p != []
    decreases |s|
  {
    if |s| < |p| then 0
    else if s[..|p|] == p then 1 + Occurrences(s[|p|..], p)
    else Occurrences(s[1..], p)
  }

  lemma ContainsTail(s: string, p: string)
    requires s != [] && Contains(s[1..], p)
    ensures Contains(s, p)
  {
    var i :| 0 <= i <= |s[1..]| - |p| && OccursAt(s[1..], p, i);
    assert s[i + 1..i + 1 + |p|] == p;
    assert OccursAt(s, p, i + 1);
  }

  lemma ContainsHead(s: string, p: string)
    requires |p| <= |s| && s[..|p|] == p
    ensures Contains(s, p)
  {
    assert s[0..0 + |p|] == p;
    assert OccursAt(s, p, 0);
  }

  lemma ContainsDrop(s: string, p: string, k: nat)
    requires k <= |s| && Contains(s[k..], p)
    ensures Contains(s, p)
  {
    var i :| 0 <= i <= |s[k..]| - |p| && OccursAt(s[k..], p, i);
    assert s[i + k..i + k + |p|] == p;
    assert OccursAt(s, p, i + k);
  }

  lemma ContainsMiddle(a: string, b: string, c: string)
    ensures Contains(a + b + c, b)
  {
    var s := a + b + c;
    assert s[|a|..|a| + |b|] == b;
    assert OccursAt(s, b, |a|);
  }

  /** A string that does not contain the pattern comes back unchanged. */
  lemma {:induction false} ReplaceAllAbsent(s: string, p: string, v: string)
    requires p != [] && !Contains(s, p)
    ensures ReplaceAll(s, p, v) == s
    decreases |s|
  {
    if |s| >= |p| {
      if s[..|p|] == p {
        ContainsHead(s, p);
      } else {
        if Contains(s[1..], p) {
          ContainsTail(s, p);
        }
        ReplaceAllAbsent(s[1..], p, v);
        assert s == [s[0]] + s[1..];
      }
    }
  }

  /** Replacing a pattern by itself is the identity. */
  lemma {:induction false} ReplaceAllSelf(s: string, p: string)
    requires p != []
    ensures ReplaceAll(s, p, p) == s
    decreases |s|
  {
    if |s| >= |p| {
      if s[..|p|] == p {
        ReplaceAllSelf(s[|p|..], p);
        assert s == s[..|p|] + s[|p|..];
      } else {
        ReplaceAllSelf(s[1..], p);
        assert s == [s[0]] + s[1..];
      }
    }
  }

  lemma MulStep(n: int, m: int, d: int)
    requires n == 1 + m
    ensures n * d == d + m * d
  {
  }

  /** Each rewritten occurrence trades `|p|` characters for `|v|`. */
  lemma {:induction false} ReplaceAllLength(s: string, p: string, v: string)
    requires p != []
    ensures |ReplaceAll(s, p, v)| == |s| + Occurrences(s, p) * (|v| - |p|)
    decreases |s|
  {
    if |s| >= |p| {
      var d := |v| - |p|;
      if s[..|p|] == p {
        var rest := s[|p|..];
        ReplaceAllLength(rest, p, v);
        MulStep(Occurrences(s, p), Occurrences(rest, p), d);
      } else {
        ReplaceAllLength(s[1..], p, v);
      }
    }
  }

  /** Occurrences are counted exactly when the pattern is there. */
  lemma {:induction false} OccurrencesPositive(s: string, p: string)
    requires p != []
    ensures Occurrences(s, p) > 0 <==> Contains(s, p)
    decreases |s|
  {
    if |s| < |p| {
    } else if s[..|p|] == p {
      ContainsHead(s, p);
    } else {
      OccurrencesPositive(s[1..], p);
      if Contains(s[1..], p) {
        ContainsTail(s, p);
      }
      if Contains(s, p) {
        var i :| 0 <= i <= |s| - |p| && OccursAt(s, p, i);
        assert i != 0;
        assert s[1..][i - 1..i - 1 + |p|] == p;
        assert OccursAt(s[1..], p, i - 1);
      }
    }
  }

  /** A string that is exactly the pattern becomes exactly the value. */
  lemma ReplaceAllWhole(p: string, v: string)
    requires p != []
    ensures ReplaceAll(p, p, v) == v
  {
    assert p[..|p|] == p;
    assert p[|p|..] == [];
  }
}
