/**
  Order-preserving selection from a sequence: the model of a boolean-mask
  row filter (`df[mask]`) and of "append when a flag is set".
 */
module Seqs {

  /** `a` is what is left of `b` after deleting some of its elements. */
  predicate IsSubsequence<T(==)>(a: seq<T>, b: seq<T>)
    decreases |b|
  {
    || |a| == 0
    || (&& |b| > 0
        && ((a[0] == b[0] && IsSubsequence(a[1..], b[1..])) || IsSubsequence(a, b[1..])))
  }

  /** The elements of `s` that satisfy `p`, in their original order. */
  function Keep<T(==,!new)>(s: seq<T>, p: T -> bool): (r: seq<T>)
    ensures |r| <= |s|
    ensures forall x :: x in r <==> x in s && p(x)
    ensures forall x :: multiset(r)[x] == if p(x) then multiset(s)[x] else 0
    ensures IsSubsequence(r, s)
  {
    if |s| == 0 then []
    else
      assert s == [s[0]] + s[1..];
      if p(s[0]) then [s[0]] + Keep(s[1..], p) else Keep(s[1..], p)
  }

  /** A subsequence never holds an element more often than the sequence. */
  lemma {:induction false} SubsequenceMultiset<T>(a: seq<T>, b: seq<T>)
    requires IsSubsequence(a, b)
    ensures multiset(a) <= multiset(b)
    decreases |b|
  {
    if |a| == 0 {
    } else if a[0] == b[0] && IsSubsequence(a[1..], b[1..]) {
      SubsequenceMultiset(a[1..], b[1..]);
      assert a == [a[0]] + a[1..];
      assert b == [b[0]] + b[1..];
    } else {
      SubsequenceMultiset(a, b[1..]);
      assert b == [b[0]] + b[1..];
    }
  }

  /**
    Keep is the only order-preserving selection that keeps every copy of
    the wanted elements and none of the others.
   */
  lemma {:induction false} KeepIsTheOnlyFilter<T(!new)>(s: seq<T>, p: T -> bool, r: seq<T>)
    requires IsSubsequence(r, s)
    requires forall x :: multiset(r)[x] == if p(x) then multiset(s)[x] else 0
    ensures r == Keep(s, p)
    decreases |s|
  {
    if |s| > 0 {
      var rest := s[1..];
      assert s == [s[0]] + rest;
      if p(s[0]) {
        assert multiset(r)[s[0]] == multiset(s)[s[0]] == multiset(rest)[s[0]] + 1;
        if |r| > 0 && r[0] == s[0] && IsSubsequence(r[1..], rest) {
          assert r == [r[0]] + r[1..];
          forall x
            ensures multiset(r[1..])[x] == if p(x) then multiset(rest)[x] else 0
          {
            assert multiset(r)[x] == multiset(r[1..])[x] + (if x == s[0] then 1 else 0);
          }
          KeepIsTheOnlyFilter(rest, p, r[1..]);
        } else {
          SubsequenceMultiset(r, rest);
          assert false;
        }
      } else {
        if |r| > 0 && r[0] == s[0] {
          assert false;
        }
        forall x
          ensures multiset(r)[x] == if p(x) then multiset(rest)[x] else 0
        {
          if p(x) {
            assert x != s[0];
          }
        }
        KeepIsTheOnlyFilter(rest, p, r);
      }
    }
  }

  /** Two filters that agree on every element select the same elements. */
  lemma {:induction false} KeepCongruent<T(!new)>(s: seq<T>, p: T -> bool, q: T -> bool)
    requires forall x :: x in s ==> p(x) == q(x)
    ensures Keep(s, p) == Keep(s, q)
    decreases |s|
  {
    if |s| > 0 {
      assert forall x :: x in s[1..] ==> x in s;
      KeepCongruent(s[1..], p, q);
    }
  }

  /** Filtering twice with the same test changes nothing. */
  lemma {:induction false} KeepIdempotent<T(!new)>(s: seq<T>, p: T -> bool)
    ensures Keep(Keep(s, p), p) == Keep(s, p)
    decreases |s|
  {
    if |s| > 0 {
      KeepIdempotent(s[1..], p);
    }
  }

  /** Putting the same prefix in front of both sides keeps a subsequence a subsequence. */
  lemma {:induction false} SubsequenceUnderPrefix<T>(prefix: seq<T>, a: seq<T>, b: seq<T>)
    requires IsSubsequence(a, b)
    ensures IsSubsequence(prefix + a, prefix + b)
    decreases |prefix|
  {
    if |prefix| == 0 {
      assert prefix + a == a && prefix + b == b;
    } else {
      SubsequenceUnderPrefix(prefix[1..], a, b);
      assert (prefix + a)[0] == (prefix + b)[0];
      assert (prefix + a)[1..] == prefix[1..] + a;
      assert (prefix + b)[1..] == prefix[1..] + b;
    }
  }

  /** An element of `b` may be kept or dropped in front of a subsequence of the rest. */
  lemma SubsequenceKeepOrDrop<T>(keep: bool, x: T, a: seq<T>, b: seq<T>)
    requires IsSubsequence(a, b)
    ensures IsSubsequence((if keep then [x] else []) + a, [x] + b)
  {
    var c := (if keep then [x] else []) + a;
    if keep {
      assert c[1..] == a;
    } else {
      assert c == a;
      if |a| > 0 {
        assert ([x] + b)[1..] == b;
      }
    }
  }

}
