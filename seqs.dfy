/** Sequence and string helpers shared by the service and the route: list comprehensions with a
    condition, subsequences, Python's substring test `sub in s`, and `sep.join(xs)`. */
module Seqs {

  /** The elements of `s` that satisfy `p`, in their order in `s`: `[x for x in s if p(x)]`. */
  function Filter<T>(s: seq<T>, p: T -> bool): (r: seq<T>)
    ensures |r| <= |s|
  {
    if s == [] then [] else (if p(s[0]) then [s[0]] else []) + Filter(s[1..], p)
  }

  /** The condition `x not in s` as a predicate on `x`. */
  function NotIn<T(==)>(s: seq<T>): T -> bool
  {
    x => x !in s
  }

  /** No element occurs twice. */
  predicate Distinct<T(==)>(s: seq<T>)
  {
    forall i, j | 0 <= i < j < |s| :: s[i] != s[j]
  }

  /** `a` is obtained from `b` by deleting some of its elements (the rest keep their order). */
  predicate IsSubsequence<T(==)>(a: seq<T>, b: seq<T>)
    decreases |b|
  {
    if b == [] then a == []
    else (a != [] && a[0] == b[0] && IsSubsequence(a[1..], b[1..])) || IsSubsequence(a, b[1..])
  }

  /** Python's `sub in s` on strings: `sub` occurs in `s` as a contiguous run (case-sensitive). */
  predicate Contains(s: string, sub: string)
    decreases |s|
  {
    if |s| < |sub| then false
    else if s[..|sub|] == sub then true
    else |s| > 0 && Contains(s[1..], sub)
  }

  /** `sub` occurs in `s` starting at index `i`. */
  ghost predicate OccursAt(s: string, sub: string, i: int)
  {
    0 <= i && i + |sub| <= |s| && s[i..i + |sub|] == sub
  }

  /** Python's `sep.join(xs)`. */
  function Join(xs: seq<string>, sep: string): string
  {
    if xs == [] then "" else if |xs| == 1 then xs[0] else xs[0] + sep + Join(xs[1..], sep)
  }

  lemma {:induction false} FilterMember<T>(s: seq<T>, p: T -> bool, x: T)
    ensures x in Filter(s, p) <==> x in s && p(x)
  {
    if s != [] {
      FilterMember(s[1..], p, x);
      assert s == [s[0]] + s[1..];
    }
  }

  lemma FilterSound<T>(s: seq<T>, p: T -> bool)
    ensures forall x :: x in Filter(s, p) ==> x in s && p(x)
  {
    forall x | x in Filter(s, p) ensures x in s && p(x) {
      FilterMember(s, p, x);
    }
  }

  lemma {:induction false} FilterAppend<T>(a: seq<T>, b: seq<T>, p: T -> bool)
    ensures Filter(a + b, p) == Filter(a, p) + Filter(b, p)
  {
    if a == [] {
      assert a + b == b;
    } else {
      var ab := a + b;
      assert ab[0] == a[0] && ab[1..] == a[1..] + b;
      FilterAppend(a[1..], b, p);
      assert Filter(ab, p) == (if p(a[0]) then [a[0]] else []) + Filter(a[1..] + b, p);
    }
  }

  /** Filtering keeps every occurrence of an element that satisfies `p` and none of the others. */
  lemma {:induction false} FilterCounts<T>(s: seq<T>, p: T -> bool, x: T)
    ensures multiset(Filter(s, p))[x] == if p(x) then multiset(s)[x] else 0
  {
    if s != [] {
      FilterCounts(s[1..], p, x);
      assert s == [s[0]] + s[1..];
      var head := if p(s[0]) then [s[0]] else [];
      assert multiset(s) == multiset([s[0]]) + multiset(s[1..]);
      assert multiset(Filter(s, p)) == multiset(head) + multiset(Filter(s[1..], p));
    }
  }

  lemma FilterOne<T>(s: seq<T>, p: T -> bool)
    requires |s| == 1
    ensures Filter(s, p) == if p(s[0]) then s else []
  {
    assert s[1..] == [];
  }

  lemma FilterPair<T>(s: seq<T>, p: T -> bool)
    requires |s| == 2
    ensures Filter(s, p) == (if p(s[0]) then [s[0]] else []) + (if p(s[1]) then [s[1]] else [])
  {
    FilterOne(s[1..], p);
  }

  lemma FilterTriple<T>(s: seq<T>, p: T -> bool)
    requires |s| == 3
    ensures Filter(s, p) == (if p(s[0]) then [s[0]] else []) + Filter(s[1..], p)
    ensures Filter(s[1..], p) == (if p(s[1]) then [s[1]] else []) + (if p(s[2]) then [s[2]] else [])
  {
    FilterPair(s[1..], p);
  }

  lemma {:induction false} FilterAll<T>(s: seq<T>, p: T -> bool)
    requires forall x :: x in s ==> p(x)
    ensures Filter(s, p) == s
  {
    if s != [] {
      assert s[0] in s;
      assert forall x :: x in s[1..] ==> x in s;
      FilterAll(s[1..], p);
    }
  }

  lemma {:induction false} FilterNone<T>(s: seq<T>, p: T -> bool)
    ensures Filter(s, p) == [] <==> forall x :: x in s ==> !p(x)
  {
    if Filter(s, p) != [] {
      FilterMember(s, p, Filter(s, p)[0]);
    }
    forall x | x in s && p(x) ensures Filter(s, p) != [] {
      FilterMember(s, p, x);
    }
  }

  lemma {:induction false} FilterAgree<T>(s: seq<T>, p: T -> bool, q: T -> bool)
    requires forall x :: x in s ==> p(x) == q(x)
    ensures Filter(s, p) == Filter(s, q)
  {
    if s != [] {
      assert s[0] in s;
      assert forall x :: x in s[1..] ==> x in s;
      FilterAgree(s[1..], p, q);
    }
  }

  /** Filtering by `p` and then by `q` is filtering by their conjunction. */
  lemma {:induction false} FilterFilter<T>(s: seq<T>, p: T -> bool, q: T -> bool, pq: T -> bool)
    requires forall x :: pq(x) == (p(x) && q(x))
    ensures Filter(Filter(s, p), q) == Filter(s, pq)
  {
    if s != [] {
      FilterFilter(s[1..], p, q, pq);
      var head := if p(s[0]) then [s[0]] else [];
      FilterAppend(head, Filter(s[1..], p), q);
      if p(s[0]) {
        assert Filter(head, q) == if q(s[0]) then [s[0]] else [] by {
          assert head[1..] == [];
        }
      }
    }
  }

  lemma {:induction false} FilterSubsequence<T>(s: seq<T>, p: T -> bool)
    ensures IsSubsequence(Filter(s, p), s)
  {
    if s != [] {
      FilterSubsequence(s[1..], p);
      if p(s[0]) {
        var r := Filter(s, p);
        assert r[0] == s[0] && r[1..] == Filter(s[1..], p);
      } else {
        assert Filter(s, p) == Filter(s[1..], p);
      }
    }
  }

  lemma {:induction false} FilterDistinct<T>(s: seq<T>, p: T -> bool)
    requires Distinct(s)
    ensures Distinct(Filter(s, p))
  {
    if s != [] {
      assert Distinct(s[1..]) by {
        forall i, j | 0 <= i < j < |s[1..]| ensures s[1..][i] != s[1..][j] {
          assert s[1..][i] == s[i + 1] && s[1..][j] == s[j + 1];
        }
      }
      FilterDistinct(s[1..], p);
      var rest := Filter(s[1..], p);
      if p(s[0]) {
        FilterMember(s[1..], p, s[0]);
        assert s[0] !in s[1..] by {
          forall k | 0 <= k < |s[1..]| ensures s[1..][k] != s[0] {
            assert s[1..][k] == s[k + 1];
          }
        }
        var r := [s[0]] + rest;
        forall i, j | 0 <= i < j < |r| ensures r[i] != r[j] {
          if i == 0 {
            assert r[j] == rest[j - 1] && rest[j - 1] in rest;
          } else {
            assert r[i] == rest[i - 1] && r[j] == rest[j - 1];
          }
        }
      }
    }
  }

  /** The recursive substring test agrees with the positional definition. */
  lemma {:induction false} ContainsIff(s: string, sub: string)
    ensures Contains(s, sub) <==> exists i :: OccursAt(s, sub, i)
    decreases |s|
  {
    assert |sub| == 0 ==> s[..|sub|] == sub;
    if |s| < |sub| {
      assert forall i :: !OccursAt(s, sub, i);
    } else if s[..|sub|] == sub {
      assert OccursAt(s, sub, 0);
    } else {
      ContainsIff(s[1..], sub);
      if Contains(s[1..], sub) {
        var i :| OccursAt(s[1..], sub, i);
        assert s[1..][i..i + |sub|] == s[i + 1..i + 1 + |sub|];
        assert OccursAt(s, sub, i + 1);
      }
      if i :| OccursAt(s, sub, i) {
        assert i != 0 by {
          assert s[0..|sub|] == s[..|sub|];
        }
        assert s[1..][i - 1..i - 1 + |sub|] == s[i..i + |sub|];
        assert OccursAt(s[1..], sub, i - 1);
      }
    }
  }

  lemma ContainsEmpty(s: string)
    ensures Contains(s, "")
  {
    assert s[..0] == "";
  }

  /** Whenever `p` holds at two positions of `s`, it holds at every position between them. */
  ghost predicate Convex<T>(s: seq<T>, p: T -> bool)
  {
    forall i, j, k | 0 <= i < j < k < |s| && p(s[i]) && p(s[k]) :: p(s[j])
  }

  /** `p` holds exactly at the positions `lo` up to `hi` of `s`, which are what filtering keeps. */
  ghost predicate KeepsRun<T>(s: seq<T>, p: T -> bool, lo: int, hi: int)
  {
    && 0 <= lo <= hi <= |s|
    && Filter(s, p) == s[lo..hi]
    && forall k | 0 <= k < |s| :: p(s[k]) <==> lo <= k < hi
  }

  /** Filtering by a condition that holds on an interval of positions keeps that interval. */
  lemma {:induction false} FilterConvex<T>(s: seq<T>, p: T -> bool) returns (lo: nat, hi: nat)
    requires Convex(s, p)
    ensures KeepsRun(s, p, lo, hi)
  {
    if s == [] {
      lo, hi := 0, 0;
    } else {
      var t := s[1..];
      forall i, j, k | 0 <= i < j < k < |t| && p(t[i]) && p(t[k]) ensures p(t[j]) {
        assert t[i] == s[i + 1] && t[j] == s[j + 1] && t[k] == s[k + 1];
      }
      var lo', hi' := FilterConvex(t, p);
      if !p(s[0]) {
        lo, hi := lo' + 1, hi' + 1;
        RunAfterHead(s, p, lo', hi');
      } else if lo' == hi' {
        lo, hi := 0, 1;
        RunOfHead(s, p, lo');
      } else {
        lo, hi := 0, hi' + 1;
        RunFromHead(s, p, lo', hi');
      }
    }
  }

  lemma RunAfterHead<T>(s: seq<T>, p: T -> bool, lo: int, hi: int)
    requires s != [] && !p(s[0]) && KeepsRun(s[1..], p, lo, hi)
    ensures KeepsRun(s, p, lo + 1, hi + 1)
  {
    var t := s[1..];
    forall k | 0 < k < |s| ensures p(s[k]) <==> lo + 1 <= k < hi + 1 {
      assert s[k] == t[k - 1];
    }
    calc {
      Filter(s, p);
      Filter(t, p);
      t[lo..hi];
      s[lo + 1..hi + 1];
    }
  }

  lemma RunOfHead<T>(s: seq<T>, p: T -> bool, lo: int)
    requires s != [] && p(s[0]) && KeepsRun(s[1..], p, lo, lo)
    ensures KeepsRun(s, p, 0, 1)
  {
    var t := s[1..];
    assert Filter(t, p) == [];
    forall k | 0 < k < |s| ensures !p(s[k]) {
      assert s[k] == t[k - 1];
    }
  }

  lemma RunFromHead<T>(s: seq<T>, p: T -> bool, lo: int, hi: int)
    requires Convex(s, p) && s != [] && p(s[0]) && lo < hi && KeepsRun(s[1..], p, lo, hi)
    ensures KeepsRun(s, p, 0, hi + 1)
  {
    var t := s[1..];
    assert p(t[lo]) && t[lo] == s[lo + 1] && t[0] == s[1] && p(t[0]) == p(s[1]);
    if lo > 0 {
      assert false;
    }
    assert s[0..hi + 1] == [s[0]] + t[0..hi];
    forall k | 0 < k < |s| ensures p(s[k]) <==> k < hi + 1 {
      assert s[k] == t[k - 1];
    }
  }
}
