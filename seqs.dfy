/** Sequence helpers shared by the model: the list comprehensions and DataFrame
    row filters of the portal are all order-preserving filters. */
module Seqs {

  /** `[x for x in s if p(x)]`. */
  function Filter<T(!new)>(s: seq<T>, p: T -> bool): (r: seq<T>)
    ensures |r| <= |s|
    ensures forall x :: x in r <==> x in s && p(x)
  {
    if s == [] then []
    else if p(s[0]) then [s[0]] + Filter(s[1..], p)
    else Filter(s[1..], p)
  }

  lemma {:induction false} FilterAppend<T(!new)>(a: seq<T>, b: seq<T>, p: T -> bool)
    ensures Filter(a + b, p) == Filter(a, p) + Filter(b, p)
  {
    if a == [] {
      assert a + b == b;
    } else {
      assert (a + b)[1..] == a[1..] + b;
      FilterAppend(a[1..], b, p);
    }
  }

  /** Filtering one more element appends it exactly when it passes. */
  lemma FilterSnoc<T(!new)>(s: seq<T>, x: T, p: T -> bool)
    ensures Filter(s + [x], p) == Filter(s, p) + (if p(x) then [x] else [])
  {
    FilterAppend(s, [x], p);
    assert [x][1..] == [];
  }

  /** The two halves of a filter account for every element exactly once. */
  lemma {:induction false} FilterSplitsLength<T(!new)>(s: seq<T>, p: T -> bool, q: T -> bool)
    requires forall x :: q(x) == !p(x)
    ensures |Filter(s, p)| + |Filter(s, q)| == |s|
  {
    if s != [] {
      FilterSplitsLength(s[1..], p, q);
    }
  }

  /** `u` is `s` with some elements left out, the rest in their original order. */
  predicate SubseqOf<T(==)>(u: seq<T>, s: seq<T>)
    decreases |s|
  {
    if u == [] then true
    else if s == [] then false
    else (u[0] == s[0] && SubseqOf(u[1..], s[1..])) || SubseqOf(u, s[1..])
  }

  lemma {:induction false} FilterIsSubseq<T(!new)>(s: seq<T>, p: T -> bool)
    ensures SubseqOf(Filter(s, p), s)
  {
    if s != [] {
      FilterIsSubseq(s[1..], p);
    }
  }

  /** A subsequence of `t` is a subsequence of `p + t`. */
  lemma {:induction false} SubseqGrowsLeft<T>(u: seq<T>, t: seq<T>, p: seq<T>)
    requires SubseqOf(u, t)
    ensures SubseqOf(u, p + t)
    decreases |p|
  {
    if p == [] {
      assert p + t == t;
    } else if u != [] {
      SubseqGrowsLeft(u, t, p[1..]);
      assert (p + t)[1..] == p[1..] + t;
    }
  }

  /** Extending both sequences by the same element, or only the longer one, keeps
      the subsequence relation. */
  lemma {:induction false} SubseqSnoc<T>(u: seq<T>, s: seq<T>, x: T, take: bool)
    requires SubseqOf(u, s)
    ensures SubseqOf(u + (if take then [x] else []), s + [x])
    decreases |s|
  {
    var u', s' := u + (if take then [x] else []), s + [x];
    if u' == [] {
    } else if s == [] {
      assert u == [] && u' == [x] && s' == [x];
      assert SubseqOf(u'[1..], s'[1..]);
    } else if u == [] {
      assert u' == [x];
      assert SubseqOf([x][1..], [x][1..]);
      SubseqGrowsLeft(u', [x], s);
    } else {
      assert s'[1..] == s[1..] + [x];
      assert u'[1..] == u[1..] + (if take then [x] else []);
      if u[0] == s[0] && SubseqOf(u[1..], s[1..]) {
        SubseqSnoc(u[1..], s[1..], x, take);
      } else {
        SubseqSnoc(u, s[1..], x, take);
      }
    }
  }

  /** No element occurs twice. */
  predicate Distinct<T(==)>(s: seq<T>)
  {
    forall i, j :: 0 <= i < j < |s| ==> s[i] != s[j]
  }

  lemma {:induction false} FilterDistinct<T(!new)>(s: seq<T>, p: T -> bool)
    requires Distinct(s)
    ensures Distinct(Filter(s, p))
  {
    if s != [] {
      assert Distinct(s[1..]);
      FilterDistinct(s[1..], p);
      assert s[0] !in s[1..];
    }
  }

  /** The position of `x` in `s` (Python's `list.index`). */
  function IndexOf<T(==)>(s: seq<T>, x: T): (i: nat)
    requires x in s
    ensures i < |s| && s[i] == x
    ensures forall j :: 0 <= j < i ==> s[j] != x
  {
    if s[0] == x then 0 else 1 + IndexOf(s[1..], x)
  }

  /** `len(set(s))`, counted as the first occurrences (pandas `nunique` / `unique`). */
  function Dedup<T(==,!new)>(s: seq<T>): (r: seq<T>)
    ensures forall x :: x in r <==> x in s
    ensures Distinct(r)
    ensures |r| <= |s|
  {
    if s == [] then []
    else
      var rest := Dedup(s[..|s| - 1]);
      if s[|s| - 1] in rest then rest else rest + [s[|s| - 1]]
  }

  /** The elements of `required` that `present` lacks, in `required` order
      (`[c for c in required if c not in present]`). */
  function Missing<T(==,!new)>(required: seq<T>, present: seq<T>): (r: seq<T>)
    ensures |r| <= |required|
    ensures forall x :: x in r <==> x in required && x !in present
  {
    if required == [] then []
    else
      var last := required[|required| - 1];
      Missing(required[..|required| - 1], present) + (if last in present then [] else [last])
  }
}
