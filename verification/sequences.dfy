/** Generic sequence operations the row pipeline is built from: the boolean-mask
    selection `df[mask]` is `Filter`, a column-wise conversion is `Map`, and
    "the rows that remain, in their original order" is `IsSubsequence`. */
module Sequences {

  /** Keeps, in order, exactly the elements satisfying `p`. */
  function Filter<T>(p: T -> bool, s: seq<T>): (r: seq<T>)
    ensures |r| <= |s|
    ensures forall i :: 0 <= i < |r| ==> p(r[i]) && r[i] in s
    ensures forall i :: 0 <= i < |s| && p(s[i]) ==> s[i] in r
    decreases |s|
  {
    if |s| == 0 then []
    else if p(s[0]) then [s[0]] + Filter(p, s[1..])
    else Filter(p, s[1..])
  }

  /** Applies `f` to every element, keeping positions. */
  function Map<A, B>(f: A -> B, s: seq<A>): (r: seq<B>)
    ensures |r| == |s|
    ensures forall i :: 0 <= i < |s| ==> r[i] == f(s[i])
    decreases |s|
  {
    if |s| == 0 then [] else [f(s[0])] + Map(f, s[1..])
  }

  /** `xs` can be obtained from `ys` by deleting elements: order and contents
      of what remains are untouched. */
  ghost predicate IsSubsequence<T>(xs: seq<T>, ys: seq<T>)
    decreases |ys|
  {
    if |ys| == 0 then |xs| == 0
    else IsSubsequence(xs, ys[1..])
         || (|xs| > 0 && xs[0] == ys[0] && IsSubsequence(xs[1..], ys[1..]))
  }

  lemma {:induction false} SubsequenceReflexive<T>(s: seq<T>)
    ensures IsSubsequence(s, s)
    decreases |s|
  {
    if |s| > 0 {
      SubsequenceReflexive(s[1..]);
    }
  }

  lemma {:induction false} SubsequenceTransitive<T>(xs: seq<T>, ys: seq<T>, zs: seq<T>)
    requires IsSubsequence(xs, ys) && IsSubsequence(ys, zs)
    ensures IsSubsequence(xs, zs)
    decreases |zs|
  {
    if |zs| == 0 {
    } else if IsSubsequence(ys, zs[1..]) {
      SubsequenceTransitive(xs, ys, zs[1..]);
    } else {
      assert |ys| > 0 && ys[0] == zs[0] && IsSubsequence(ys[1..], zs[1..]);
      if IsSubsequence(xs, ys[1..]) {
        SubsequenceTransitive(xs, ys[1..], zs[1..]);
      } else {
        assert |xs| > 0 && xs[0] == ys[0] && IsSubsequence(xs[1..], ys[1..]);
        SubsequenceTransitive(xs[1..], ys[1..], zs[1..]);
      }
    }
  }

  /** Mapping carries membership over. */
  lemma MapMember<A, B>(f: A -> B, s: seq<A>, x: A)
    requires x in s
    ensures f(x) in Map(f, s)
  {
    var i :| 0 <= i < |s| && s[i] == x;
    assert Map(f, s)[i] == f(x);
  }

  /** Filtering only deletes elements: the survivors keep their order and values. */
  lemma {:induction false} FilterIsSubsequence<T>(p: T -> bool, s: seq<T>)
    ensures IsSubsequence(Filter(p, s), s)
    decreases |s|
  {
    if |s| > 0 {
      FilterIsSubsequence(p, s[1..]);
      if p(s[0]) {
        assert Filter(p, s)[1..] == Filter(p, s[1..]);
      }
    }
  }

  /** Each element occurs in the filtered sequence exactly as often as in the
      input when it satisfies `p`, and not at all otherwise: filtering keeps
      every copy of a kept element. */
  lemma {:induction false} FilterMultiplicity<T>(p: T -> bool, s: seq<T>)
    ensures forall x :: multiset(Filter(p, s))[x] == if p(x) then multiset(s)[x] else 0
    decreases |s|
  {
    if |s| > 0 {
      FilterMultiplicity(p, s[1..]);
      assert s == [s[0]] + s[1..];
      if p(s[0]) {
        assert Filter(p, s) == [s[0]] + Filter(p, s[1..]);
      }
    }
  }

  /** When every element already satisfies `p`, filtering changes nothing. */
  lemma {:induction false} FilterKeepsAll<T>(p: T -> bool, s: seq<T>)
    requires forall i :: 0 <= i < |s| ==> p(s[i])
    ensures Filter(p, s) == s
    decreases |s|
  {
    if |s| > 0 {
      FilterKeepsAll(p, s[1..]);
      assert s == [s[0]] + s[1..];
    }
  }

  lemma FilterIdempotent<T>(p: T -> bool, s: seq<T>)
    ensures Filter(p, Filter(p, s)) == Filter(p, s)
  {
    FilterKeepsAll(p, Filter(p, s));
  }

  /** Filtering by a stronger predicate after a weaker one is the same as
      filtering by the stronger one alone. */
  lemma {:induction false} FilterAbsorbs<T>(weak: T -> bool, strong: T -> bool, s: seq<T>)
    requires forall x :: strong(x) ==> weak(x)
    ensures Filter(strong, Filter(weak, s)) == Filter(strong, s)
    decreases |s|
  {
    if |s| > 0 {
      FilterAbsorbs(weak, strong, s[1..]);
    }
  }

  /** A predicate and its complement split a sequence into two parts that
      together hold every element exactly once. */
  lemma {:induction false} FilterPartition<T>(p: T -> bool, q: T -> bool, s: seq<T>)
    requires forall x :: q(x) == !p(x)
    ensures |Filter(p, s)| + |Filter(q, s)| == |s|
    ensures multiset(Filter(p, s)) + multiset(Filter(q, s)) == multiset(s)
    decreases |s|
  {
    if |s| > 0 {
      FilterPartition(p, q, s[1..]);
      assert s == [s[0]] + s[1..];
    }
  }

  /** Selecting after converting equals converting after selecting by the
      composed predicate. */
  lemma {:induction false} FilterMap<A, B>(p: B -> bool, f: A -> B, q: A -> bool, s: seq<A>)
    requires forall x :: q(x) == p(f(x))
    ensures Filter(p, Map(f, s)) == Map(f, Filter(q, s))
    decreases |s|
  {
    if |s| > 0 {
      FilterMap(p, f, q, s[1..]);
      assert Map(f, s)[1..] == Map(f, s[1..]);
    }
  }
}
