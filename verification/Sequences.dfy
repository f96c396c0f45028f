/** Facts about finite sequences that several modules share. */
module Sequences {
  datatype Option<T> = None | Some(value: T) {
    function Or(fallback: T): T {
      match this
      case None => fallback
      case Some(v) => v
    }
  }

  predicate Distinct<T(==)>(s: seq<T>) {
    forall i, j :: 0 <= i < j < |s| ==> s[i] != s[j]
  }

  lemma DistinctAppend<T>(s: seq<T>, x: T)
    requires Distinct(s) && x !in s
    ensures Distinct(s + [x])
  {}

  function ToSet<T>(s: seq<T>): set<T> {
    set x | x in s
  }

  /** A duplicate-free sequence is no longer than any set that holds its elements. */
  lemma {:induction false} DistinctIsShort<T>(s: seq<T>, bound: set<T>)
    requires Distinct(s)
    requires forall x :: x in s ==> x in bound
    ensures |s| <= |bound|
  {
    if s != [] {
      var rest := s[..|s| - 1];
      DistinctIsShort(rest, bound - {s[|s| - 1]});
    }
  }

  function Map<A, B>(f: A -> B, s: seq<A>): (r: seq<B>)
    ensures |r| == |s|
    ensures forall i :: 0 <= i < |s| ==> r[i] == f(s[i])
  {
    seq(|s|, i requires 0 <= i < |s| => f(s[i]))
  }

  /** The elements that satisfy `p`, in order. */
  function Filter<A(!new)>(p: A -> bool, s: seq<A>): (r: seq<A>)
    ensures forall x :: x in r <==> x in s && p(x)
    ensures |r| <= |s|
  {
    if s == [] then [] else
      var last := s[|s| - 1];
      Filter(p, s[..|s| - 1]) + if p(last) then [last] else []
  }

  function Except<A(==)>(gone: A): A -> bool { (x: A) => x != gone }

  /** The first element that satisfies `p`. */
  function Find<A(!new)>(p: A -> bool, s: seq<A>): (r: Option<A>)
    ensures r.Some? ==> exists i :: 0 <= i < |s| && s[i] == r.value && p(s[i]) && forall j :: 0 <= j < i ==> !p(s[j])
    ensures r.None? ==> forall i :: 0 <= i < |s| ==> !p(s[i])
    decreases |s|
  {
    if s == [] then None
    else if p(s[0]) then Some(s[0])
    else
      assert forall i :: 0 < i < |s| ==> s[i] == s[1..][i - 1];
      Find(p, s[1..])
  }

  lemma FilterLast<A(!new)>(p: A -> bool, init: seq<A>, last: A)
    ensures Filter(p, init + [last]) == Filter(p, init) + if p(last) then [last] else []
  {
    assert (init + [last])[..|init|] == init;
  }

  lemma FilterEmpty<A(!new)>(p: A -> bool)
    ensures Filter(p, []) == []
  {}

  lemma FilterOne<A(!new)>(p: A -> bool, x: A)
    ensures Filter(p, [x]) == (if p(x) then [x] else []) && Filter(p, []) == []
  {
    hide Filter;
    FilterEmpty(p);
    FilterLast(p, [], x);
    assert [] + [x] == [x];
  }

  lemma {:induction false} FilterConcat<A(!new)>(p: A -> bool, s: seq<A>, t: seq<A>)
    ensures Filter(p, s + t) == Filter(p, s) + Filter(p, t)
  {
    hide Filter;
    if t == [] {
      FilterEmpty(p);
      assert s + t == s && Filter(p, s) + [] == Filter(p, s);
    } else {
      var init, last := t[..|t| - 1], t[|t| - 1];
      assert t == init + [last] && s + t == (s + init) + [last];
      FilterConcat(p, s, init);
      FilterLast(p, s + init, last);
      FilterLast(p, init, last);
    }
  }

  lemma {:induction false} FilterAll<A(!new)>(p: A -> bool, s: seq<A>)
    requires forall i :: 0 <= i < |s| ==> p(s[i])
    ensures Filter(p, s) == s
  {
    hide Filter;
    if s == [] {
      FilterEmpty(p);
    } else {
      var init, last := s[..|s| - 1], s[|s| - 1];
      assert s == init + [last] && p(last);
      FilterAll(p, init);
      FilterLast(p, init, last);
    }
  }

  lemma {:induction false} FilterNone<A(!new)>(p: A -> bool, s: seq<A>)
    requires forall i :: 0 <= i < |s| ==> !p(s[i])
    ensures Filter(p, s) == []
  {
    hide Filter;
    if s == [] {
      FilterEmpty(p);
    } else {
      var init, last := s[..|s| - 1], s[|s| - 1];
      assert s == init + [last] && !p(last);
      FilterNone(p, init);
      FilterLast(p, init, last);
    }
  }

  /** Only the element in the middle goes. */
  lemma FilterMiddle<A(!new)>(p: A -> bool, head: seq<A>, x: A, tail: seq<A>)
    requires !p(x) && forall y :: y in head || y in tail ==> p(y)
    ensures Filter(p, head + ([x] + tail)) == head + tail
  {
    hide Filter;
    FilterConcat(p, head, [x] + tail);
    FilterConcat(p, [x], tail);
    FilterAll(p, head);
    FilterOne(p, x);
    FilterAll(p, tail);
    assert [] + tail == tail;
  }

  lemma {:induction false} FilterKeepsDistinct<A(!new)>(p: A -> bool, s: seq<A>)
    requires Distinct(s)
    ensures Distinct(Filter(p, s))
  {
    hide Filter;
    if s == [] {
      FilterEmpty(p);
    } else {
      var init, last := s[..|s| - 1], s[|s| - 1];
      assert s == init + [last] && last !in init;
      FilterKeepsDistinct(p, init);
      FilterLast(p, init, last);
      assert last !in Filter(p, init);
    }
  }

  lemma MapLast<A, B>(f: A -> B, init: seq<A>, last: A)
    ensures Map(f, init + [last]) == Map(f, init) + [f(last)]
  {}

  lemma {:induction false} FilterMap<A(!new)>(p: A -> bool, f: A -> A, s: seq<A>)
    requires forall x :: x in s ==> p(f(x)) == p(x)
    ensures Filter(p, Map(f, s)) == Map(f, Filter(p, s))
  {
    hide Filter, Map;
    if s == [] {
      FilterEmpty(p);
      assert Map(f, s) == [] && Map(f, Filter(p, s)) == [];
    } else {
      var init, last := s[..|s| - 1], s[|s| - 1];
      assert s == init + [last] && last in s && forall x :: x in init ==> x in s;
      FilterMap(p, f, init);
      MapLast(f, init, last);
      FilterLast(p, Map(f, init), f(last));
      FilterLast(p, init, last);
      MapLast(f, Filter(p, init), last);
      assert Filter(p, init) + [] == Filter(p, init) && Map(f, Filter(p, init)) + [] == Map(f, Filter(p, init));
    }
  }

  lemma {:induction false} FilterSwap<A(!new)>(p: A -> bool, q: A -> bool, s: seq<A>)
    ensures Filter(p, Filter(q, s)) == Filter(q, Filter(p, s))
  {
    hide Filter;
    if s == [] {
      FilterEmpty(p);
      FilterEmpty(q);
    } else {
      var init, last := s[..|s| - 1], s[|s| - 1];
      assert s == init + [last];
      FilterSwap(p, q, init);
      FilterLast(p, init, last);
      FilterLast(q, init, last);
      FilterLast(p, Filter(q, init), last);
      FilterLast(q, Filter(p, init), last);
      assert Filter(p, init) + [] == Filter(p, init) && Filter(q, init) + [] == Filter(q, init);
      assert Filter(p, Filter(q, init)) + [] == Filter(p, Filter(q, init));
    }
  }

  function Without<A>(t: seq<A>, k: nat): (r: seq<A>)
    requires k < |t|
    ensures |r| == |t| - 1
  {
    t[..k] + t[k + 1..]
  }

  lemma TakeOut<A>(t: seq<A>, k: nat)
    requires k < |t|
    ensures multiset(t) == multiset(Without(t, k)) + multiset{t[k]}
  {
    assert t == t[..k] + [t[k]] + t[k + 1..];
  }

  lemma CancelOne<A>(a: multiset<A>, b: multiset<A>, x: A)
    requires a + multiset{x} == b + multiset{x}
    ensures a == b
  {
    assert a + multiset{x} - multiset{x} == a && b + multiset{x} - multiset{x} == b;
  }

  lemma TakeOutMapped<A, B>(f: A -> B, t: seq<A>, k: nat)
    requires k < |t|
    ensures multiset(Map(f, t)) == multiset(Map(f, Without(t, k))) + multiset{f(t[k])}
  {
    TakeOut(Map(f, t), k);
    assert Without(Map(f, t), k) == Map(f, Without(t, k));
  }

  lemma {:induction false} MapPermutes<A, B>(f: A -> B, s: seq<A>, t: seq<A>)
    requires multiset(s) == multiset(t)
    ensures multiset(Map(f, s)) == multiset(Map(f, t))
    decreases |s|
  {
    if s == [] {
      assert |multiset(t)| == 0;
    } else {
      var j := |s| - 1;
      assert s[j] in multiset(t);
      var k :| 0 <= k < |t| && t[k] == s[j];
      TakeOut(s, j);
      TakeOut(t, k);
      TakeOutMapped(f, s, j);
      TakeOutMapped(f, t, k);
      CancelOne(multiset(Without(s, j)), multiset(Without(t, k)), s[j]);
      hide Without;
      MapPermutes(f, Without(s, j), Without(t, k));
    }
  }
}
