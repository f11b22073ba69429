/** Summing bags and weights over a sequence of places, one place at a time. */
module Bags {

  ghost function Collect<T, E>(f: T -> multiset<E>, s: seq<T>): multiset<E> {
    if s == [] then multiset{} else f(s[0]) + Collect(f, s[1..])
  }

  lemma {:induction false} CollectAppend<T, E>(f: T -> multiset<E>, a: seq<T>, b: seq<T>)
    ensures Collect(f, a + b) == Collect(f, a) + Collect(f, b)
    decreases |a|
  {
    if a == [] {
      assert a + b == b;
    } else {
      assert (a + b)[1..] == a[1..] + b;
      CollectAppend(f, a[1..], b);
    }
  }

  lemma CollectOne<T, E>(f: T -> multiset<E>, x: T)
    ensures Collect(f, [x]) == f(x)
  {
    assert [x][1..] == [];
  }

  /** The place `i` apart from the others: what both an update and a removal at `i` leave alone. */
  lemma CollectAt<T, E>(f: T -> multiset<E>, s: seq<T>, i: nat)
    requires i < |s|
    ensures Collect(f, s) == Collect(f, s[..i] + s[i + 1..]) + f(s[i])
  {
    assert s == s[..i] + ([s[i]] + s[i + 1..]);
    CollectAppend(f, s[..i], [s[i]] + s[i + 1..]);
    CollectAppend(f, [s[i]], s[i + 1..]);
    CollectAppend(f, s[..i], s[i + 1..]);
    CollectOne(f, s[i]);
  }

  // The same in numbers: the multiplicity of one element, and the size of the bag.

  lemma CountPush<T, E>(f: T -> multiset<E>, s: seq<T>, x: T, e: E)
    ensures Collect(f, s + [x])[e] == Collect(f, s)[e] + f(x)[e]
    ensures |Collect(f, s + [x])| == |Collect(f, s)| + |f(x)|
  {
    CollectAppend(f, s, [x]);
    CollectOne(f, x);
  }

  lemma CountPop<T, E>(f: T -> multiset<E>, s: seq<T>, e: E)
    requires s != []
    ensures Collect(f, s)[e] == Collect(f, s[1..])[e] + f(s[0])[e]
    ensures |Collect(f, s)| == |Collect(f, s[1..])| + |f(s[0])|
  {
  }

  lemma CountRemove<T, E>(f: T -> multiset<E>, s: seq<T>, i: nat, e: E)
    requires i < |s|
    ensures Collect(f, s)[e] == Collect(f, s[..i] + s[i + 1..])[e] + f(s[i])[e]
    ensures |Collect(f, s)| == |Collect(f, s[..i] + s[i + 1..])| + |f(s[i])|
  {
    CollectAt(f, s, i);
  }

  lemma CountUpdate<T, E>(f: T -> multiset<E>, s: seq<T>, i: nat, x: T, e: E)
    requires i < |s|
    ensures Collect(f, s[i := x])[e] + f(s[i])[e] == Collect(f, s)[e] + f(x)[e]
    ensures |Collect(f, s[i := x])| + |f(s[i])| == |Collect(f, s)| + |f(x)|
  {
    var t := s[i := x];
    assert t[..i] + t[i + 1..] == s[..i] + s[i + 1..];
    CollectAt(f, s, i);
    CollectAt(f, t, i);
  }

  lemma {:induction false} CountLess<T, E>(f: T -> multiset<E>, g: T -> multiset<E>, s: seq<T>, e: E)
    requires forall i :: 0 <= i < |s| ==> f(s[i])[e] <= g(s[i])[e]
    ensures Collect(f, s)[e] <= Collect(g, s)[e]
    decreases |s|
  {
    if s != [] {
      assert forall i :: 0 <= i < |s[1..]| ==> s[1..][i] == s[i + 1];
      CountLess(f, g, s[1..], e);
    }
  }
}
