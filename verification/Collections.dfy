/** Sorting, enumerations of sets, sums, and the ids 0 .. n-1. */
module Collections {

  function Min(a: nat, b: nat): nat { if a <= b then a else b }

  function Repeat<T>(x: T, n: nat): (s: seq<T>)
    ensures |s| == n && forall i :: 0 <= i < n ==> s[i] == x
  {
    if n == 0 then [] else [x] + Repeat(x, n - 1)
  }

  function Total(s: seq<real>): real { if s == [] then 0.0 else Total(s[..|s| - 1]) + s[|s| - 1] }

  /** `leq` is total and transitive (distinct elements may tie). */
  ghost predicate IsOrdering<T(!new)>(leq: (T, T) -> bool) {
    && (forall x, y :: leq(x, y) || leq(y, x))
    && (forall x, y, z :: leq(x, y) && leq(y, z) ==> leq(x, z))
  }

  ghost predicate Sorted<T>(s: seq<T>, leq: (T, T) -> bool) {
    forall i, j :: 0 <= i < j < |s| ==> leq(s[i], s[j])
  }

  function Insert<T>(x: T, s: seq<T>, leq: (T, T) -> bool): seq<T> {
    if s == [] || leq(x, s[0]) then [x] + s else [s[0]] + Insert(x, s[1..], leq)
  }

  /** The stable sort of `s`. */
  function Sort<T>(s: seq<T>, leq: (T, T) -> bool): seq<T> {
    if s == [] then [] else Insert(s[0], Sort(s[1..], leq), leq)
  }

  lemma {:induction false} InsertPermutes<T>(x: T, s: seq<T>, leq: (T, T) -> bool)
    ensures multiset(Insert(x, s, leq)) == multiset(s) + multiset{x}
  {
    if s != [] && !leq(x, s[0]) {
      InsertPermutes(x, s[1..], leq);
      assert s == [s[0]] + s[1..];
    }
  }

  lemma {:induction false} InsertSorted<T(!new)>(x: T, s: seq<T>, leq: (T, T) -> bool)
    requires IsOrdering(leq) && Sorted(s, leq)
    ensures Sorted(Insert(x, s, leq), leq)
  {
    if s != [] && !leq(x, s[0]) {
      InsertSorted(x, s[1..], leq);
      InsertPermutes(x, s[1..], leq);
      var t := Insert(x, s[1..], leq);
      forall j | 0 <= j < |t|
        ensures leq(s[0], t[j])
      {
        assert t[j] in multiset(s[1..]) + multiset{x};
      }
    }
  }

  lemma {:induction false} SortPermutes<T>(s: seq<T>, leq: (T, T) -> bool)
    ensures multiset(Sort(s, leq)) == multiset(s)
  {
    if s != [] {
      SortPermutes(s[1..], leq);
      InsertPermutes(s[0], Sort(s[1..], leq), leq);
      assert s == [s[0]] + s[1..];
    }
  }

  lemma {:induction false} SortSorts<T(!new)>(s: seq<T>, leq: (T, T) -> bool)
    requires IsOrdering(leq)
    ensures Sorted(Sort(s, leq), leq)
  {
    if s != [] {
      SortSorts(s[1..], leq);
      InsertSorted(s[0], Sort(s[1..], leq), leq);
    }
  }

  lemma SortCorrect<T(!new)>(s: seq<T>, leq: (T, T) -> bool)
    ensures multiset(Sort(s, leq)) == multiset(s) && |Sort(s, leq)| == |s|
    ensures IsOrdering(leq) ==> Sorted(Sort(s, leq), leq)
  {
    SortPermutes(s, leq);
    if IsOrdering(leq) {
      SortSorts(s, leq);
    }
    assert |multiset(Sort(s, leq))| == |multiset(s)|;
  }

  lemma TailMultiset<T>(s: seq<T>)
    requires s != []
    ensures s == [s[0]] + s[1..] && multiset(s[1..]) == multiset(s) - multiset{s[0]}
  {
    assert s == [s[0]] + s[1..];
  }

  lemma HeadLeast<T(!new)>(s: seq<T>, x: T, leq: (T, T) -> bool)
    requires IsOrdering(leq) && Sorted(s, leq) && x in s
    ensures leq(s[0], x)
  {
    var i :| 0 <= i < |s| && s[i] == x;
    assert i == 0 ==> leq(s[0], s[0]);
  }

  /** Two sorted arrangements of the same elements agree, when only equal elements tie. */
  lemma {:induction false} SortedUnique<T(!new)>(s: seq<T>, t: seq<T>, leq: (T, T) -> bool)
    requires IsOrdering(leq) && (forall x, y :: leq(x, y) && leq(y, x) ==> x == y)
    requires Sorted(s, leq) && Sorted(t, leq) && multiset(s) == multiset(t)
    ensures s == t
    decreases |s|
  {
    assert |s| == |multiset(s)| == |multiset(t)| == |t|;
    if s != [] {
      assert s[0] in multiset(t) && t[0] in multiset(s);
      HeadLeast(s, t[0], leq);
      HeadLeast(t, s[0], leq);
      TailMultiset(s);
      TailMultiset(t);
      SortedUnique(s[1..], t[1..], leq);
    }
  }

  ghost predicate Distinct<T>(s: seq<T>) { forall i, j :: 0 <= i < j < |s| ==> s[i] != s[j] }

  /** `s` lists each element of `keys` once: one order in which a hash table may be walked. */
  ghost predicate Enumerates<T>(s: seq<T>, keys: set<T>) {
    Distinct(s) && (forall x :: x in s ==> x in keys) && (forall x :: x in keys ==> x in s)
  }

  lemma {:induction false} Enumerate<T>(keys: set<T>) returns (s: seq<T>)
    ensures Enumerates(s, keys)
    decreases |keys|
  {
    if keys == {} {
      s := [];
    } else {
      var x :| x in keys;
      var rest := Enumerate(keys - {x});
      s := [x] + rest;
    }
  }

  lemma {:induction false} DistinctMultiset<T>(s: seq<T>, keys: set<T>)
    requires Enumerates(s, keys)
    ensures multiset(s) == multiset(keys) && |s| == |keys|
    decreases |s|
  {
    if s == [] {
      assert keys == {};
    } else {
      assert s == [s[0]] + s[1..];
      DistinctMultiset(s[1..], keys - {s[0]});
      assert keys == keys - {s[0]} + {s[0]};
    }
  }

  lemma NoRepeats<T>(s: seq<T>, keys: set<T>)
    requires multiset(s) == multiset(keys)
    ensures Enumerates(s, keys) && |s| == |keys|
  {
    assert |s| == |multiset(s)|;
    forall x | x in s
      ensures x in keys
    {
      assert x in multiset(s);
    }
    forall x | x in keys
      ensures x in s
    {
      assert x in multiset(s);
    }
    forall a, b | 0 <= a < b < |s|
      ensures s[a] != s[b]
    {
      assert s == s[..b] + s[b..];
      assert s[a] in s[..b] && s[b] in s[b..];
      assert multiset(s)[s[a]] == multiset(s[..b])[s[a]] + multiset(s[b..])[s[a]];
    }
  }

  ghost function Sum<T>(keys: set<T>, f: T -> nat): nat {
    if keys == {} then 0 else var x :| x in keys; f(x) + Sum(keys - {x}, f)
  }

  lemma {:induction false} SumTake<T>(keys: set<T>, f: T -> nat, x: T)
    requires x in keys
    ensures Sum(keys, f) == f(x) + Sum(keys - {x}, f)
    decreases |keys|
  {
    var y :| y in keys && Sum(keys, f) == f(y) + Sum(keys - {y}, f);
    if y != x {
      SumTake(keys - {y}, f, x);
      SumTake(keys - {x}, f, y);
      assert keys - {y} - {x} == keys - {x} - {y};
    }
  }

  lemma {:induction false} SubsetSize<T>(a: set<T>, b: set<T>)
    requires a <= b
    ensures |a| <= |b|
    ensures |a| == |b| ==> a == b
    decreases |a|
  {
    if a != {} {
      var x :| x in a;
      SubsetSize(a - {x}, b - {x});
      assert a == a - {x} + {x} && b == b - {x} + {x};
    }
  }

  /** The ids 0 .. n-1. */
  ghost function Range(n: nat): (r: set<nat>)
    ensures |r| == n && forall i: nat {:trigger i in r} :: i in r <==> i < n
  {
    if n == 0 then {} else Range(n - 1) + {n - 1}
  }

  ghost predicate Increasing(s: seq<nat>) { forall i, j :: 0 <= i < j < |s| ==> s[i] < s[j] }

  lemma {:induction false} IdsAtLeast(ids: seq<nat>, i: nat)
    requires i < |ids| && Increasing(ids)
    ensures ids[i] >= i
  {
    if i > 0 {
      IdsAtLeast(ids, i - 1);
    }
  }

  lemma {:induction false} IdsAtMost(ids: seq<nat>, i: nat)
    requires i < |ids| && Increasing(ids) && forall a :: 0 <= a < |ids| ==> ids[a] < |ids|
    ensures ids[i] <= i
    decreases |ids| - i
  {
    if i + 1 < |ids| {
      IdsAtMost(ids, i + 1);
    }
  }

  /** In increasing order, n distinct ids below n are exactly 0 .. n-1. */
  lemma IncreasingIsIdentity(ids: seq<nat>)
    requires Increasing(ids) && forall a :: 0 <= a < |ids| ==> ids[a] < |ids|
    ensures forall i :: 0 <= i < |ids| ==> ids[i] == i
  {
    forall i | 0 <= i < |ids|
      ensures ids[i] == i
    {
      IdsAtLeast(ids, i);
      IdsAtMost(ids, i);
    }
  }

  /** Sorting n things with distinct keys below n puts the thing with key i at position i. */
  lemma SortByKey<T(!new)>(s: seq<T>, key: T -> nat, leq: (T, T) -> bool)
    requires forall x, y :: leq(x, y) <==> key(x) <= key(y)
    requires forall i :: 0 <= i < |s| ==> key(s[i]) < |s|
    requires forall i, j :: 0 <= i < j < |s| ==> key(s[i]) != key(s[j])
    ensures |Sort(s, leq)| == |s| && forall i :: 0 <= i < |s| ==> key(Sort(s, leq)[i]) == i
  {
    var sorted, all := Sort(s, leq), set x | x in s;
    SortCorrect(s, leq);
    DistinctMultiset(s, all);
    NoRepeats(sorted, all);
    var ids := seq(|s|, i requires 0 <= i < |s| => key(sorted[i]));
    forall a, b | 0 <= a < b < |s|
      ensures ids[a] < ids[b]
    {
      assert leq(sorted[a], sorted[b]) && sorted[a] != sorted[b] && sorted[a] in s && sorted[b] in s;
    }
    forall i | 0 <= i < |s|
      ensures ids[i] < |s|
    {
      assert sorted[i] in s;
    }
    IncreasingIsIdentity(ids);
    forall i | 0 <= i < |s|
      ensures key(sorted[i]) == i
    {
      assert ids[i] == i;
    }
  }
}
