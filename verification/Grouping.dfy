/** GROUP BY and keyed maps: groups in order of first appearance, and sums over them. */
module Grouping {
  import opened Lists

  function SumOf<A>(f: A -> real, xs: seq<A>): real {
    if xs == [] then 0.0 else SumOf(f, xs[..|xs| - 1]) + f(xs[|xs| - 1])
  }

  /** The members of one group, in order. */
  function Group<A, K(==)>(key: A -> K, k: K, xs: seq<A>): seq<A> {
    if xs == [] then []
    else
      var rest := Group(key, k, xs[..|xs| - 1]);
      if key(xs[|xs| - 1]) == k then rest + [xs[|xs| - 1]] else rest
  }

  /** The group keys, each at its first appearance. */
  function Keys<A, K(==)>(key: A -> K, xs: seq<A>): seq<K> {
    if xs == [] then []
    else
      var rest := Keys(key, xs[..|xs| - 1]);
      var k := key(xs[|xs| - 1]);
      if k in rest then rest else rest + [k]
  }

  function GroupSums<A, K(==)>(f: A -> real, key: A -> K, ks: seq<K>, xs: seq<A>): real {
    if ks == [] then 0.0
    else GroupSums(f, key, ks[..|ks| - 1], xs) + SumOf(f, Group(key, ks[|ks| - 1], xs))
  }

  ghost predicate Distinct<K>(ks: seq<K>) {
    forall i, j :: 0 <= i < j < |ks| ==> ks[i] != ks[j]
  }

  lemma SumOfAppend<A>(f: A -> real, xs: seq<A>, x: A)
    ensures SumOf(f, xs + [x]) == SumOf(f, xs) + f(x)
  {
    assert (xs + [x])[..|xs|] == xs;
  }

  lemma {:induction false} SumWithout<A>(f: A -> real, xs: seq<A>, k: nat)
    requires k < |xs|
    ensures SumOf(f, xs) == SumOf(f, xs[..k] + xs[k + 1..]) + f(xs[k])
  {
    var rest := xs[..k] + xs[k + 1..];
    if k == |xs| - 1 {
      assert rest == xs[..k];
    } else {
      SumWithout(f, xs[..|xs| - 1], k);
      assert xs[..|xs| - 1][..k] + xs[..|xs| - 1][k + 1..] == rest[..|rest| - 1];
      assert rest[|rest| - 1] == xs[|xs| - 1];
    }
  }

  lemma {:induction false} SumIgnoresOrder<A>(f: A -> real, xs: seq<A>, ys: seq<A>)
    requires multiset(xs) == multiset(ys)
    ensures SumOf(f, xs) == SumOf(f, ys)
  {
    SameLength(xs, ys);
    if xs != [] {
      var k, rest := LastElsewhere(xs, ys);
      SumIgnoresOrder(f, xs[..|xs| - 1], rest);
      SumWithout(f, ys, k);
    }
  }

  lemma {:induction false} SumOfConcat<A>(f: A -> real, xs: seq<A>, ys: seq<A>)
    ensures SumOf(f, xs + ys) == SumOf(f, xs) + SumOf(f, ys)
  {
    if ys == [] {
      assert xs + ys == xs;
    } else {
      var init, y := ys[..|ys| - 1], ys[|ys| - 1];
      assert xs + ys == (xs + init) + [y] && ys == init + [y];
      SumOfConcat(f, xs, init);
      SumOfAppend(f, xs + init, y);
      SumOfAppend(f, init, y);
    }
  }

  /** Two figures that agree on every element have one sum. */
  lemma {:induction false} SameSum<A>(f: A -> real, g: A -> real, xs: seq<A>)
    requires forall x :: x in xs ==> f(x) == g(x)
    ensures SumOf(f, xs) == SumOf(g, xs)
  {
    if xs != [] {
      SameSum(f, g, xs[..|xs| - 1]);
    }
  }

  lemma {:induction false} SumOfMap<A, B>(f: B -> real, g: A -> B, h: A -> real, xs: seq<A>)
    requires forall x :: x in xs ==> f(g(x)) == h(x)
    ensures SumOf(f, Map(g, xs)) == SumOf(h, xs)
  {
    if xs != [] {
      var init, x := xs[..|xs| - 1], xs[|xs| - 1];
      assert xs == init + [x];
      SumOfMap(f, g, h, init);
      MapAppend(g, init, [x]);
      SumOfAppend(f, Map(g, init), g(x));
    }
  }

  lemma GroupAppend<A, K>(key: A -> K, k: K, xs: seq<A>, x: A)
    ensures Group(key, k, xs + [x]) == if key(x) == k then Group(key, k, xs) + [x] else Group(key, k, xs)
  {
    assert (xs + [x])[..|xs|] == xs;
  }

  lemma KeysAppend<A, K>(key: A -> K, xs: seq<A>, x: A)
    ensures Keys(key, xs + [x]) == if key(x) in Keys(key, xs) then Keys(key, xs) else Keys(key, xs) + [key(x)]
  {
    assert (xs + [x])[..|xs|] == xs;
  }

  lemma {:induction false} KeysAreDistinct<A, K>(key: A -> K, xs: seq<A>)
    ensures Distinct(Keys(key, xs))
  {
    if xs != [] {
      KeysAreDistinct(key, xs[..|xs| - 1]);
    }
  }

  /** Every element's key is among the keys. */
  lemma {:induction false} KeyOfElement<A, K>(key: A -> K, xs: seq<A>, i: nat)
    requires i < |xs|
    ensures key(xs[i]) in Keys(key, xs)
  {
    var init := xs[..|xs| - 1];
    if i < |init| {
      KeyOfElement(key, init, i);
      assert init[i] == xs[i];
    }
  }

  /** Every key is some element's. */
  lemma {:induction false} ElementOfKey<A, K>(key: A -> K, xs: seq<A>, k: K) returns (i: nat)
    requires k in Keys(key, xs)
    ensures i < |xs| && key(xs[i]) == k
  {
    var init, last := xs[..|xs| - 1], xs[|xs| - 1];
    if key(last) == k {
      i := |init|;
    } else {
      i := ElementOfKey(key, init, k);
      assert init[i] == xs[i];
    }
  }

  lemma {:induction false} GroupMembers<A, K>(key: A -> K, k: K, xs: seq<A>)
    ensures forall x :: x in Group(key, k, xs) <==> x in xs && key(x) == k
  {
    if xs != [] {
      GroupMembers(key, k, xs[..|xs| - 1]);
      assert xs == xs[..|xs| - 1] + [xs[|xs| - 1]];
    }
  }

  lemma GroupSumsOfNewKey<A, K>(f: A -> real, key: A -> K, ks: seq<K>, k: K, xs: seq<A>)
    ensures GroupSums(f, key, ks + [k], xs) == GroupSums(f, key, ks, xs) + SumOf(f, Group(key, k, xs))
  {
    assert (ks + [k])[..|ks|] == ks;
  }

  lemma GroupSumNext<A, K>(f: A -> real, key: A -> K, k: K, xs: seq<A>, x: A)
    ensures SumOf(f, Group(key, k, xs + [x])) == SumOf(f, Group(key, k, xs)) + if key(x) == k then f(x) else 0.0
  {
    GroupAppend(key, k, xs, x);
    if key(x) == k {
      SumOfAppend(f, Group(key, k, xs), x);
    }
  }

  /** One more element adds its value to its own group and to no other. */
  lemma {:induction false} GroupSumsAppend<A, K>(f: A -> real, key: A -> K, ks: seq<K>, xs: seq<A>, x: A)
    requires Distinct(ks)
    ensures GroupSums(f, key, ks, xs + [x]) == GroupSums(f, key, ks, xs) + if key(x) in ks then f(x) else 0.0
  {
    if ks != [] {
      var init, k := ks[..|ks| - 1], ks[|ks| - 1];
      assert ks == init + [k];
      GroupSumsAppend(f, key, init, xs, x);
      GroupSumsOfNewKey(f, key, init, k, xs);
      GroupSumsOfNewKey(f, key, init, k, xs + [x]);
      GroupSumNext(f, key, k, xs, x);
      assert k !in init;
    }
  }

  /** The first element of a new group is all of it. */
  lemma NewGroup<A, K>(key: A -> K, xs: seq<A>, x: A)
    requires key(x) !in Keys(key, xs)
    ensures Group(key, key(x), xs + [x]) == [x]
  {
    NoSuchGroup(key, key(x), xs);
    GroupAppend(key, key(x), xs, x);
    assert [] + [x] == [x];
  }

  /** One more element, in an old group or a new one, adds its value to the groups' total. */
  lemma SumOverGroupsNext<A, K>(f: A -> real, key: A -> K, xs: seq<A>, x: A)
    ensures GroupSums(f, key, Keys(key, xs + [x]), xs + [x]) == GroupSums(f, key, Keys(key, xs), xs) + f(x)
  {
    var ks := Keys(key, xs);
    KeysAreDistinct(key, xs);
    KeysAppend(key, xs, x);
    GroupSumsAppend(f, key, ks, xs, x);
    if key(x) !in ks {
      GroupSumsOfNewKey(f, key, ks, key(x), xs + [x]);
      NewGroup(key, xs, x);
      SumOfAppend(f, [], x);
      assert [] + [x] == [x];
    }
  }

  /** Summing by group and then over the groups is summing everything. */
  lemma {:induction false} SumOverGroups<A, K>(f: A -> real, key: A -> K, xs: seq<A>)
    ensures GroupSums(f, key, Keys(key, xs), xs) == SumOf(f, xs)
  {
    if xs != [] {
      var init, x := xs[..|xs| - 1], xs[|xs| - 1];
      assert xs == init + [x];
      SumOverGroups(f, key, init);
      SumOverGroupsNext(f, key, init, x);
    }
  }

  lemma {:induction false} NoSuchGroup<A, K>(key: A -> K, k: K, xs: seq<A>)
    requires k !in Keys(key, xs)
    ensures Group(key, k, xs) == []
  {
    if xs != [] {
      NoSuchGroup(key, k, xs[..|xs| - 1]);
    }
  }

  ghost predicate KeysDiffer<A, K>(key: A -> K, xs: seq<A>) {
    forall i, j :: 0 <= i < j < |xs| ==> key(xs[i]) != key(xs[j])
  }

  lemma {:induction false} KeyIsNew<A, K>(key: A -> K, xs: seq<A>, k: K)
    requires forall i :: 0 <= i < |xs| ==> key(xs[i]) != k
    ensures k !in Keys(key, xs)
  {
    if xs != [] {
      KeyIsNew(key, xs[..|xs| - 1], k);
    }
  }

  lemma KeysDifferWithout<A, K>(key: A -> K, xs: seq<A>, x: A)
    requires KeysDiffer(key, xs + [x])
    ensures KeysDiffer(key, xs) && key(x) !in Keys(key, xs)
  {
    var all := xs + [x];
    assert forall i :: 0 <= i < |xs| ==> all[i] == xs[i];
    assert all[|xs|] == x;
    KeyIsNew(key, xs, key(x));
  }

  lemma {:induction false} OneKeyEach<A, K>(key: A -> K, xs: seq<A>)
    requires KeysDiffer(key, xs)
    ensures |Keys(key, xs)| == |xs|
  {
    if xs != [] {
      var init, x := xs[..|xs| - 1], xs[|xs| - 1];
      assert xs == init + [x];
      KeysDifferWithout(key, init, x);
      OneKeyEach(key, init);
    }
  }

  /** Where no two elements share a key, each is its own group. */
  lemma {:induction false} SingletonGroup<A, K>(key: A -> K, xs: seq<A>, i: nat)
    requires KeysDiffer(key, xs) && i < |xs|
    ensures i < |Keys(key, xs)| && Keys(key, xs)[i] == key(xs[i]) && Group(key, key(xs[i]), xs) == [xs[i]]
  {
    var init, x := xs[..|xs| - 1], xs[|xs| - 1];
    assert xs == init + [x];
    KeysDifferWithout(key, init, x);
    KeysAppend(key, init, x);
    if i < |init| {
      SingletonGroup(key, init, i);
      OldSingleton(key, init, x, i);
    } else {
      OneKeyEach(key, init);
      NewGroup(key, init, x);
    }
  }

  lemma OldSingleton<A, K>(key: A -> K, xs: seq<A>, x: A, i: nat)
    requires i < |xs| && Group(key, key(xs[i]), xs) == [xs[i]] && key(x) !in Keys(key, xs)
    ensures Group(key, key(xs[i]), xs + [x]) == [xs[i]]
  {
    KeyOfElement(key, xs, i);
    GroupAppend(key, key(xs[i]), xs, x);
  }

  /** A group holds each of its members as often as the whole does. */
  lemma {:induction false} GroupCount<A, K>(key: A -> K, k: K, xs: seq<A>, x: A)
    ensures multiset(Group(key, k, xs))[x] == if key(x) == k then multiset(xs)[x] else 0
  {
    if xs != [] {
      GroupCount(key, k, xs[..|xs| - 1], x);
      assert xs == xs[..|xs| - 1] + [xs[|xs| - 1]];
    }
  }

  lemma GroupPermutes<A(!new), K>(key: A -> K, k: K, xs: seq<A>, ys: seq<A>)
    requires multiset(xs) == multiset(ys)
    ensures multiset(Group(key, k, xs)) == multiset(Group(key, k, ys))
  {
    forall x
      ensures multiset(Group(key, k, xs))[x] == multiset(Group(key, k, ys))[x]
    {
      GroupCount(key, k, xs, x);
      GroupCount(key, k, ys, x);
    }
    assert multiset(Group(key, k, xs)) == multiset(Group(key, k, ys));
  }

  lemma KeyInBoth<A, K>(key: A -> K, xs: seq<A>, ys: seq<A>, k: K)
    requires multiset(xs) == multiset(ys) && k in Keys(key, xs)
    ensures k in Keys(key, ys)
  {
    var i := ElementOfKey(key, xs, k);
    assert xs[i] in multiset(ys);
    var j :| 0 <= j < |ys| && ys[j] == xs[i];
    KeyOfElement(key, ys, j);
  }

  lemma {:induction false} DistinctCount<K>(ks: seq<K>, k: K)
    requires Distinct(ks)
    ensures multiset(ks)[k] == if k in ks then 1 else 0
  {
    if ks != [] {
      DistinctCount(ks[..|ks| - 1], k);
      assert ks == ks[..|ks| - 1] + [ks[|ks| - 1]];
    }
  }

  /** Two arrangements have the same groups, each once, if not in the same order. */
  lemma KeysPermute<A, K(!new)>(key: A -> K, xs: seq<A>, ys: seq<A>)
    requires multiset(xs) == multiset(ys)
    ensures multiset(Keys(key, xs)) == multiset(Keys(key, ys))
  {
    KeysAreDistinct(key, xs);
    KeysAreDistinct(key, ys);
    forall k
      ensures multiset(Keys(key, xs))[k] == multiset(Keys(key, ys))[k]
    {
      DistinctCount(Keys(key, xs), k);
      DistinctCount(Keys(key, ys), k);
      if k in Keys(key, xs) {
        KeyInBoth(key, xs, ys, k);
      }
      if k in Keys(key, ys) {
        KeyInBoth(key, ys, xs, k);
      }
    }
    assert multiset(Keys(key, xs)) == multiset(Keys(key, ys));
  }
}
