/** `Array.prototype.map` and the little that is needed about it. */
module Lists {
  function Map<A, B>(f: A -> B, xs: seq<A>): seq<B> {
    if xs == [] then [] else [f(xs[0])] + Map(f, xs[1..])
  }

  lemma {:induction false} MapAt<A, B>(f: A -> B, xs: seq<A>)
    ensures |Map(f, xs)| == |xs| && forall i :: 0 <= i < |xs| ==> Map(f, xs)[i] == f(xs[i])
  {
    if xs != [] {
      MapAt(f, xs[1..]);
    }
  }

  lemma {:induction false} MapAppend<A, B>(f: A -> B, xs: seq<A>, ys: seq<A>)
    ensures Map(f, xs + ys) == Map(f, xs) + Map(f, ys)
  {
    if xs == [] {
      assert xs + ys == ys;
    } else {
      assert (xs + ys)[1..] == xs[1..] + ys;
      MapAppend(f, xs[1..], ys);
    }
  }

  /** Taking one element out of the list takes its image out of the image. */
  lemma {:induction false} MapWithout<A, B>(f: A -> B, xs: seq<A>, k: nat)
    requires k < |xs|
    ensures multiset(Map(f, xs)) == multiset{f(xs[k])} + multiset(Map(f, xs[..k] + xs[k + 1..]))
  {
    assert xs == xs[..k] + ([xs[k]] + xs[k + 1..]);
    MapAppend(f, xs[..k], [xs[k]] + xs[k + 1..]);
    MapAppend(f, [xs[k]], xs[k + 1..]);
    MapAppend(f, xs[..k], xs[k + 1..]);
  }

  lemma InMap<A, B>(f: A -> B, xs: seq<A>, y: B)
    ensures y in Map(f, xs) <==> exists x :: x in xs && y == f(x)
  {
    MapAt(f, xs);
    if y in Map(f, xs) {
      var i :| 0 <= i < |xs| && Map(f, xs)[i] == y;
      assert xs[i] in xs;
    }
    if x :| x in xs && y == f(x) {
      var i :| 0 <= i < |xs| && xs[i] == x;
      assert Map(f, xs)[i] == y;
    }
  }

  lemma {:induction false} SameMap<A, B>(f: A -> B, g: A -> B, xs: seq<A>)
    requires forall x :: x in xs ==> f(x) == g(x)
    ensures Map(f, xs) == Map(g, xs)
  {
    if xs != [] {
      SameMap(f, g, xs[1..]);
    }
  }

  lemma WithoutOne<A>(xs: seq<A>, ys: seq<A>, k: nat)
    requires xs != [] && multiset(xs) == multiset(ys) && k < |ys| && ys[k] == xs[0]
    ensures multiset(xs[1..]) == multiset(ys[..k] + ys[k + 1..])
  {
    assert xs == [xs[0]] + xs[1..];
    assert ys == ys[..k] + ([ys[k]] + ys[k + 1..]);
    assert multiset(ys) == multiset(ys[..k]) + multiset{ys[k]} + multiset(ys[k + 1..]);
    assert multiset(xs[1..]) == multiset(xs) - multiset{xs[0]};
    assert multiset(ys[..k] + ys[k + 1..]) == multiset(ys[..k]) + multiset(ys[k + 1..]);
  }

  /** The head of one arrangement, found in another, and what is left of the other without it. */
  lemma HeadElsewhere<A>(xs: seq<A>, ys: seq<A>) returns (k: nat, rest: seq<A>)
    requires xs != [] && multiset(xs) == multiset(ys)
    ensures k < |ys| && ys[k] == xs[0] && rest == ys[..k] + ys[k + 1..]
    ensures multiset(xs[1..]) == multiset(rest)
  {
    assert xs[0] in multiset(ys);
    k :| 0 <= k < |ys| && ys[k] == xs[0];
    WithoutOne(xs, ys, k);
    rest := ys[..k] + ys[k + 1..];
  }

  /** The same for the last element. */
  lemma LastElsewhere<A>(xs: seq<A>, ys: seq<A>) returns (k: nat, rest: seq<A>)
    requires xs != [] && multiset(xs) == multiset(ys)
    ensures k < |ys| && ys[k] == xs[|xs| - 1] && rest == ys[..k] + ys[k + 1..]
    ensures multiset(xs[..|xs| - 1]) == multiset(rest)
  {
    var init, last := xs[..|xs| - 1], xs[|xs| - 1];
    assert xs == init + [last];
    assert multiset([last] + init) == multiset(xs);
    assert ([last] + init)[1..] == init;
    k, rest := HeadElsewhere([last] + init, ys);
  }

  lemma SameMembers<A>(xs: seq<A>, ys: seq<A>)
    requires multiset(xs) == multiset(ys)
    ensures forall x :: x in xs <==> x in ys
  {
    forall x
      ensures x in xs <==> x in ys
    {
      assert x in xs <==> x in multiset(xs);
      assert x in ys <==> x in multiset(ys);
    }
  }

  lemma SplitAround<A>(xs: seq<A>, k: nat)
    requires k < |xs|
    ensures xs == xs[..k] + ([xs[k]] + xs[k + 1..])
  {
  }

  lemma TakeOfSlice<A>(xs: seq<A>, i: nat, j: nat, k: nat)
    requires i + k <= j <= |xs|
    ensures xs[i..j][..k] == xs[i..i + k]
  {
  }

  lemma SameLength<A>(xs: seq<A>, ys: seq<A>)
    requires multiset(xs) == multiset(ys)
    ensures |xs| == |ys|
  {
    assert |multiset(xs)| == |xs| && |multiset(ys)| == |ys|;
  }

  lemma {:induction false} MapPermutes<A, B>(f: A -> B, xs: seq<A>, ys: seq<A>)
    requires multiset(xs) == multiset(ys)
    ensures multiset(Map(f, xs)) == multiset(Map(f, ys))
  {
    SameLength(xs, ys);
    if xs != [] {
      var k, rest := HeadElsewhere(xs, ys);
      MapPermutes(f, xs[1..], rest);
      MapWithout(f, ys, k);
    }
  }
}
