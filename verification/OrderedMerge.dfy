/**
 Python's insertion-ordered dictionaries as the evidence workflows use them:
 `dict.fromkeys` keeps the first element of each key, assigning `d[key] = x` in
 a loop keeps the position of the first and the value of the last.
 Both folds are characterised by the order of their keys and by what a lookup
 finds, and from that shown to be idempotent.
 */
module OrderedMerge {
  import opened Common

  /** The key of elements that are their own key. */
  function Same<T>(x: T): T { x }

  ghost predicate UniqueKeys<T, K>(xs: seq<T>, key: T -> K) {
    forall i, j :: 0 <= i < j < |xs| ==> key(xs[i]) != key(xs[j])
  }

  lemma {:induction false} KeysAppend<T(!new), K(!new)>(xs: seq<T>, ys: seq<T>, key: T -> K)
    ensures Map(xs + ys, key) == Map(xs, key) + Map(ys, key)
    ensures forall k :: k in Map(xs + ys, key) <==> k in Map(xs, key) || k in Map(ys, key)
  {
  }

  /** First occurrence of every key, in order. */
  function FirstWins<T, K(==)>(xs: seq<T>, key: T -> K): (r: seq<T>)
  {
    if |xs| == 0 then []
    else
      var r := FirstWins(xs[..|xs| - 1], key);
      var x := xs[|xs| - 1];
      if key(x) in Map(r, key) then r else r + [x]
  }

  /** Position of key k in xs, or |xs| when absent. */
  function Position<T, K(==)>(xs: seq<T>, k: K, key: T -> K): (i: nat)
    ensures i <= |xs|
    ensures i < |xs| <==> k in Map(xs, key)
    ensures i < |xs| ==> key(xs[i]) == k
  {
    if |xs| == 0 then 0
    else if key(xs[0]) == k then 0
    else
      assert Map(xs, key) == [key(xs[0])] + Map(xs[1..], key);
      1 + Position(xs[1..], k, key)
  }

  /** `d[key(x)] = x` on an insertion-ordered dictionary. */
  function Put<T, K(==)>(d: seq<T>, x: T, key: T -> K): (r: seq<T>)
  {
    var i := Position(d, key(x), key);
    if i < |d| then d[i := x] else d + [x]
  }

  /** Assigning every element of xs in turn. */
  function LastWins<T, K(==)>(xs: seq<T>, key: T -> K): (r: seq<T>)
  {
    if |xs| == 0 then [] else Put(LastWins(xs[..|xs| - 1], key), xs[|xs| - 1], key)
  }

  /** The last element with key k. */
  function Latest<T, K(==)>(xs: seq<T>, k: K, key: T -> K): (r: Option<T>)
    ensures r.Some? <==> k in Map(xs, key)
    ensures r.Some? ==> r.value in xs && key(r.value) == k
  {
    if |xs| == 0 then None
    else
      assert Map(xs, key) == Map(xs[..|xs| - 1], key) + [key(xs[|xs| - 1])];
      if key(xs[|xs| - 1]) == k then Some(xs[|xs| - 1])
      else Latest(xs[..|xs| - 1], k, key)
  }

  // ---- First wins ----------------------------------------------------------

  /** The result holds each key once, loses none, and invents no element. */
  lemma {:induction false} FirstWinsKeys<T(!new), K(!new)>(xs: seq<T>, key: T -> K)
    ensures UniqueKeys(FirstWins(xs, key), key)
    ensures forall k :: k in Map(FirstWins(xs, key), key) <==> k in Map(xs, key)
    ensures forall x :: x in FirstWins(xs, key) ==> x in xs
  {
    if |xs| > 0 {
      var front, x := xs[..|xs| - 1], xs[|xs| - 1];
      FirstWinsKeys(front, key);
      assert xs == front + [x];
      KeysAppend(front, [x], key);
      var r := FirstWins(front, key);
      KeysAppend(r, [x], key);
      assert forall k :: k in Map(xs, key) <==> k in Map(front, key) || k == key(x);
    }
  }

  /** The element kept for a key is the first one carrying it. */
  lemma {:induction false} FirstWinsKeepsFirst<T(!new), K(!new)>(xs: seq<T>, key: T -> K, i: nat)
    requires i < |xs|
    requires key(xs[i]) !in Map(xs[..i], key)
    ensures xs[i] in FirstWins(xs, key)
  {
    var front := xs[..|xs| - 1];
    FirstWinsKeys(front, key);
    if i < |front| {
      assert front[..i] == xs[..i];
      FirstWinsKeepsFirst(front, key, i);
    } else {
      assert front == xs[..i];
    }
  }

  /** Appending elements whose keys are all present to a duplicate-free list changes nothing. */
  lemma {:induction false} FirstWinsAbsorbs<T(!new), K(!new)>(u: seq<T>, ys: seq<T>, key: T -> K)
    requires UniqueKeys(u, key)
    requires forall k :: k in Map(ys, key) ==> k in Map(u, key)
    ensures FirstWins(u + ys, key) == u
    decreases |u| + |ys|
  {
    if |ys| > 0 {
      var front, y := ys[..|ys| - 1], ys[|ys| - 1];
      assert ys == front + [y];
      KeysAppend(front, [y], key);
      assert (u + ys)[..|u + ys| - 1] == u + front;
      FirstWinsAbsorbs(u, front, key);
      assert key(y) == Map(ys, key)[|ys| - 1];
    } else if |u| > 0 {
      var front, x := u[..|u| - 1], u[|u| - 1];
      assert u + ys == u;
      FirstWinsAbsorbs(front, [], key);
      assert front + [] == front;
      assert u == front + [x];
    } else {
      assert u + ys == [];
    }
  }

  /** Merging the same elements in a second time changes nothing. */
  lemma {:induction false} FirstWinsIdempotent<T(!new), K(!new)>(xs: seq<T>, ys: seq<T>, key: T -> K)
    ensures FirstWins(FirstWins(xs + ys, key) + ys, key) == FirstWins(xs + ys, key)
  {
    FirstWinsKeys(xs + ys, key);
    KeysAppend(xs, ys, key);
    FirstWinsAbsorbs(FirstWins(xs + ys, key), ys, key);
  }

  /** Folding more elements into a duplicate-free list only appends, and only new keys. */
  lemma {:induction false} FirstWinsExtends<T(!new), K(!new)>(u: seq<T>, ys: seq<T>, key: T -> K)
    requires UniqueKeys(u, key)
    ensures u <= FirstWins(u + ys, key)
    ensures forall x :: x in FirstWins(u + ys, key)[|u|..] ==> x in ys && key(x) !in Map(u, key)
  {
    if |ys| == 0 {
      FirstWinsAbsorbs(u, ys, key);
    } else {
      var front, y := ys[..|ys| - 1], ys[|ys| - 1];
      assert (u + ys)[..|u + ys| - 1] == u + front;
      FirstWinsExtends(u, front, key);
      var r := FirstWins(u + front, key);
      if key(y) !in Map(r, key) {
        assert r == u + r[|u|..];
        KeysAppend(u, r[|u|..], key);
        assert (r + [y])[|u|..] == r[|u|..] + [y];
      }
    }
  }

  lemma {:induction false} KeyOfMember<T(!new), K(!new)>(xs: seq<T>, x: T, key: T -> K)
    requires x in xs
    ensures key(x) in Map(xs, key)
  {
    var i :| 0 <= i < |xs| && xs[i] == x;
    assert Map(xs, key)[i] == key(x);
  }

  // ---- Last wins -----------------------------------------------------------

  lemma {:induction false} LatestAppend<T(!new), K(!new)>(xs: seq<T>, x: T, k: K, key: T -> K)
    ensures Latest(xs + [x], k, key) == if key(x) == k then Some(x) else Latest(xs, k, key)
  {
    assert (xs + [x])[..|xs + [x]| - 1] == xs;
  }

  lemma {:induction false} LatestOfSum<T(!new), K(!new)>(xs: seq<T>, ys: seq<T>, k: K, key: T -> K)
    ensures Latest(xs + ys, k, key) ==
            if k in Map(ys, key) then Latest(ys, k, key) else Latest(xs, k, key)
  {
    if |ys| == 0 {
      assert xs + ys == xs;
    } else {
      var front, y := ys[..|ys| - 1], ys[|ys| - 1];
      assert ys == front + [y];
      assert xs + ys == (xs + front) + [y];
      KeysAppend(front, [y], key);
      LatestAppend(xs + front, y, k, key);
      LatestAppend(front, y, k, key);
      LatestOfSum(xs, front, k, key);
    }
  }

  /** In a duplicate-free list the latest element of a key is the one at its position. */
  lemma {:induction false} LatestWhenUnique<T(!new), K(!new)>(u: seq<T>, i: nat, key: T -> K)
    requires UniqueKeys(u, key) && i < |u|
    ensures Latest(u, key(u[i]), key) == Some(u[i])
  {
    if i < |u| - 1 {
      LatestWhenUnique(u[..|u| - 1], i, key);
    }
  }

  /** A duplicate-free list is determined by its key order and its lookups. */
  lemma {:induction false} SameKeysSameLatest<T(!new), K(!new)>(u: seq<T>, v: seq<T>, key: T -> K)
    requires UniqueKeys(u, key) && UniqueKeys(v, key)
    requires Map(u, key) == Map(v, key)
    requires forall k :: k in Map(u, key) ==> Latest(u, k, key) == Latest(v, k, key)
    ensures u == v
  {
    assert |u| == |Map(u, key)| == |v|;
    forall i | 0 <= i < |u|
      ensures u[i] == v[i]
    {
      LatestWhenUnique(u, i, key);
      LatestWhenUnique(v, i, key);
      assert Map(u, key)[i] == Map(v, key)[i];
    }
  }

  /** Putting x keeps keys unique, keeps their order, and is what a lookup then finds. */
  lemma {:induction false} PutFacts<T(!new), K(!new)>(d: seq<T>, x: T, key: T -> K)
    requires UniqueKeys(d, key)
    ensures UniqueKeys(Put(d, x, key), key)
    ensures Map(Put(d, x, key), key) ==
            if key(x) in Map(d, key) then Map(d, key) else Map(d, key) + [key(x)]
    ensures forall k :: Latest(Put(d, x, key), k, key) == if k == key(x) then Some(x) else Latest(d, k, key)
  {
    var i := Position(d, key(x), key);
    var r := Put(d, x, key);
    if i < |d| {
      assert Map(r, key) == Map(d, key);
      assert UniqueKeys(r, key);
      LatestWhenUnique(r, i, key);
      forall k | k != key(x)
        ensures Latest(r, k, key) == Latest(d, k, key)
      {
        if k in Map(d, key) {
          var j :| 0 <= j < |d| && Map(d, key)[j] == k;
          LatestWhenUnique(d, j, key);
          LatestWhenUnique(r, j, key);
        }
      }
    } else {
      KeysAppend(d, [x], key);
      forall j | 0 <= j < |d|
        ensures key(d[j]) != key(x)
      {
        assert Map(d, key)[j] == key(d[j]);
      }
      forall k
        ensures Latest(r, k, key) == if k == key(x) then Some(x) else Latest(d, k, key)
      {
        LatestAppend(d, x, k, key);
      }
    }
  }

  /**
   The dictionary built by assigning xs in turn has the key order of the first
   occurrences and the values of the last ones.
   */
  lemma {:induction false} LastWinsFacts<T(!new), K(!new)>(xs: seq<T>, key: T -> K)
    ensures UniqueKeys(LastWins(xs, key), key)
    ensures Map(LastWins(xs, key), key) == Map(FirstWins(xs, key), key)
    ensures forall k :: Latest(LastWins(xs, key), k, key) == Latest(xs, k, key)
  {
    if |xs| > 0 {
      var front, x := xs[..|xs| - 1], xs[|xs| - 1];
      assert xs == front + [x];
      LastWinsFacts(front, key);
      PutFacts(LastWins(front, key), x, key);
      KeysAppend(FirstWins(front, key), [x], key);
      forall k
        ensures Latest(xs, k, key) == if k == key(x) then Some(x) else Latest(front, k, key)
      {
        LatestAppend(front, x, k, key);
      }
    }
  }

  /** Assigning the same elements again changes nothing, duplicates or not. */
  lemma {:induction false} LastWinsIdempotent<T(!new), K(!new)>(xs: seq<T>, ys: seq<T>, key: T -> K)
    ensures LastWins(LastWins(xs + ys, key) + ys, key) == LastWins(xs + ys, key)
  {
    var d := LastWins(xs + ys, key);
    var e := LastWins(d + ys, key);
    LastWinsFacts(xs + ys, key);
    LastWinsFacts(d + ys, key);
    FirstWinsKeys(xs + ys, key);
    KeysAppend(xs, ys, key);
    FirstWinsAbsorbs(d, ys, key);
    forall k
      ensures Latest(e, k, key) == Latest(d, k, key)
    {
      LatestOfSum(d, ys, k, key);
      LatestOfSum(xs, ys, k, key);
    }
    SameKeysSameLatest(e, d, key);
  }
}
