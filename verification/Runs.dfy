/** Merging neighbours with the same key, from left to right. */
module Runs {
  import opened Sorting

  /** The elements of `run` merged from left to right. */
  ghost function Fold<T>(run: seq<T>, merge: (T, T) -> T): T
    requires run != []
  {
    if |run| == 1 then run[0] else merge(Fold(run[..|run| - 1], merge), run[|run| - 1])
  }

  /** The elements with that key, in order. */
  ghost function Keyed<T, K>(s: seq<T>, key: T -> K, k: K): seq<T> {
    if s == [] then []
    else
      var rest := Keyed(s[..|s| - 1], key, k);
      var x := s[|s| - 1];
      if key(x) == k then rest + [x] else rest
  }

  /** Each element merged into the survivor before it when their keys agree. */
  ghost function Coalesced<T, K>(s: seq<T>, key: T -> K, merge: (T, T) -> T): (r: seq<T>)
    ensures |r| <= |s| && (s != [] ==> r != [])
  {
    if s == [] then []
    else
      var rest := Coalesced(s[..|s| - 1], key, merge);
      var x := s[|s| - 1];
      if rest != [] && key(rest[|rest| - 1]) == key(x) then rest[..|rest| - 1] + [merge(rest[|rest| - 1], x)]
        else rest + [x]
  }

  lemma CoalescedNext<T, K>(s: seq<T>, n: nat, key: T -> K, merge: (T, T) -> T)
    requires 0 < n < |s|
    ensures
      var kept := Coalesced(s[..n], key, merge);
      Coalesced(s[..n + 1], key, merge) ==
        if key(kept[|kept| - 1]) == key(s[n]) then kept[..|kept| - 1] + [merge(kept[|kept| - 1], s[n])]
          else kept + [s[n]]
  {
    assert s[..n + 1][..n] == s[..n];
  }

  // ----- What coalescing a sorted list gives

  ghost predicate SortedByKey<T, K>(s: seq<T>, key: T -> K, le: (K, K) -> bool) {
    forall i, j :: 0 <= i < j < |s| ==> le(key(s[i]), key(s[j]))
  }

  ghost predicate KeysIncrease<T, K>(s: seq<T>, key: T -> K, le: (K, K) -> bool) {
    forall i, j :: 0 <= i < j < |s| ==> le(key(s[i]), key(s[j])) && key(s[i]) != key(s[j])
  }

  /** `x` is the fold of all elements with its key. */
  ghost predicate Survives<T, K>(x: T, s: seq<T>, key: T -> K, merge: (T, T) -> T) {
    Keyed(s, key, key(x)) != [] && x == Fold(Keyed(s, key, key(x)), merge)
  }

  ghost predicate HasKey<T, K>(s: seq<T>, key: T -> K, k: K) {
    exists i :: 0 <= i < |s| && key(s[i]) == k
  }

  /** The survivors have increasing keys, each is the fold of its run, and every element has one. */
  ghost predicate Compacts<T, K(!new)>(s: seq<T>, r: seq<T>, key: T -> K, merge: (T, T) -> T, le: (K, K) -> bool) {
    && KeysIncrease(r, key, le)
    && (forall i :: 0 <= i < |r| ==> Survives(r[i], s, key, merge))
    && (forall k :: HasKey(s, key, k) ==> HasKey(r, key, k))
    && (s != [] ==> r != [] && key(r[|r| - 1]) == key(s[|s| - 1]))
  }

  lemma {:induction false} KeyedFacts<T(!new), K>(s: seq<T>, key: T -> K, k: K)
    ensures forall x :: x in Keyed(s, key, k) <==> x in s && key(x) == k
  {
    if s != [] {
      KeyedFacts(s[..|s| - 1], key, k);
      assert s == s[..|s| - 1] + [s[|s| - 1]];
    }
  }

  lemma {:induction false} NoneKeyed<T, K>(s: seq<T>, key: T -> K, k: K)
    requires forall i :: 0 <= i < |s| ==> key(s[i]) != k
    ensures Keyed(s, key, k) == []
  {
    if s != [] {
      NoneKeyed(s[..|s| - 1], key, k);
    }
  }

  lemma KeyedStep<T, K>(front: seq<T>, x: T, key: T -> K, k: K)
    ensures Keyed(front + [x], key, k) == if key(x) == k then Keyed(front, key, k) + [x] else Keyed(front, key, k)
  {
    assert (front + [x])[..|front|] == front;
  }

  lemma FoldStep<T>(run: seq<T>, x: T, merge: (T, T) -> T)
    requires run != []
    ensures Fold(run + [x], merge) == merge(Fold(run, merge), x)
  {
    assert (run + [x])[..|run|] == run;
  }

  lemma HasKeyStep<T, K>(front: seq<T>, x: T, key: T -> K, k: K)
    ensures HasKey(front + [x], key, k) <==> HasKey(front, key, k) || key(x) == k
  {
    var s := front + [x];
    if i :| 0 <= i < |front| && key(front[i]) == k {
      assert key(s[i]) == k;
    }
    assert s[|front|] == x;
  }

  lemma SurvivesOthers<T, K>(c: T, front: seq<T>, x: T, key: T -> K, merge: (T, T) -> T)
    requires Survives(c, front, key, merge) && key(c) != key(x)
    ensures Survives(c, front + [x], key, merge)
  {
    KeyedStep(front, x, key, key(c));
  }

  /** An element of the same key merges into the last survivor. */
  lemma MergesIntoLast<T, K(!new)>(front: seq<T>, x: T, r: seq<T>, key: T -> K, merge: (T, T) -> T, le: (K, K) -> bool)
    requires Compacts(front, r, key, merge, le) && r != [] && key(r[|r| - 1]) == key(x)
    requires key(merge(r[|r| - 1], x)) == key(x)
    ensures Compacts(front + [x], r[..|r| - 1] + [merge(r[|r| - 1], x)], key, merge, le)
  {
    var last := r[|r| - 1];
    var all := r[..|r| - 1] + [merge(last, x)];
    KeyedStep(front, x, key, key(x));
    FoldStep(Keyed(front, key, key(x)), x, merge);
    forall i | 0 <= i < |all|
      ensures Survives(all[i], front + [x], key, merge) && key(all[i]) == key(r[i])
    {
      if i < |r| - 1 {
        SurvivesOthers(r[i], front, x, key, merge);
      } else {
        assert Survives(last, front, key, merge);
      }
    }
    forall k | HasKey(front + [x], key, k)
      ensures HasKey(all, key, k)
    {
      HasKeyStep(front, x, key, k);
      HasKeyStep(all[..|r| - 1], merge(last, x), key, k);
      if key(x) != k {
        var i :| 0 <= i < |r| && key(r[i]) == k;
        assert key(all[i]) == k;
      }
    }
  }

  lemma SurvivorHasKey<T(!new), K>(x: T, s: seq<T>, key: T -> K, merge: (T, T) -> T)
    requires Survives(x, s, key, merge)
    ensures exists y :: y in s && key(y) == key(x)
  {
    KeyedFacts(s, key, key(x));
    assert Keyed(s, key, key(x))[0] in Keyed(s, key, key(x));
  }

  /** A survivor of the front comes before a later element, and stays a survivor. */
  lemma SurvivorBefore<T(!new), K(!new)>(c: T, front: seq<T>, x: T, key: T -> K, merge: (T, T) -> T, le: (K, K) -> bool)
    requires Survives(c, front, key, merge)
    requires forall i :: 0 <= i < |front| ==> le(key(front[i]), key(x)) && key(front[i]) != key(x)
    ensures Survives(c, front + [x], key, merge) && le(key(c), key(x)) && key(c) != key(x)
  {
    SurvivorHasKey(c, front, key, merge);
    SurvivesOthers(c, front, x, key, merge);
  }

  lemma NewSurvives<T, K>(front: seq<T>, x: T, key: T -> K, merge: (T, T) -> T)
    requires forall i :: 0 <= i < |front| ==> key(front[i]) != key(x)
    ensures Survives(x, front + [x], key, merge)
  {
    NoneKeyed(front, key, key(x));
    KeyedStep(front, x, key, key(x));
  }

  lemma HasKeysStep<T, K(!new)>(front: seq<T>, x: T, r: seq<T>, key: T -> K)
    requires forall k :: HasKey(front, key, k) ==> HasKey(r, key, k)
    ensures forall k :: HasKey(front + [x], key, k) ==> HasKey(r + [x], key, k)
  {
    forall k | HasKey(front + [x], key, k)
      ensures HasKey(r + [x], key, k)
    {
      HasKeyStep(front, x, key, k);
      HasKeyStep(r, x, key, k);
    }
  }

  /** An element of a new, later key becomes the last survivor. */
  lemma BecomesLast<T(!new), K(!new)>(front: seq<T>, x: T, r: seq<T>, key: T -> K, merge: (T, T) -> T,
                                      le: (K, K) -> bool)
    requires Compacts(front, r, key, merge, le) && SortedByKey(front + [x], key, le) && TotalOrder(le)
    requires front != [] ==> key(front[|front| - 1]) != key(x)
    ensures Compacts(front + [x], r + [x], key, merge, le)
  {
    AllBefore(front, x, key, le);
    LaterKeyIsLast(front, x, r, key, merge, le);
  }

  lemma LaterKeyIsLast<T(!new), K(!new)>(front: seq<T>, x: T, r: seq<T>, key: T -> K, merge: (T, T) -> T,
                                         le: (K, K) -> bool)
    requires Compacts(front, r, key, merge, le)
    requires forall i :: 0 <= i < |front| ==> le(key(front[i]), key(x)) && key(front[i]) != key(x)
    ensures Compacts(front + [x], r + [x], key, merge, le)
  {
    NewSurvives(front, x, key, merge);
    forall i | 0 <= i < |r|
      ensures Survives(r[i], front + [x], key, merge) && le(key(r[i]), key(x)) && key(r[i]) != key(x)
    {
      assert Survives(r[i], front, key, merge);
      SurvivorBefore(r[i], front, x, key, merge, le);
    }
    HasKeysStep(front, x, r, key);
  }

  lemma AllBefore<T, K(!new)>(front: seq<T>, x: T, key: T -> K, le: (K, K) -> bool)
    requires SortedByKey(front + [x], key, le) && TotalOrder(le)
    requires front != [] ==> key(front[|front| - 1]) != key(x)
    ensures forall i :: 0 <= i < |front| ==> le(key(front[i]), key(x)) && key(front[i]) != key(x)
  {
    var s := front + [x];
    forall i | 0 <= i < |front|
      ensures le(key(front[i]), key(x)) && key(front[i]) != key(x)
    {
      assert le(key(s[i]), key(s[|front|])) && le(key(s[|front| - 1]), key(s[|front|]));
      assert i < |front| - 1 ==> le(key(s[i]), key(s[|front| - 1]));
    }
  }

  /** Coalescing a sorted list keeps one element a key, in order: the left fold of all elements with that key. */
  lemma {:induction false} CoalescedCompacts<T(!new), K(!new)>(s: seq<T>, key: T -> K, merge: (T, T) -> T,
                                                               le: (K, K) -> bool)
    requires SortedByKey(s, key, le) && TotalOrder(le)
    requires forall a, b {:trigger merge(a, b)} :: key(merge(a, b)) == key(a)
    ensures Compacts(s, Coalesced(s, key, merge), key, merge, le)
  {
    if s != [] {
      var front, x := s[..|s| - 1], s[|s| - 1];
      var rest := Coalesced(front, key, merge);
      assert s == front + [x];
      CoalescedCompacts(front, key, merge, le);
      if rest != [] && key(rest[|rest| - 1]) == key(x) {
        MergesIntoLast(front, x, rest, key, merge, le);
      } else {
        BecomesLast(front, x, rest, key, merge, le);
      }
    }
  }

  /** What merging keeps, every survivor has. */
  lemma {:induction false} CoalescedKeeps<T(!new), K>(s: seq<T>, key: T -> K, merge: (T, T) -> T, good: T -> bool)
    requires forall x :: x in s ==> good(x)
    requires forall a, b {:trigger merge(a, b)} :: good(a) && good(b) ==> good(merge(a, b))
    ensures forall x :: x in Coalesced(s, key, merge) ==> good(x)
  {
    if s != [] {
      CoalescedKeeps(s[..|s| - 1], key, merge, good);
    }
  }

  lemma LastOfIncreasing<K(!new)>(a: seq<K>, b: seq<K>, le: (K, K) -> bool)
    requires StrictlySorted(a, le) && StrictlySorted(b, le)
    requires a != [] && b != [] && forall k :: k in a <==> k in b
    ensures a[|a| - 1] == b[|b| - 1]
  {
    var x, y := a[|a| - 1], b[|b| - 1];
    assert x in b && y in a;
    var i :| 0 <= i < |a| && a[i] == y;
    var j :| 0 <= j < |b| && b[j] == x;
    assert x == y || (le(y, x) && !le(y, x));
  }

  lemma FrontOfIncreasing<K>(s: seq<K>, le: (K, K) -> bool)
    requires s != [] && StrictlySorted(s, le)
    ensures forall k :: k in s[..|s| - 1] <==> k in s && k != s[|s| - 1]
    ensures StrictlySorted(s[..|s| - 1], le)
  {
    var front, last := s[..|s| - 1], s[|s| - 1];
    assert s == front + [last];
    forall k | k in front
      ensures k != last
    {
      var i :| 0 <= i < |front| && s[i] == k;
    }
  }

  /** There is one way to list keys in increasing order. */
  lemma {:induction false} IncreasingIsUnique<K(!new)>(a: seq<K>, b: seq<K>, le: (K, K) -> bool)
    requires StrictlySorted(a, le) && StrictlySorted(b, le) && forall k :: k in a <==> k in b
    ensures a == b
  {
    if a == [] {
      assert forall i :: 0 <= i < |b| ==> b[i] in a;
    } else {
      assert a[0] in a;
      LastOfIncreasing(a, b, le);
      FrontOfIncreasing(a, le);
      FrontOfIncreasing(b, le);
      var last, a', b' := a[|a| - 1], a[..|a| - 1], b[..|b| - 1];
      forall k
        ensures k in a' <==> k in b'
      {
        assert k in a' <==> k in a && k != last;
        assert k in b' <==> k in b && k != last;
      }
      IncreasingIsUnique(a', b', le);
      assert a == a' + [last] && b == b' + [last];
    }
  }

  ghost function KeysOf<T, K>(s: seq<T>, key: T -> K): (r: seq<K>)
    ensures |r| == |s| && forall i :: 0 <= i < |s| ==> r[i] == key(s[i])
  {
    seq(|s|, i requires 0 <= i < |s| => key(s[i]))
  }

  lemma KeysOfFacts<T(!new), K(!new)>(s: seq<T>, key: T -> K, le: (K, K) -> bool)
    ensures forall k :: k in KeysOf(s, key) <==> HasKey(s, key, k)
    ensures KeysIncrease(s, key, le) && TotalOrder(le) ==> StrictlySorted(KeysOf(s, key), le)
  {
    forall k | HasKey(s, key, k)
      ensures k in KeysOf(s, key)
    {
      var i :| 0 <= i < |s| && key(s[i]) == k;
      assert KeysOf(s, key)[i] == k;
    }
  }

  /** The keys of the survivors are those of the list, in order: how the list was ordered before does not
      show in them. */
  lemma SurvivorKeys<T(!new), K(!new)>(s: seq<T>, t: seq<T>, key: T -> K, merge: (T, T) -> T, le: (K, K) -> bool)
    requires SortedByKey(s, key, le) && SortedByKey(t, key, le) && TotalOrder(le) && multiset(s) == multiset(t)
    requires forall a, b {:trigger merge(a, b)} :: key(merge(a, b)) == key(a)
    ensures KeysOf(Coalesced(s, key, merge), key) == KeysOf(Coalesced(t, key, merge), key)
  {
    var a, b := Coalesced(s, key, merge), Coalesced(t, key, merge);
    CoalescedCompacts(s, key, merge, le);
    CoalescedCompacts(t, key, merge, le);
    SurvivorKeysWithin(s, t, key, merge, le, a, b);
    SurvivorKeysWithin(t, s, key, merge, le, b, a);
    KeysOfFacts(a, key, le);
    KeysOfFacts(b, key, le);
    IncreasingIsUnique(KeysOf(a, key), KeysOf(b, key), le);
  }

  lemma SurvivorKeysWithin<T(!new), K(!new)>(s: seq<T>, t: seq<T>, key: T -> K, merge: (T, T) -> T, le: (K, K) -> bool,
                                            a: seq<T>, b: seq<T>)
    requires Compacts(s, a, key, merge, le) && Compacts(t, b, key, merge, le) && multiset(s) == multiset(t)
    ensures KeysIncrease(a, key, le)
    ensures forall k :: HasKey(a, key, k) ==> HasKey(b, key, k)
  {
    SameElements(s, t);
    forall k | HasKey(a, key, k)
      ensures HasKey(b, key, k)
    {
      var i :| 0 <= i < |a| && key(a[i]) == k;
      assert Survives(a[i], s, key, merge);
      SurvivorHasKey(a[i], s, key, merge);
      var x :| x in s && key(x) == k;
      var j :| 0 <= j < |t| && t[j] == x;
      assert HasKey(t, key, k);
    }
  }

  ghost predicate Some<T>(run: seq<T>, holds: T -> bool) {
    exists i :: 0 <= i < |run| && holds(run[i])
  }

  /** What merging passes on from either side, a fold passes on from every element. */
  lemma {:induction false} FoldPassesOn<T(!new)>(run: seq<T>, merge: (T, T) -> T, holds: T -> bool)
    requires run != []
    requires forall a, b {:trigger merge(a, b)} :: holds(merge(a, b)) <==> holds(a) || holds(b)
    ensures holds(Fold(run, merge)) <==> Some(run, holds)
  {
    if |run| == 1 {
      assert holds(run[0]) <==> Some(run, holds);
    } else {
      var front, m := run[..|run| - 1], run[|run| - 1];
      FoldPassesOn(front, merge, holds);
      if holds(m) {
        assert holds(run[|run| - 1]);
      }
      if Some(front, holds) {
        var i :| 0 <= i < |front| && holds(front[i]);
        assert holds(run[i]);
      }
    }
  }

  /** A survivor holds exactly what the elements with its key held. */
  lemma CoalescedPassesOn<T(!new), K(!new)>(s: seq<T>, i: nat, key: T -> K, merge: (T, T) -> T, le: (K, K) -> bool,
                                            holds: T -> bool)
    requires SortedByKey(s, key, le) && TotalOrder(le)
    requires forall a, b {:trigger merge(a, b)} :: key(merge(a, b)) == key(a)
    requires forall a, b {:trigger merge(a, b)} :: holds(merge(a, b)) <==> holds(a) || holds(b)
    requires i < |Coalesced(s, key, merge)|
    ensures
      var c := Coalesced(s, key, merge)[i];
      holds(c) <==> exists x :: x in s && key(x) == key(c) && holds(x)
  {
    var c := Coalesced(s, key, merge)[i];
    var run := Keyed(s, key, key(c));
    CoalescedCompacts(s, key, merge, le);
    assert Survives(c, s, key, merge);
    KeyedFacts(s, key, key(c));
    FoldPassesOn(run, merge, holds);
    if x :| x in s && key(x) == key(c) && holds(x) {
      assert x in run;
    }
    if holds(c) {
      var k :| 0 <= k < |run| && holds(run[k]);
      assert run[k] in s;
    }
  }
}
