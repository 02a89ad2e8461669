/** Orders, sorting and removal of repeated neighbours. */
module Sorting {

  // ----- Orders

  /** Three elements a proof compares in a row; transitivity is used where a proof names them. */
  predicate InARow<T>(x: T, y: T, z: T) {
    true
  }

  ghost predicate TotalPreorder<T(!new)>(le: (T, T) -> bool) {
    && (forall x, y :: le(x, y) || le(y, x))
    && (forall x, y, z {:trigger InARow(x, y, z)} :: le(x, y) && le(y, z) ==> le(x, z))
  }

  /** Two elements that tie are the same. */
  ghost predicate TotalOrder<T(!new)>(le: (T, T) -> bool) {
    TotalPreorder(le) && forall x, y :: le(x, y) && le(y, x) ==> x == y
  }

  /** Compare by `first`, and by `second` where that ties. */
  function Then<T>(first: (T, T) -> bool, second: (T, T) -> bool): (T, T) -> bool {
    (x, y) => first(x, y) && (first(y, x) ==> second(x, y))
  }

  lemma ThenIsPreorder<T(!new)>(first: (T, T) -> bool, second: (T, T) -> bool)
    requires TotalPreorder(first) && TotalPreorder(second)
    ensures TotalPreorder(Then(first, second))
  {
    var le := Then(first, second);
    forall x, y, z | le(x, y) && le(y, z)
      ensures le(x, z)
    {
      assert InARow(x, y, z) && InARow(y, z, x) && InARow(z, x, y);
    }
  }

  /** Strings in the order of their characters. */
  predicate StringLe(a: string, b: string) {
    a == [] || (b != [] && (a[0] < b[0] || (a[0] == b[0] && StringLe(a[1..], b[1..]))))
  }

  lemma {:induction false} StringLeTotal(a: string, b: string)
    ensures StringLe(a, b) || StringLe(b, a)
    ensures StringLe(a, b) && StringLe(b, a) ==> a == b
  {
    if a != [] && b != [] {
      StringLeTotal(a[1..], b[1..]);
      assert a == [a[0]] + a[1..] && b == [b[0]] + b[1..];
    }
  }

  lemma {:induction false} StringLeTransitive(a: string, b: string, c: string)
    requires StringLe(a, b) && StringLe(b, c)
    ensures StringLe(a, c)
  {
    if a != [] && a[0] == b[0] == c[0] {
      StringLeTransitive(a[1..], b[1..], c[1..]);
    }
  }

  /** The strings differ first at k. */
  ghost predicate FirstDiffer(a: string, b: string, k: nat) {
    k < |a| && k < |b| && a[..k] == b[..k] && a[k] != b[k]
  }

  lemma DifferLater(a: string, b: string, k: nat)
    requires a != [] && b != [] && a[0] == b[0]
    ensures FirstDiffer(a[1..], b[1..], k) <==> FirstDiffer(a, b, k + 1)
  {
    if k < |a| - 1 && k < |b| - 1 {
      assert a[..k + 1] == [a[0]] + a[1..][..k] && b[..k + 1] == [b[0]] + b[1..][..k];
      if a[..k + 1] == b[..k + 1] {
        assert a[1..][..k] == a[..k + 1][1..] && b[1..][..k] == b[..k + 1][1..];
      }
    }
  }

  /** A string comes before another when it is a prefix of it, or has the smaller character where they first differ. */
  lemma {:induction false} StringLePlainly(a: string, b: string)
    ensures StringLe(a, b) <==> a <= b || exists k: nat :: FirstDiffer(a, b, k) && a[k] < b[k]
  {
    if a != [] && b != [] {
      if a[0] == b[0] {
        var a', b' := a[1..], b[1..];
        StringLePlainly(a', b');
        assert a == [a[0]] + a' && b == [b[0]] + b';
        assert a <= b <==> a' <= b';
        forall k: nat
          ensures FirstDiffer(a', b', k) <==> FirstDiffer(a, b, k + 1)
        {
          DifferLater(a, b, k);
        }
        if k: nat :| FirstDiffer(a', b', k) && a'[k] < b'[k] {
          assert FirstDiffer(a, b, k + 1) && a[k + 1] < b[k + 1];
        }
        if k: nat :| FirstDiffer(a, b, k) && a[k] < b[k] {
          assert k > 0;
          assert FirstDiffer(a', b', k - 1) && a'[k - 1] < b'[k - 1];
        }
      } else {
        assert FirstDiffer(a, b, 0);
        assert forall k: nat :: FirstDiffer(a, b, k) ==> k == 0 || a[..k][0] == b[..k][0];
      }
    }
  }

  lemma StringLeIsOrder()
    ensures TotalOrder(StringLe)
  {
    forall a, b
      ensures StringLe(a, b) || StringLe(b, a)
      ensures StringLe(a, b) && StringLe(b, a) ==> a == b
    {
      StringLeTotal(a, b);
    }
    forall a, b, c | StringLe(a, b) && StringLe(b, c)
      ensures StringLe(a, c)
    {
      StringLeTransitive(a, b, c);
    }
  }

  predicate NatLe(a: nat, b: nat) {
    a <= b
  }

  // ----- Sorting

  ghost predicate Sorted<T>(s: seq<T>, le: (T, T) -> bool) {
    forall i, j :: 0 <= i < j < |s| ==> le(s[i], s[j])
  }

  /** `x` put after everything in `s` that does not come strictly later. */
  function Insert<T>(s: seq<T>, x: T, le: (T, T) -> bool): (r: seq<T>)
    ensures multiset(r) == multiset(s) + multiset{x} && |r| == |s| + 1
  {
    if s == [] then [x]
    else
      var last := |s| - 1;
      assert s == s[..last] + [s[last]];
      if le(s[last], x) then s + [x] else Insert(s[..last], x, le) + [s[last]]
  }

  /** The elements of `s` sorted, those that tie in the order they came. */
  function Sort<T>(s: seq<T>, le: (T, T) -> bool): (r: seq<T>)
    ensures multiset(r) == multiset(s) && |r| == |s|
  {
    if s == [] then []
    else
      var last := |s| - 1;
      assert s == s[..last] + [s[last]];
      Insert(Sort(s[..last], le), s[last], le)
  }

  lemma SameElements<T>(a: seq<T>, b: seq<T>)
    requires multiset(a) == multiset(b)
    ensures forall x :: x in a <==> x in b
  {
    forall x
      ensures x in a <==> x in b
    {
      assert x in a <==> x in multiset(a);
    }
  }

  lemma SameLength<T>(a: seq<T>, b: seq<T>)
    requires multiset(a) == multiset(b)
    ensures |a| == |b|
  {
    assert |multiset(a)| == |a| && |multiset(b)| == |b|;
  }

  lemma LastIsGreatest<T(!new)>(s: seq<T>, x: T, le: (T, T) -> bool)
    requires TotalPreorder(le) && Sorted(s, le) && x in s
    ensures le(x, s[|s| - 1])
  {
  }

  lemma {:induction false} InsertSorts<T(!new)>(s: seq<T>, x: T, le: (T, T) -> bool)
    requires TotalPreorder(le) && Sorted(s, le)
    ensures Sorted(Insert(s, x, le), le)
  {
    if s == [] {
    } else if le(s[|s| - 1], x) {
      forall i | 0 <= i < |s|
        ensures le(s[i], x)
      {
        assert InARow(s[i], s[|s| - 1], x);
      }
    } else {
      var front := s[..|s| - 1];
      InsertSorts(front, x, le);
      var r := Insert(front, x, le);
      assert multiset(front + [x]) == multiset(front) + multiset{x};
      SameElements(r, front + [x]);
      forall i | 0 <= i < |r|
        ensures le(r[i], s[|s| - 1])
      {
        assert r[i] in front + [x];
        if r[i] in front {
          LastIsGreatest(s, r[i], le);
        }
      }
    }
  }

  lemma {:induction false} SortSorts<T(!new)>(s: seq<T>, le: (T, T) -> bool)
    requires TotalPreorder(le)
    ensures Sorted(Sort(s, le), le)
  {
    if s != [] {
      SortSorts(s[..|s| - 1], le);
      InsertSorts(Sort(s[..|s| - 1], le), s[|s| - 1], le);
    }
  }

  /** Elements of the list that tie are the same. */
  ghost predicate TiesAgree<T(!new)>(s: seq<T>, le: (T, T) -> bool) {
    forall x, y :: x in s && y in s && le(x, y) && le(y, x) ==> x == y
  }

  lemma LastsAgree<T(!new)>(a: seq<T>, b: seq<T>, le: (T, T) -> bool)
    requires TotalPreorder(le) && TiesAgree(a, le) && Sorted(a, le) && Sorted(b, le) && multiset(a) == multiset(b)
             && a != [] && b != []
    ensures a[|a| - 1] == b[|b| - 1]
  {
    SameElements(a, b);
    var x, y := a[|a| - 1], b[|b| - 1];
    assert x in a && y in b && x in b && y in a;
    LastIsGreatest(b, x, le);
    LastIsGreatest(a, y, le);
  }

  lemma FrontIsSorted<T>(front: seq<T>, x: T, le: (T, T) -> bool)
    requires Sorted(front + [x], le)
    ensures Sorted(front, le)
  {
    var s := front + [x];
    forall i, j | 0 <= i < j < |front|
      ensures le(front[i], front[j])
    {
      assert le(s[i], s[j]);
    }
  }

  lemma FrontTiesAgree<T(!new)>(front: seq<T>, x: T, le: (T, T) -> bool)
    requires TiesAgree(front + [x], le)
    ensures TiesAgree(front, le)
  {
    assert forall y :: y in front ==> y in front + [x];
  }

  /** There is only one way to sort elements that do not tie. */
  lemma {:induction false} SortedIsUnique<T(!new)>(a: seq<T>, b: seq<T>, le: (T, T) -> bool)
    requires TotalPreorder(le) && TiesAgree(a, le) && Sorted(a, le) && Sorted(b, le) && multiset(a) == multiset(b)
    ensures a == b
    decreases |a|
  {
    SameLength(a, b);
    if a != [] {
      LastsAgree(a, b, le);
      var a', b', last := a[..|a| - 1], b[..|b| - 1], a[|a| - 1];
      assert a == a' + [last] && b == b' + [last];
      FrontIsSorted(a', last, le);
      FrontIsSorted(b', last, le);
      FrontTiesAgree(a', last, le);
      DropLast(a', b', last);
      SortedIsUnique(a', b', le);
    }
  }

  lemma DropLast<T>(a: seq<T>, b: seq<T>, x: T)
    requires multiset(a + [x]) == multiset(b + [x])
    ensures multiset(a) == multiset(b)
  {
    assert multiset(a) == multiset(a + [x]) - multiset{x};
    assert multiset(b) == multiset(b + [x]) - multiset{x};
  }

  /** Sorting elements that do not tie forgets the order they came in. */
  lemma SortForgetsOrder<T(!new)>(a: seq<T>, b: seq<T>, le: (T, T) -> bool)
    requires TotalPreorder(le) && TiesAgree(a, le) && multiset(a) == multiset(b)
    ensures Sort(a, le) == Sort(b, le)
  {
    SameElements(Sort(a, le), a);
    SortSorts(a, le);
    SortSorts(b, le);
    SortedIsUnique(Sort(a, le), Sort(b, le), le);
  }

  // ----- Removing repeated neighbours

  predicate Ties<T>(x: T, y: T, le: (T, T) -> bool) {
    le(x, y) && le(y, x)
  }

  /** `s` without the elements that tie with the one kept before them. */
  function Dedup<T>(s: seq<T>, le: (T, T) -> bool): (r: seq<T>)
    ensures s != [] ==> r != []
  {
    if |s| <= 1 then s
    else
      var kept := Dedup(s[..|s| - 1], le);
      var x := s[|s| - 1];
      if Ties(kept[|kept| - 1], x, le) then kept else kept + [x]
  }

  ghost predicate StrictlySorted<T>(s: seq<T>, le: (T, T) -> bool) {
    forall i, j :: 0 <= i < j < |s| ==> le(s[i], s[j]) && !le(s[j], s[i])
  }

  ghost predicate HasTie<T>(s: seq<T>, x: T, le: (T, T) -> bool) {
    exists y :: y in s && le(y, x) && le(x, y)
  }

  lemma HasTieMore<T>(kept: seq<T>, y: T, x: T, le: (T, T) -> bool)
    ensures HasTie(kept, y, le) || Ties(x, y, le) ==> HasTie(kept + [x], y, le)
  {
    if HasTie(kept, y, le) {
      var z :| z in kept && le(z, y) && le(y, z);
      assert z in kept + [x];
    }
    assert x in kept + [x];
  }

  lemma StrictlyLast<T(!new)>(kept: seq<T>, x: T, le: (T, T) -> bool)
    requires TotalPreorder(le) && StrictlySorted(kept, le)
    requires kept != [] ==> le(kept[|kept| - 1], x) && !le(x, kept[|kept| - 1])
    ensures StrictlySorted(kept + [x], le)
  {
    forall i | 0 <= i < |kept|
      ensures le(kept[i], x) && !le(x, kept[i])
    {
      var last := kept[|kept| - 1];
      assert InARow(kept[i], last, x) && InARow(last, x, kept[i]);
    }
  }

  /** `kept` holds one of each group of ties in the sorted list. */
  ghost predicate Represents<T(!new)>(kept: seq<T>, s: seq<T>, le: (T, T) -> bool) {
    && StrictlySorted(kept, le)
    && (forall x :: x in kept ==> x in s)
    && (forall x {:trigger HasTie(kept, x, le)} :: x in s ==> HasTie(kept, x, le))
    && (s != [] ==> kept != [] && Ties(kept[|kept| - 1], s[|s| - 1], le))
  }

  lemma RepresentsMore<T(!new)>(kept: seq<T>, front: seq<T>, x: T, le: (T, T) -> bool)
    requires TotalPreorder(le) && Represents(kept, front, le) && front != [] && le(front[|front| - 1], x)
    ensures
      var last := kept[|kept| - 1];
      Represents(if Ties(last, x, le) then kept else kept + [x], front + [x], le)
  {
    var last := kept[|kept| - 1];
    assert InARow(last, front[|front| - 1], x);
    if Ties(last, x, le) {
      assert last in kept;
      assert HasTie(kept, x, le);
    } else {
      assert InARow(x, last, x) && Ties(x, x, le);
      StrictlyLast(kept, x, le);
      forall y | y in front + [x]
        ensures HasTie(kept + [x], y, le)
      {
        HasTieMore(kept, y, x, le);
      }
    }
  }

  lemma RepresentsItself<T(!new)>(s: seq<T>, le: (T, T) -> bool)
    requires TotalPreorder(le) && |s| == 1
    ensures Represents(s, s, le)
  {
    assert Ties(s[0], s[0], le);
    assert HasTie(s, s[0], le);
  }

  /** Of a sorted list one of each group of ties is kept. */
  lemma {:induction false} DedupFacts<T(!new)>(s: seq<T>, le: (T, T) -> bool)
    requires TotalPreorder(le) && Sorted(s, le)
    ensures Represents(Dedup(s, le), s, le)
  {
    if |s| == 1 {
      RepresentsItself(s, le);
    } else if |s| > 1 {
      var front, x := s[..|s| - 1], s[|s| - 1];
      assert s == front + [x];
      FrontIsSorted(front, x, le);
      DedupFacts(front, le);
      DedupMore(front, x, s, le);
    }
  }

  lemma DedupMore<T(!new)>(front: seq<T>, x: T, s: seq<T>, le: (T, T) -> bool)
    requires TotalPreorder(le) && s == front + [x] && front != [] && Sorted(s, le)
    requires Represents(Dedup(front, le), front, le)
    ensures Represents(Dedup(s, le), s, le)
  {
    assert s[..|s| - 1] == front && le(s[|front| - 1], s[|front|]);
    RepresentsMore(Dedup(front, le), front, x, le);
  }

  /** The two lists together, sorted, one of each group of ties. */
  function Union<T>(a: seq<T>, b: seq<T>, le: (T, T) -> bool): seq<T> {
    Dedup(Sort(a + b, le), le)
  }

  lemma TiesChain<T(!new)>(x: T, y: T, z: T, le: (T, T) -> bool)
    requires TotalPreorder(le) && Ties(x, y, le) && Ties(y, z, le)
    ensures Ties(x, z, le)
  {
    assert InARow(x, y, z) && InARow(z, y, x);
  }

  /** The union is sorted, with one element of either list for each group of ties. */
  lemma UnionIsSorted<T(!new)>(a: seq<T>, b: seq<T>, le: (T, T) -> bool)
    requires TotalPreorder(le)
    ensures StrictlySorted(Union(a, b, le), le)
    ensures forall x :: x in Union(a, b, le) ==> x in a || x in b
  {
    SortSorts(a + b, le);
    DedupFacts(Sort(a + b, le), le);
    SameElements(Sort(a + b, le), a + b);
  }

  lemma UnionHasTie<T(!new)>(a: seq<T>, b: seq<T>, x: T, le: (T, T) -> bool)
    requires TotalPreorder(le)
    ensures HasTie(Union(a, b, le), x, le) <==> HasTie(a, x, le) || HasTie(b, x, le)
  {
    var all := Sort(a + b, le);
    var union := Union(a, b, le);
    SortSorts(a + b, le);
    DedupFacts(all, le);
    SameElements(all, a + b);
    if HasTie(a, x, le) || HasTie(b, x, le) {
      var y :| (y in a || y in b) && le(y, x) && le(x, y);
      assert y in a + b && HasTie(union, y, le);
      var z :| z in union && le(z, y) && le(y, z);
      TiesChain(z, y, x, le);
    }
    if HasTie(union, x, le) {
      var y :| y in union && le(y, x) && le(x, y);
      assert y in a + b;
    }
  }

  /** `s` without the elements that are equal to the one before them. */
  function DedupEqual<T(==)>(s: seq<T>): (r: seq<T>)
    ensures s != [] ==> r != [] && r[|r| - 1] == s[|s| - 1]
  {
    if |s| <= 1 then s
    else
      var kept := DedupEqual(s[..|s| - 1]);
      var x := s[|s| - 1];
      if kept[|kept| - 1] == x then kept else kept + [x]
  }

  ghost predicate NoRepeats<T>(s: seq<T>) {
    forall i :: 0 < i < |s| ==> s[i - 1] != s[i]
  }

  lemma {:induction false} DedupEqualFacts<T(!new)>(s: seq<T>, le: (T, T) -> bool)
    requires TotalPreorder(le) && Sorted(s, le)
    ensures NoRepeats(DedupEqual(s))
    ensures Sorted(DedupEqual(s), le)
    ensures forall x :: x in DedupEqual(s) <==> x in s
  {
    if |s| > 1 {
      var front, x := s[..|s| - 1], s[|s| - 1];
      DedupEqualFacts(front, le);
      assert s == front + [x];
      forall y | y in DedupEqual(front)
        ensures le(y, x)
      {
        LastIsGreatest(s, y, le);
      }
    }
  }

  /** The two lists together, sorted, without equal neighbours. */
  function Together<T(==)>(a: seq<T>, b: seq<T>, le: (T, T) -> bool): seq<T> {
    DedupEqual(Sort(a + b, le))
  }

  lemma TogetherFacts<T(!new)>(a: seq<T>, b: seq<T>, le: (T, T) -> bool)
    requires TotalPreorder(le)
    ensures Sorted(Together(a, b, le), le) && NoRepeats(Together(a, b, le))
    ensures forall x :: x in Together(a, b, le) <==> x in a || x in b
  {
    SortSorts(a + b, le);
    DedupEqualFacts(Sort(a + b, le), le);
    SameElements(Sort(a + b, le), a + b);
  }

  // ----- Adding what is new

  /** `target` with the items of `other` it does not hold yet, in order. */
  ghost function WithNovel<T>(target: seq<T>, other: seq<T>): seq<T> {
    if other == [] then target
    else
      var rest := WithNovel(target, other[..|other| - 1]);
      var item := other[|other| - 1];
      if item in rest then rest else rest + [item]
  }

  /** New items stay in the order they first come in. */
  lemma {:induction false} NovelInOrder<T>(target: seq<T>, other: seq<T>) returns (f: seq<nat>)
    ensures |f| == |WithNovel(target, other)| - |target| && forall i :: 0 <= i < |f| ==> f[i] < |other|
    ensures forall i :: 0 <= i < |f| ==> WithNovel(target, other)[|target| + i] == other[f[i]]
    ensures forall i, j :: 0 <= i < j < |f| ==> f[i] < f[j]
    ensures forall i, j :: 0 <= i < |f| && 0 <= j < f[i] ==> other[j] != other[f[i]]
  {
    if other == [] {
      f := [];
    } else {
      var front, last := other[..|other| - 1], other[|other| - 1];
      f := NovelInOrder(target, front);
      WithNovelFacts(target, front);
      if last !in WithNovel(target, front) {
        f := f + [|front|];
      }
    }
  }

  lemma {:induction false} WithNovelFacts<T>(target: seq<T>, other: seq<T>)
    ensures target <= WithNovel(target, other)
    ensures forall x :: x in WithNovel(target, other) <==> x in target || x in other
    ensures forall i, j :: |target| <= j < |WithNovel(target, other)| && 0 <= i < j ==>
      WithNovel(target, other)[i] != WithNovel(target, other)[j]
  {
    if other != [] {
      WithNovelFacts(target, other[..|other| - 1]);
      assert other == other[..|other| - 1] + [other[|other| - 1]];
    }
  }
}
