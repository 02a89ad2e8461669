/** Mapping, decoding and ordering lists of records. */
module Codec {
  import opened Wrappers
  import opened Sorting

  // ----- Lists

  function Map<A, B>(s: seq<A>, f: A -> B): (r: seq<B>)
    ensures |r| == |s| && forall i :: 0 <= i < |s| ==> r[i] == f(s[i])
  {
    seq(|s|, i requires 0 <= i < |s| => f(s[i]))
  }

  /** All elements decoded, if all can be. */
  function TryMap<A, B>(s: seq<A>, f: A -> Option<B>): (r: Option<seq<B>>)
    ensures r.Some? ==> |r.value| == |s| && forall i :: 0 <= i < |s| ==> f(s[i]) == Some(r.value[i])
    ensures r.None? ==> exists i :: 0 <= i < |s| && f(s[i]) == None
  {
    if s == [] then Some([])
    else
      var front := TryMap(s[..|s| - 1], f);
      var last := f(s[|s| - 1]);
      if front.Some? && last.Some? then Some(front.value + [last.value]) else None
  }

  /** What was encoded one by one is decoded one by one. */
  lemma DecodesAll<A, B, C>(s: seq<A>, enc: A -> B, dec: B -> Option<C>, canon: A -> C)
    requires forall i :: 0 <= i < |s| ==> dec(enc(s[i])) == Some(canon(s[i]))
    ensures TryMap(Map(s, enc), dec) == Some(Map(s, canon))
  {
    var r := TryMap(Map(s, enc), dec);
    assert r.Some?;
    assert r.value == Map(s, canon);
  }

  ghost predicate Compatible<A(!new), B>(s: seq<A>, f: A -> B, leA: (A, A) -> bool, leB: (B, B) -> bool) {
    forall x, y :: x in s && y in s ==> (leA(x, y) <==> leB(f(x), f(y)))
  }

  lemma MapLast<A, B>(s: seq<A>, x: A, f: A -> B)
    ensures Map(s + [x], f) == Map(s, f) + [f(x)]
  {
  }

  lemma InsertLast<A>(front: seq<A>, last: A, x: A, le: (A, A) -> bool)
    ensures Insert(front + [last], x, le) == if le(last, x) then front + [last] + [x] else Insert(front, x, le) + [last]
  {
    assert (front + [last])[..|front|] == front;
  }

  lemma SortLast<A>(front: seq<A>, last: A, le: (A, A) -> bool)
    ensures Sort(front + [last], le) == Insert(Sort(front, le), last, le)
  {
    assert (front + [last])[..|front|] == front;
  }

  lemma {:induction false} MapInsert<A(!new), B>(s: seq<A>, x: A, f: A -> B, leA: (A, A) -> bool, leB: (B, B) -> bool)
    requires forall i :: 0 <= i < |s| ==> (leA(s[i], x) <==> leB(f(s[i]), f(x)))
    ensures Map(Insert(s, x, leA), f) == Insert(Map(s, f), f(x), leB)
  {
    if s != [] {
      var front, last := s[..|s| - 1], s[|s| - 1];
      assert s == front + [last] && (leA(last, x) <==> leB(f(last), f(x)));
      MapInsert(front, x, f, leA, leB);
      MapLast(front, last, f);
      InsertLast(front, last, x, leA);
      InsertLast(Map(front, f), f(last), f(x), leB);
      MapLast(s, x, f);
      MapLast(Insert(front, x, leA), last, f);
    }
  }

  /** Sorting and then encoding is encoding and then sorting, when the orders agree. */
  lemma {:induction false} MapSort<A(!new), B>(s: seq<A>, f: A -> B, leA: (A, A) -> bool, leB: (B, B) -> bool)
    requires Compatible(s, f, leA, leB)
    ensures Map(Sort(s, leA), f) == Sort(Map(s, f), leB)
  {
    if s != [] {
      var front, last := s[..|s| - 1], s[|s| - 1];
      assert s == front + [last];
      FrontCompatible(front, last, f, leA, leB);
      MapSort(front, f, leA, leB);
      MapInsert(Sort(front, leA), last, f, leA, leB);
      MapLast(front, last, f);
      SortLast(front, last, leA);
      SortLast(Map(front, f), f(last), leB);
    } else {
      assert Map(Sort(s, leA), f) == [] == Sort(Map(s, f), leB);
    }
  }

  lemma FrontCompatible<A(!new), B>(front: seq<A>, last: A, f: A -> B, leA: (A, A) -> bool, leB: (B, B) -> bool)
    requires Compatible(front + [last], f, leA, leB)
    ensures Compatible(front, f, leA, leB)
    ensures
      var sorted := Sort(front, leA);
      forall i :: 0 <= i < |sorted| ==> (leA(sorted[i], last) <==> leB(f(sorted[i]), f(last)))
  {
    var sorted := Sort(front, leA);
    SameElements(sorted, front);
    forall i | 0 <= i < |sorted|
      ensures leA(sorted[i], last) <==> leB(f(sorted[i]), f(last))
    {
      assert sorted[i] in front && sorted[i] in front + [last] && last in front + [last];
    }
  }

  /** Encoding permuted lists gives permuted lists. */
  lemma {:induction false} MapPermute<A(!new), B>(a: seq<A>, b: seq<A>, f: A -> B)
    requires multiset(a) == multiset(b)
    ensures multiset(Map(a, f)) == multiset(Map(b, f))
    decreases |a|
  {
    if a == [] {
      assert |multiset(b)| == 0;
      assert b == [];
    } else {
      var front, x := a[..|a| - 1], a[|a| - 1];
      assert a == front + [x];
      SameElements(a, b);
      assert a[|a| - 1] in a;
      var i :| 0 <= i < |b| && b[i] == x;
      var rest := b[..i] + b[i + 1..];
      TakeOut(b, i);
      DropLast(front, rest, x);
      MapPermute(front, rest, f);
      MapLast(front, x, f);
      MapTakeOut(b, i, f);
    }
  }

  lemma TakeOut<A>(b: seq<A>, i: nat)
    requires i < |b|
    ensures multiset(b) == multiset(b[..i] + b[i + 1..] + [b[i]])
  {
    assert b == b[..i] + ([b[i]] + b[i + 1..]);
  }

  lemma MapTakeOut<A, B>(b: seq<A>, i: nat, f: A -> B)
    requires i < |b|
    ensures multiset(Map(b, f)) == multiset(Map(b[..i] + b[i + 1..], f)) + multiset{f(b[i])}
  {
    var m := Map(b, f);
    TakeOut(m, i);
    assert Map(b[..i] + b[i + 1..], f) == m[..i] + m[i + 1..];
  }

  // ----- The order of records, field by field

  /** A record as its fields in order; texts and lists are compared element by element, a prefix first. */
  datatype Key = Num(n: nat) | List(items: seq<Key>)

  predicate KeyLe(a: Key, b: Key)
    decreases a, 0
  {
    match (a, b)
    case (Num(n), Num(m)) => n <= m
    case (Num(_), List(_)) => true
    case (List(_), Num(_)) => false
    case (List(x), List(y)) => KeysLe(x, y)
  }

  predicate KeysLe(a: seq<Key>, b: seq<Key>)
    decreases a
  {
    a == [] || (b != [] && if a[0] == b[0] then KeysLe(a[1..], b[1..]) else KeyLe(a[0], b[0]))
  }

  lemma {:induction false} KeyTotal(a: Key, b: Key)
    ensures KeyLe(a, b) || KeyLe(b, a)
    ensures KeyLe(a, b) && KeyLe(b, a) ==> a == b
    decreases a, 0
  {
    if a.List? && b.List? {
      KeysTotal(a.items, b.items);
    }
  }

  lemma {:induction false} KeysTotal(a: seq<Key>, b: seq<Key>)
    ensures KeysLe(a, b) || KeysLe(b, a)
    ensures KeysLe(a, b) && KeysLe(b, a) ==> a == b
    decreases a
  {
    if a != [] && b != [] {
      if a[0] == b[0] {
        KeysTotal(a[1..], b[1..]);
        assert a == [a[0]] + a[1..] && b == [b[0]] + b[1..];
      } else {
        KeyTotal(a[0], b[0]);
      }
    }
  }

  lemma {:induction false} KeyTransitive(a: Key, b: Key, c: Key)
    requires KeyLe(a, b) && KeyLe(b, c)
    ensures KeyLe(a, c)
    decreases a, 0
  {
    if a.List? && b.List? && c.List? {
      KeysTransitive(a.items, b.items, c.items);
    }
  }

  lemma {:induction false} KeysTransitive(a: seq<Key>, b: seq<Key>, c: seq<Key>)
    requires KeysLe(a, b) && KeysLe(b, c)
    ensures KeysLe(a, c)
    decreases a
  {
    if a != [] {
      if a[0] == b[0] && b[0] == c[0] {
        KeysTransitive(a[1..], b[1..], c[1..]);
      } else if a[0] != b[0] && b[0] != c[0] {
        KeyTransitive(a[0], b[0], c[0]);
        if a[0] == c[0] {
          KeyTotal(a[0], b[0]);
        }
      }
    }
  }

  function By<T>(key: T -> Key): (T, T) -> bool {
    (x, y) => KeyLe(key(x), key(y))
  }

  ghost predicate Injective<T(!new)>(key: T -> Key) {
    forall x, y :: key(x) == key(y) ==> x == y
  }

  lemma ByIsOrder<T(!new)>(key: T -> Key)
    requires Injective(key)
    ensures TotalOrder(By(key))
  {
    var le := By(key);
    forall x, y
      ensures le(x, y) || le(y, x)
      ensures le(x, y) && le(y, x) ==> x == y
    {
      KeyTotal(key(x), key(y));
    }
    forall x, y, z | le(x, y) && le(y, z)
      ensures le(x, z)
    {
      KeyTransitive(key(x), key(y), key(z));
    }
  }

  function Text(s: string): Key {
    List(Map(s, (c: char) => Num(c as int)))
  }

  function Nums(s: seq<nat>): Key {
    List(Map(s, (n: nat) => Num(n)))
  }

  lemma TextInjective(a: string, b: string)
    requires Text(a) == Text(b)
    ensures a == b
  {
    var m, n := Text(a).items, Text(b).items;
    assert |a| == |m| == |n| == |b|;
    forall i | 0 <= i < |a|
      ensures a[i] == b[i]
    {
      assert m[i] == Num(a[i] as int) && n[i] == Num(b[i] as int);
    }
  }

  lemma NumsInjective(a: seq<nat>, b: seq<nat>)
    requires Nums(a) == Nums(b)
    ensures a == b
  {
    var m, n := Nums(a).items, Nums(b).items;
    assert |a| == |m| == |n| == |b|;
    forall i | 0 <= i < |a|
      ensures a[i] == b[i]
    {
      assert m[i] == Num(a[i]) && n[i] == Num(b[i]);
    }
  }

  /** Records that come in any order are sorted into the same list. */
  lemma EncodesOrderFree<A(!new), B(!new)>(a: seq<A>, b: seq<A>, enc: A -> B, key: B -> Key)
    requires Injective(key) && multiset(a) == multiset(b)
    ensures Sort(Map(a, enc), By(key)) == Sort(Map(b, enc), By(key))
  {
    ByIsOrder(key);
    MapPermute(a, b, enc);
    SortForgetsOrder(Map(a, enc), Map(b, enc), By(key));
  }

  /** The order of the records by what they encode to. */
  function Via<A, B>(enc: A -> B, key: B -> Key): (A, A) -> bool {
    (x, y) => KeyLe(key(enc(x)), key(enc(y)))
  }

  lemma DecodesPermuted<A(!new), B, C>(t: seq<A>, s: seq<A>, enc: A -> B, dec: B -> Option<C>, canon: A -> C)
    requires multiset(t) == multiset(s) && forall x :: x in s ==> dec(enc(x)) == Some(canon(x))
    ensures TryMap(Map(t, enc), dec) == Some(Map(t, canon))
  {
    SameElements(t, s);
    forall i | 0 <= i < |t|
      ensures dec(enc(t[i])) == Some(canon(t[i]))
    {
      assert t[i] in s;
    }
    DecodesAll(t, enc, dec, canon);
  }

  /** Sorting encoded records is encoding the records sorted by what they are encoded to. */
  lemma SortEncoded<A(!new), B>(s: seq<A>, enc: A -> B, key: B -> Key)
    ensures Sort(Map(s, enc), By(key)) == Map(Sort(s, Via(enc, key)), enc)
  {
    MapSort(s, enc, Via(enc, key), By(key));
  }

  /** A sorted list of encoded records is decoded to the records in that order. */
  lemma SortedDecodes<A(!new), B, C>(s: seq<A>, enc: A -> B, key: B -> Key, dec: B -> Option<C>, canon: A -> C)
    requires forall x :: x in s ==> dec(enc(x)) == Some(canon(x))
    ensures TryMap(Sort(Map(s, enc), By(key)), dec) == Some(Map(Sort(s, Via(enc, key)), canon))
  {
    SortEncoded(s, enc, key);
    DecodesPermuted(Sort(s, Via(enc, key)), s, enc, dec, canon);
  }
}
