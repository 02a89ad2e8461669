/** The sorted name table of a cache file: `NameTable` of `src/cache_wire.rs`. */
module NameTable {
  import opened Wrappers
  import opened Sorting
  import opened Codec

  const NAME_ID_MAX: nat := 0xFFFF_FFFF

  /** The elements of a set in some order. */
  ghost function Listed(s: set<string>): (r: seq<string>)
    ensures multiset(r) == multiset(s)
  {
    if s == {} then []
    else
      var x :| x in s;
      assert s == (s - {x}) + {x};
      Listed(s - {x}) + [x]
  }

  /** List a set in whatever order it is iterated. */
  method Collect(s: set<string>) returns (r: seq<string>)
    ensures multiset(r) == multiset(s)
  {
    r := [];
    var todo := s;
    while todo != {}
      invariant todo <= s && multiset(r) == multiset(s - todo)
      decreases todo
    {
      var x :| x in todo;
      assert s - (todo - {x}) == (s - todo) + {x};
      r, todo := r + [x], todo - {x};
    }
    assert s - todo == s;
  }

  lemma ListedElements(r: seq<string>, s: set<string>)
    requires multiset(r) == multiset(s)
    ensures forall x :: x in r <==> x in s
    ensures forall i, j :: 0 <= i < j < |r| ==> r[i] != r[j]
  {
    forall x
      ensures x in r <==> x in s
    {
      assert x in r <==> x in multiset(r);
    }
    forall i, j | 0 <= i < j < |r|
      ensures r[i] != r[j]
    {
      assert r == r[..j] + ([r[j]] + r[j + 1..]);
      assert multiset(r) == multiset(r[..j]) + multiset([r[j]] + r[j + 1..]);
      assert r[i] in r[..j];
      assert multiset(r)[r[j]] <= 1;
    }
  }

  /** Ids are the ranks of the names in lexicographic order. */
  datatype Table = Table(names: seq<string>, ids: map<string, nat>) {

    ghost predicate Valid() {
      && (forall i, j :: 0 <= i < j < |names| ==> StringLe(names[i], names[j]) && names[i] != names[j])
      && (forall i :: 0 <= i < |names| ==> names[i] in ids && ids[names[i]] == i)
      && (forall n :: n in ids ==> ids[n] < |names| && names[ids[n]] == n)
    }

    /** The id of a name; every name of the cache is in the table. */
    function Id(name: string): nat {
      if name in ids then ids[name] else |names|
    }
  }

  function DecodeName(names: seq<string>, id: nat): Option<string> {
    if id < |names| then Some(names[id]) else None
  }

  /** A name is decoded from its id, and ids are ordered like names. */
  lemma IdsAreRanks(table: Table, a: string, b: string)
    requires table.Valid() && a in table.ids && b in table.ids
    ensures DecodeName(table.names, table.Id(a)) == Some(a)
    ensures table.Id(a) <= table.Id(b) <==> StringLe(a, b)
  {
    StringLeIsOrder();
    var i, j := table.ids[a], table.ids[b];
    assert i < j ==> StringLe(table.names[i], table.names[j]) && table.names[i] != table.names[j];
    assert j < i ==> StringLe(table.names[j], table.names[i]) && table.names[i] != table.names[j];
  }

  /** The table of all names of a cache, unless there are too many. */
  method Build(unique: set<string>) returns (r: Option<Table>)
    ensures r.Some? <==> |unique| <= 0xFFFF_FFFF
    ensures r.Some? ==> r.value.Valid() && r.value.ids.Keys == unique
  {
    if |unique| > NAME_ID_MAX {
      return None;
    }
    var listed := Collect(unique);
    var names := Sort(listed, StringLe);
    ListedElements(names, unique);
    StringLeIsOrder();
    SortSorts(listed, StringLe);
    var ids: map<string, nat> := map[];
    for i: nat := 0 to |names|
      invariant forall k :: 0 <= k < i ==> names[k] in ids && ids[names[k]] == k
      invariant forall n :: n in ids ==> ids[n] < i && names[ids[n]] == n
    {
      ids := ids[names[i] := i];
    }
    return Some(Table(names, ids));
  }

  /** A table depends on the set of names alone. */
  lemma TableIsCanonical(a: Table, b: Table)
    requires a.Valid() && b.Valid() && a.ids.Keys == b.ids.Keys
    ensures a == b
  {
    ListOf(a);
    ListOf(b);
    StringLeIsOrder();
    SortedIsUnique(a.names, b.names, StringLe);
  }

  lemma ListOf(t: Table)
    requires t.Valid()
    ensures multiset(t.names) == multiset(t.ids.Keys) && Sorted(t.names, StringLe)
  {
    DistinctList(t.names, t.ids.Keys);
  }

  lemma {:induction false} DistinctList(r: seq<string>, s: set<string>)
    requires (forall x :: x in r <==> x in s) && forall i, j :: 0 <= i < j < |r| ==> r[i] != r[j]
    ensures multiset(r) == multiset(s)
  {
    if r != [] {
      var front, x := r[..|r| - 1], r[|r| - 1];
      assert r == front + [x];
      DistinctList(front, s - {x});
      assert s == (s - {x}) + {x};
    } else {
      assert s == {};
    }
  }

  // ----- Sets and lists of names

  lemma NatLeIsOrder()
    ensures TotalOrder(NatLe)
  {
  }

  /** The ids of a set of names, in order. */
  ghost function IdsOf(table: Table, s: set<string>): seq<nat> {
    Sort(Map(Listed(s), table.Id), NatLe)
  }

  /** The ids come out the same whatever order the set is iterated in. */
  method EncodeSet(table: Table, s: set<string>) returns (ids: seq<nat>)
    ensures ids == IdsOf(table, s)
  {
    var listed := Collect(s);
    ids := Sort(Map(listed, table.Id), NatLe);
    MapPermute(listed, Listed(s), table.Id);
    NatLeIsOrder();
    SortForgetsOrder(Map(listed, table.Id), Map(Listed(s), table.Id), NatLe);
  }

  function DecodeNames(names: seq<string>, ids: seq<nat>): Option<seq<string>> {
    TryMap(ids, id => DecodeName(names, id))
  }

  function DecodeSet(names: seq<string>, ids: seq<nat>): Option<set<string>> {
    var decoded := DecodeNames(names, ids);
    if decoded.Some? then Some(set n | n in decoded.value) else None
  }

  ghost predicate Known(table: Table, names: seq<string>) {
    forall i :: 0 <= i < |names| ==> names[i] in table.ids
  }

  /** Names sorted by id are sorted by name. */
  lemma IdsSortLikeNames(table: Table, names: seq<string>)
    requires table.Valid() && Known(table, names)
    ensures Sort(Map(names, table.Id), NatLe) == Map(Sort(names, StringLe), table.Id)
  {
    forall x, y | x in names && y in names
      ensures StringLe(x, y) <==> NatLe(table.Id(x), table.Id(y))
    {
      IdsAreRanks(table, x, y);
    }
    MapSort(names, table.Id, StringLe, NatLe);
  }

  /** Names are decoded from their ids, in order. */
  lemma NamesRoundTrip(table: Table, names: seq<string>)
    requires table.Valid() && Known(table, names)
    ensures DecodeNames(table.names, Map(names, table.Id)) == Some(names)
  {
    forall i | 0 <= i < |names|
      ensures DecodeName(table.names, table.Id(names[i])) == Some(names[i])
    {
      IdsAreRanks(table, names[i], names[i]);
    }
    var r := DecodeNames(table.names, Map(names, table.Id));
    assert r.Some?;
    assert r.value == names;
  }

  lemma KnownSet(table: Table, names: seq<string>, s: set<string>)
    requires multiset(names) == multiset(s) && s <= table.ids.Keys
    ensures Known(table, names) && (set n | n in names) == s
  {
    ListedElements(names, s);
  }

  lemma SetRoundTrip(table: Table, s: set<string>)
    requires table.Valid() && s <= table.ids.Keys
    ensures DecodeSet(table.names, IdsOf(table, s)) == Some(s)
  {
    var sorted := Sort(Listed(s), StringLe);
    KnownSet(table, Listed(s), s);
    KnownSet(table, sorted, s);
    IdsSortLikeNames(table, Listed(s));
    NamesRoundTrip(table, sorted);
  }
}
