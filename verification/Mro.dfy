/** Method resolution orders: `c3_linearize` and `linearize` of `src/mro.rs`. */
module Mro {
  import opened Sorting
  import opened Sequences
  import opened C3
  import opened Inheritance

  // ----- The order of an acyclic class map

  /** The linearizations of the bases, and the bases themselves. */
  ghost function Inputs(bases: ClassMap, rank: string -> nat, c: string): seq<seq<string>>
    requires IsRank(bases, rank) && c in bases
    decreases rank(c), 0
  {
    seq(|bases[c]|, i requires 0 <= i < |bases[c]| =>
      assert Base(bases, c, bases[c][i]); Linearization(bases, rank, bases[c][i])) + [bases[c]]
  }

  /** The C3 linearization of a class: the class, then the merge of what its bases give, each class once. */
  ghost function Linearization(bases: ClassMap, rank: string -> nat, c: string): seq<string>
    requires IsRank(bases, rank)
    decreases rank(c), 1
  {
    if c !in bases || bases[c] == [] then [c] else WithNovel([c], Merged(Inputs(bases, rank, c)))
  }

  // ----- The order of any class map

  type Memo = map<string, seq<string>>

  lemma LongerPath(bases: ClassMap, path: seq<string>, c: string)
    requires c in bases && c !in path
    ensures bases.Keys - Elements(path + [c]) < bases.Keys - Elements(path)
  {
    assert Elements(path + [c]) == Elements(path) + {c};
    assert c in bases.Keys - Elements(path);
  }

  /** The order of a class and what is remembered after it, given what was remembered and the path that led to it. */
  ghost function Resolved(bases: ClassMap, c: string, memo: Memo, path: seq<string>): (seq<string>, Memo)
    decreases bases.Keys - Elements(path), 0, 0
  {
    if c in memo then (memo[c], memo)
    else if c in path || c !in bases || bases[c] == [] then ([c], memo)
    else
      LongerPath(bases, path, c);
      var (inputs, memo') := ResolvedBases(bases, c, memo, path + [c], |bases[c]|);
      var order := WithNovel([c], Merged(inputs + [bases[c]]));
      (order, memo'[c := order])
  }

  /** The orders of the first `n` bases of a class, one after the other. */
  ghost function ResolvedBases(bases: ClassMap, c: string, memo: Memo, path: seq<string>, n: nat)
    : (seq<seq<string>>, Memo)
    requires c in bases && n <= |bases[c]|
    decreases bases.Keys - Elements(path), 1, n
  {
    if n == 0 then ([], memo)
    else
      var (inputs, between) := ResolvedBases(bases, c, memo, path, n - 1);
      var (order, memo') := Resolved(bases, bases[c][n - 1], between, path);
      (inputs + [order], memo')
  }

  /** The resolution order of a class, on any class map. */
  ghost function Order(bases: ClassMap, class_: string): seq<string> {
    Resolved(bases, class_, map[], []).0
  }

  // ----- The state of the recursion

  /** The order starts with the class, names no class twice, and names only the class and its ancestors. */
  ghost predicate Sound(bases: ClassMap, c: string, r: seq<string>) {
    r != [] && r[0] == c && NoDup(r) && forall x :: x in r ==> Inherits(bases, c, x)
  }

  /** Whoever was met and is not on the current path has had all its bases met. */
  ghost predicate Explored(bases: ClassMap, met: set<string>, path: seq<string>) {
    forall x, b {:trigger Base(bases, x, b)} :: x in met && x !in path && Base(bases, x, b) ==> b in met
  }

  ghost predicate MemoSound(bases: ClassMap, memo: Memo, met: set<string>) {
    forall c :: c in memo ==> c in met && Sound(bases, c, memo[c])
  }

  /** On a ranked map the memo holds the linearizations and the path leads down to `c`. */
  ghost predicate Descends(bases: ClassMap, rank: string -> nat, memo: Memo, path: seq<string>,
                           c: string)
  {
    && IsRank(bases, rank)
    && (forall k :: k in memo ==> memo[k] == Linearization(bases, rank, k))
    && forall p :: p in path ==> rank(p) > rank(c)
  }

  /** On a ranked map the sequences are the linearizations of the first bases of the class. */
  ghost predicate Linearized(bases: ClassMap, rank: string -> nat, c: string, seqs: seq<seq<string>>) {
    && IsRank(bases, rank) && c in bases && |seqs| <= |bases[c]| < |Inputs(bases, rank, c)|
    && seqs == Inputs(bases, rank, c)[..|seqs|]
  }

  lemma InputAt(bases: ClassMap, rank: string -> nat, c: string, i: nat)
    requires IsRank(bases, rank) && c in bases && i < |bases[c]|
    ensures
      var inputs := Inputs(bases, rank, c);
      && |inputs| == |bases[c]| + 1 && inputs[|bases[c]|] == bases[c]
      && inputs[i] == Linearization(bases, rank, bases[c][i])
  {
  }

  lemma LinearizedInputs(bases: ClassMap, rank: string -> nat, c: string, seqs: seq<seq<string>>)
    requires Linearized(bases, rank, c, seqs) && |seqs| == |bases[c]|
    ensures seqs + [bases[c]] == Inputs(bases, rank, c)
  {
    var inputs := Inputs(bases, rank, c);
    assert inputs == inputs[..|bases[c]|] + [inputs[|bases[c]|]];
  }

  /** Everything met since `before` is the class itself or comes up in the sequences. */
  ghost predicate Collected(met: set<string>, before: set<string>, c: string, seqs: seq<seq<string>>) {
    forall x :: x in met && x !in before ==> x == c || Holds(seqs, x)
  }

  ghost predicate OnlyAncestors(bases: ClassMap, c: string, seqs: seq<seq<string>>) {
    forall x {:trigger Holds(seqs, x)} :: Holds(seqs, x) ==> Inherits(bases, c, x)
  }

  lemma HoldsMore(seqs: seq<seq<string>>, r: seq<string>, x: string)
    ensures Holds(seqs + [r], x) <==> Holds(seqs, x) || x in r
  {
    var all := seqs + [r];
    assert forall s :: s in all <==> s in seqs || s == r;
  }

  lemma CollectMore(bases: ClassMap, met: set<string>, mid: set<string>, before: set<string>, c: string, b: string,
                    seqs: seq<seq<string>>, r: seq<string>)
    requires Collected(mid, before, c, seqs) && OnlyAncestors(bases, c, seqs)
    requires Base(bases, c, b) && (forall x :: x in r ==> Inherits(bases, b, x))
    requires forall x :: x in met && x !in mid ==> x in r
    ensures Collected(met, before, c, seqs + [r]) && OnlyAncestors(bases, c, seqs + [r])
  {
    forall x
      ensures Holds(seqs + [r], x) <==> Holds(seqs, x) || x in r
    {
      HoldsMore(seqs, r, x);
    }
    forall x | x in r
      ensures Inherits(bases, c, x)
    {
      InheritsThrough(bases, c, b, x);
    }
  }

  lemma BasesAreOnlyAncestors(bases: ClassMap, c: string, seqs: seq<seq<string>>)
    requires c in bases && OnlyAncestors(bases, c, seqs)
    ensures OnlyAncestors(bases, c, seqs + [bases[c]])
    ensures forall x :: Holds(seqs, x) ==> Holds(seqs + [bases[c]], x)
  {
    forall x
      ensures Holds(seqs + [bases[c]], x) <==> Holds(seqs, x) || x in bases[c]
    {
      HoldsMore(seqs, bases[c], x);
    }
    forall x | x in bases[c]
      ensures Inherits(bases, c, x)
    {
      InheritsItself(bases, x);
      InheritsThrough(bases, c, x, x);
    }
  }

  /** The class followed by the novel elements of the merge is sound, and names all that went in. */
  lemma ResultIsSound(bases: ClassMap, c: string, seqs: seq<seq<string>>)
    requires OnlyAncestors(bases, c, seqs)
    ensures Sound(bases, c, WithNovel([c], Merged(seqs)))
    ensures forall x :: Holds(seqs, x) ==> x in WithNovel([c], Merged(seqs))
  {
    var merged := Merged(seqs);
    forall x
      ensures x in merged <==> Holds(seqs, x)
    {
      MergedElements(seqs, x);
    }
    InheritsItself(bases, c);
    NovelIsSound(bases, c, merged);
  }

  lemma NovelIsSound(bases: ClassMap, c: string, merged: seq<string>)
    requires Inherits(bases, c, c) && forall x :: x in merged ==> Inherits(bases, c, x)
    ensures Sound(bases, c, WithNovel([c], merged))
    ensures forall x :: x in merged ==> x in WithNovel([c], merged)
  {
    var r := WithNovel([c], merged);
    WithNovelFacts([c], merged);
    forall i, j | 0 <= i < j < |r|
      ensures r[i] != r[j]
    {
      assert |[c]| <= j;
    }
  }

  /** With all its bases met, a class may leave the path and be remembered. */
  lemma LeavesPath(bases: ClassMap, memo: Memo, met: set<string>, path: seq<string>, c: string,
                   r: seq<string>)
    requires MemoSound(bases, memo, met) && Explored(bases, met, path + [c]) && c in met && c in bases
    requires (forall b :: b in bases[c] ==> b in met) && Sound(bases, c, r)
    ensures MemoSound(bases, memo[c := r], met) && Explored(bases, met, path)
  {
    forall x, b | x in met && x !in path && Base(bases, x, b)
      ensures b in met
    {
      if x != c {
        assert x !in path + [c];
      }
    }
  }

  method PushNovel(start: seq<string>, candidates: seq<string>) returns (result: seq<string>)
    ensures result == WithNovel(start, candidates)
  {
    result := start;
    for i := 0 to |candidates|
      invariant result == WithNovel(start, candidates[..i])
    {
      assert candidates[..i + 1][..i] == candidates[..i];
      if candidates[i] !in result {
        result := result + [candidates[i]];
      }
    }
    assert candidates[..|candidates|] == candidates;
  }

  ghost predicate Valid(bases: ClassMap, memo: Memo, path: seq<string>, met: set<string>) {
    && MemoSound(bases, memo, met) && Explored(bases, met, path)
    && Elements(path) <= met && Elements(path) <= bases.Keys
  }

  /** What a call gives: its order is sound and holds whatever the call met that was not met before. */
  ghost predicate Gives(bases: ClassMap, c: string, met: set<string>, met': set<string>, r: seq<string>) {
    && met <= met' && c in met' && Sound(bases, c, r)
    && forall x :: x in met' && x !in met ==> x in r
  }

  /** The first bases of a class were linearized: they were met, and the sequences hold whatever was met since. */
  ghost predicate Gathered(bases: ClassMap, c: string, met: set<string>, met': set<string>, seqs: seq<seq<string>>) {
    && c in bases && |seqs| <= |bases[c]| && met <= met'
    && (forall k :: 0 <= k < |seqs| ==> bases[c][k] in met')
    && Collected(met', met, c, seqs) && OnlyAncestors(bases, c, seqs)
  }

  lemma GatheredMore(bases: ClassMap, c: string, start: set<string>, met: set<string>, met': set<string>,
                     seqs: seq<seq<string>>, r: seq<string>)
    requires Gathered(bases, c, start, met, seqs) && |seqs| < |bases[c]|
    requires Gives(bases, bases[c][|seqs|], met, met', r)
    ensures Gathered(bases, c, start, met', seqs + [r])
  {
    assert Base(bases, c, bases[c][|seqs|]);
    CollectMore(bases, met', met, start, c, bases[c][|seqs|], seqs, r);
  }

  /** The path with the class leads down to its bases. */
  lemma DescendsToBase(bases: ClassMap, rank: string -> nat, memo: Memo, path: seq<string>,
                       c: string, b: string)
    requires path != [] && path[|path| - 1] == c && Descends(bases, rank, memo, path[..|path| - 1], c)
    requires c in bases && b in bases[c]
    ensures Descends(bases, rank, memo, path, b)
  {
    assert Base(bases, c, b);
    assert path == path[..|path| - 1] + [c];
  }

  lemma DescendsBack(bases: ClassMap, rank: string -> nat, memo: Memo,
                     memo': Memo, path: seq<string>, c: string, b: string)
    requires path != [] && Descends(bases, rank, memo, path[..|path| - 1], c) && Descends(bases, rank, memo', path, b)
    ensures Descends(bases, rank, memo', path[..|path| - 1], c)
  {
  }

  lemma LinearizedMore(bases: ClassMap, rank: string -> nat, c: string, seqs: seq<seq<string>>, r: seq<string>)
    requires Linearized(bases, rank, c, seqs) && |seqs| < |bases[c]| && r == Inputs(bases, rank, c)[|seqs|]
    ensures Linearized(bases, rank, c, seqs + [r])
  {
    var inputs := Inputs(bases, rank, c);
    assert inputs[..|seqs| + 1] == inputs[..|seqs|] + [inputs[|seqs|]];
  }

  /** Linearize the next base of a class that is last on the path. */
  method LinearizeNext(bases: ClassMap, c: string, memo: Memo, path: seq<string>,
                       seqs: seq<seq<string>>, ghost start: set<string>, ghost met: set<string>, ghost ranked: bool,
                       ghost rank: string -> nat)
    returns (seqs': seq<seq<string>>, memo': Memo, ghost met': set<string>)
    requires Valid(bases, memo, path, met) && path != [] && path[|path| - 1] == c
    requires Gathered(bases, c, start, met, seqs) && |seqs| < |bases[c]|
    requires ranked ==> Descends(bases, rank, memo, path[..|path| - 1], c) && Linearized(bases, rank, c, seqs)
    ensures Valid(bases, memo', path, met')
    ensures Gathered(bases, c, start, met', seqs') && |seqs'| == |seqs| + 1
    ensures ranked ==> Descends(bases, rank, memo', path[..|path| - 1], c) && Linearized(bases, rank, c, seqs')
    ensures
      var (order, after) := Resolved(bases, bases[c][|seqs|], memo, path);
      seqs' == seqs + [order] && memo' == after
    decreases bases.Keys - Elements(path), 2
  {
    var b := bases[c][|seqs|];
    if ranked {
      DescendsToBase(bases, rank, memo, path, c, b);
    }
    var r;
    r, memo', met' := Linearize(bases, b, memo, path, met, ranked, rank);
    GatheredMore(bases, c, start, met, met', seqs, r);
    if ranked {
      DescendsBack(bases, rank, memo, memo', path, c, b);
      InputAt(bases, rank, c, |seqs|);
      LinearizedMore(bases, rank, c, seqs, r);
    }
    seqs' := seqs + [r];
  }

  /** Linearize the bases of a class that is last on the path. */
  method LinearizeBases(bases: ClassMap, c: string, memo: Memo, path: seq<string>,
                        ghost met: set<string>, ghost ranked: bool, ghost rank: string -> nat)
    returns (sequences: seq<seq<string>>, memo': Memo, ghost met': set<string>)
    requires Valid(bases, memo, path, met) && c in bases && path != [] && path[|path| - 1] == c
    requires ranked ==> Descends(bases, rank, memo, path[..|path| - 1], c)
    ensures Valid(bases, memo', path, met')
    ensures Gathered(bases, c, met, met', sequences) && |sequences| == |bases[c]|
    ensures ranked ==> Descends(bases, rank, memo', path[..|path| - 1], c) && Linearized(bases, rank, c, sequences)
    ensures (sequences, memo') == ResolvedBases(bases, c, memo, path, |bases[c]|)
    decreases bases.Keys - Elements(path), 3
  {
    sequences, memo', met' := [], memo, met;
    while |sequences| < |bases[c]|
      invariant Valid(bases, memo', path, met') && Gathered(bases, c, met, met', sequences)
      invariant ranked ==> Descends(bases, rank, memo', path[..|path| - 1], c) && Linearized(bases, rank, c, sequences)
      invariant (sequences, memo') == ResolvedBases(bases, c, memo, path, |sequences|)
    {
      sequences, memo', met' := LinearizeNext(bases, c, memo', path, sequences, met, met', ranked, rank);
    }
  }

  /** Linearize a class with bases: merge what its bases give. */
  method Expand(bases: ClassMap, c: string, memo: Memo, onPath: seq<string>, ghost met: set<string>,
                ghost ranked: bool, ghost rank: string -> nat)
    returns (result: seq<string>, memo': Memo, ghost met': set<string>)
    requires Valid(bases, memo, onPath, met) && (ranked ==> Descends(bases, rank, memo, onPath, c))
    requires c in bases && bases[c] != [] && c !in onPath
    ensures Valid(bases, memo', onPath, met') && Gives(bases, c, met, met', result)
    ensures ranked ==> Descends(bases, rank, memo', onPath, c) && result == Linearization(bases, rank, c)
    ensures c !in memo ==> (result, memo') == Resolved(bases, c, memo, onPath)
    decreases bases.Keys - Elements(onPath), 0
  {
    var path := onPath + [c];
    assert Elements(path) == Elements(onPath) + {c} && path[..|path| - 1] == onPath;
    var sequences;
    sequences, memo', met' := LinearizeBases(bases, c, memo, path, met + {c}, ranked, rank);
    BasesAreOnlyAncestors(bases, c, sequences);
    result := MergeInputs(bases, c, sequences + [bases[c]]);
    if ranked {
      LinearizedInputs(bases, rank, c, sequences);
      DescendsMore(bases, rank, memo', onPath, c, result);
    }
    LeavesPath(bases, memo', met', onPath, c, result);
    memo' := memo'[c := result];
  }

  /** On a ranked map the class may be remembered with its linearization. */
  lemma DescendsMore(bases: ClassMap, rank: string -> nat, memo: Memo, path: seq<string>, c: string,
                     r: seq<string>)
    requires Descends(bases, rank, memo, path, c) && r == Linearization(bases, rank, c)
    ensures Descends(bases, rank, memo[c := r], path, c)
  {
  }

  /** The class before the merge of what its bases give. */
  method MergeInputs(bases: ClassMap, c: string, inputs: seq<seq<string>>) returns (result: seq<string>)
    requires OnlyAncestors(bases, c, inputs)
    ensures result == WithNovel([c], Merged(inputs)) && Sound(bases, c, result)
    ensures forall x :: Holds(inputs, x) ==> x in result
  {
    var merged := C3Merge(inputs);
    result := PushNovel([c], merged);
    ResultIsSound(bases, c, inputs);
  }

  /** Linearize a class, given what was remembered and the path that led to it. */
  method Linearize(bases: ClassMap, c: string, memo: Memo, onPath: seq<string>,
                   ghost met: set<string>, ghost ranked: bool, ghost rank: string -> nat)
    returns (result: seq<string>, memo': Memo, ghost met': set<string>)
    requires Valid(bases, memo, onPath, met) && (ranked ==> Descends(bases, rank, memo, onPath, c))
    ensures Valid(bases, memo', onPath, met') && Gives(bases, c, met, met', result)
    ensures ranked ==> Descends(bases, rank, memo', onPath, c) && result == Linearization(bases, rank, c)
    ensures (result, memo') == Resolved(bases, c, memo, onPath)
    decreases bases.Keys - Elements(onPath), 1
  {
    InheritsItself(bases, c);
    memo', met' := memo, met;
    if c in memo {
      return memo[c], memo, met;
    }
    if c in onPath {
      return [c], memo, met;
    }
    if c !in bases || bases[c] == [] {
      return [c], memo, met + {c};
    }
    result, memo', met' := Expand(bases, c, memo, onPath, met, ranked, rank);
  }

  /** The order of a class: it first, no class twice, exactly the classes it inherits from; on acyclic maps the C3
      linearization, as if nothing had been remembered. */
  method C3Linearize(bases: ClassMap, class_: string) returns (result: seq<string>)
    ensures result == Order(bases, class_)
    ensures result != [] && result[0] == class_ && NoDup(result)
    ensures forall x :: x in result <==> Inherits(bases, class_, x)
    ensures Acyclic(bases) ==> IsRank(bases, Depth(bases)) && result == Linearization(bases, Depth(bases), class_)
  {
    if Acyclic(bases) {
      AcyclicHasRank(bases);
    }
    var memo;
    ghost var met;
    result, memo, met := Linearize(bases, class_, map[], [], {}, Acyclic(bases), Depth(bases));
    forall x | Inherits(bases, class_, x)
      ensures x in result
    {
      ClosedConfines(bases, met, class_, x);
    }
  }

  // ----- What a linearization keeps

  lemma OnlyBelow(bases: ClassMap, rank: string -> nat, c: string)
    requires IsRank(bases, rank) && c in bases
    ensures !Holds(Inputs(bases, rank, c), c)
  {
    var inputs := Inputs(bases, rank, c);
    forall i | 0 <= i < |inputs|
      ensures c !in inputs[i]
    {
      if i < |bases[c]| {
        assert Base(bases, c, bases[c][i]);
        RankBounds(bases, rank, bases[c][i]);
      } else {
        assert forall x :: x in bases[c] ==> Base(bases, c, x) && rank(x) < rank(c);
      }
    }
  }

  ghost predicate AllBelow(xs: seq<string>, rank: string -> nat, bound: nat) {
    forall i :: 0 <= i < |xs| ==> rank(xs[i]) <= bound
  }

  /** A linearization names only classes of no higher rank. */
  lemma {:induction false} RankBounds(bases: ClassMap, rank: string -> nat, c: string)
    requires IsRank(bases, rank)
    ensures AllBelow(Linearization(bases, rank, c), rank, rank(c))
    decreases rank(c)
  {
    if c in bases && bases[c] != [] {
      var inputs := Inputs(bases, rank, c);
      forall i | 0 <= i < |inputs|
        ensures AllBelow(inputs[i], rank, rank(c))
      {
        forall k | 0 <= k < |bases[c]|
          ensures rank(bases[c][k]) <= rank(c)
        {
          assert Base(bases, c, bases[c][k]);
        }
        if i < |bases[c]| {
          assert Base(bases, c, bases[c][i]);
          RankBounds(bases, rank, bases[c][i]);
        }
      }
      MergedBelow(inputs, c, rank);
    }
  }

  lemma MergedBelow(inputs: seq<seq<string>>, c: string, rank: string -> nat)
    requires forall i :: 0 <= i < |inputs| ==> AllBelow(inputs[i], rank, rank(c))
    ensures AllBelow(WithNovel([c], Merged(inputs)), rank, rank(c))
  {
    var r := WithNovel([c], Merged(inputs));
    WithNovelFacts([c], Merged(inputs));
    forall i | 0 <= i < |r|
      ensures rank(r[i]) <= rank(c)
    {
      assert r[i] in r;
      MergedElements(inputs, r[i]);
    }
  }

  lemma {:induction false} AllNovel<T(!new)>(start: seq<T>, s: seq<T>)
    requires NoDup(start + s)
    ensures WithNovel(start, s) == start + s
  {
    if s != [] {
      var front := s[..|s| - 1];
      assert start + s == (start + front) + [s[|s| - 1]];
      assert forall i, j :: 0 <= i < j < |start + front| ==>
        (start + front)[i] == (start + s)[i] && (start + front)[j] == (start + s)[j];
      AllNovel(start, front);
      assert forall i :: 0 <= i < |start + front| ==> (start + front)[i] == (start + s)[i];
      assert (start + s)[|start + front|] == s[|s| - 1];
    } else {
      assert start + s == start;
    }
  }

  /** Where the inputs have a common order the linearization is the class before the merge. */
  lemma LinearizationIsMerge(bases: ClassMap, rank: string -> nat, c: string, order: seq<string>)
    requires IsRank(bases, rank) && c in bases && bases[c] != [] && Consistent(Inputs(bases, rank, c), order)
    ensures Linearization(bases, rank, c) == [c] + Merged(Inputs(bases, rank, c))
  {
    var inputs := Inputs(bases, rank, c);
    ConsistentNeverForced(inputs, order);
    UnforcedExactlyWhenConsistent(inputs);
    OnlyBelow(bases, rank, c);
    MergedElements(inputs, c);
    AllNovel([c], Merged(inputs));
  }

  lemma InputEmbeds(inputs: seq<seq<string>>, i: nat, c: string)
    requires i < |inputs|
    ensures Embeds(inputs[i], [c] + Merged(inputs))
  {
    MergedEmbeds(inputs, inputs[i]);
    EmbedsBehind(inputs[i], c, Merged(inputs));
  }

  lemma BaseEmbeds(bases: ClassMap, rank: string -> nat, c: string, b: string, order: seq<string>)
    requires IsRank(bases, rank) && c in bases && b in bases[c] && order == [c] + Merged(Inputs(bases, rank, c))
    ensures Embeds(Linearization(bases, rank, b), order) && Embeds(bases[c], order)
  {
    var i :| 0 <= i < |bases[c]| && bases[c][i] == b;
    InputAt(bases, rank, c, i);
    InputEmbeds(Inputs(bases, rank, c), i, c);
    InputEmbeds(Inputs(bases, rank, c), |bases[c]|, c);
  }

  /** Whenever the linearizations of the bases and the list of bases have a common order, the linearization
      keeps them all. */
  lemma LinearizationKeepsOrders(bases: ClassMap, rank: string -> nat, c: string, order: seq<string>)
    requires IsRank(bases, rank) && c in bases && bases[c] != [] && Consistent(Inputs(bases, rank, c), order)
    ensures Embeds(bases[c], Linearization(bases, rank, c))
    ensures forall b :: b in bases[c] ==> Embeds(Linearization(bases, rank, b), Linearization(bases, rank, c))
  {
    LinearizationIsMerge(bases, rank, c, order);
    BaseEmbeds(bases, rank, c, bases[c][0], Linearization(bases, rank, c));
    forall b | b in bases[c]
      ensures Embeds(Linearization(bases, rank, b), Linearization(bases, rank, c))
    {
      BaseEmbeds(bases, rank, c, b, Linearization(bases, rank, c));
    }
  }
}
