/** Function verdicts and their merging: `src/module_safety.rs`. */
module Safety {
  import opened Effects

  /** The set of safety concerns of a function, one flag per bit; no concern is safe. */
  datatype FunctionSafety = FunctionSafety(unsafeIfImported: bool, unsafeMissingDep: bool, hardUnsafe: bool) {

    predicate Has(other: FunctionSafety) {
      || (unsafeIfImported && other.unsafeIfImported)
      || (unsafeMissingDep && other.unsafeMissingDep)
      || (hardUnsafe && other.hardUnsafe)
    }

    /** Add the concerns in `other`. */
    function Insert(other: FunctionSafety): FunctionSafety {
      FunctionSafety(unsafeIfImported || other.unsafeIfImported,
                     unsafeMissingDep || other.unsafeMissingDep,
                     hardUnsafe || other.hardUnsafe)
    }

    /** Remove the concerns in `other`. */
    function Without(other: FunctionSafety): FunctionSafety {
      FunctionSafety(unsafeIfImported && !other.unsafeIfImported,
                     unsafeMissingDep && !other.unsafeMissingDep,
                     hardUnsafe && !other.hardUnsafe)
    }

    predicate IsSafe() {
      !unsafeIfImported && !unsafeMissingDep && !hardUnsafe
    }

    /** Exactly safe or exactly unsafe-if-imported: does not block a caller. */
    predicate NonBlocking() {
      !unsafeMissingDep && !hardUnsafe
    }
  }

  const SAFE := FunctionSafety(false, false, false)
  const UNSAFE_IF_IMPORTED := FunctionSafety(true, false, false)
  const UNSAFE_MISSING_DEP := FunctionSafety(false, true, false)
  const UNSAFE := FunctionSafety(false, false, true)

  datatype MutatedParam = MutatedParam(name: string, position: ParamPosition)

  datatype Info = Info(verdict: FunctionSafety, missing: set<string>, params: seq<MutatedParam>)

  ghost function ParamNames(params: seq<MutatedParam>): set<string> {
    set p | p in params :: p.name
  }

  ghost predicate HasParam(params: seq<MutatedParam>, name: string) {
    exists i :: 0 <= i < |params| && params[i].name == name
  }

  /** `params` with those of `more` whose name it does not hold yet, the first of each name. */
  ghost function Extended(params: seq<MutatedParam>, more: seq<MutatedParam>): seq<MutatedParam> {
    if more == [] then params
    else
      var rest := Extended(params, more[..|more| - 1]);
      var last := more[|more| - 1];
      if HasParam(rest, last.name) then rest else rest + [last]
  }

  /** Extension adds exactly the names of `more`, keeps what was there in place, and is longer only by new names. */
  lemma {:induction false} ExtendedFacts(params: seq<MutatedParam>, more: seq<MutatedParam>)
    ensures params <= Extended(params, more)
    ensures forall n :: HasParam(Extended(params, more), n) <==> HasParam(params, n) || HasParam(more, n)
    ensures Extended(params, more) == params <==> forall n :: HasParam(more, n) ==> HasParam(params, n)
  {
    if more != [] {
      var front, last := more[..|more| - 1], more[|more| - 1];
      ExtendedFacts(params, front);
      var rest, all := Extended(params, front), Extended(params, more);
      forall n
        ensures HasParam(more, n) <==> HasParam(front, n) || n == last.name
      {
        if HasParam(front, n) {
          var i :| 0 <= i < |front| && front[i].name == n;
          assert more[i].name == n;
        }
        assert more[|more| - 1] == last;
      }
      if !HasParam(rest, last.name) {
        assert all[|rest|] == last;
        forall n
          ensures HasParam(all, n) <==> HasParam(rest, n) || n == last.name
        {
          if HasParam(rest, n) {
            var i :| 0 <= i < |rest| && rest[i].name == n;
            assert all[i].name == n;
          }
        }
        assert HasParam(more, last.name);
      }
    }
  }

  /** A parameter that extension adds is the first of its name in the list it comes from. */
  lemma {:induction false} ExtendedByFirst(params: seq<MutatedParam>, more: seq<MutatedParam>, k: nat)
    requires |params| <= k < |Extended(params, more)|
    ensures exists j: nat :: j < |more| && more[j] == Extended(params, more)[k]
                             && forall i :: 0 <= i < j ==> more[i].name != more[j].name
  {
    var front, last := more[..|more| - 1], more[|more| - 1];
    var rest := Extended(params, front);
    if k < |rest| {
      ExtendedByFirst(params, front, k);
      var j: nat :| j < |front| && front[j] == rest[k] && forall i :: 0 <= i < j ==> front[i].name != front[j].name;
      assert more[j] == front[j] && forall i :: 0 <= i < j ==> more[i] == front[i];
    } else {
      ExtendedFacts(params, front);
      forall i | 0 <= i < |front|
        ensures more[i].name != last.name
      {
        assert front[i] == more[i] && HasParam(front, front[i].name);
      }
    }
  }

  ghost predicate DistinctNames(params: seq<MutatedParam>) {
    forall i, j :: 0 <= i < j < |params| ==> params[i].name != params[j].name
  }

  /** Extension never lists a name twice. */
  lemma {:induction false} ExtendedKeepsDistinct(params: seq<MutatedParam>, more: seq<MutatedParam>)
    requires DistinctNames(params)
    ensures DistinctNames(Extended(params, more))
  {
    if more != [] {
      ExtendedKeepsDistinct(params, more[..|more| - 1]);
    }
  }

  method ExtendMutatedParams(params: seq<MutatedParam>, more: seq<MutatedParam>) returns (all: seq<MutatedParam>)
    ensures all == Extended(params, more)
  {
    all := params;
    for i := 0 to |more|
      invariant all == Extended(params, more[..i])
    {
      assert more[..i + 1][..i] == more[..i];
      if !exists k :: 0 <= k < |all| && all[k].name == more[i].name {
        all := all + [more[i]];
      }
    }
    assert more[..|more|] == more;
  }

  ghost function Merged(a: Info, b: Info): Info {
    Info(a.verdict.Insert(b.verdict), a.missing + b.missing, Extended(a.params, b.params))
  }

  /** Fold the concerns of `b` into `a`, and say whether `a` changed. */
  method MergeRef(a: Info, b: Info) returns (merged: Info, changed: bool)
    ensures merged == Merged(a, b) && changed == (merged != a)
  {
    var params := ExtendMutatedParams(a.params, b.params);
    merged := Info(a.verdict.Insert(b.verdict), a.missing + b.missing, params);
    ExtendedFacts(a.params, b.params);
    changed := merged.verdict != a.verdict || |merged.missing| != |a.missing| || |merged.params| != |a.params|;
    Grows(a.missing, merged.missing);
  }

  lemma Grows<T>(a: set<T>, b: set<T>)
    requires a <= b
    ensures |a| == |b| ==> a == b
  {
    assert b == a + (b - a);
  }

  // ----- The concerns of a function as facts

  /** What a verdict record says, positions of mutated parameters aside. */
  datatype Fact = Present | Concern(which: FunctionSafety) | Missing(callee: string) | Mutates(param: string)

  ghost predicate Says(info: Info, f: Fact) {
    match f
    case Present => true
    case Concern(which) => info.verdict.Has(which)
    case Missing(callee) => callee in info.missing
    case Mutates(param) => HasParam(info.params, param)
  }

  /** A merged record says what either record says, and it is unchanged exactly when it said so before. */
  lemma MergedFacts(a: Info, b: Info)
    ensures forall f :: Says(Merged(a, b), f) <==> Says(a, f) || Says(b, f)
    ensures Merged(a, b) == a <==> forall f :: Says(b, f) ==> Says(a, f)
  {
    ExtendedFacts(a.params, b.params);
    var m := Merged(a, b);
    if forall f :: Says(b, f) ==> Says(a, f) {
      assert forall n :: HasParam(b.params, n) ==> Says(b, Mutates(n)) && Says(a, Mutates(n));
      assert forall c :: c in b.missing ==> Says(b, Missing(c)) && Says(a, Missing(c));
      assert Says(b, Concern(UNSAFE_IF_IMPORTED)) ==> Says(a, Concern(UNSAFE_IF_IMPORTED));
      assert Says(b, Concern(UNSAFE_MISSING_DEP)) ==> Says(a, Concern(UNSAFE_MISSING_DEP));
      assert Says(b, Concern(UNSAFE)) ==> Says(a, Concern(UNSAFE));
      assert m.missing == a.missing;
    }
  }

  /** Two records that say the same agree on the verdict, the missing callees and the names of the
      mutated parameters. */
  lemma SameFacts(a: Info, b: Info)
    requires forall f :: Says(a, f) <==> Says(b, f)
    ensures a.verdict == b.verdict && a.missing == b.missing && ParamNames(a.params) == ParamNames(b.params)
  {
    assert Says(a, Concern(UNSAFE_IF_IMPORTED)) <==> Says(b, Concern(UNSAFE_IF_IMPORTED));
    assert Says(a, Concern(UNSAFE_MISSING_DEP)) <==> Says(b, Concern(UNSAFE_MISSING_DEP));
    assert Says(a, Concern(UNSAFE)) <==> Says(b, Concern(UNSAFE));
    forall c
      ensures c in a.missing <==> c in b.missing
    {
      assert Says(a, Missing(c)) <==> Says(b, Missing(c));
    }
    forall n
      ensures n in ParamNames(a.params) <==> n in ParamNames(b.params)
    {
      assert Says(a, Mutates(n)) <==> Says(b, Mutates(n));
    }
  }
}
