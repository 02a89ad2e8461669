/** Dotted names: `src/names.rs` and the parent iterator of `src/traits.rs`. */
module Names {
  import opened Wrappers

  // ----- Parents of a dotted name

  /** A proper dotted prefix: the part of `name` before one of its dots. */
  ghost predicate IsParent(p: string, name: string) {
    |p| < |name| && name[|p|] == '.' && p == name[..|p|]
  }

  /** The position of the last dot before `end`. */
  method RFindDot(name: string, end: nat) returns (pos: Option<nat>)
    requires end <= |name|
    ensures pos.None? ==> forall i :: 0 <= i < end ==> name[i] != '.'
    ensures pos.Some? ==> pos.value < end && name[pos.value] == '.' && forall i :: pos.value < i < end ==>
      name[i] != '.'
  {
    var i: nat := end;
    while i > 0
      invariant i <= end && forall j :: i <= j < end ==> name[j] != '.'
    {
      i := i - 1;
      if name[i] == '.' {
        return Some(i);
      }
    }
    return None;
  }

  /** The parents of `name` that end before `end`, longest first. */
  function ParentsBefore(name: string, end: nat): (ps: seq<string>)
    requires end <= |name|
    ensures forall p :: p in ps <==> IsParent(p, name) && |p| < end
  {
    if end == 0 then []
    else if name[end - 1] == '.' then
      var rest := ParentsBefore(name, end - 1);
      assert IsParent(name[..end - 1], name);
      [name[..end - 1]] + rest
    else ParentsBefore(name, end - 1)
  }

  function Parents(name: string): (ps: seq<string>)
    ensures forall p :: p in ps <==> IsParent(p, name)
  {
    ParentsBefore(name, |name|)
  }

  lemma {:induction false} ParentsSkip(name: string, from: nat, end: nat)
    requires from <= end <= |name| && forall i :: from <= i < end ==> name[i] != '.'
    ensures ParentsBefore(name, end) == ParentsBefore(name, from)
    decreases end
  {
    if from < end {
      ParentsSkip(name, from, end - 1);
    }
  }

  lemma ParentsStep(name: string, pos: nat, end: nat)
    requires pos < end <= |name| && name[pos] == '.' && forall i :: pos < i < end ==> name[i] != '.'
    ensures ParentsBefore(name, end) == [name[..pos]] + ParentsBefore(name, pos)
  {
    ParentsSkip(name, pos + 1, end);
  }

  /** The iterator over the parents of `s`, longest first; `end` is where the search continues. */
  class ParentIter {
    const s: string
    var end: nat

    constructor (name: string)
      ensures s == name && Valid() && Remaining() == Parents(name)
    {
      s, end := name, |name|;
    }

    ghost predicate Valid()
      reads this
    {
      end <= |s|
    }

    /** The parents still to come. */
    ghost function Remaining(): seq<string>
      requires Valid()
      reads this
    {
      ParentsBefore(s, end)
    }

    method Next() returns (parent: Option<string>)
      requires Valid()
      modifies this
      ensures Valid()
      ensures parent.Some? ==> end == |parent.value| < old(end)
      ensures old(Remaining()) == [] ==> parent == None && Remaining() == []
      ensures old(Remaining()) != [] ==> parent == Some(old(Remaining())[0]) && Remaining() == old(Remaining())[1..]
    {
      var pos := RFindDot(s, end);
      if pos.None? {
        ParentsSkip(s, 0, end);
        return None;
      }
      ParentsStep(s, pos.value, end);
      end := pos.value;
      parent := Some(s[..pos.value]);
    }
  }

  /** Whether `name` sits under the package `package`. */
  predicate IsAncestorOf(package: string, name: string)
    ensures IsAncestorOf(package, name) <==> IsParent(package, name)
  {
    package <= name && |package| < |name| && name[|package|] == '.'
  }

  /** A parent of a parent is a parent. */
  lemma ParentsNest(p: string, q: string, name: string)
    requires IsParent(p, q) && IsParent(q, name)
    ensures IsParent(p, name)
  {
    assert name[|p|] == q[|p|] && name[..|p|] == q[..|p|];
  }

  /** Of two parents of a name the shorter is a parent of the longer. */
  lemma ParentsChain(p: string, q: string, name: string)
    requires IsParent(p, name) && IsParent(q, name) && |p| < |q|
    ensures IsParent(p, q)
  {
    assert q[|p|] == name[|p|] && q[..|p|] == name[..|p|];
  }

  // ----- The module a name is defined in

  /** `module` is the longest proper dotted prefix of `name` among `modules`, and `local` the rest past its dot. */
  ghost predicate SplitsAt(name: string, modules: set<string>, module_: string, local: string) {
    && IsParent(module_, name) && module_ in modules && local == name[|module_| + 1..]
    && forall q :: IsParent(q, name) && q in modules ==> |q| <= |module_|
  }

  ghost predicate Unqualified(name: string, modules: set<string>) {
    forall q :: IsParent(q, name) ==> q !in modules
  }

  /** The first of `parents` that is a module, with the rest of the name. */
  function FirstModule(name: string, parents: seq<string>, modules: set<string>): Option<(string, string)>
    requires forall p :: p in parents ==> IsParent(p, name)
  {
    if parents == [] then None
    else if parents[0] in modules then
      assert IsParent(parents[0], name);
      Some((parents[0], name[|parents[0]| + 1..]))
    else FirstModule(name, parents[1..], modules)
  }

  /** The enclosing module, found among the parents from longest to shortest. */
  function EnclosingModule(name: string, modules: set<string>): (r: Option<(string, string)>)
    ensures r.Some? ==> SplitsAt(name, modules, r.value.0, r.value.1)
    ensures r.None? ==> Unqualified(name, modules)
  {
    FirstIsLongest(name, |name|, modules);
    FirstModule(name, Parents(name), modules)
  }

  /** `r` splits `name` at the longest module among the parents that end before `end`, if there is one. */
  ghost predicate LongestBefore(name: string, end: nat, modules: set<string>, r: Option<(string, string)>) {
    match r
    case Some((m, local)) =>
      && IsParent(m, name) && |m| < end && m in modules && local == name[|m| + 1..]
      && forall q :: IsParent(q, name) && |q| < end && q in modules ==> |q| <= |m|
    case None => forall q :: IsParent(q, name) && |q| < end ==> q !in modules
  }

  /** The last parent before `end` comes first. */
  lemma FirstStep(name: string, end: nat, modules: set<string>)
    requires 0 < end <= |name|
    ensures FirstModule(name, ParentsBefore(name, end), modules) ==
            if name[end - 1] == '.' && name[..end - 1] in modules then Some((name[..end - 1], name[end..]))
            else FirstModule(name, ParentsBefore(name, end - 1), modules)
  {
    if name[end - 1] == '.' {
      assert ParentsBefore(name, end)[1..] == ParentsBefore(name, end - 1);
    }
  }

  lemma LongestStep(name: string, end: nat, modules: set<string>, r: Option<(string, string)>)
    requires 0 < end <= |name| && LongestBefore(name, end - 1, modules, r)
    ensures
      var here := name[end - 1] == '.' && name[..end - 1] in modules;
      LongestBefore(name, end, modules, if here then Some((name[..end - 1], name[end..])) else r)
  {
    forall q | IsParent(q, name) && |q| == end - 1
      ensures name[end - 1] == '.' && q == name[..end - 1]
    {
    }
    if name[end - 1] == '.' {
      assert IsParent(name[..end - 1], name);
    }
  }

  lemma {:induction false} FirstIsLongest(name: string, end: nat, modules: set<string>)
    requires end <= |name|
    ensures LongestBefore(name, end, modules, FirstModule(name, ParentsBefore(name, end), modules))
  {
    if end > 0 {
      FirstIsLongest(name, end - 1, modules);
      FirstStep(name, end, modules);
      LongestStep(name, end, modules, FirstModule(name, ParentsBefore(name, end - 1), modules));
    }
  }

  /** The search over string slices finds the same module as the search over the parents. */
  method EnclosingModuleStr(name: string, modules: set<string>) returns (r: Option<(string, string)>)
    ensures r == EnclosingModule(name, modules)
  {
    var end: nat := |name|;
    while true
      invariant end <= |name|
      invariant EnclosingModule(name, modules) == FirstModule(name, ParentsBefore(name, end), modules)
      decreases end
    {
      var pos := RFindDot(name, end);
      if pos.None? {
        ParentsSkip(name, 0, end);
        return None;
      }
      ParentsSkip(name, pos.value + 1, end);
      FirstStep(name, pos.value + 1, modules);
      end := pos.value;
      if name[..end] in modules {
        return Some((name[..end], name[end + 1..]));
      }
    }
  }

  /** A split is unique. */
  lemma SplitUnique(name: string, modules: set<string>, m: string, l: string)
    requires SplitsAt(name, modules, m, l)
    ensures EnclosingModule(name, modules) == Some((m, l))
  {
    var r := EnclosingModule(name, modules);
    assert r.Some?;
    assert m == name[..|m|] && r.value.0 == name[..|r.value.0|];
  }
}
