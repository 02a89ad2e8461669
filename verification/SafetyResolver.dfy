/** Whether a callee is verified safe: the lookups of `src/safety_resolver.rs`. */
module SafetyResolver {
  import opened Wrappers
  import opened Names
  import opened Safety
  import opened Resolution
  import opened Inheritance
  import opened Sequences
  import Mro
  import Promotion
  import Exports

  /** What lookups consult: the modules, the merged verdicts, and the direct bases of each class. */
  datatype Facts = Facts(modules: set<string>, table: Table, bases: ClassMap)

  // ----- Names without a module

  /** Some module holds a function of that name that is exactly safe. */
  ghost predicate SafeSomewhere(name: string, facts: Facts) {
    Promotion.Somewhere(name, SAFE, facts.table, facts.modules)
  }

  /** The index answers when there is one, a scan of the modules when not. */
  method UnqualifiedSafe(name: string, facts: Facts, index: Option<set<string>>) returns (safe: bool)
    ensures index.Some? ==> safe == (name in index.value)
    ensures index.None? ==> safe == SafeSomewhere(name, facts)
  {
    if index.Some? {
      return name in index.value;
    }
    var todo := facts.modules;
    while todo != {}
      invariant todo <= facts.modules
      invariant forall m :: m in facts.modules && m !in todo ==> !Promotion.Holds(facts.table, Key(m, name), SAFE)
      decreases todo
    {
      var m :| m in todo;
      todo := todo - {m};
      var key := Key(m, name);
      if key in facts.table && facts.table[key].verdict.IsSafe() {
        assert Promotion.Holds(facts.table, Key(m, name), SAFE);
        return true;
      }
    }
    return false;
  }

  // ----- Methods looked up along the resolution order

  /** The verdict of the first class of the order that defines the method. */
  ghost function FirstDefined(order: seq<string>, name: string, facts: Facts): Option<FunctionSafety> {
    if order == [] then None
    else
      var found := LookupCallee(Exports.JoinDot(order[0], name), facts.modules, facts.table);
      if found.Some? then Some(found.value.verdict) else FirstDefined(order[1..], name, facts)
  }

  /** The class has an entry for the method, at the longest module prefix of its full name. */
  ghost predicate DefinedAt(class_: string, name: string, key: Key, facts: Facts) {
    SplitsAt(class_ + "." + name, facts.modules, key.module_, key.name) && key in facts.table
  }

  ghost predicate Defines(class_: string, name: string, facts: Facts) {
    exists key :: DefinedAt(class_, name, key, facts)
  }

  lemma LookupPlainly(class_: string, name: string, facts: Facts)
    ensures
      var found := LookupCallee(class_ + "." + name, facts.modules, facts.table);
      && (found.Some? <==> Defines(class_, name, facts))
      && (found.Some? ==> exists key :: DefinedAt(class_, name, key, facts) && facts.table[key] == found.value)
  {
    var full := class_ + "." + name;
    var split := EnclosingModule(full, facts.modules);
    if key :| DefinedAt(class_, name, key, facts) {
      SplitUnique(full, facts.modules, key.module_, key.name);
    }
    if LookupCallee(full, facts.modules, facts.table).Some? {
      assert DefinedAt(class_, name, Key(split.value.0, split.value.1), facts);
    }
  }

  lemma {:induction false} SkipUndefined(order: seq<string>, i: nat, name: string, facts: Facts)
    requires i <= |order| && forall j :: 0 <= j < i ==> !Defines(order[j], name, facts)
    ensures FirstDefined(order, name, facts) == FirstDefined(order[i..], name, facts)
  {
    if i > 0 {
      LookupPlainly(order[0], name, facts);
      SkipUndefined(order[1..], i - 1, name, facts);
      assert order[1..][i - 1..] == order[i..];
    } else {
      assert order[0..] == order;
    }
  }

  /** There is no verdict when no class of the order defines the method. */
  lemma NoneDefined(order: seq<string>, name: string, facts: Facts)
    requires forall j :: 0 <= j < |order| ==> !Defines(order[j], name, facts)
    ensures FirstDefined(order, name, facts) == None
  {
    SkipUndefined(order, |order|, name, facts);
  }

  /** The first class of the order that defines the method gives the verdict. */
  lemma FirstDefinedPlainly(order: seq<string>, i: nat, name: string, facts: Facts, key: Key)
    requires i < |order| && DefinedAt(order[i], name, key, facts)
    requires forall j :: 0 <= j < i ==> !Defines(order[j], name, facts)
    ensures FirstDefined(order, name, facts) == Some(facts.table[key].verdict)
  {
    SkipUndefined(order, i, name, facts);
    SplitUnique(order[i] + "." + name, facts.modules, key.module_, key.name);
    assert order[i..][0] == order[i];
  }

  /** The resolution order of the class: it starts with the class and names it and its ancestors once each; without
      cycles it is the C3 linearization. */
  ghost predicate IsOrder(order: seq<string>, class_: string, bases: ClassMap) {
    && order == Mro.Order(bases, class_)
    && order != [] && order[0] == class_ && NoDup(order)
    && (forall x :: x in order <==> Inherits(bases, class_, x))
    && (Acyclic(bases) ==> IsRank(bases, Depth(bases)) && order == Mro.Linearization(bases, Depth(bases), class_))
  }

  /** An inherited method takes the verdict of the nearest ancestor in resolution order that defines it. */
  method MroMethodVerdict(module_: string, local: string, facts: Facts) returns (verdict: Option<FunctionSafety>)
    ensures (forall k :: !Exports.SplitsLast(local, k)) ==> verdict == None
    ensures forall k :: Exports.SplitsLast(local, k) ==>
      exists order :: IsOrder(order, Exports.JoinDot(module_, k.module_), facts.bases)
                      && verdict == FirstDefined(order[1..], k.attr, facts)
  {
    var split := Exports.RSplitOnce(local);
    if split.None? {
      return None;
    }
    forall k | Exports.SplitsLast(local, k)
      ensures k == split.value
    {
      Exports.SplitLastUnique(local, k, split.value);
    }
    var class_ := Exports.JoinDot(module_, split.value.module_);
    var order := Mro.C3Linearize(facts.bases, class_);
    assert IsOrder(order, class_, facts.bases);
    for i := 1 to |order|
      invariant FirstDefined(order[1..], split.value.attr, facts) == FirstDefined(order[i..], split.value.attr, facts)
    {
      var found := LookupCallee(Exports.JoinDot(order[i], split.value.attr), facts.modules, facts.table);
      if found.Some? {
        return Some(found.value.verdict);
      }
    }
    return None;
  }

  /** The entry itself decides where there is one; only without one is the nearest inherited definition asked. */
  ghost predicate QualifiedSafe(key: Key, facts: Facts) {
    if key in facts.table then facts.table[key].verdict.IsSafe()
    else exists k, order ::
      Exports.SplitsLast(key.name, k) && IsOrder(order, Exports.JoinDot(key.module_, k.module_), facts.bases)
      && InheritsSafe(order, k.attr, facts)
  }

  ghost predicate InheritsSafe(order: seq<string>, name: string, facts: Facts)
    requires order != []
  {
    FirstDefined(order[1..], name, facts) == Some(SAFE)
  }

  /** A call clears exactly when its callee is safe where it resolves. */
  method IsCallVerifiedSafe(name: string, facts: Facts, index: Option<set<string>>) returns (safe: bool)
    requires SplitKey(name, facts.modules).None? && index.Some? ==>
      (name in index.value <==> SafeSomewhere(name, facts))
    ensures SplitKey(name, facts.modules).None? ==> (safe <==> SafeSomewhere(name, facts))
    ensures SplitKey(name, facts.modules).Some? ==>
      (safe <==> QualifiedSafe(SplitKey(name, facts.modules).value, facts))
  {
    var split := SplitKey(name, facts.modules);
    if split.None? {
      safe := UnqualifiedSafe(name, facts, index);
      return;
    }
    var key := split.value;
    if key in facts.table {
      return facts.table[key].verdict.IsSafe();
    }
    var verdict := MroMethodVerdict(key.module_, key.name, facts);
    safe := verdict == Some(SAFE);
    forall k | Exports.SplitsLast(key.name, k)
      ensures safe ==> QualifiedSafe(key, facts)
      ensures QualifiedSafe(key, facts) ==> safe
    {
      InheritedVerdict(key, k, facts, verdict);
    }
  }

  lemma InheritedVerdict(key: Key, k: Exports.Attribute, facts: Facts, verdict: Option<FunctionSafety>)
    requires key !in facts.table && Exports.SplitsLast(key.name, k)
    requires exists order :: IsOrder(order, Exports.JoinDot(key.module_, k.module_), facts.bases)
                             && verdict == FirstDefined(order[1..], k.attr, facts)
    ensures verdict == Some(SAFE) ==> QualifiedSafe(key, facts)
    ensures QualifiedSafe(key, facts) ==> verdict == Some(SAFE)
  {
    var order :| IsOrder(order, Exports.JoinDot(key.module_, k.module_), facts.bases)
                 && verdict == FirstDefined(order[1..], k.attr, facts);
    if verdict == Some(SAFE) {
      assert InheritsSafe(order, k.attr, facts);
    }
    if QualifiedSafe(key, facts) {
      var l, o :| Exports.SplitsLast(key.name, l) && IsOrder(o, Exports.JoinDot(key.module_, l.module_), facts.bases)
                  && InheritsSafe(o, l.attr, facts);
      Exports.SplitLastUnique(key.name, k, l);
    }
  }

  // ----- Decorators

  /** A function nested directly in `local`. */
  predicate IsImmediateChild(local: string, name: string) {
    |name| > |local| && local <= name && name[|local|] == '.' && '.' !in name[|local| + 1..]
  }

  predicate IsClassLike(module_: string, local: string, table: Table) {
    exists m :: m in CONSTRUCTOR_METHODS && Key(module_, Exports.JoinDot(local, m)) in table
  }

  /** The decorator is safe, and so is every function directly inside it unless it is a class. */
  predicate DecoratorSafeIn(module_: string, local: string, table: Table) {
    && Key(module_, local) in table && table[Key(module_, local)].verdict.IsSafe()
    && (IsClassLike(module_, local, table)
        || forall key :: key in table && key.module_ == module_ && IsImmediateChild(local, key.name) ==>
          table[key].verdict == SAFE)
  }

  /** The three methods a constructor call may run. */
  ghost predicate HasConstructor(module_: string, local: string, table: Table) {
    || Key(module_, local + "." + "__init__") in table
    || Key(module_, local + "." + "__new__") in table
    || Key(module_, local + "." + "__post_init__") in table
  }

  /** Every function one level inside is safe. */
  ghost predicate ChildrenSafe(module_: string, local: string, table: Table) {
    forall rest :: '.' !in rest && Key(module_, local + "." + rest) in table ==>
      table[Key(module_, local + "." + rest)].verdict == SAFE
  }

  lemma ChildPlainly(local: string, name: string)
    ensures IsImmediateChild(local, name) <==> exists rest :: name == local + "." + rest && '.' !in rest
  {
    if IsImmediateChild(local, name) {
      assert name == local + "." + name[|local| + 1..];
    }
    if rest :| name == local + "." + rest && '.' !in rest {
      assert name[|local| + 1..] == rest && name[..|local|] == local;
    }
  }

  lemma ChildrenPlainly(module_: string, local: string, table: Table)
    ensures ChildrenSafe(module_, local, table) <==>
      forall key :: key in table && key.module_ == module_ && IsImmediateChild(local, key.name) ==>
        table[key].verdict == SAFE
  {
    forall name
      ensures IsImmediateChild(local, name) <==> exists rest :: name == local + "." + rest && '.' !in rest
    {
      ChildPlainly(local, name);
    }
    if ChildrenSafe(module_, local, table) {
      forall key | key in table && key.module_ == module_ && IsImmediateChild(local, key.name)
        ensures table[key].verdict == SAFE
      {
        var rest :| key.name == local + "." + rest && '.' !in rest;
        assert key == Key(module_, local + "." + rest);
      }
    }
  }

  /** A decorator is safe exactly when its own entry is, and it is a class or every function inside it is safe. */
  lemma DecoratorPlainly(module_: string, local: string, table: Table)
    ensures DecoratorSafeIn(module_, local, table) <==>
      && Key(module_, local) in table && table[Key(module_, local)].verdict == SAFE
      && (HasConstructor(module_, local, table) || ChildrenSafe(module_, local, table))
  {
    ChildrenPlainly(module_, local, table);
    ThreeMethods();
    ClassPlainly(module_, local, table, "__new__", "__init__", "__post_init__");
  }

  lemma ClassPlainly(module_: string, local: string, table: Table, a: string, b: string, c: string)
    requires forall m :: m in CONSTRUCTOR_METHODS <==> m == a || m == b || m == c
    ensures IsClassLike(module_, local, table) <==>
      || Key(module_, local + "." + a) in table
      || Key(module_, local + "." + b) in table
      || Key(module_, local + "." + c) in table
  {
    AnyOfThree(CONSTRUCTOR_METHODS, m => Key(module_, Exports.JoinDot(local, m)) in table, a, b, c);
  }

  ghost predicate DecoratorSafeSomewhere(name: string, facts: Facts) {
    exists m :: m in facts.modules && DecoratorSafeIn(m, name, facts.table)
  }

  /** Answers about unqualified decorators, remembered for one set of facts. */
  class DecoratorVerdictMap {
    const facts: Facts
    var entries: map<string, bool>

    constructor (facts: Facts)
      ensures this.facts == facts && Valid()
    {
      this.facts, entries := facts, map[];
    }

    /** Every remembered answer is what a scan of the facts gives. */
    ghost predicate Valid()
      reads this
    {
      forall n :: n in entries ==> (entries[n] <==> DecoratorSafeSomewhere(n, facts))
    }

    method ScanUnqualified(name: string) returns (safe: bool)
      ensures safe <==> DecoratorSafeSomewhere(name, facts)
    {
      var todo := facts.modules;
      while todo != {}
        invariant todo <= facts.modules
        invariant forall m :: m in facts.modules && m !in todo ==> !DecoratorSafeIn(m, name, facts.table)
        decreases todo
      {
        var m :| m in todo;
        todo := todo - {m};
        if DecoratorSafeIn(m, name, facts.table) {
          return true;
        }
      }
      return false;
    }

    /** A qualified name is answered where it resolves, an unqualified one as a scan would; remembering
        changes no answer. */
    method IsDecoratorCallVerifiedSafe(name: string) returns (safe: bool)
      requires Valid()
      modifies this
      ensures Valid()
      ensures
        var split := SplitKey(name, facts.modules);
        safe <==> if split.Some? then DecoratorSafeIn(split.value.module_, split.value.name, facts.table)
                  else DecoratorSafeSomewhere(name, facts)
    {
      var split := SplitKey(name, facts.modules);
      if split.Some? {
        return DecoratorSafeIn(split.value.module_, split.value.name, facts.table);
      }
      if name in entries {
        return entries[name];
      }
      safe := ScanUnqualified(name);
      entries := entries[name := safe];
    }
  }
}
