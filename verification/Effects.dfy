/**
 Which arguments of a call carry imported variables (`ImportedArgs` of
 `src/effects.rs`, `CallDataBuilder` of `src/source_analyzer.rs`), checked
 against the way Python binds arguments to parameters (The Python Language
 Reference, section 6.3.4).
 */
module Effects {
  import opened Wrappers

  /** Positional arguments are tracked in a 64-bit mask, here the set of its one-bits. */
  const MAX_ARGS: nat := 64

  /** How a parameter is matched against the arguments of a call. */
  datatype ParamPosition = Positional(index: nat) | KeywordOnly | Unresolved

  datatype ImportedArgs = ImportedArgs(
    unsafeArgIndices: set<nat>,
    unsafeKeywordNames: seq<string>,
    hasUnsafeKwargsExpansion: bool,
    unsafeArgsExpansionMin: Option<nat>)
  {
    predicate HasUnsafeArgIndex(index: nat) {
      || (unsafeArgsExpansionMin.Some? && index >= unsafeArgsExpansionMin.value)
      || (index < MAX_ARGS && index in unsafeArgIndices)
    }

    predicate HasUnsafeKeywords() {
      unsafeKeywordNames != [] || hasUnsafeKwargsExpansion
    }

    predicate HasUnsafeKeyword(name: string) {
      hasUnsafeKwargsExpansion || name in unsafeKeywordNames
    }

    predicate HasPreciseKeywordTracking() {
      !hasUnsafeKwargsExpansion
    }

    predicate HasPreciseArgTracking() {
      unsafeArgsExpansionMin.None?
    }

    predicate HasAnyTrackedArgs() {
      unsafeArgIndices != {} || unsafeKeywordNames != [] || hasUnsafeKwargsExpansion || unsafeArgsExpansionMin.Some?
    }

    /** Whether an imported argument may reach the parameter, given the number of receiver slots. */
    predicate HitsParam(name: string, position: ParamPosition, argOffset: nat) {
      if position.Unresolved? then HasAnyTrackedArgs()
      else
        var resolved := if position.Positional? && position.index >= argOffset then Some(position.index - argOffset)
          else None;
        if resolved.Some? && HasUnsafeArgIndex(resolved.value) then true
        else if HasUnsafeKeyword(name) then true
        else if HasUnsafeKeywords() && HasPreciseKeywordTracking() && HasPreciseArgTracking() then false
        else (resolved.None? && !HasPreciseArgTracking()) || !HasAnyTrackedArgs()
    }

    predicate HitsAnyParam(params: seq<(string, ParamPosition)>, argOffset: nat) {
      exists i :: 0 <= i < |params| && HitsParam(params[i].0, params[i].1, argOffset)
    }
  }

  // ----- Recording the arguments of a call

  datatype ArgClass = Imported | ForwardedParam(param: string) | Other

  /** A positional argument, `*`-unpacked or not. */
  datatype PosArg = PosArg(starred: bool, class_: ArgClass)

  /** A keyword argument, or a `**` expansion when it has no name. */
  datatype KwArg = KwArg(name: Option<string>, class_: ArgClass)

  datatype ArgSlot = Slot(index: nat) | Keyword(name: string) | StarExpansion(from: nat)

  datatype CallData = CallData(hasUnsafeArgs: bool, importedArgs: ImportedArgs, forwardedParams: seq<(ArgSlot, string)>)

  /** The enclosing parameters the positional arguments forward, in call order. */
  ghost function ForwardedPositional(args: seq<PosArg>): seq<(ArgSlot, string)> {
    if args == [] then []
    else
      var i := |args| - 1;
      ForwardedPositional(args[..i]) +
      if args[i].class_.ForwardedParam?
      then [(if args[i].starred then StarExpansion(i) else Slot(i), args[i].class_.param)] else []
  }

  ghost function ForwardedKeywords(kws: seq<KwArg>): seq<(ArgSlot, string)> {
    if kws == [] then []
    else
      var i := |kws| - 1;
      ForwardedKeywords(kws[..i]) +
      if kws[i].class_.ForwardedParam? && kws[i].name.Some? then [(Keyword(kws[i].name.value), kws[i].class_.param)]
        else []
  }

  ghost predicate ImportedAt(args: seq<PosArg>, i: int) {
    0 <= i < |args| && args[i].class_.Imported?
  }

  /** The data tells which plain positions, which stars and which keywords are imported. */
  ghost predicate DescribesPositional(a: ImportedArgs, args: seq<PosArg>) {
    && (forall i :: i in a.unsafeArgIndices <==> i < MAX_ARGS && ImportedAt(args, i) && !args[i].starred)
    && (a.unsafeArgsExpansionMin.Some? ==> var m := a.unsafeArgsExpansionMin.value;
        ImportedAt(args, m) && args[m].starred && forall i :: 0 <= i < m ==> !(ImportedAt(args, i) && args[i].starred))
    && (a.unsafeArgsExpansionMin.None? ==> forall i :: ImportedAt(args, i) ==> !args[i].starred)
  }

  ghost predicate DescribesKeywords(a: ImportedArgs, kws: seq<KwArg>) {
    && (forall n :: n in a.unsafeKeywordNames <==> KwArg(Some(n), Imported) in kws)
    && (a.hasUnsafeKwargsExpansion <==> KwArg(None, Imported) in kws)
  }

  ghost predicate Describes(d: CallData, args: seq<PosArg>, kws: seq<KwArg>) {
    && DescribesPositional(d.importedArgs, args) && DescribesKeywords(d.importedArgs, kws)
    && (d.hasUnsafeArgs <==> (exists i :: ImportedAt(args, i)) || exists k :: k in kws && k.class_.Imported?)
    && d.forwardedParams == ForwardedPositional(args) + ForwardedKeywords(kws)
  }

  /** The data after one more positional argument. */
  function WithPositional(d: CallData, index: nat, isStarred: bool, class_: ArgClass): CallData {
    match class_
    case Imported =>
      var a := d.importedArgs;
      d.(hasUnsafeArgs := true, importedArgs :=
        if isStarred then (if a.unsafeArgsExpansionMin.None? then a.(unsafeArgsExpansionMin := Some(index)) else a)
        else if index < MAX_ARGS then a.(unsafeArgIndices := a.unsafeArgIndices + {index})
        else a)
    case ForwardedParam(param) =>
      d.(forwardedParams := d.forwardedParams + [(if isStarred then StarExpansion(index) else Slot(index), param)])
    case Other => d
  }

  /** The data after one more keyword argument or `**` expansion. */
  function WithKeyword(d: CallData, name: Option<string>, class_: ArgClass): CallData {
    match class_
    case Imported =>
      var a := d.importedArgs;
      d.(hasUnsafeArgs := true, importedArgs :=
        if name.Some? then a.(unsafeKeywordNames := a.unsafeKeywordNames + [name.value])
        else a.(hasUnsafeKwargsExpansion := true))
    case ForwardedParam(param) =>
      if name.Some? then d.(forwardedParams := d.forwardedParams + [(Keyword(name.value), param)]) else d
    case Other => d
  }

  function EmptyCallData(): CallData {
    CallData(false, ImportedArgs({}, [], false, None), [])
  }

  lemma EmptyDescribes()
    ensures Describes(EmptyCallData(), [], [])
  {
  }

  lemma PositionalDescribes(d: CallData, all: seq<PosArg>)
    requires all != [] && Describes(d, all[..|all| - 1], [])
    ensures Describes(WithPositional(d, |all| - 1, all[|all| - 1].starred, all[|all| - 1].class_), all, [])
  {
    var i := |all| - 1;
    var args, e := all[..i], WithPositional(d, i, all[i].starred, all[i].class_);
    assert forall k :: ImportedAt(all, k) <==> ImportedAt(args, k) || (k == i && all[i].class_.Imported?);
    assert ForwardedPositional(all) == e.forwardedParams;
  }

  lemma KeywordDescribes(d: CallData, args: seq<PosArg>, all: seq<KwArg>)
    requires all != [] && Describes(d, args, all[..|all| - 1])
    ensures Describes(WithKeyword(d, all[|all| - 1].name, all[|all| - 1].class_), args, all)
  {
    var last := |all| - 1;
    assert all[last] == KwArg(all[last].name, all[last].class_);
    assert forall k :: k in all <==> k in all[..last] || k == all[last];
  }

  class CallDataBuilder {
    var hasUnsafe: bool
    var unsafeIndices: set<nat>
    var unsafeKeywordNames: seq<string>
    var hasUnsafeKwargsExpansion: bool
    var unsafeArgsExpansionMin: Option<nat>
    var forwardedParams: seq<(ArgSlot, string)>

    constructor ()
      ensures Finish() == EmptyCallData()
    {
      hasUnsafe, unsafeIndices, unsafeKeywordNames := false, {}, [];
      hasUnsafeKwargsExpansion, unsafeArgsExpansionMin, forwardedParams := false, None, [];
    }

    function Finish(): CallData
      reads this
    {
      CallData(hasUnsafe,
               ImportedArgs(unsafeIndices, unsafeKeywordNames, hasUnsafeKwargsExpansion, unsafeArgsExpansionMin),
               forwardedParams)
    }

    method RecordPositional(index: nat, isStarred: bool, class_: ArgClass)
      modifies this
      ensures Finish() == WithPositional(old(Finish()), index, isStarred, class_)
    {
      match class_
      case Imported =>
        hasUnsafe := true;
        if isStarred {
          if unsafeArgsExpansionMin.None? {
            unsafeArgsExpansionMin := Some(index);
          }
        } else if index < MAX_ARGS {
          unsafeIndices := unsafeIndices + {index};
        }
      case ForwardedParam(param) =>
        var slot := if isStarred then StarExpansion(index) else Slot(index);
        forwardedParams := forwardedParams + [(slot, param)];
      case Other =>
    }

    method RecordKeyword(name: Option<string>, class_: ArgClass)
      modifies this
      ensures Finish() == WithKeyword(old(Finish()), name, class_)
    {
      match class_
      case Imported =>
        hasUnsafe := true;
        match name {
          case Some(n) => unsafeKeywordNames := unsafeKeywordNames + [n];
          case None => hasUnsafeKwargsExpansion := true;
        }
      case ForwardedParam(param) =>
        if name.Some? {
          forwardedParams := forwardedParams + [(Keyword(name.value), param)];
        }
      case Other =>
    }
  }

  /** The data once all arguments are recorded, the positional ones first. */
  ghost function Recorded(args: seq<PosArg>, kws: seq<KwArg>): CallData
    decreases |args| + |kws|
  {
    if kws != [] then
      var k := |kws| - 1;
      WithKeyword(Recorded(args, kws[..k]), kws[k].name, kws[k].class_)
    else if args != [] then
      var i := |args| - 1;
      WithPositional(Recorded(args[..i], []), i, args[i].starred, args[i].class_)
    else EmptyCallData()
  }

  lemma {:induction false} RecordedDescribes(args: seq<PosArg>, kws: seq<KwArg>)
    ensures Describes(Recorded(args, kws), args, kws)
    decreases |args| + |kws|
  {
    if kws != [] {
      RecordedDescribes(args, kws[..|kws| - 1]);
      KeywordDescribes(Recorded(args, kws[..|kws| - 1]), args, kws);
    } else if args != [] {
      RecordedDescribes(args[..|args| - 1], []);
      PositionalDescribes(Recorded(args[..|args| - 1], []), args);
    } else {
      EmptyDescribes();
    }
  }

  /** Record the arguments of a call: the positional ones by position, then the keywords. */
  method CheckCallArgs(args: seq<PosArg>, kws: seq<KwArg>) returns (data: CallData)
    ensures Describes(data, args, kws)
  {
    var builder := new CallDataBuilder();
    for i := 0 to |args|
      invariant builder.Finish() == Recorded(args[..i], [])
    {
      assert args[..i + 1][..i] == args[..i];
      builder.RecordPositional(i, args[i].starred, args[i].class_);
    }
    assert args[..|args|] == args;
    for k := 0 to |kws|
      invariant builder.Finish() == Recorded(args, kws[..k])
    {
      assert kws[..k + 1][..k] == kws[..k];
      builder.RecordKeyword(kws[k].name, kws[k].class_);
    }
    assert kws[..|kws|] == kws;
    data := builder.Finish();
    RecordedDescribes(args, kws);
  }

  // ----- Python's binding of positional arguments

  /** The values a call passes by position, told apart only by being imported or not: a star contributes any number. */
  ghost function Values(args: seq<PosArg>, lens: seq<nat>): (values: seq<bool>)
    requires |lens| == |args|
  {
    if args == [] then []
    else
      var i := |args| - 1;
      Values(args[..i], lens[..i]) + seq(if args[i].starred then lens[i] else 1, _ => args[i].class_.Imported?)
  }

  /** Some way the stars may unpack puts an imported value into positional slot s. */
  ghost predicate SlotMayBeImported(args: seq<PosArg>, s: nat) {
    exists lens: seq<nat> :: |lens| == |args| && s < |Values(args, lens)| && Values(args, lens)[s]
  }

  /** An imported argument may bind to the parameter: by position past the receiver, or by keyword. */
  ghost predicate MayBind(args: seq<PosArg>, kws: seq<KwArg>, name: string, position: ParamPosition, argOffset: nat) {
    || KwArg(Some(name), Imported) in kws || KwArg(None, Imported) in kws
    || (position.Positional? && position.index >= argOffset && SlotMayBeImported(args, position.index - argOffset))
    || (position.Unresolved? && ((exists i :: ImportedAt(args, i)) || exists k :: k in kws && k.class_.Imported?))
  }

  /** The first star comes before or at argument i. */
  ghost predicate StarredBy(args: seq<PosArg>, i: nat) {
    exists f :: 0 <= f <= i && f < |args| && args[f].starred
  }

  ghost predicate FirstStar(args: seq<PosArg>, f: nat) {
    f < |args| && args[f].starred && forall i :: 0 <= i < f ==> !args[i].starred
  }

  /** Every imported positional follows an imported first star, or stands before all stars among the first 64. */
  ghost predicate WellTracked(args: seq<PosArg>) {
    forall i: nat :: ImportedAt(args, i) ==>
      if StarredBy(args, i) then forall f: nat :: FirstStar(args, f) ==> args[f].class_.Imported?
      else i < MAX_ARGS
  }

  /** Some imported argument of the call is tracked: a star, a plain one among the first 64, or any by keyword. */
  ghost predicate TracksSomething(args: seq<PosArg>, kws: seq<KwArg>) {
    || (exists i: nat :: ImportedAt(args, i) && (args[i].starred || i < MAX_ARGS))
    || exists k :: k in kws && k.class_.Imported?
  }

  // ----- Where a value comes from

  /** Value s stems from argument i. */
  lemma {:induction false} Owner(args: seq<PosArg>, lens: seq<nat>, s: nat) returns (i: nat)
    requires |lens| == |args| && s < |Values(args, lens)|
    ensures i < |args| && Values(args, lens)[s] == args[i].class_.Imported?
    ensures |Values(args[..i], lens[..i])| <= s
    ensures s < |Values(args[..i], lens[..i])| + if args[i].starred then lens[i] else 1
    decreases |args|
  {
    var last := |args| - 1;
    if s < |Values(args[..last], lens[..last])| {
      i := Owner(args[..last], lens[..last], s);
      assert args[..last][..i] == args[..i] && lens[..last][..i] == lens[..i];
    } else {
      i := last;
    }
  }

  /** Without stars every argument fills exactly its own slot. */
  lemma {:induction false} PlainValues(args: seq<PosArg>, lens: seq<nat>)
    requires |lens| == |args| && forall i :: 0 <= i < |args| ==> !args[i].starred
    ensures |Values(args, lens)| == |args|
    ensures forall i :: 0 <= i < |args| ==> Values(args, lens)[i] == args[i].class_.Imported?
  {
    if args != [] {
      PlainValues(args[..|args| - 1], lens[..|args| - 1]);
    }
  }

  /** More arguments pass at least as many values, the earlier ones unchanged. */
  lemma {:induction false} ValuesGrow(args: seq<PosArg>, lens: seq<nat>, i: nat)
    requires |lens| == |args| && i <= |args|
    ensures Values(args[..i], lens[..i]) <= Values(args, lens)
  {
    if i == |args| {
      assert args[..i] == args && lens[..i] == lens;
    } else {
      var last := |args| - 1;
      ValuesGrow(args[..last], lens[..last], i);
      assert args[..last][..i] == args[..i] && lens[..last][..i] == lens[..i];
    }
  }

  lemma {:induction false} SomeFirstStar(args: seq<PosArg>, i: nat) returns (f: nat)
    requires i < |args| && args[i].starred
    ensures FirstStar(args, f) && f <= i
  {
    if j :| 0 <= j < i && args[j].starred {
      f := SomeFirstStar(args, j);
    } else {
      f := i;
    }
  }

  // ----- The tracked data against the binding

  /** Past an imported first star every slot is at or beyond the tracked minimum. */
  lemma StarHits(a: ImportedArgs, args: seq<PosArg>, lens: seq<nat>, i: nat, s: nat)
    requires DescribesPositional(a, args) && |lens| == |args| && i < |args| && StarredBy(args, i)
    requires forall f: nat :: FirstStar(args, f) ==> args[f].class_.Imported?
    requires |Values(args[..i], lens[..i])| <= s
    ensures a.HasUnsafeArgIndex(s)
  {
    var j :| 0 <= j <= i && args[j].starred;
    var f := SomeFirstStar(args, j);
    assert ImportedAt(args, f);
    PlainValues(args[..f], lens[..f]);
    ValuesGrow(args[..i], lens[..i], f);
    assert args[..i][..f] == args[..f] && lens[..i][..f] == lens[..f];
    assert a.unsafeArgsExpansionMin.Some?;
  }

  /** A well-tracked call: an imported value in slot s is noticed at s. */
  lemma WellTrackedHits(a: ImportedArgs, args: seq<PosArg>, s: nat)
    requires DescribesPositional(a, args) && WellTracked(args) && SlotMayBeImported(args, s)
    ensures a.HasUnsafeArgIndex(s)
  {
    var lens: seq<nat> :| |lens| == |args| && s < |Values(args, lens)| && Values(args, lens)[s];
    var i := Owner(args, lens, s);
    assert ImportedAt(args, i);
    if StarredBy(args, i) {
      StarHits(a, args, lens, i, s);
    } else {
      PlainValues(args[..i], lens[..i]);
      assert s == i && i in a.unsafeArgIndices;
    }
  }

  /** Soundness on well-tracked calls, for every parameter, keyword or receiver count. */
  lemma BoundParamsAreHit(d: CallData, args: seq<PosArg>, kws: seq<KwArg>, name: string, position: ParamPosition,
                          argOffset: nat)
    requires Describes(d, args, kws) && WellTracked(args)
    requires MayBind(args, kws, name, position, argOffset)
    ensures d.importedArgs.HitsParam(name, position, argOffset)
  {
    var a := d.importedArgs;
    if position.Positional? && position.index >= argOffset && SlotMayBeImported(args, position.index - argOffset) {
      WellTrackedHits(a, args, position.index - argOffset);
    }
    if position.Unresolved? {
      if i: nat :| ImportedAt(args, i) {
        ImportedIsTracked(a, args, i);
      } else if k :| k in kws && k.class_.Imported? {
        assert k == KwArg(k.name, Imported);
        assert k.name.Some? ==> k.name.value in a.unsafeKeywordNames;
      }
    }
  }

  lemma ImportedIsTracked(a: ImportedArgs, args: seq<PosArg>, i: nat)
    requires DescribesPositional(a, args) && WellTracked(args) && ImportedAt(args, i)
    ensures a.HasAnyTrackedArgs()
  {
    if !args[i].starred {
      if StarredBy(args, i) {
        var j :| 0 <= j <= i && args[j].starred;
        var f := SomeFirstStar(args, j);
        assert ImportedAt(args, f);
      } else {
        assert i in a.unsafeArgIndices;
      }
    }
  }

  // ----- Exactly when the tracking is sound

  lemma {:induction false} FreshName(names: seq<string>) returns (unused: string)
    ensures unused !in names && forall n :: n in names ==> |n| < |unused|
  {
    if names == [] {
      unused := "x";
    } else {
      var last := |names| - 1;
      var rest := FreshName(names[..last]);
      unused := if |rest| > |names[last]| then rest else names[last] + "x";
    }
  }

  /** With every star empty but the one at `only`, the arguments before i fill at most their own slots. */
  lemma {:induction false} EmptyStars(args: seq<PosArg>, lens: seq<nat>, f: nat)
    requires |lens| == |args| && f < |args| && FirstStar(args, f)
    requires forall k :: 0 <= k < |lens| ==> lens[k] == 0
    ensures f <= |Values(args, lens)| < |args|
  {
    var last := |args| - 1;
    if last == f {
      PlainValues(args[..last], lens[..last]);
    } else {
      assert FirstStar(args[..last], f);
      EmptyStars(args[..last], lens[..last], f);
    }
  }

  lemma {:induction false} FirstImportedAfter(args: seq<PosArg>, f: nat, i: nat) returns (j: nat)
    requires f <= i && ImportedAt(args, i)
    ensures f <= j <= i && ImportedAt(args, j) && forall k :: f <= k < j ==> !ImportedAt(args, k)
    decreases i
  {
    if k :| f <= k < i && ImportedAt(args, k) {
      j := FirstImportedAfter(args, f, k);
    } else {
      j := i;
    }
  }

  lemma SlotAfterStar(args: seq<PosArg>, f: nat, j: nat) returns (s: nat)
    requires FirstStar(args, f) && f < j && ImportedAt(args, j)
    ensures f <= s < j && SlotMayBeImported(args, s)
  {
    var lens: seq<nat> := seq(|args|, k => if k == j then 1 else 0);
    assert FirstStar(args[..j], f);
    EmptyStars(args[..j], lens[..j], f);
    s := |Values(args[..j], lens[..j])|;
    assert args[..j + 1][..j] == args[..j] && lens[..j + 1][..j] == lens[..j];
    assert Values(args[..j + 1], lens[..j + 1])[s];
    ValuesGrow(args, lens, j + 1);
  }

  /** An argument that no star precedes fills its own slot. */
  lemma SlotBeforeStars(args: seq<PosArg>, i: nat)
    requires ImportedAt(args, i) && !StarredBy(args, i)
    ensures SlotMayBeImported(args, i)
  {
    var lens: seq<nat> := seq(|args|, k => 0);
    forall k | 0 <= k <= i
      ensures !args[k].starred
    {
    }
    PlainValues(args[..i + 1], lens[..i + 1]);
    ValuesGrow(args, lens, i + 1);
  }

  /** On a call that is not well tracked some imported value lands in a slot that is not noticed. */
  lemma MissedSlot(a: ImportedArgs, args: seq<PosArg>) returns (s: nat)
    requires DescribesPositional(a, args) && !WellTracked(args)
    ensures SlotMayBeImported(args, s) && !a.HasUnsafeArgIndex(s)
  {
    var i: nat :| ImportedAt(args, i) &&
      if StarredBy(args, i) then exists f: nat :: FirstStar(args, f) && !args[f].class_.Imported? else i >= MAX_ARGS;
    if StarredBy(args, i) {
      var f: nat :| FirstStar(args, f) && !args[f].class_.Imported?;
      var j := FirstImportedAfter(args, f, i);
      s := SlotAfterStar(args, f, j);
    } else {
      SlotBeforeStars(args, i);
      s := i;
    }
  }

  lemma TrackedExactly(a: ImportedArgs, args: seq<PosArg>, kws: seq<KwArg>)
    requires DescribesPositional(a, args) && DescribesKeywords(a, kws)
    ensures a.HasAnyTrackedArgs() <==> TracksSomething(args, kws)
  {
    if i :| i in a.unsafeArgIndices {
      assert ImportedAt(args, i);
    }
    if a.unsafeArgsExpansionMin.Some? {
      assert ImportedAt(args, a.unsafeArgsExpansionMin.value);
    }
    if a.unsafeKeywordNames != [] {
      assert a.unsafeKeywordNames[0] in a.unsafeKeywordNames;
      assert KwArg(Some(a.unsafeKeywordNames[0]), Imported) in kws;
    }
    if k :| k in kws && k.class_.Imported? {
      assert k == KwArg(k.name, Imported);
      assert k.name.Some? ==> k.name.value in a.unsafeKeywordNames;
    }
    if i: nat :| ImportedAt(args, i) && (args[i].starred || i < MAX_ARGS) {
      assert args[i].starred || i in a.unsafeArgIndices;
    }
  }

  /** The call `f(*xs, imported)`: when `xs` is empty the imported argument binds to the first parameter,
      which is not hit. */
  lemma ArgumentAfterStarIsMissed(d: CallData)
    requires Describes(d, [PosArg(true, Other), PosArg(false, Imported)], [])
    ensures MayBind([PosArg(true, Other), PosArg(false, Imported)], [], "first", Positional(0), 0)
    ensures !d.importedArgs.HitsParam("first", Positional(0), 0)
    ensures !WellTracked([PosArg(true, Other), PosArg(false, Imported)])
  {
    var args := [PosArg(true, Other), PosArg(false, Imported)];
    var a := d.importedArgs;
    assert args[..1] == [PosArg(true, Other)] && args[..1][..0] == [];
    assert Values([], []) == [];
    assert Values(args[..1], [0]) == [];
    assert [0, 0][..1] == [0] && [0][..0] == [];
    assert Values(args, [0, 0]) == [true];
    assert SlotMayBeImported(args, 0);
    assert ImportedAt(args, 1) && FirstStar(args, 0) && StarredBy(args, 1);
    assert !a.HasUnsafeArgIndex(0) && 1 in a.unsafeArgIndices;
    assert forall n :: n !in a.unsafeKeywordNames;
  }

  /**
   For parameters whose signature is known, the tracking misses no binding
   exactly when a `**` of imported values makes it match everything, or it
   tracked nothing and therefore matches everything, or the call is well tracked.
   */
  lemma SoundExactlyWhenWellTracked(d: CallData, args: seq<PosArg>, kws: seq<KwArg>)
    requires Describes(d, args, kws)
    ensures
      (forall name, position, argOffset ::
        MayBind(args, kws, name, position, argOffset) && !position.Unresolved? ==>
          d.importedArgs.HitsParam(name, position, argOffset))
      <==> KwArg(None, Imported) in kws || !TracksSomething(args, kws) || WellTracked(args)
  {
    var a := d.importedArgs;
    TrackedExactly(a, args, kws);
    if KwArg(None, Imported) in kws || !a.HasAnyTrackedArgs() || WellTracked(args) {
      forall name, position, argOffset | MayBind(args, kws, name, position, argOffset) && !position.Unresolved?
        ensures a.HitsParam(name, position, argOffset)
      {
        if WellTracked(args) {
          BoundParamsAreHit(d, args, kws, name, position, argOffset);
        }
      }
    } else {
      var s := MissedSlot(a, args);
      var name := FreshName(a.unsafeKeywordNames);
      assert MayBind(args, kws, name, Positional(s), 0);
      assert !a.HitsParam(name, Positional(s), 0);
    }
  }

  /** An imported value is noticed at the slot: a star of imported values stands at or before it, or the plain
      argument at it is imported and among the first 64. */
  ghost predicate NoticedAt(args: seq<PosArg>, s: nat) {
    || (exists i: nat :: i <= s && ImportedAt(args, i) && args[i].starred)
    || (s < 64 && ImportedAt(args, s) && !args[s].starred)
  }

  ghost predicate ImportedStar(args: seq<PosArg>) {
    exists i: nat :: ImportedAt(args, i) && args[i].starred
  }

  lemma NoticedExactly(a: ImportedArgs, args: seq<PosArg>, s: nat)
    requires DescribesPositional(a, args)
    ensures a.HasUnsafeArgIndex(s) <==> NoticedAt(args, s)
    ensures a.unsafeArgsExpansionMin.Some? <==> ImportedStar(args)
  {
    if a.unsafeArgsExpansionMin.Some? {
      assert ImportedAt(args, a.unsafeArgsExpansionMin.value);
    }
  }

  /** `KwArg(Some(name), Imported)` or a `**` of imported values is among the keywords. */
  ghost predicate KeywordMatches(kws: seq<KwArg>, name: string) {
    KwArg(Some(name), Imported) in kws || KwArg(None, Imported) in kws
  }

  /**
   Which parameters are hit, told by the arguments of the call. Nothing tracked means that all parameters are hit whose
   position is known. Otherwise a matching keyword hits, and so does a slot at which an imported value is noticed; a
   parameter without a slot behind the receiver, keyword-only or below the offset, is hit by any star of imported
   values.
   */
  lemma HitsExactly(d: CallData, args: seq<PosArg>, kws: seq<KwArg>, name: string, position: ParamPosition,
                    argOffset: nat)
    requires Describes(d, args, kws)
    ensures d.importedArgs.HitsParam(name, position, argOffset) <==>
      if position.Unresolved? then TracksSomething(args, kws)
      else
        || !TracksSomething(args, kws) || KeywordMatches(kws, name)
        || if position.Positional? && position.index >= argOffset then NoticedAt(args, position.index - argOffset)
           else ImportedStar(args)
  {
    var a := d.importedArgs;
    TrackedExactly(a, args, kws);
    NoticedExactly(a, args, if position.Positional? && position.index >= argOffset then position.index - argOffset
      else 0);
    assert a.HasUnsafeKeyword(name) <==> KeywordMatches(kws, name);
  }

  /** Without any unpacking and with something tracked, only a matching slot or name is hit. */
  lemma PlainCallsAreExact(d: CallData, args: seq<PosArg>, kws: seq<KwArg>, name: string, position: ParamPosition,
                           argOffset: nat)
    requires Describes(d, args, kws) && TracksSomething(args, kws)
    requires (forall i :: 0 <= i < |args| ==> !args[i].starred) && forall k :: k in kws ==> k.name.Some?
    requires !position.Unresolved?
    ensures d.importedArgs.HitsParam(name, position, argOffset) ==> MayBind(args, kws, name, position, argOffset)
    ensures |args| <= MAX_ARGS ==>
      (d.importedArgs.HitsParam(name, position, argOffset) <==> MayBind(args, kws, name, position, argOffset))
  {
    var a := d.importedArgs;
    TrackedExactly(a, args, kws);
    assert a.unsafeArgsExpansionMin.None?;
    if position.Positional? && position.index >= argOffset && a.HasUnsafeArgIndex(position.index - argOffset) {
      SlotBeforeStars(args, position.index - argOffset);
    }
    if |args| <= MAX_ARGS && MayBind(args, kws, name, position, argOffset) {
      BoundParamsAreHit(d, args, kws, name, position, argOffset);
    }
  }
}
