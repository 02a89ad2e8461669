/** The C3 merge: `c3_merge` of `src/mro.rs` (The Python 2.3 Method Resolution Order, section "The C3 Method
    Resolution Order"). */
module C3 {
  import opened Induction
  import opened Sequences
  import opened Wrappers

  /** The positions `f` pick out `a` from `b`, in order. */
  ghost predicate Picks<T(!new)>(f: seq<nat>, a: seq<T>, b: seq<T>) {
    && |f| == |a|
    && (forall i :: 0 <= i < |a| ==> f[i] < |b| && b[f[i]] == a[i])
    && (forall i, j :: 0 <= i < j < |f| ==> f[i] < f[j])
  }

  /** `a` is a subsequence of `b`. */
  ghost predicate Embeds<T(!new)>(a: seq<T>, b: seq<T>) {
    exists f :: Picks(f, a, b)
  }

  /** A duplicate-free order that contains every sequence as a subsequence. */
  ghost predicate Consistent<T(!new)>(seqs: seq<seq<T>>, order: seq<T>) {
    NoDup(order) && forall s :: s in seqs ==> Embeds(s, order)
  }

  ghost predicate Holds<T(!new)>(seqs: seq<seq<T>>, x: T) {
    exists s :: s in seqs && x in s
  }

  // ----- One step of the merge

  ghost function NonEmpty<T(!new)>(seqs: seq<seq<T>>): (r: seq<seq<T>>)
    ensures forall s :: s in r <==> s in seqs && s != []
    ensures forall i :: 0 <= i < |r| ==> r[i] != []
    ensures Total(r) == Total(seqs)
  {
    if seqs == [] then []
    else
      var rest := NonEmpty(seqs[..|seqs| - 1]);
      assert seqs == seqs[..|seqs| - 1] + [seqs[|seqs| - 1]];
      if seqs[|seqs| - 1] == [] then rest else
        assert (rest + [seqs[|seqs| - 1]])[..|rest|] == rest;
        rest + [seqs[|seqs| - 1]]
  }

  /** How many elements there are in all. */
  ghost function Total<T(!new)>(seqs: seq<seq<T>>): nat {
    if seqs == [] then 0 else Total(seqs[..|seqs| - 1]) + |seqs[|seqs| - 1]|
  }

  /** Every sequence without its head where that is `head`. */
  ghost function Popped<T(!new)>(seqs: seq<seq<T>>, head: T): (r: seq<seq<T>>)
    ensures |r| == |seqs|
  {
    seq(|seqs|, i requires 0 <= i < |seqs| => if seqs[i] != [] && seqs[i][0] == head then seqs[i][1..] else seqs[i])
  }

  ghost predicate InTail<T(!new)>(seqs: seq<seq<T>>, x: T) {
    exists s :: s in seqs && s != [] && x in s[1..]
  }

  /** The first head among the first n that is in no tail. */
  ghost function FreeHead<T(!new)>(seqs: seq<seq<T>>, n: nat): (h: Option<T>)
    requires n <= |seqs| && forall i :: 0 <= i < |seqs| ==> seqs[i] != []
    ensures h.Some? ==> !InTail(seqs, h.value) && exists i :: 0 <= i < n && seqs[i][0] == h.value
    ensures h.None? ==> forall i :: 0 <= i < n ==> InTail(seqs, seqs[i][0])
  {
    if n == 0 then None
    else
      var before := FreeHead(seqs, n - 1);
      if before.Some? then before
      else if InTail(seqs, seqs[n - 1][0]) then None
      else Some(seqs[n - 1][0])
  }

  /** The next element: a free head, or the first head when there is none. */
  ghost function Head<T(!new)>(seqs: seq<seq<T>>): (h: T)
    requires seqs != [] && forall i :: 0 <= i < |seqs| ==> seqs[i] != []
    ensures exists i :: 0 <= i < |seqs| && seqs[i][0] == h
  {
    var free := FreeHead(seqs, |seqs|);
    if free.Some? then free.value else seqs[0][0]
  }

  lemma {:induction false} PoppedTotal<T(!new)>(seqs: seq<seq<T>>, head: T)
    ensures Total(Popped(seqs, head)) <= Total(seqs)
    ensures (exists i :: 0 <= i < |seqs| && seqs[i] != [] && seqs[i][0] == head) ==>
      Total(Popped(seqs, head)) < Total(seqs)
  {
    if seqs != [] {
      var front := seqs[..|seqs| - 1];
      PoppedTotal(front, head);
      assert Popped(seqs, head)[..|seqs| - 1] == Popped(front, head);
      if i :| 0 <= i < |front| && seqs[i] != [] && seqs[i][0] == head {
        assert front[i] == seqs[i];
      }
    }
  }

  ghost function Merged<T(!new)>(seqs: seq<seq<T>>): seq<T>
    decreases Total(seqs)
  {
    var left := NonEmpty(seqs);
    if left == [] then []
    else
      PoppedTotal(left, Head(left));
      [Head(left)] + Merged(Popped(left, Head(left)))
  }

  lemma MergedStep<T(!new)>(seqs: seq<seq<T>>)
    requires NonEmpty(seqs) != []
    ensures
      var left := NonEmpty(seqs);
      Merged(seqs) == [Head(left)] + Merged(Popped(left, Head(left)))
  {
  }

  /** The merge never takes a head that is in some tail. */
  ghost predicate NeverForced<T(!new)>(seqs: seq<seq<T>>)
    decreases Total(seqs)
  {
    var left := NonEmpty(seqs);
    left != [] ==>
      FreeHead(left, |left|).Some? && (PoppedTotal(left, Head(left)); NeverForced(Popped(left, Head(left))))
  }

  // ----- The imperative merge

  method FindFreeHead<T(==,!new)>(seqs: seq<seq<T>>) returns (head: Option<T>)
    requires forall i :: 0 <= i < |seqs| ==> seqs[i] != []
    ensures head == FreeHead(seqs, |seqs|)
  {
    for i := 0 to |seqs|
      invariant FreeHead(seqs, i) == None
    {
      var h := seqs[i][0];
      if !exists s :: s in seqs && s != [] && h in s[1..] {
        assert FreeHead(seqs, i + 1) == Some(h);
        FreeHeadStays(seqs, i + 1, |seqs|);
        return Some(h);
      }
    }
    return None;
  }

  lemma {:induction false} FreeHeadStays<T(!new)>(seqs: seq<seq<T>>, n: nat, m: nat)
    requires n <= m <= |seqs| && forall i :: 0 <= i < |seqs| ==> seqs[i] != []
    requires FreeHead(seqs, n).Some?
    ensures FreeHead(seqs, m) == FreeHead(seqs, n)
  {
    if n < m {
      FreeHeadStays(seqs, n, m - 1);
    }
  }

  method Retain<T(!new)>(seqs: seq<seq<T>>) returns (r: seq<seq<T>>)
    ensures r == NonEmpty(seqs)
  {
    r := [];
    for i := 0 to |seqs|
      invariant r == NonEmpty(seqs[..i])
    {
      assert seqs[..i + 1][..i] == seqs[..i];
      if |seqs[i]| > 0 {
        r := r + [seqs[i]];
      }
    }
    assert seqs[..|seqs|] == seqs;
  }

  method PopHead<T(==,!new)>(seqs: seq<seq<T>>, head: T) returns (r: seq<seq<T>>)
    ensures r == Popped(seqs, head)
  {
    r := seqs;
    for i := 0 to |seqs|
      invariant |r| == |seqs| && r[..i] == Popped(seqs, head)[..i] && r[i..] == seqs[i..]
    {
      assert r[i] == r[i..][0] && r[i + 1..] == r[i..][1..];
      if |r[i]| > 0 && r[i][0] == head {
        r := r[i := r[i][1..]];
      }
      assert Popped(seqs, head)[..i + 1] == Popped(seqs, head)[..i] + [Popped(seqs, head)[i]];
    }
  }

  /** Take the next element off every front. */
  method TakeHead<T(==,!new)>(seqs: seq<seq<T>>) returns (head: T, rest: seq<seq<T>>)
    requires seqs != [] && forall i :: 0 <= i < |seqs| ==> seqs[i] != []
    ensures head == Head(seqs) && rest == Popped(seqs, head) && Total(rest) < Total(seqs)
  {
    var free := FindFreeHead(seqs);
    head := if free.Some? then free.value else seqs[0][0];
    PoppedTotal(seqs, head);
    rest := PopHead(seqs, head);
  }

  ghost predicate IsMerged<T(!new)>(merged: seq<seq<T>> -> seq<T>) {
    forall s {:trigger Merged(s)} :: merged(s) == Merged(s)
  }

  /** Drop empty sequences and take the next element, if there is one. */
  method MergeNext<T(==,!new)>(seqs: seq<seq<T>>, ghost merged: seq<seq<T>> -> seq<T>)
    returns (head: Option<T>, rest: seq<seq<T>>)
    requires IsMerged(merged)
    ensures head.None? ==> merged(seqs) == []
    ensures head.Some? ==> merged(seqs) == [head.value] + merged(rest) && Total(rest) < Total(seqs)
  {
    var left := Retain(seqs);
    if left == [] {
      assert Merged(seqs) == [];
      return None, left;
    }
    MergedStep(seqs);
    var first;
    first, rest := TakeHead(left);
    head := Some(first);
    assert merged(rest) == Merged(rest) && merged(seqs) == Merged(seqs);
  }

  /** Repeatedly take a head that is in no tail off every front, or the first head if there is none. */
  method MergeLoop<T(==,!new)>(seqs: seq<seq<T>>, ghost merged: seq<seq<T>> -> seq<T>) returns (result: seq<T>)
    requires IsMerged(merged)
    ensures result == merged(seqs)
  {
    var sequences := seqs;
    result := [];
    while true
      invariant result + merged(sequences) == merged(seqs)
      decreases Total(sequences)
    {
      var head, rest := MergeNext(sequences, merged);
      if head.None? {
        return;
      }
      assert result + ([head.value] + merged(rest)) == result + [head.value] + merged(rest);
      result, sequences := result + [head.value], rest;
    }
  }

  method C3Merge<T(==,!new)>(seqs: seq<seq<T>>) returns (result: seq<T>)
    ensures result == Merged(seqs)
  {
    result := MergeLoop(seqs, s => Merged(s));
  }

  // ----- What is taken next, told on the sequences as they are

  ghost predicate Blocked<T(!new)>(seqs: seq<seq<T>>, x: T) {
    exists s :: s in seqs && s != [] && x in s[1..]
  }

  /** The first sequence whose head is in no tail. */
  ghost predicate FirstFree<T(!new)>(seqs: seq<seq<T>>, i: nat) {
    && i < |seqs| && seqs[i] != [] && !Blocked(seqs, seqs[i][0])
    && forall j :: 0 <= j < i && seqs[j] != [] ==> Blocked(seqs, seqs[j][0])
  }

  /** Every head is in some tail, and this is the first sequence that is not empty. */
  ghost predicate FirstForced<T(!new)>(seqs: seq<seq<T>>, i: nat) {
    && i < |seqs| && seqs[i] != [] && (forall j :: 0 <= j < i ==> seqs[j] == [])
    && forall j :: 0 <= j < |seqs| && seqs[j] != [] ==> Blocked(seqs, seqs[j][0])
  }

  /** The sequences after `x` was taken off every front. */
  ghost predicate TakenOff<T(!new)>(rest: seq<seq<T>>, seqs: seq<seq<T>>, x: T) {
    && |rest| == |seqs|
    && forall i :: 0 <= i < |seqs| ==> rest[i] == if seqs[i] != [] && seqs[i][0] == x then seqs[i][1..] else seqs[i]
  }

  lemma SameTails<T(!new)>(seqs: seq<seq<T>>, x: T)
    ensures InTail(NonEmpty(seqs), x) <==> Blocked(seqs, x)
  {
  }

  lemma NonEmptyLast<T(!new)>(seqs: seq<seq<T>>, s: seq<T>)
    ensures NonEmpty(seqs + [s]) == if s == [] then NonEmpty(seqs) else NonEmpty(seqs) + [s]
  {
    var all := seqs + [s];
    assert all[..|all| - 1] == seqs && all[|all| - 1] == s;
  }

  /** `b` tells which elements are blocked. */
  ghost predicate FreeBy<T(!new)>(seqs: seq<seq<T>>, i: nat, b: T -> bool) {
    && i < |seqs| && seqs[i] != [] && !b(seqs[i][0])
    && forall j :: 0 <= j < i && seqs[j] != [] ==> b(seqs[j][0])
  }

  ghost predicate ForcedBy<T(!new)>(seqs: seq<seq<T>>, i: nat, b: T -> bool) {
    && i < |seqs| && seqs[i] != [] && (forall j :: 0 <= j < i ==> seqs[j] == [])
    && forall j :: 0 <= j < |seqs| && seqs[j] != [] ==> b(seqs[j][0])
  }

  /** The search among the first n sequences found the first free head, or there is none. */
  ghost predicate Found<T(!new)>(free: Option<T>, seqs: seq<seq<T>>, n: nat, b: T -> bool) {
    && n <= |seqs|
    && (free.Some? ==> exists i: nat :: i < n && FreeBy(seqs, i, b) && free.value == seqs[i][0])
    && (free.None? ==> forall i :: 0 <= i < n && seqs[i] != [] ==> b(seqs[i][0]))
  }

  lemma FoundNext<T(!new)>(free: Option<T>, seqs: seq<seq<T>>, n: nat, b: T -> bool)
    requires Found(free, seqs, n, b) && n < |seqs| && seqs[n] != []
    ensures Found(if free.Some? || b(seqs[n][0]) then free else Some(seqs[n][0]), seqs, n + 1, b)
  {
    if free.None? && !b(seqs[n][0]) {
      assert FreeBy(seqs, n, b);
    }
  }

  lemma FreeHeadNext<T(!new)>(left: seq<seq<T>>, m: nat)
    requires m < |left| && forall i :: 0 <= i < |left| ==> left[i] != []
    ensures FreeHead(left, m + 1) ==
      if FreeHead(left, m).Some? || InTail(left, left[m][0]) then FreeHead(left, m) else Some(left[m][0])
  {
  }

  lemma SearchNext<T(!new)>(seqs: seq<seq<T>>, n: nat, b: T -> bool)
    requires n < |seqs| && (forall i :: 0 <= i < |seqs| ==> seqs[i] != []) && b(seqs[n][0]) == InTail(seqs, seqs[n][0])
    requires Found(FreeHead(seqs, n), seqs, n, b)
    ensures Found(FreeHead(seqs, n + 1), seqs, n + 1, b)
  {
    FreeHeadNext(seqs, n);
    FoundNext(FreeHead(seqs, n), seqs, n, b);
  }

  ghost predicate FoundBefore<T(!new)>(n: nat, seqs: seq<seq<T>>, b: T -> bool)
    requires forall i :: 0 <= i < |seqs| ==> seqs[i] != []
  {
    n <= |seqs| ==> Found(FreeHead(seqs, n), seqs, n, b)
  }

  lemma FoundFurther<T(!new)>(n: nat, seqs: seq<seq<T>>, b: T -> bool)
    requires forall i :: 0 <= i < |seqs| ==> seqs[i] != [] && b(seqs[i][0]) == InTail(seqs, seqs[i][0])
    requires FoundBefore(n, seqs, b)
    ensures FoundBefore(n + 1, seqs, b)
  {
    if n < |seqs| {
      SearchNext(seqs, n, b);
    }
  }

  /** A free head found among the sequences is the first one. */
  lemma FreeHeadIsFirst<T(!new)>(seqs: seq<seq<T>>, b: T -> bool)
    requires forall i :: 0 <= i < |seqs| ==> seqs[i] != [] && b(seqs[i][0]) == InTail(seqs, seqs[i][0])
    ensures Found(FreeHead(seqs, |seqs|), seqs, |seqs|, b)
  {
    var holds := (n: nat) => FoundBefore(n, seqs, b);
    assert FoundBefore(0, seqs, b);
    forall n: nat | holds(n)
      ensures holds(n + 1)
    {
      FoundFurther(n, seqs, b);
    }
    Induct(holds, |seqs|);
    assert holds(|seqs|);
  }

  /** `f` tells where the sequences that are not empty stand. */
  ghost predicate Stand<T(!new)>(f: seq<nat>, left: seq<seq<T>>, seqs: seq<seq<T>>) {
    Picks(f, left, seqs) && forall i :: 0 <= i < |seqs| && seqs[i] != [] ==> i in f
  }

  lemma StandLast<T(!new)>(f: seq<nat>, left: seq<seq<T>>, seqs: seq<seq<T>>, s: seq<T>)
    requires Stand(f, left, seqs)
    ensures s == [] ==> Stand(f, left, seqs + [s])
    ensures Stand(f + [|seqs|], left + [s], seqs + [s])
  {
  }

  lemma StandNext<T(!new)>(front: seq<seq<T>>, last: seq<T>, g: seq<nat>) returns (f: seq<nat>)
    requires Stand(g, NonEmpty(front), front)
    ensures Stand(f, NonEmpty(front + [last]), front + [last])
  {
    f := if last == [] then g else g + [|front|];
    NonEmptyLast(front, last);
    StandLast(g, NonEmpty(front), front, last);
  }

  lemma {:induction false} NonEmptyStand<T(!new)>(seqs: seq<seq<T>>) returns (f: seq<nat>)
    ensures Stand(f, NonEmpty(seqs), seqs)
  {
    if seqs == [] {
      f := [];
    } else {
      var front, last := seqs[..|seqs| - 1], seqs[|seqs| - 1];
      assert seqs == front + [last];
      var g := NonEmptyStand(front);
      f := StandNext(front, last, g);
    }
  }

  lemma FreeStands<T(!new)>(f: seq<nat>, left: seq<seq<T>>, seqs: seq<seq<T>>, k: nat, b: T -> bool)
    requires Stand(f, left, seqs) && FreeBy(left, k, b)
    ensures k < |f| && FreeBy(seqs, f[k], b)
  {
    forall j | 0 <= j < f[k] && seqs[j] != []
      ensures b(seqs[j][0])
    {
      var l :| 0 <= l < |f| && f[l] == j;
      assert left[l] == seqs[j] && l < k;
    }
  }

  lemma ForcedStands<T(!new)>(f: seq<nat>, left: seq<seq<T>>, seqs: seq<seq<T>>, b: T -> bool)
    requires Stand(f, left, seqs) && left != [] && left[0] != []
    requires forall k :: 0 <= k < |left| && left[k] != [] ==> b(left[k][0])
    ensures ForcedBy(seqs, f[0], b)
  {
    forall j | 0 <= j < |seqs| && seqs[j] != []
      ensures b(seqs[j][0]) && f[0] <= j
    {
      var l :| 0 <= l < |f| && f[l] == j;
      assert left[l] == seqs[j];
    }
  }

  lemma PoppedLast<T(!new)>(seqs: seq<seq<T>>, s: seq<T>, x: T)
    ensures Popped(seqs + [s], x) == Popped(seqs, x) + [if s != [] && s[0] == x then s[1..] else s]
  {
  }

  /** It makes no difference to the rest whether empty sequences are dropped before the head is taken off. */
  lemma {:induction false} DropsEmpty<T(!new)>(seqs: seq<seq<T>>, x: T)
    ensures NonEmpty(Popped(NonEmpty(seqs), x)) == NonEmpty(Popped(seqs, x))
  {
    if seqs == [] {
      assert NonEmpty(seqs) == seqs;
    } else {
      var front, last := seqs[..|seqs| - 1], seqs[|seqs| - 1];
      assert seqs == front + [last];
      DropsEmpty(front, x);
      DropsLast(front, last, x);
    }
  }

  lemma DropsLast<T(!new)>(front: seq<seq<T>>, last: seq<T>, x: T)
    requires NonEmpty(Popped(NonEmpty(front), x)) == NonEmpty(Popped(front, x))
    ensures NonEmpty(Popped(NonEmpty(front + [last]), x)) == NonEmpty(Popped(front + [last], x))
  {
    var taken := if last != [] && last[0] == x then last[1..] else last;
    NonEmptyLast(front, last);
    PoppedLast(front, last, x);
    NonEmptyLast(Popped(front, x), taken);
    PoppedLast(NonEmpty(front), last, x);
    NonEmptyLast(Popped(NonEmpty(front), x), taken);
  }

  lemma MergedIgnoresEmpty<T(!new)>(a: seq<seq<T>>, b: seq<seq<T>>)
    requires NonEmpty(a) == NonEmpty(b)
    ensures Merged(a) == Merged(b)
  {
  }

  lemma ChosenFirst<T(!new)>(free: Option<T>, left: seq<seq<T>>, seqs: seq<seq<T>>, f: seq<nat>, b: T -> bool)
    returns (i: nat)
    requires Found(free, left, |left|, b) && left != [] && left[0] != [] && Stand(f, left, seqs)
    ensures FreeBy(seqs, i, b) || ForcedBy(seqs, i, b)
    ensures seqs[i][0] == if free.Some? then free.value else left[0][0]
  {
    if free.Some? {
      var k: nat :| k < |left| && FreeBy(left, k, b) && free.value == left[k][0];
      FreeStands(f, left, seqs, k, b);
      i := f[k];
    } else {
      ForcedStands(f, left, seqs, b);
      i := f[0];
    }
  }

  lemma Plainly<T(!new)>(seqs: seq<seq<T>>, i: nat, b: T -> bool)
    requires forall x :: b(x) == Blocked(seqs, x)
    ensures FreeBy(seqs, i, b) ==> FirstFree(seqs, i)
    ensures ForcedBy(seqs, i, b) ==> FirstForced(seqs, i)
  {
  }

  lemma LeftBlocked<T(!new)>(seqs: seq<seq<T>>, left: seq<seq<T>>, b: T -> bool)
    requires left == NonEmpty(seqs) && forall x :: b(x) == Blocked(seqs, x)
    ensures forall k :: 0 <= k < |left| ==> left[k] != [] && b(left[k][0]) == InTail(left, left[k][0])
  {
    forall k | 0 <= k < |left|
      ensures left[k] != [] && b(left[k][0]) == InTail(left, left[k][0])
    {
      SameTails(seqs, left[k][0]);
    }
  }

  lemma SearchLeft<T(!new)>(seqs: seq<seq<T>>, left: seq<seq<T>>, f: seq<nat>, b: T -> bool) returns (i: nat)
    requires left != [] && Stand(f, left, seqs)
    requires forall k :: 0 <= k < |left| ==> left[k] != [] && b(left[k][0]) == InTail(left, left[k][0])
    ensures (FreeBy(seqs, i, b) || ForcedBy(seqs, i, b)) && Head(left) == seqs[i][0]
  {
    FreeHeadIsFirst(left, b);
    i := ChosenFirst(FreeHead(left, |left|), left, seqs, f, b);
  }

  /** The head the merge takes next. */
  lemma HeadIsFirst<T(!new)>(seqs: seq<seq<T>>) returns (i: nat)
    requires NonEmpty(seqs) != []
    ensures (FirstFree(seqs, i) || FirstForced(seqs, i)) && Head(NonEmpty(seqs)) == seqs[i][0]
  {
    var b := (x: T) => Blocked(seqs, x);
    var f := NonEmptyStand(seqs);
    LeftBlocked(seqs, NonEmpty(seqs), b);
    i := SearchLeft(seqs, NonEmpty(seqs), f, b);
    Plainly(seqs, i, b);
  }

  lemma RestIsMerged<T(!new)>(seqs: seq<seq<T>>, x: T, rest: seq<seq<T>>)
    requires NonEmpty(seqs) != [] && x == Head(NonEmpty(seqs)) && TakenOff(rest, seqs, x)
    ensures Merged(seqs) == [x] + Merged(rest)
  {
    assert rest == Popped(seqs, x);
    MergedStep(seqs);
    DropsEmpty(seqs, x);
    MergedIgnoresEmpty(Popped(NonEmpty(seqs), x), rest);
  }

  /** The merge takes the first head that is in no tail, or the very first head where all are, and merges the rest. */
  lemma MergeTakesFirst<T(!new)>(seqs: seq<seq<T>>)
    ensures (forall s :: s in seqs ==> s == []) ==> Merged(seqs) == []
    ensures (exists s :: s in seqs && s != []) ==>
      exists i: nat :: (FirstFree(seqs, i) || FirstForced(seqs, i))
                       && forall rest :: TakenOff(rest, seqs, seqs[i][0]) ==>
                         Merged(seqs) == [seqs[i][0]] + Merged(rest)
  {
    if NonEmpty(seqs) != [] {
      var i := HeadIsFirst(seqs);
      forall rest | TakenOff(rest, seqs, seqs[i][0])
        ensures Merged(seqs) == [seqs[i][0]] + Merged(rest)
      {
        RestIsMerged(seqs, seqs[i][0], rest);
      }
    }
  }

  lemma OneFirstFree<T(!new)>(seqs: seq<seq<T>>, i: nat, j: nat)
    requires FirstFree(seqs, i) && (FirstFree(seqs, j) || FirstForced(seqs, j))
    ensures i == j
  {
  }

  lemma TakesFree<T(!new)>(seqs: seq<seq<T>>, i: nat, rest: seq<seq<T>>)
    requires FirstFree(seqs, i) && TakenOff(rest, seqs, seqs[i][0])
    ensures Merged(seqs) == [seqs[i][0]] + Merged(rest)
  {
    MergeTakesFirst(seqs);
    assert seqs[i] in seqs;
    var j: nat :| (FirstFree(seqs, j) || FirstForced(seqs, j))
                  && forall r :: TakenOff(r, seqs, seqs[j][0]) ==> Merged(seqs) == [seqs[j][0]] + Merged(r);
    OneFirstFree(seqs, i, j);
  }

  /** The bases of `class D(B, C)` with `class B(X)` and `class C(Y)`: X comes before C, which is free as well. */
  lemma MergeOfTwoBases()
    ensures Merged([["B", "X"], ["C", "Y"], ["B", "C"]]) == ["B", "X", "C", "Y"]
  {
    var b, c, x, y := "B", "C", "X", "Y";
    assert b[0] == 'B' && c[0] == 'C' && x[0] == 'X' && y[0] == 'Y';
    TwoBases(b, x, c, y);
  }

  ghost predicate BlockedIn<T(!new)>(s: seq<T>, x: T) {
    s != [] && x in s[1..]
  }

  lemma BlockedInThree<T(!new)>(s: seq<T>, t: seq<T>, u: seq<T>, x: T)
    ensures Blocked([s, t, u], x) <==> BlockedIn(s, x) || BlockedIn(t, x) || BlockedIn(u, x)
  {
    var seqs := [s, t, u];
    assert seqs[0] == s && seqs[1] == t && seqs[2] == u;
    assert s in seqs && t in seqs && u in seqs;
  }

  ghost predicate TakenFrom<T(!new)>(rest: seq<T>, s: seq<T>, x: T) {
    rest == if s != [] && s[0] == x then s[1..] else s
  }

  /** Of three sequences the first gives its head. */
  lemma FirstOfThree<T(!new)>(x: T, s: seq<T>, t: seq<T>, u: seq<T>, s': seq<T>, t': seq<T>, u': seq<T>)
    requires s != [] && s[0] == x && !BlockedIn(s, x) && !BlockedIn(t, x) && !BlockedIn(u, x)
    requires TakenFrom(s', s, x) && TakenFrom(t', t, x) && TakenFrom(u', u, x)
    ensures Merged([s, t, u]) == [x] + Merged([s', t', u'])
  {
    BlockedInThree(s, t, u, x);
    assert FirstFree([s, t, u], 0);
    TakesFree([s, t, u], 0, [s', t', u']);
  }

  /** Of two sequences behind an empty one the first gives its head. */
  lemma FirstOfTwo<T(!new)>(x: T, t: seq<T>, u: seq<T>, t': seq<T>, u': seq<T>)
    requires t != [] && t[0] == x && !BlockedIn(t, x) && !BlockedIn(u, x)
    requires TakenFrom(t', t, x) && TakenFrom(u', u, x)
    ensures Merged([[], t, u]) == [x] + Merged([[], t', u'])
  {
    BlockedInThree([], t, u, x);
    assert FirstFree([[], t, u], 1);
    TakesFree([[], t, u], 1, [[], t', u']);
  }

  lemma TwoBases<T(!new)>(b: T, x: T, c: T, y: T)
    requires b != x && b != c && b != y && x != c && x != y && c != y
    ensures Merged([[b, x], [c, y], [b, c]]) == [b, x, c, y]
  {
    FirstBase(b, x, c, y);
    LastThree(x, c, y);
  }

  lemma FirstBase<T(!new)>(b: T, x: T, c: T, y: T)
    requires b != x && b != c && b != y
    ensures Merged([[b, x], [c, y], [b, c]]) == [b] + Merged([[x], [c, y], [c]])
  {
    FirstOfThree(b, [b, x], [c, y], [b, c], [x], [c, y], [c]);
  }

  lemma LastThree<T(!new)>(x: T, c: T, y: T)
    requires x != c && x != y && c != y
    ensures Merged([[x], [c, y], [c]]) == [x, c, y]
  {
    FirstOfThree(x, [x], [c, y], [c], [], [c, y], [c]);
    LastTwo(c, y);
  }

  lemma LastTwo<T(!new)>(c: T, y: T)
    requires c != y
    ensures Merged([[], [c, y], [c]]) == [c, y]
  {
    FirstOfTwo(c, [c, y], [c], [y], []);
    FirstOfTwo(y, [y], [], [], []);
    NothingLeft<T>();
  }

  lemma NothingLeft<T(!new)>()
    ensures Merged<T>([[], [], []]) == []
  {
    MergeTakesFirst<T>([[], [], []]);
  }

  // ----- What a merge gives

  lemma PoppedHolds<T(!new)>(seqs: seq<seq<T>>, head: T, x: T)
    ensures Holds(Popped(seqs, head), x) ==> Holds(seqs, x)
    ensures Holds(seqs, x) ==> x == head || Holds(Popped(seqs, head), x)
  {
    var r := Popped(seqs, head);
    if s :| s in r && x in s {
      var i :| 0 <= i < |r| && r[i] == s;
      assert seqs[i] in seqs && x in seqs[i];
    }
    if s :| s in seqs && x in s {
      var i :| 0 <= i < |seqs| && seqs[i] == s;
      assert r[i] in r;
      if x != head {
        assert s != [] && s[0] == head ==> s == [s[0]] + s[1..];
        assert x in r[i];
      }
    }
  }

  /** Exactly the elements that went in come out. */
  lemma {:induction false} MergedElements<T(!new)>(seqs: seq<seq<T>>, x: T)
    ensures x in Merged(seqs) <==> Holds(seqs, x)
    decreases Total(seqs)
  {
    var left := NonEmpty(seqs);
    if left != [] {
      var head := Head(left);
      PoppedTotal(left, head);
      MergedElements(Popped(left, head), x);
      PoppedHolds(left, head, x);
      var i :| 0 <= i < |left| && left[i][0] == head;
      assert left[i] in left && head in left[i];
    }
  }

  /** Positions one further to the right. */
  ghost function Shifted(f: seq<nat>): (g: seq<nat>)
    ensures |g| == |f| && forall i :: 0 <= i < |f| ==> g[i] == f[i] + 1
  {
    seq(|f|, i requires 0 <= i < |f| => f[i] + 1)
  }

  lemma PicksBehind<T(!new)>(f: seq<nat>, s: seq<T>, x: T, r: seq<T>)
    requires Picks(f, s, r)
    ensures Picks(Shifted(f), s, [x] + r) && Picks([0] + Shifted(f), [x] + s, [x] + r)
  {
  }

  lemma EmbedsBehind<T(!new)>(s: seq<T>, x: T, r: seq<T>)
    requires Embeds(s, r) || (s != [] && s[0] == x && Embeds(s[1..], r))
    ensures Embeds(s, [x] + r)
  {
    if Embeds(s, r) {
      var f :| Picks(f, s, r);
      PicksBehind(f, s, x, r);
    } else {
      var f :| Picks(f, s[1..], r);
      assert s == [x] + s[1..];
      PicksBehind(f, s[1..], x, r);
    }
  }

  /** Every sequence survives in its order, forced or not. */
  lemma {:induction false} MergedEmbeds<T(!new)>(seqs: seq<seq<T>>, s: seq<T>)
    requires s in seqs
    ensures Embeds(s, Merged(seqs))
    decreases Total(seqs)
  {
    var left := NonEmpty(seqs);
    if s == [] {
      assert Picks([], s, Merged(seqs));
    } else {
      var head := Head(left);
      var i :| 0 <= i < |left| && left[i] == s;
      var next := Popped(left, head);
      assert next[i] in next;
      PoppedTotal(left, head);
      MergedEmbeds(next, next[i]);
      EmbedsBehind(s, head, Merged(next));
    }
  }

  lemma PoppedWithout<T(!new)>(seqs: seq<seq<T>>, head: T)
    requires !InTail(seqs, head) && forall i :: 0 <= i < |seqs| ==> seqs[i] != []
    ensures !Holds(Popped(seqs, head), head)
  {
    var r := Popped(seqs, head);
    forall i | 0 <= i < |r|
      ensures head !in r[i]
    {
      assert seqs[i] in seqs && seqs[i] == [seqs[i][0]] + seqs[i][1..];
      assert head !in seqs[i][1..];
    }
  }

  /** A merge that is never forced gives every element once. */
  lemma {:induction false} UnforcedNoDup<T(!new)>(seqs: seq<seq<T>>)
    requires NeverForced(seqs)
    ensures NoDup(Merged(seqs))
    decreases Total(seqs)
  {
    var left := NonEmpty(seqs);
    if left != [] {
      var head := Head(left);
      var rest := Popped(left, head);
      PoppedTotal(left, head);
      UnforcedNoDup(rest);
      PoppedWithout(left, head);
      MergedElements(rest, head);
    }
  }

  /** Position k of the order is the earliest that holds one of the first n heads. */
  ghost predicate Earliest<T(!new)>(seqs: seq<seq<T>>, n: nat, order: seq<T>, k: nat)
    requires n <= |seqs| && forall i :: 0 <= i < |seqs| ==> seqs[i] != []
  {
    && k < |order| && (exists i :: 0 <= i < n && seqs[i][0] == order[k])
    && forall i, j :: 0 <= i < n && 0 <= j < k ==> seqs[i][0] != order[j]
  }

  lemma {:induction false} SomeEarliest<T(!new)>(seqs: seq<seq<T>>, order: seq<T>, n: nat) returns (k: nat)
    requires 0 < n <= |seqs| && Consistent(seqs, order) && forall i :: 0 <= i < |seqs| ==> seqs[i] != []
    ensures Earliest(seqs, n, order, k)
  {
    assert seqs[n - 1] in seqs;
    var f :| Picks(f, seqs[n - 1], order);
    k := f[0];
    if n > 1 {
      var before := SomeEarliest(seqs, order, n - 1);
      if before < k {
        k := before;
      }
    }
  }

  /** The head that comes earliest in a common order is in no tail. */
  lemma EarliestIsFree<T(!new)>(seqs: seq<seq<T>>, order: seq<T>, k: nat)
    requires Consistent(seqs, order) && forall i :: 0 <= i < |seqs| ==> seqs[i] != []
    requires Earliest(seqs, |seqs|, order, k)
    ensures !InTail(seqs, order[k])
  {
    forall i | 0 <= i < |seqs|
      ensures order[k] !in seqs[i][1..]
    {
      assert seqs[i] in seqs;
      var f :| Picks(f, seqs[i], order);
      assert seqs[i][0] == order[f[0]];
      assert forall j :: 1 <= j < |seqs[i]| ==> f[0] < f[j] && seqs[i][j] == order[f[j]];
    }
  }

  lemma SuffixEmbeds<T(!new)>(s: seq<T>, order: seq<T>)
    requires s != [] && Embeds(s, order)
    ensures Embeds(s[1..], order)
  {
    var f :| Picks(f, s, order);
    assert Picks(f[1..], s[1..], order);
  }

  /** A common order of the inputs is one of what is left after a step. */
  lemma PoppedConsistent<T(!new)>(seqs: seq<seq<T>>, head: T, order: seq<T>)
    requires Consistent(seqs, order)
    ensures Consistent(Popped(NonEmpty(seqs), head), order)
  {
    var left := NonEmpty(seqs);
    var r := Popped(left, head);
    forall s | s in r
      ensures Embeds(s, order)
    {
      var i :| 0 <= i < |r| && r[i] == s;
      assert left[i] in left;
      SuffixEmbeds(left[i], order);
    }
  }

  /** With a common order there is always a free head. */
  lemma {:induction false} ConsistentNeverForced<T(!new)>(seqs: seq<seq<T>>, order: seq<T>)
    requires Consistent(seqs, order)
    ensures NeverForced(seqs)
    decreases Total(seqs)
  {
    var left := NonEmpty(seqs);
    if left != [] {
      var k := SomeEarliest(left, order, |left|);
      EarliestIsFree(left, order, k);
      assert FreeHead(left, |left|).Some?;
      var head := Head(left);
      PoppedTotal(left, head);
      PoppedConsistent(seqs, head, order);
      ConsistentNeverForced(Popped(left, head), order);
    }
  }

  /** The merge is never forced exactly when a common order exists; then its result is one. */
  lemma UnforcedExactlyWhenConsistent<T(!new)>(seqs: seq<seq<T>>)
    ensures NeverForced(seqs) <==> exists order :: Consistent(seqs, order)
    ensures NeverForced(seqs) ==> Consistent(seqs, Merged(seqs))
  {
    if NeverForced(seqs) {
      UnforcedNoDup(seqs);
      forall s | s in seqs
        ensures Embeds(s, Merged(seqs))
      {
        MergedEmbeds(seqs, s);
      }
      assert Consistent(seqs, Merged(seqs));
    }
    if order :| Consistent(seqs, order) {
      ConsistentNeverForced(seqs, order);
    }
  }
}
