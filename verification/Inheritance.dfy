/** Who inherits from whom: the class maps of `src/mro.rs` and `inherits_from` of `src/resolution.rs`. */
module Inheritance {

  /** The direct bases of each class; a class without an entry has none. */
  type ClassMap = map<string, seq<string>>

  ghost predicate Base(bases: ClassMap, c: string, b: string) {
    c in bases && b in bases[c]
  }

  /** Each class in the line is followed by one of its bases. */
  ghost predicate Line(bases: ClassMap, p: seq<string>) {
    p != [] && forall i, j :: 0 <= i && j == i + 1 < |p| ==> Base(bases, p[i], p[j])
  }

  /** `a` is `c` or one of its ancestors. */
  ghost predicate Inherits(bases: ClassMap, c: string, a: string) {
    exists p :: Line(bases, p) && p[0] == c && p[|p| - 1] == a
  }

  /** `a` is an ancestor of `c`, with at least one step between. */
  ghost predicate HasAncestor(bases: ClassMap, c: string, a: string) {
    exists b :: Base(bases, c, b) && Inherits(bases, b, a)
  }

  ghost predicate Acyclic(bases: ClassMap) {
    forall c :: !HasAncestor(bases, c, c)
  }

  lemma InheritsItself(bases: ClassMap, c: string)
    ensures Inherits(bases, c, c)
  {
    assert Line(bases, [c]) && [c][0] == c;
  }

  lemma InheritsThrough(bases: ClassMap, c: string, b: string, a: string)
    requires Base(bases, c, b) && Inherits(bases, b, a)
    ensures Inherits(bases, c, a)
  {
    var p :| Line(bases, p) && p[0] == b && p[|p| - 1] == a;
    var q := [c] + p;
    forall i, j | 0 <= i && j == i + 1 < |q|
      ensures Base(bases, q[i], q[j])
    {
      if i > 0 {
        assert Base(bases, p[i - 1], p[i]);
      }
    }
    assert Line(bases, q) && q[0] == c && q[|q| - 1] == a;
  }

  /** A set that holds the bases of its members holds their ancestors. */
  lemma ClosedConfines(bases: ClassMap, s: set<string>, c: string, a: string)
    requires c in s && forall x, b :: x in s && Base(bases, x, b) ==> b in s
    requires Inherits(bases, c, a)
    ensures a in s
  {
    var p :| Line(bases, p) && p[0] == c && p[|p| - 1] == a;
    LineStaysIn(bases, s, p, |p| - 1);
  }

  lemma {:induction false} LineStaysIn(bases: ClassMap, s: set<string>, p: seq<string>, i: nat)
    requires Line(bases, p) && p[0] in s && forall x, b :: x in s && Base(bases, x, b) ==> b in s
    requires i < |p|
    ensures p[i] in s
  {
    if i > 0 {
      LineStaysIn(bases, s, p, i - 1);
      assert Base(bases, p[i - 1], p[i]);
    }
  }

  // ----- Acyclic maps have a rank

  ghost predicate IsRank(bases: ClassMap, rank: string -> nat) {
    forall c, b :: Base(bases, c, b) ==> rank(b) < rank(c)
  }

  ghost function Classes(bases: ClassMap): set<string> {
    bases.Keys + set c, b | c in bases && b in bases[c] :: b
  }

  ghost function Ancestors(bases: ClassMap, c: string): set<string> {
    set a | a in Classes(bases) && Inherits(bases, c, a)
  }

  /** The number of classes a class inherits from. */
  ghost function Depth(bases: ClassMap): string -> nat {
    c => |Ancestors(bases, c)|
  }

  lemma SubsetIsSmaller(a: set<string>, b: set<string>)
    requires a < b
    ensures |a| < |b|
  {
    assert b == a + (b - a);
    assert b - a != {};
  }

  lemma AcyclicHasRank(bases: ClassMap)
    requires Acyclic(bases)
    ensures IsRank(bases, Depth(bases))
  {
    forall c, b | Base(bases, c, b)
      ensures |Ancestors(bases, b)| < |Ancestors(bases, c)|
    {
      forall a | a in Ancestors(bases, b)
        ensures a in Ancestors(bases, c)
      {
        InheritsThrough(bases, c, b, a);
      }
      InheritsItself(bases, c);
      assert c in Ancestors(bases, c);
      assert !HasAncestor(bases, c, c);
      SubsetIsSmaller(Ancestors(bases, b), Ancestors(bases, c));
    }
  }

  // ----- Searching the ancestors

  ghost predicate AncestorIn(bases: ClassMap, c: string, targets: set<string>) {
    exists a :: a in targets && HasAncestor(bases, c, a)
  }

  /** What is left to search: the bases of the class and of whatever was seen are seen or on the stack. */
  ghost predicate Frontier(bases: ClassMap, c: string, stack: seq<string>, seen: set<string>) {
    forall x, b {:trigger Base(bases, x, b)} :: (x == c || x in seen) && Base(bases, x, b) ==> b in seen || b in stack
  }

  lemma PopSeen(bases: ClassMap, c: string, stack: seq<string>, seen: set<string>)
    requires stack != [] && Frontier(bases, c, stack, seen) && stack[|stack| - 1] in seen
    ensures Frontier(bases, c, stack[..|stack| - 1], seen)
  {
    assert stack == stack[..|stack| - 1] + [stack[|stack| - 1]];
  }

  lemma PopNew(bases: ClassMap, c: string, stack: seq<string>, seen: set<string>)
    requires stack != [] && Frontier(bases, c, stack, seen)
    ensures
      var base := stack[|stack| - 1];
      Frontier(bases, c, stack[..|stack| - 1] + (if base in bases then bases[base] else []), seen + {base})
  {
    assert stack == stack[..|stack| - 1] + [stack[|stack| - 1]];
  }

  /** The classes met so far are ancestors. */
  ghost predicate AllAncestors(bases: ClassMap, c: string, xs: seq<string>) {
    forall i :: 0 <= i < |xs| ==> HasAncestor(bases, c, xs[i])
  }

  lemma BasesAreAncestors(bases: ClassMap, c: string)
    requires c in bases
    ensures AllAncestors(bases, c, bases[c])
  {
    forall i | 0 <= i < |bases[c]|
      ensures HasAncestor(bases, c, bases[c][i])
    {
      InheritsItself(bases, bases[c][i]);
      assert Base(bases, c, bases[c][i]);
    }
  }

  lemma {:induction false} LineExtends(bases: ClassMap, b: string, a: string, x: string)
    requires Inherits(bases, b, a) && Base(bases, a, x)
    ensures Inherits(bases, b, x)
  {
    var p :| Line(bases, p) && p[0] == b && p[|p| - 1] == a;
    var q := p + [x];
    forall i, j | 0 <= i && j == i + 1 < |q|
      ensures Base(bases, q[i], q[j])
    {
      if j < |p| {
        assert Base(bases, p[i], p[j]);
      }
    }
    assert Line(bases, q) && q[0] == b && q[|q| - 1] == x;
  }

  lemma AncestorsOfAncestors(bases: ClassMap, c: string, a: string)
    requires HasAncestor(bases, c, a) && a in bases
    ensures AllAncestors(bases, c, bases[a])
  {
    var b :| Base(bases, c, b) && Inherits(bases, b, a);
    forall i | 0 <= i < |bases[a]|
      ensures HasAncestor(bases, c, bases[a][i])
    {
      LineExtends(bases, b, a, bases[a][i]);
    }
  }

  /** An exhausted search has seen every ancestor. */
  lemma Exhausted(bases: ClassMap, c: string, seen: set<string>, targets: set<string>)
    requires Frontier(bases, c, [], seen) && seen !! targets
    ensures !AncestorIn(bases, c, targets)
  {
    forall a | HasAncestor(bases, c, a)
      ensures a !in targets
    {
      var b :| Base(bases, c, b) && Inherits(bases, b, a);
      ClosedConfines(bases, seen, b, a);
    }
  }

  /** Whether some ancestor is a target. */
  method InheritsFrom(bases: ClassMap, c: string, targets: set<string>) returns (found: bool)
    ensures found <==> AncestorIn(bases, c, targets)
  {
    var seen: set<string> := {};
    var stack := if c in bases then bases[c] else [];
    if c in bases {
      BasesAreAncestors(bases, c);
    }
    while stack != []
      invariant Frontier(bases, c, stack, seen)
      invariant seen !! targets && seen <= Classes(bases)
      invariant AllAncestors(bases, c, stack)
      decreases Classes(bases) - seen, |stack|
    {
      var base := stack[|stack| - 1];
      assert HasAncestor(bases, c, base);
      PopNew(bases, c, stack, seen);
      if base in seen {
        PopSeen(bases, c, stack, seen);
      }
      stack := stack[..|stack| - 1];
      if base in targets {
        return true;
      }
      if base !in seen {
        AncestorsAreClasses(bases, c, base);
        seen := seen + {base};
        if base in bases {
          AncestorsOfAncestors(bases, c, base);
          stack := stack + bases[base];
        } else {
          assert stack + [] == stack;
        }
      }
    }
    Exhausted(bases, c, seen, targets);
    return false;
  }

  lemma AncestorsAreClasses(bases: ClassMap, c: string, a: string)
    requires HasAncestor(bases, c, a)
    ensures a in Classes(bases)
  {
    var b :| Base(bases, c, b) && Inherits(bases, b, a);
    ClosedConfines(bases, Classes(bases), b, a);
  }
}
