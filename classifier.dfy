/**
 * How the engine sorts the routines visible on a class.
 *
 * By origin a routine is inherited (its name is not in the class's own
 * `__dict__`), overridden (its name is own and also in the own `__dict__` of
 * some strict ancestor, `object` included) or neither. By access it is
 * private (its name starts with `_` and the class name and does not end with
 * `__`) or visible. Members that are not routines are not counted at all.
 */
module Classifier {
  import opened Hierarchy
  import opened Reflection

  /** The four per-class method counters, in the order `set_statistic` takes them. */
  datatype MethodCounts = MethodCounts(inherited: nat, overridden: nat, visible: nat, privateMethods: nat)

  /** Counter-wise sum. */
  function Plus(a: MethodCounts, b: MethodCounts): MethodCounts
  {
    MethodCounts(a.inherited + b.inherited, a.overridden + b.overridden,
                 a.visible + b.visible, a.privateMethods + b.privateMethods)
  }

  const NoMethods := MethodCounts(0, 0, 0, 0)

  /** `prefix` begins `s`, as Python's `str.startswith`, checked one character at a time. */
  predicate StartsWith(s: string, prefix: string)
  {
    |prefix| <= |s| && (|prefix| == 0 || (s[0] == prefix[0] && StartsWith(s[1..], prefix[1..])))
  }

  /** `StartsWith` is exactly the prefix relation on strings. */
  lemma {:induction false} StartsWithIsPrefix(s: string, prefix: string)
    ensures StartsWith(s, prefix) <==> prefix <= s
  {
    if |prefix| != 0 && |prefix| <= |s| {
      StartsWithIsPrefix(s[1..], prefix[1..]);
      if prefix <= s {
        assert prefix[1..] <= s[1..];
      }
      if StartsWith(s, prefix) {
        assert prefix == [prefix[0]] + prefix[1..] && s == [s[0]] + s[1..];
      }
    }
  }

  /** The name ends in a double underscore, as Python's `str.endswith("__")`. */
  predicate EndsWithDunder(name: string)
  {
    |name| >= 2 && name[|name| - 2] == '_' && name[|name| - 1] == '_'
  }

  /**
   * The private-name convention: the name starts with an underscore and the
   * class name (the form Python gives a `__name` declared in that class) and
   * is not a special `__name__`.
   */
  predicate IsPrivateName(className: string, name: string)
  {
    StartsWith(name, "_" + className) && !EndsWithDunder(name)
  }

  /**
   * A private name is longer than the class name, carries the class name
   * right after its leading underscore, and is never a special `__name__`.
   */
  lemma PrivateNameShape(className: string, name: string)
    ensures IsPrivateName(className, name) ==>
              |name| > |className| && name[0] == '_' && name[1..|className| + 1] == className
    ensures IsPrivateName(className, name) <==> "_" + className <= name && !EndsWithDunder(name)
    ensures EndsWithDunder(name) ==> !IsPrivateName(className, name)
  {
    StartsWithIsPrefix(name, "_" + className);
    if "_" + className <= name {
      assert name[1..|className| + 1] == ("_" + className)[1..];
    }
  }

  /** Some strict ancestor declares `name` in its own `__dict__`. */
  predicate DeclaredByAncestor(w: World, ancestors: seq<ClassId>, name: string)
    requires forall i :: 0 <= i < |ancestors| ==> ancestors[i] in w
  {
    exists i :: 0 <= i < |ancestors| && name in w[ancestors[i]].ownNames
  }

  /** What one visible member of class `c` adds to the four counters. */
  function Contribution(w: World, c: ClassId, m: Member): (r: MethodCounts)
    requires AncestorsKnown(w, c)
    ensures !m.isRoutine ==> r == NoMethods
    ensures m.isRoutine ==> r.visible + r.privateMethods == 1
    ensures r.inherited + r.overridden <= 1
    ensures r.inherited == 1 <==> m.isRoutine && m.name !in w[c].ownNames
    ensures r.overridden == 1 <==>
              m.isRoutine && m.name in w[c].ownNames && DeclaredByAncestor(w, w[c].ancestors, m.name)
    ensures r.privateMethods == 1 <==> m.isRoutine && IsPrivateName(w[c].name, m.name)
  {
    if !m.isRoutine then NoMethods
    else
      var inherited := if m.name !in w[c].ownNames then 1 else 0;
      var overridden :=
        if m.name in w[c].ownNames && DeclaredByAncestor(w, w[c].ancestors, m.name) then 1 else 0;
      if IsPrivateName(w[c].name, m.name)
      then MethodCounts(inherited, overridden, 0, 1)
      else MethodCounts(inherited, overridden, 1, 0)
  }

  /** The counters for a list of members: the sum of every member's contribution. */
  function Tally(w: World, c: ClassId, ms: seq<Member>): MethodCounts
    requires AncestorsKnown(w, c)
  {
    if ms == [] then NoMethods else Plus(Contribution(w, c, ms[0]), Tally(w, c, ms[1..]))
  }

  /**
   * The routines among `ms`, in their order: every routine member is kept,
   * as often as it occurs, and nothing else.
   */
  function Routines(ms: seq<Member>): (r: seq<Member>)
    ensures |r| <= |ms|
    ensures forall i :: 0 <= i < |r| ==> r[i].isRoutine
    ensures forall m :: m in r <==> m in ms && m.isRoutine
    ensures forall m :: multiset(r)[m] == (if m.isRoutine then multiset(ms)[m] else 0)
  {
    if ms == [] then []
    else
      assert ms == [ms[0]] + ms[1..];
      if ms[0].isRoutine then [ms[0]] + Routines(ms[1..])
      else Routines(ms[1..])
  }

  /** Counting member by member, as the loop does, gives the tally of all members seen. */
  lemma {:induction false} TallyAppend(w: World, c: ClassId, ms: seq<Member>, m: Member)
    requires AncestorsKnown(w, c)
    ensures Tally(w, c, ms + [m]) == Plus(Tally(w, c, ms), Contribution(w, c, m))
  {
    if ms == [] {
      assert [m][1..] == [];
    } else {
      assert (ms + [m])[1..] == ms[1..] + [m];
      TallyAppend(w, c, ms[1..], m);
    }
  }

  /**
   * The counters after the first `i` members have been counted one at a
   * time, front to back.
   */
  function TallyUpTo(w: World, c: ClassId, ms: seq<Member>, i: nat): MethodCounts
    requires AncestorsKnown(w, c) && i <= |ms|
  {
    if i == 0 then NoMethods else Plus(TallyUpTo(w, c, ms, i - 1), Contribution(w, c, ms[i - 1]))
  }

  /** Counting the first `i` members one at a time gives the tally of those members. */
  lemma {:induction false} TallyUpToIsTally(w: World, c: ClassId, ms: seq<Member>, i: nat)
    requires AncestorsKnown(w, c) && i <= |ms|
    ensures TallyUpTo(w, c, ms, i) == Tally(w, c, ms[..i])
  {
    if i == 0 {
      assert ms[..0] == [];
    } else {
      TallyUpToIsTally(w, c, ms, i - 1);
      assert ms[..i] == ms[..i - 1] + [ms[i - 1]];
      TallyAppend(w, c, ms[..i - 1], ms[i - 1]);
    }
  }

  /** Members that are not routines change no counter. */
  lemma {:induction false} TallyIgnoresNonRoutines(w: World, c: ClassId, ms: seq<Member>)
    requires AncestorsKnown(w, c)
    ensures Tally(w, c, ms) == Tally(w, c, Routines(ms))
  {
    if ms != [] {
      var rest := ms[1..];
      assert ms == [ms[0]] + rest;
      TallyIgnoresNonRoutines(w, c, rest);
      if ms[0].isRoutine {
        TallyCons(w, c, ms[0], Routines(rest));
      } else {
        TallySkip(w, c, ms[0], rest);
      }
    }
  }

  /** The tally of a list headed by `m` adds `m`'s contribution to the tally of the rest. */
  lemma TallyCons(w: World, c: ClassId, m: Member, ms: seq<Member>)
    requires AncestorsKnown(w, c)
    ensures Tally(w, c, [m] + ms) == Plus(Contribution(w, c, m), Tally(w, c, ms))
  {
    assert ([m] + ms)[1..] == ms;
  }

  /** A leading non-routine changes neither the tally nor the list of routines. */
  lemma TallySkip(w: World, c: ClassId, m: Member, ms: seq<Member>)
    requires AncestorsKnown(w, c) && !m.isRoutine
    ensures Tally(w, c, [m] + ms) == Tally(w, c, ms)
    ensures Routines([m] + ms) == Routines(ms)
  {
    var s := [m] + ms;
    assert s[0] == m && s[1..] == ms;
    var t := Tally(w, c, ms);
    assert Contribution(w, c, m) == NoMethods;
    assert Plus(NoMethods, t) == t;
    assert Tally(w, c, s) == Plus(Contribution(w, c, m), t);
  }

  /** Every routine is counted exactly once as visible or as private. */
  lemma {:induction false} TallyAccessPartition(w: World, c: ClassId, ms: seq<Member>)
    requires AncestorsKnown(w, c)
    ensures Tally(w, c, ms).visible + Tally(w, c, ms).privateMethods == |Routines(ms)|
  {
    if ms != [] {
      TallyAccessPartition(w, c, ms[1..]);
    }
  }

  /**
   * No routine is both inherited and overridden, so the two origin counters
   * together are at most the number of routines; the rest are new methods.
   */
  lemma {:induction false} TallyOriginBound(w: World, c: ClassId, ms: seq<Member>)
    requires AncestorsKnown(w, c)
    ensures Tally(w, c, ms).inherited + Tally(w, c, ms).overridden <= |Routines(ms)|
  {
    if ms != [] {
      TallyOriginBound(w, c, ms[1..]);
    }
  }

  /**
   * A listed routine that the class does not declare itself is counted as
   * inherited. This is how a class whose base is `object` counts the
   * routines it gets from `object`, such as `__init__` and `__repr__`.
   */
  lemma {:induction false} TallyCountsInheritedRoutine(w: World, c: ClassId, ms: seq<Member>, i: nat)
    requires AncestorsKnown(w, c) && i < |ms|
    requires ms[i].isRoutine && ms[i].name !in w[c].ownNames
    ensures Tally(w, c, ms).inherited >= 1
  {
    var head := Contribution(w, c, ms[0]);
    var rest := Tally(w, c, ms[1..]);
    assert Tally(w, c, ms) == Plus(head, rest);
    if i == 0 {
      assert head.inherited == 1;
    } else {
      assert ms[1..][i - 1] == ms[i];
      TallyCountsInheritedRoutine(w, c, ms[1..], i - 1);
      assert rest.inherited >= 1;
    }
  }

  /**
   * A class that declares every routine it shows and has no ancestors (as
   * `object`) has neither inherited nor overridden methods.
   */
  lemma {:induction false} TallyRootClass(w: World, c: ClassId, ms: seq<Member>)
    requires AncestorsKnown(w, c) && w[c].ancestors == []
    requires forall i :: 0 <= i < |ms| && ms[i].isRoutine ==> ms[i].name in w[c].ownNames
    ensures Tally(w, c, ms).inherited == 0 && Tally(w, c, ms).overridden == 0
  {
    if ms != [] {
      TallyRootClass(w, c, ms[1..]);
    }
  }
}
