/**
 * The single-inheritance base chain and the inheritance depth it defines.
 *
 * A class is known by its identity. Every class except the built-in root
 * `object` has exactly one direct base (Python's `__base__`); the depth of a
 * class is the number of base links between it and `object`, minus one, so a
 * class whose direct base is `object` has depth 0.
 */
module Hierarchy {

  /** The identity of a class object. */
  type ClassId = nat

  /** The identity of the root class `object`. */
  const Object: ClassId := 0

  /**
   * Following the direct bases recorded in `bases` from `c` ends at `object`.
   * `bases` never lists `object` itself (it has no base). Each step drops the
   * class it leaves from the map, so a chain that comes back to a class it
   * already visited never reaches `object`: a grounded class lies on no cycle.
   */
  predicate Grounded(bases: map<ClassId, ClassId>, c: ClassId)
    decreases |bases|
  {
    MapRemoveSize(bases, c);
    c in bases && (bases[c] == Object || Grounded(bases - {c}, bases[c]))
  }

  /** The inheritance depth of a grounded class: 0 below `object`, one more per further base link. */
  function Depth(bases: map<ClassId, ClassId>, c: ClassId): nat
    requires Grounded(bases, c)
    decreases |bases|
  {
    MapRemoveSize(bases, c);
    if bases[c] == Object then 0 else Depth(bases - {c}, bases[c]) + 1
  }

  lemma MapRemoveSize(bases: map<ClassId, ClassId>, c: ClassId)
    ensures c in bases ==> |bases - {c}| == |bases| - 1
  {
    if c in bases {
      assert (bases - {c}).Keys == bases.Keys - {c};
    }
  }

  /**
   * Adding base links for further classes changes neither whether a class is
   * grounded nor its depth.
   */
  lemma {:induction false} GroundedExtend(small: map<ClassId, ClassId>, large: map<ClassId, ClassId>, c: ClassId)
    requires Grounded(small, c)
    requires forall k :: k in small ==> k in large && large[k] == small[k]
    ensures Grounded(large, c) && Depth(large, c) == Depth(small, c)
    decreases |small|
  {
    MapRemoveSize(small, c);
    MapRemoveSize(large, c);
    if small[c] != Object {
      GroundedExtend(small - {c}, large - {c}, small[c]);
    }
  }

  /**
   * The recurrence the resolver computes: a class whose direct base is
   * `object` has depth 0; otherwise its base is grounded too and the class is
   * one deeper than its base.
   */
  lemma {:induction false} DepthRecurrence(bases: map<ClassId, ClassId>, c: ClassId)
    requires Grounded(bases, c)
    ensures bases[c] == Object ==> Depth(bases, c) == 0
    ensures bases[c] != Object ==>
              Grounded(bases, bases[c]) && Depth(bases, c) == Depth(bases, bases[c]) + 1
  {
    if bases[c] != Object {
      GroundedExtend(bases - {c}, bases, bases[c]);
    }
  }

  /** A base chain visits every class at most once, so a depth is below the number of classes. */
  lemma {:induction false} DepthBelowClassCount(bases: map<ClassId, ClassId>, c: ClassId)
    requires Grounded(bases, c)
    ensures Depth(bases, c) < |bases|
    decreases |bases|
  {
    MapRemoveSize(bases, c);
    if bases[c] != Object {
      DepthBelowClassCount(bases - {c}, bases[c]);
    }
  }
}
