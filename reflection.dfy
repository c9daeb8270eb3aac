/**
 * The facts the metrics engine asks the language's reflection about, as
 * plain data: for each class its name, its direct base, the names in its own
 * `__dict__`, its visible members, its method resolution order without itself,
 * and its direct subclasses.
 */
module Reflection {
  import opened Hierarchy

  datatype Option<T> = None | Some(value: T)

  /** One entry of the class's visible members: its name and whether it is a routine. */
  datatype Member = Member(name: string, isRoutine: bool)

  datatype ClassInfo = ClassInfo(
    name: string,              // __name__
    base: Option<ClassId>,     // __base__; None for `object` only
    ownNames: set<string>,     // the keys of the class's own __dict__
    members: seq<Member>,      // inherited and own members, as listed for the class
    ancestors: seq<ClassId>,   // the method resolution order without the class itself
    subclasses: seq<ClassId>)  // the direct subclasses

  /** Every class the analysis can reach, `object` included. */
  type World = map<ClassId, ClassInfo>

  /** The direct-base links of a world; `object` has none. */
  function Bases(w: World): map<ClassId, ClassId>
  {
    map c | c in w && w[c].base.Some? :: w[c].base.value
  }

  /** Every ancestor of `c` is a class of the world, so its own names can be looked up. */
  predicate AncestorsKnown(w: World, c: ClassId)
  {
    c in w && forall i :: 0 <= i < |w[c].ancestors| ==> w[c].ancestors[i] in w
  }

  /**
   * What Python guarantees of a live class graph: `object` is present, has no
   * base and no ancestors; every other class has a base chain that reaches
   * `object` without a cycle; and every ancestor a class names is a class.
   */
  ghost predicate WellFormed(w: World)
  {
    && Object in w
    && w[Object].base.None?
    && w[Object].ancestors == []
    && (forall c :: c in w && c != Object ==> Grounded(Bases(w), c))
    && (forall c :: c in w ==> AncestorsKnown(w, c))
  }
}
