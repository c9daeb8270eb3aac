/**
 * The per-class statistics record, the column sums over a table of records,
 * and the ratio the aggregate factors report.
 */
module Stats {
  import Hierarchy

  /** The six statistics of one class, in the order `get_statistic` lists them. */
  datatype StatsRow = StatsRow(
    inheritanceDepth: nat,
    childCount: nat,
    inheritedMethods: nat,
    overriddenMethods: nat,
    visibleMethods: nat,
    privateMethods: nat)
  {
    /** One statistic, by column. */
    function Get(s: Stat): nat
    {
      match s
      case InheritanceDepth => inheritanceDepth
      case ChildCount => childCount
      case InheritedMethods => inheritedMethods
      case OverriddenMethods => overriddenMethods
      case VisibleMethods => visibleMethods
      case PrivateMethods => privateMethods
    }

    /** Reads a record back from the six-element list `get_statistic` produces. */
    static function FromList(l: seq<nat>): StatsRow
      requires |l| == 6
    {
      StatsRow(l[0], l[1], l[2], l[3], l[4], l[5])
    }
  }

  /** The columns of a statistics record. */
  datatype Stat = InheritanceDepth | ChildCount | InheritedMethods | OverriddenMethods | VisibleMethods | PrivateMethods

  /** The mutable statistics record of one class. */
  class ClassStats {
    var inheritanceDepth: nat
    var childCount: nat
    var inheritedMethodsCount: nat
    var overriddenMethodsCount: nat
    var visibleMethodsCount: nat
    var privateMethodsCount: nat

    /** The record's current values. */
    ghost function Snapshot(): StatsRow
      reads this
    {
      StatsRow(inheritanceDepth, childCount, inheritedMethodsCount, overriddenMethodsCount,
               visibleMethodsCount, privateMethodsCount)
    }

    /** A new record holds zero in every statistic. */
    constructor ()
      ensures Snapshot() == StatsRow(0, 0, 0, 0, 0, 0)
    {
      inheritanceDepth, childCount := 0, 0;
      inheritedMethodsCount, overriddenMethodsCount := 0, 0;
      visibleMethodsCount, privateMethodsCount := 0, 0;
    }

    /**
     * Overwrites the four method counters, taken in the order inherited,
     * overridden, visible, private; the depth and the child count stay.
     */
    method SetStatistic(args: seq<nat>)
      requires |args| == 4
      modifies this
      ensures Snapshot() == old(Snapshot()).(inheritedMethods := args[0], overriddenMethods := args[1],
                                             visibleMethods := args[2], privateMethods := args[3])
    {
      inheritedMethodsCount, overriddenMethodsCount, visibleMethodsCount, privateMethodsCount :=
        args[0], args[1], args[2], args[3];
    }

    /** The six statistics as a list, from which the record can be read back unchanged. */
    function GetStatistic(): (r: seq<nat>)
      reads this
      ensures |r| == 6 && StatsRow.FromList(r) == Snapshot()
    {
      [inheritanceDepth, childCount, inheritedMethodsCount, overriddenMethodsCount,
       visibleMethodsCount, privateMethodsCount]
    }
  }

  /** Some element of a non-empty set; the same one every time it is asked. */
  ghost function Pick(keys: set<Hierarchy.ClassId>): Hierarchy.ClassId
    requires keys != {}
  {
    var k :| k in keys; k
  }

  /** The sum of one column over the records of the classes in `keys`. */
  ghost function Total(t: map<Hierarchy.ClassId, StatsRow>, keys: set<Hierarchy.ClassId>, s: Stat): nat
    requires keys <= t.Keys
    decreases keys
  {
    if keys == {} then 0
    else
      var k := Pick(keys);
      t[k].Get(s) + Total(t, keys - {k}, s)
  }

  /** A column sum does not depend on which class is taken first. */
  lemma {:induction false} TotalRemove(t: map<Hierarchy.ClassId, StatsRow>, keys: set<Hierarchy.ClassId>,
                                       k: Hierarchy.ClassId, s: Stat)
    requires keys <= t.Keys && k in keys
    ensures Total(t, keys, s) == t[k].Get(s) + Total(t, keys - {k}, s)
    decreases keys
  {
    var j := Pick(keys);
    if j != k {
      TotalRemove(t, keys - {j}, k, s);
      TotalRemove(t, keys - {k}, j, s);
      assert keys - {j} - {k} == keys - {k} - {j};
    }
  }

  /** Adding one more class's record to a column sum adds its value. */
  lemma TotalInsert(t: map<Hierarchy.ClassId, StatsRow>, keys: set<Hierarchy.ClassId>,
                    k: Hierarchy.ClassId, s: Stat)
    requires keys <= t.Keys && k in t && k !in keys
    ensures Total(t, keys + {k}, s) == Total(t, keys, s) + t[k].Get(s)
  {
    TotalRemove(t, keys + {k}, k, s);
    assert keys + {k} - {k} == keys;
  }

  /**
   * The factor reported for a numerator sum and a denominator sum: 0 when
   * either is 0, otherwise their exact quotient.
   */
  function Ratio(num: nat, den: nat): (r: real)
    ensures 0.0 <= r
    ensures r == 0.0 <==> num == 0 || den == 0
    ensures den != 0 ==> r * den as real == num as real
    ensures num <= den ==> r <= 1.0
  {
    if num == 0 || den == 0 then 0.0 else num as real / den as real
  }

  /**
   * The polymorphism factor has no upper bound of 1: one class with one
   * child and two overridden methods already gives 2.
   */
  lemma PolymorphismFactorUnbounded()
    ensures exists t: map<Hierarchy.ClassId, StatsRow> ::
              Ratio(Total(t, t.Keys, OverriddenMethods), Total(t, t.Keys, ChildCount)) == 2.0
  {
    var t := map[1 := StatsRow(0, 1, 0, 2, 2, 0)];
    assert t.Keys == {1};
    TotalRemove(t, {1}, 1, OverriddenMethods);
    TotalRemove(t, {1}, 1, ChildCount);
    assert Total(t, t.Keys, OverriddenMethods) == 2;
    assert Total(t, t.Keys, ChildCount) == 1;
  }
}
