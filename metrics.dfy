/**
 * The metrics engine: a counter that resolves inheritance depths through a
 * cache, classifies the methods of each class it is given, keeps one
 * statistics record per class, and derives the three aggregate factors from
 * the records it holds.
 */
module Metrics {
  import opened Hierarchy
  import opened Reflection
  import opened Classifier
  import opened Stats

  /** The record the engine produces for class `c`. */
  ghost function RowFor(w: World, c: ClassId): StatsRow
    requires WellFormed(w) && c in w && c != Object
  {
    var counts := Tally(w, c, w[c].members);
    StatsRow(Depth(Bases(w), c), |w[c].subclasses|,
             counts.inherited, counts.overridden, counts.visible, counts.privateMethods)
  }

  class MetricCounter {
    /** What reflection reports about the classes under analysis; it never changes. */
    const world: World
    /** The private cache of inheritance depths. */
    var cachedDepths: map<ClassId, nat>
    /** One statistics record per class counted so far. */
    var classesStats: map<ClassId, ClassStats>

    /** Every cached depth is the depth the base chain defines. */
    ghost predicate Valid()
      reads this
    {
      && WellFormed(world)
      && forall k :: k in cachedDepths ==>
           Grounded(Bases(world), k) && cachedDepths[k] == Depth(Bases(world), k)
    }

    /** The values of the records held, by class. */
    ghost function Table(): map<ClassId, StatsRow>
      reads this, classesStats.Values
    {
      map c | c in classesStats :: classesStats[c].Snapshot()
    }

    constructor (world: World)
      requires WellFormed(world)
      ensures Valid() && this.world == world
      ensures cachedDepths == map[] && Table() == map[]
    {
      this.world := world;
      cachedDepths := map[];
      classesStats := map[];
    }

    /** Counts class `c` and stores its record, replacing any earlier one. */
    method CountClass(c: ClassId)
      requires Valid() && c in world && c != Object
      modifies this
      ensures Valid()
      ensures Table() == old(Table())[c := RowFor(world, c)]
      ensures forall k :: k in old(cachedDepths) ==> k in cachedDepths && cachedDepths[k] == old(cachedDepths)[k]
    {
      ghost var before := Table();
      var classMetrics := NewClassStats(c);
      assert forall k :: k in classesStats ==> classesStats[k].Snapshot() == before[k];
      classesStats := classesStats[c := classMetrics];
      ghost var expected := before[c := classMetrics.Snapshot()];
      assert Table().Keys == expected.Keys;
      assert forall k :: k in expected ==> Table()[k] == expected[k];
    }

    /** A new record for class `c`, filled in with its depth, its child count and its method counters. */
    method NewClassStats(c: ClassId) returns (classMetrics: ClassStats)
      requires Valid() && c in world && c != Object
      modifies this
      ensures fresh(classMetrics) && classMetrics.Snapshot() == RowFor(world, c)
      ensures Valid()
      ensures forall k :: k in old(cachedDepths) ==> k in cachedDepths && cachedDepths[k] == old(cachedDepths)[k]
      ensures classesStats == old(classesStats)
    {
      classMetrics := new ClassStats();
      classMetrics.childCount := |world[c].subclasses|;
      var depth := CountClassInheritanceDepth(c);
      classMetrics.inheritanceDepth := depth;
      CountProps(c, classMetrics);
    }

    /**
     * The inheritance depth of `c`. A cached value is returned as it is;
     * otherwise the depth is computed from the base's depth and cached. Either
     * way the result is the depth the base chain defines, and cached entries
     * are never changed or dropped.
     */
    method CountClassInheritanceDepth(c: ClassId) returns (depth: nat)
      requires Valid() && Grounded(Bases(world), c)
      modifies this
      ensures Valid()
      ensures depth == Depth(Bases(world), c)
      ensures c in cachedDepths && cachedDepths[c] == depth
      ensures forall k :: k in old(cachedDepths) ==> k in cachedDepths && cachedDepths[k] == old(cachedDepths)[k]
      ensures classesStats == old(classesStats)
      decreases Depth(Bases(world), c)
    {
      if c in cachedDepths {
        return cachedDepths[c];
      }
      var base := world[c].base.value;
      DepthRecurrence(Bases(world), c);
      if base == Object {
        depth := 0;
      } else {
        var baseDepth := CountClassInheritanceDepth(base);
        depth := baseDepth + 1;
      }
      cachedDepths := cachedDepths[c := depth];
    }

    /**
     * Classifies every visible member of `c` and stores the four method
     * counters in `outStats`, leaving its depth and child count as they were.
     */
    method CountProps(c: ClassId, outStats: ClassStats)
      requires AncestorsKnown(world, c)
      modifies outStats
      ensures outStats.Snapshot() == old(outStats.Snapshot()).(
                inheritedMethods := Tally(world, c, world[c].members).inherited,
                overriddenMethods := Tally(world, c, world[c].members).overridden,
                visibleMethods := Tally(world, c, world[c].members).visible,
                privateMethods := Tally(world, c, world[c].members).privateMethods)
    {
      var info := world[c];
      var inheritedMethods: nat, overriddenMethods: nat, visibleMethods: nat, privateMethods: nat := 0, 0, 0, 0;
      for i := 0 to |info.members|
        invariant unchanged(outStats)
        invariant TallyUpTo(world, c, info.members, i)
                  == MethodCounts(inheritedMethods, overriddenMethods, visibleMethods, privateMethods)
      {
        var member := info.members[i];
        ghost var before := MethodCounts(inheritedMethods, overriddenMethods, visibleMethods, privateMethods);
        ghost var step := Contribution(world, c, member);
        assert TallyUpTo(world, c, info.members, i + 1) == Plus(before, step);
        if member.isRoutine {
          if member.name !in info.ownNames {
            inheritedMethods := inheritedMethods + 1;
          } else if DeclaredByAncestor(world, info.ancestors, member.name) {
            overriddenMethods := overriddenMethods + 1;
          }
          if IsPrivateName(info.name, member.name) {
            privateMethods := privateMethods + 1;
          } else {
            visibleMethods := visibleMethods + 1;
          }
        }
        assert MethodCounts(inheritedMethods, overriddenMethods, visibleMethods, privateMethods) == Plus(before, step);
      }
      TallyUpToIsTally(world, c, info.members, |info.members|);
      assert info.members[..|info.members|] == info.members;
      outStats.SetStatistic([inheritedMethods, overriddenMethods, visibleMethods, privateMethods]);
    }

    /** Sum of overridden methods over sum of children, or 0 if either is 0. */
    method GetPolymorphismFactor() returns (r: real)
      ensures r == Ratio(Total(Table(), Table().Keys, OverriddenMethods), Total(Table(), Table().Keys, ChildCount))
    {
      var totalOverriddenCount, totalChildCount := 0, 0;
      var remaining := classesStats.Keys;
      while remaining != {}
        invariant remaining <= classesStats.Keys
        invariant totalOverriddenCount == Total(Table(), classesStats.Keys - remaining, OverriddenMethods)
        invariant totalChildCount == Total(Table(), classesStats.Keys - remaining, ChildCount)
        decreases remaining
      {
        var c :| c in remaining;
        var stats := classesStats[c];
        ghost var done := classesStats.Keys - remaining;
        TotalInsert(Table(), done, c, OverriddenMethods);
        TotalInsert(Table(), done, c, ChildCount);
        assert done + {c} == classesStats.Keys - (remaining - {c});
        totalOverriddenCount := totalOverriddenCount + stats.overriddenMethodsCount;
        totalChildCount := totalChildCount + stats.childCount;
        remaining := remaining - {c};
      }
      assert Table().Keys == classesStats.Keys == classesStats.Keys - remaining;
      r := Ratio(totalOverriddenCount, totalChildCount);
    }

    /**
     * Sum of overridden methods over the sum of inherited and overridden
     * methods, or 0 if either is 0; always between 0 and 1.
     */
    method GetMethodInheritanceFactor() returns (r: real)
      ensures r == Ratio(Total(Table(), Table().Keys, OverriddenMethods),
                         Total(Table(), Table().Keys, InheritedMethods) + Total(Table(), Table().Keys, OverriddenMethods))
      ensures 0.0 <= r <= 1.0
    {
      var inheritedMethods, allMethods := 0, 0;
      var remaining := classesStats.Keys;
      while remaining != {}
        invariant remaining <= classesStats.Keys
        invariant inheritedMethods == Total(Table(), classesStats.Keys - remaining, OverriddenMethods)
        invariant allMethods == Total(Table(), classesStats.Keys - remaining, InheritedMethods)
                                + Total(Table(), classesStats.Keys - remaining, OverriddenMethods)
        decreases remaining
      {
        var c :| c in remaining;
        var stats := classesStats[c];
        ghost var done := classesStats.Keys - remaining;
        TotalInsert(Table(), done, c, OverriddenMethods);
        TotalInsert(Table(), done, c, InheritedMethods);
        assert done + {c} == classesStats.Keys - (remaining - {c});
        inheritedMethods := inheritedMethods + stats.overriddenMethodsCount;
        allMethods := allMethods + stats.inheritedMethodsCount + stats.overriddenMethodsCount;
        remaining := remaining - {c};
      }
      assert Table().Keys == classesStats.Keys == classesStats.Keys - remaining;
      r := Ratio(inheritedMethods, allMethods);
    }

    /**
     * Sum of private methods over the sum of visible and private methods, or
     * 0 if either is 0; always between 0 and 1.
     */
    method GetClosedMethodsFactor() returns (r: real)
      ensures r == Ratio(Total(Table(), Table().Keys, PrivateMethods),
                         Total(Table(), Table().Keys, VisibleMethods) + Total(Table(), Table().Keys, PrivateMethods))
      ensures 0.0 <= r <= 1.0
    {
      var privateMethods, allMethods := 0, 0;
      var remaining := classesStats.Keys;
      while remaining != {}
        invariant remaining <= classesStats.Keys
        invariant privateMethods == Total(Table(), classesStats.Keys - remaining, PrivateMethods)
        invariant allMethods == Total(Table(), classesStats.Keys - remaining, VisibleMethods)
                                + Total(Table(), classesStats.Keys - remaining, PrivateMethods)
        decreases remaining
      {
        var c :| c in remaining;
        var stats := classesStats[c];
        ghost var done := classesStats.Keys - remaining;
        TotalInsert(Table(), done, c, PrivateMethods);
        TotalInsert(Table(), done, c, VisibleMethods);
        assert done + {c} == classesStats.Keys - (remaining - {c});
        privateMethods := privateMethods + stats.privateMethodsCount;
        allMethods := allMethods + stats.visibleMethodsCount + stats.privateMethodsCount;
        remaining := remaining - {c};
      }
      assert Table().Keys == classesStats.Keys == classesStats.Keys - remaining;
      r := Ratio(privateMethods, allMethods);
    }
  }

  /** Counts every class a module defines, in the order given, into a new counter. */
  method InitMetricCounter(world: World, classes: seq<ClassId>) returns (counter: MetricCounter)
    requires WellFormed(world) && Countable(world, classes)
    ensures fresh(counter) && counter.Valid() && counter.world == world
    ensures counter.Table() == map c | c in classes :: RowFor(world, c)
  {
    counter := new MetricCounter(world);
    for i := 0 to |classes|
      invariant fresh(counter) && counter.Valid() && counter.world == world
      invariant counter.Table() == RowsUpTo(world, classes, i)
    {
      counter.CountClass(classes[i]);
    }
    RowsUpToContents(world, classes, |classes|);
    assert classes[..|classes|] == classes;
  }

  /** Every class in `classes` can be counted: it is analysed and it is not `object`. */
  predicate Countable(w: World, classes: seq<ClassId>)
  {
    forall i :: 0 <= i < |classes| ==> classes[i] in w && classes[i] != Object
  }

  /** The table after the first `n` classes have been counted in order, each replacing any earlier record. */
  ghost function RowsUpTo(w: World, classes: seq<ClassId>, n: nat): map<ClassId, StatsRow>
    requires WellFormed(w) && Countable(w, classes) && n <= |classes|
  {
    if n == 0 then map[] else RowsUpTo(w, classes, n - 1)[classes[n - 1] := RowFor(w, classes[n - 1])]
  }

  /**
   * After the first `n` classes have been counted the table holds a record
   * for exactly those classes, and each is the record the engine produces
   * for its class, whatever the order and however often a class repeats.
   */
  lemma {:induction false} RowsUpToContents(w: World, classes: seq<ClassId>, n: nat)
    requires WellFormed(w) && Countable(w, classes) && n <= |classes|
    ensures RowsUpTo(w, classes, n) == map c | c in classes[..n] :: RowFor(w, c)
  {
    if n > 0 {
      RowsUpToContents(w, classes, n - 1);
      assert classes[..n] == classes[..n - 1] + [classes[n - 1]];
    }
  }
}
