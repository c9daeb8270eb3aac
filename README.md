# MOOD metrics engine — a verified model

`main.py` computes object-oriented design metrics for the classes of a
Python module. It has two parts:

- `ClassStats` is a mutable record of six statistics per class: inheritance
  depth, number of direct subclasses, and the numbers of inherited,
  overridden, visible and private methods.
- `MetricCounter` fills one `ClassStats` per class and derives three
  aggregate factors from them: the polymorphism factor, the method
  inheritance factor and the closed methods factor.

This project models that core in Dafny, in the source's imperative form:

- `ClassStats` and `MetricCounter` are classes whose methods update their
  fields. `MetricCounter` keeps the depth cache and the record dictionary as
  `map` fields.
- The member-classification loop and the three factor loops are `while`/`for`
  loops. Each is proved against a pure specification function.
- Python reflection (`__base__`, `__dict__`, `mro()`, `__subclasses__()`,
  `inspect.getmembers`) is replaced by plain data. A `World` maps each class
  identity to its name, direct base, own `__dict__` names, visible members,
  strict ancestors in method resolution order, and direct subclasses.

Files:

- `hierarchy.dfy`: the base chain as a map, when a class reaches `object`
  (`Grounded`), and the inheritance depth (`Depth`).
- `reflection.dfy`: the data the engine reads through reflection, and the
  well-formedness Python guarantees for a live class graph.
- `classifier.dfy`: the private-name test, one member's contribution to the
  four method counters, and their fold over a member list (`Tally`, with the
  per-index `TallyUpTo` the loop follows).
- `stats.dfy`: the `ClassStats` record, column sums over a table of records
  (`Total`) and the factor ratio (`Ratio`).
- `metrics.dfy`: `MetricCounter` and `InitMetricCounter`.

## Model

| member | source | states |
|---|---|---|
| Stats.ClassStats.constructor | main.py:8-14 | a new record holds zero in all six statistics |
| Stats.ClassStats.SetStatistic | main.py:16-17 | the four method counters take the four arguments in order (inherited, overridden, visible, private); depth and child count are unchanged |
| Stats.ClassStats.GetStatistic | main.py:19-21 | returns six values in the documented order, and reading them back gives exactly the record's current state |
| Metrics.MetricCounter.constructor | main.py:25-27 | a new counter has an empty depth cache and no records |
| Metrics.MetricCounter.CountClass | main.py:29-34 | stores for `c` the record with its depth, its direct-subclass count and its classified method counters; records of other classes are unchanged; cached depths are kept and stay consistent |
| Metrics.MetricCounter.NewClassStats | main.py:30-33 | the fresh record built for `c` equals the specified row (`RowFor`) of `c` |
| Metrics.MetricCounter.CountClassInheritanceDepth | main.py:36-44 | returns the depth the base chain defines, cache hit or not; afterwards the cache maps `c` to that value, keeps every earlier entry, and every cached value still equals the recursive depth |
| Hierarchy.DepthRecurrence | main.py:39-42 | a class whose base is `object` has depth 0; otherwise its base is grounded and the class is exactly one deeper than its base |
| Hierarchy.GroundedExtend | main.py:36-44 | the depth of a class depends only on its own base chain: adding links for other classes changes neither groundedness nor depth |
| Hierarchy.DepthBelowClassCount | main.py:36-44 | the recursion terminates on a grounded class: the depth is less than the number of base links |
| Metrics.MetricCounter.CountProps | main.py:46-62 | the loop over visible members leaves in the record exactly the four counters of the specification fold `Tally` over the member list; depth and child count are untouched |
| Classifier.TallyUpToIsTally | main.py:51-60 | counting the first `i` members one at a time, as the loop does, gives the fold of those members' contributions |
| Classifier.TallyAppend | main.py:51-60 | counting one more member adds that member's contribution to the counters |
| Classifier.Contribution | main.py:52-60 | a non-routine adds nothing; a routine is inherited iff its name is not in the class's own `__dict__`, overridden iff it is own and in some strict ancestor's `__dict__`, never both; it is private iff its name is private, and exactly one of visible and private |
| Classifier.StartsWithIsPrefix | main.py:57 | the character-by-character prefix test is exactly the prefix relation on strings (`str.startswith`) |
| Classifier.PrivateNameShape | main.py:57 | a name is private iff it has prefix `_` + class name and does not end in `__`; such a name carries the class name right after its leading underscore; a `__name__` such as `__init__` is never private |
| Classifier.TallyIgnoresNonRoutines | main.py:52 | members that are not routines change no counter: the fold over all members equals the fold over the routines alone |
| Classifier.TallyAccessPartition | main.py:57-60 | visible + private equals the number of routine members |
| Classifier.TallyOriginBound | main.py:53-56 | inherited + overridden is at most the number of routine members |
| Classifier.TallyRootClass | main.py:53-56 | a class with no ancestors that declares every routine it shows has no inherited and no overridden methods |
| Classifier.TallyCountsInheritedRoutine | main.py:52-54 | a listed routine whose name is not among the class's own names makes the inherited counter at least 1; this is how a class based on `object` counts the routines it inherits from `object` |
| Classifier.Routines | main.py:52 | the routines among the members: a member occurs in the result exactly as often as it occurs among the members if it is a routine, and not at all otherwise; so the result's length is the number of routine members |
| Stats.TotalRemove | main.py:67-69 | a column sum does not depend on the order the records are visited: any one record can be taken out first |
| Stats.TotalInsert | main.py:67-69 | visiting one more record adds its value to the running sum |
| Stats.Ratio | main.py:70 | the reported factor is 0 exactly when the numerator or the denominator is 0; otherwise it is the exact quotient (`r * den == num`); it is never negative, and at most 1 when the numerator is at most the denominator |
| Metrics.MetricCounter.GetPolymorphismFactor | main.py:64-70 | the result is `Ratio` of the overridden-method sum and the child-count sum over all stored records |
| Stats.PolymorphismFactorUnbounded | main.py:64-70 | the polymorphism factor has no upper bound of 1: one record with one child and two overridden methods gives 2 |
| Metrics.MetricCounter.GetMethodInheritanceFactor | main.py:72-78 | the result is `Ratio` of the overridden-method sum and the sum of inherited plus overridden methods, with the overridden count as numerator as written; it lies in [0, 1] |
| Metrics.MetricCounter.GetClosedMethodsFactor | main.py:80-86 | the result is `Ratio` of the private-method sum and the sum of visible plus private methods; it lies in [0, 1] |
| Metrics.InitMetricCounter | main.py:89-94 | counting the given classes in order gives a counter whose records are exactly those classes' specified rows, however the classes are ordered or repeated |
| Metrics.RowsUpToContents | main.py:91-93 | after the first `n` classes have been counted one by one, the table holds a record for exactly those classes, each the class's specified row |

## Left out

- Reflection is input data, not behaviour. `inspect.getmembers`,
  `inspect.isroutine`, `__dict__`, `__base__`, `mro()`, `__subclasses__()` and
  `sys.modules` are modelled as the fields of a `World`. The model does not
  check that these fields agree with each other, for example that
  `subclasses` is the inverse of `base`. It assumes only what Python
  guarantees of a live class graph (`WellFormed`).
- Multiple inheritance: `__base__` is modelled as the single direct base the
  depth resolver follows. Any other bases matter only through the ancestor
  list.
- Metrics.InitMetricCounter: takes the class list as a parameter instead of
  enumerating a module's members. `inspect.getmembers` lists them sorted by
  name, and the contract holds for any order.
- Metrics.MetricCounter.CountClassInheritanceDepth: requires a class that
  reaches `object`. On `object` itself Python fails, because `object.__base__`
  is `None`. A cyclic base chain would recurse without end, but Python never
  builds one.
- Dictionary insertion order: the factor loops visit the records as a set,
  so the model does not capture the visiting order. The sums do not depend on
  it, as `TotalRemove` shows.
- Floating point: the factors are exact rationals (`real`), not IEEE doubles.
  Rounding in Python's `/` is not modelled.
- `class_stats_to_row` and the `__main__` block are string conversion and
  `tabulate` rendering (I/O). The `numpy` and `tabulate` imports are not
  part of this model.
- Root-class counts: the statement that a root class has no inherited
  methods holds only for a class with no ancestors (`TallyRootClass`), which
  here is only `object`. In the code, a user class whose base is `object`
  counts the routines it inherits from `object` (`__init__`, `__repr__`, ...)
  as inherited, because they are visible members not in its own `__dict__`
  (`TallyCountsInheritedRoutine`). The model follows the code.
- Running the analysis twice on the same classes gives the same records,
  because `InitMetricCounter`'s result is determined by its inputs. No
  separate lemma states this.
