/** lib/query/aggregate.js: the group specification built from the
    `groupBy`, `sum`, `average`, `min` and `max` directives of a criteria. */
module Aggregate {
  import opened Wrappers

  /** A number as the accumulator holds it: a finite value, NaN, or
      `undefined` (a document without the field). */
  datatype Number = Finite(r: real) | NaN | Missing

  /** `a + b`: anything but two numbers gives NaN. */
  function Add(a: Number, b: Number): Number
  {
    if a.Finite? && b.Finite? then Finite(a.r + b.r) else NaN
  }

  /** `a < b`: false as soon as either side is NaN or undefined. */
  predicate Less(a: Number, b: Number)
  {
    a.Finite? && b.Finite? && a.r < b.r
  }

  /** `a / n` for a count `n`. */
  function Div(a: Number, n: nat): Number
  {
    if a.Finite? && n != 0 then Finite(a.r / n as real) else NaN
  }

  /** The directives present as lists; `None` when absent. */
  datatype Directives = Directives(
    groupBy: Option<seq<string>>,
    sum: Option<seq<string>>,
    average: Option<seq<string>>,
    min: Option<seq<string>>,
    max: Option<seq<string>>)

  predicate AnyAccumulator(d: Directives)
  {
    d.sum.Some? || d.average.Some? || d.min.Some? || d.max.Some?
  }

  predicate AnyDirective(d: Directives)
  {
    d.groupBy.Some? || AnyAccumulator(d)
  }

  /** A document being folded: its numeric fields. A field not in the map is
      `undefined`. */
  type Doc = map<string, real>

  function Cur(doc: Doc, f: string): Number
  {
    if f in doc then Finite(doc[f]) else Missing
  }

  /** The accumulator record: the aggregated fields, and the `count` map of
      the average fields (`None` once `finalize` deleted it). */
  datatype Record = Record(values: map<string, Number>, count: Option<map<string, nat>>)

  function Val(values: map<string, Number>, f: string): Number
  {
    if f in values then values[f] else Missing
  }

  /** The group specification: `key`, `initial`, and the field lists the
      `reduce` closure works through. */
  datatype GroupSpec = GroupSpec(
    key: Option<map<string, int>>,
    initial: Record,
    sums: seq<string>,
    mins: seq<string>,
    maxs: seq<string>)

  /* ======================= build ======================= */

  /** `group.key[key] = 1` for each field, in order. */
  function KeyOf(fields: seq<string>): (k: map<string, int>)
    ensures forall f :: f in k <==> f in fields
    ensures forall f | f in k :: k[f] == 1
  {
    if fields == [] then map[]
    else KeyOf(fields[..|fields| - 1])[fields[|fields| - 1] := 1]
  }

  /** `group.initial[field] = seed` for each field, in order. */
  function Seeded(values: map<string, Number>, fields: seq<string>, seed: Number): map<string, Number>
  {
    if fields == [] then values
    else Seeded(values, fields[..|fields| - 1], seed)[fields[|fields| - 1] := seed]
  }

  /** `group.initial.count[field] = 0` for each field, in order. */
  function Zeroed(count: map<string, nat>, fields: seq<string>): map<string, nat>
  {
    if fields == [] then count
    else Zeroed(count, fields[..|fields| - 1])[fields[|fields| - 1] := 0]
  }

  /** The group `build` makes when an accumulator directive is present:
      `sum`, `average`, `min`, `max` seed `initial` in that order. */
  function GroupOf(d: Directives): GroupSpec
  {
    var sums := d.sum.GetOr([]);
    var avgs := d.average.GetOr([]);
    var mins := d.min.GetOr([]);
    var maxs := d.max.GetOr([]);
    var values := Seeded(Seeded(Seeded(Seeded(map[], sums, Finite(0.0)), avgs, Finite(0.0)), mins, NaN), maxs, NaN);
    GroupSpec(
      if d.groupBy.Some? then Some(KeyOf(d.groupBy.value)) else None,
      Record(values, Some(Zeroed(map[], avgs))),
      sums, mins, maxs)
  }

  lemma {:induction false} SeededSpec(values: map<string, Number>, fields: seq<string>, seed: Number)
    ensures forall f :: f in Seeded(values, fields, seed) <==> f in values || f in fields
    ensures forall f | f in fields :: Seeded(values, fields, seed)[f] == seed
    ensures forall f | f in values && f !in fields :: Seeded(values, fields, seed)[f] == values[f]
  {
    if fields != [] {
      var init := fields[..|fields| - 1];
      SeededSpec(values, init, seed);
      assert fields == init + [fields[|fields| - 1]];
    }
  }

  lemma {:induction false} ZeroedSpec(count: map<string, nat>, fields: seq<string>)
    ensures forall f :: f in Zeroed(count, fields) <==> f in count || f in fields
    ensures forall f | f in fields :: Zeroed(count, fields)[f] == 0
    ensures forall f | f in count && f !in fields :: Zeroed(count, fields)[f] == count[f]
  {
    if fields != [] {
      var init := fields[..|fields| - 1];
      ZeroedSpec(count, init);
      assert fields == init + [fields[|fields| - 1]];
    }
  }

  /** What the group holds: `key` maps each `groupBy` field to 1 and is absent
      without `groupBy`; `initial` holds every listed field, NaN when it is a
      `min` or `max` field and 0 otherwise; `count` holds 0 for each average
      field; average fields are not in the `reduce` lists. */
  lemma GroupOfSpec(d: Directives)
    ensures var g := GroupOf(d);
      var sums := d.sum.GetOr([]);
      var avgs := d.average.GetOr([]);
      var mins := d.min.GetOr([]);
      var maxs := d.max.GetOr([]);
      && (g.key.Some? <==> d.groupBy.Some?)
      && (d.groupBy.Some? ==> forall f :: f in g.key.value <==> f in d.groupBy.value)
      && (d.groupBy.Some? ==> forall f | f in g.key.value :: g.key.value[f] == 1)
      && (forall f :: f in g.initial.values <==> f in sums || f in avgs || f in mins || f in maxs)
      && (forall f | f in g.initial.values ::
            g.initial.values[f] == if f in mins || f in maxs then NaN else Finite(0.0))
      && g.initial.count.Some?
      && (forall f :: f in g.initial.count.value <==> f in avgs)
      && (forall f | f in g.initial.count.value :: g.initial.count.value[f] == 0)
      && g.sums == sums && g.mins == mins && g.maxs == maxs
  {
    var sums := d.sum.GetOr([]);
    var avgs := d.average.GetOr([]);
    var mins := d.min.GetOr([]);
    var maxs := d.max.GetOr([]);
    var v1 := Seeded(map[], sums, Finite(0.0));
    var v2 := Seeded(v1, avgs, Finite(0.0));
    var v3 := Seeded(v2, mins, NaN);
    SeededSpec(map[], sums, Finite(0.0));
    SeededSpec(v1, avgs, Finite(0.0));
    SeededSpec(v2, mins, NaN);
    SeededSpec(v3, maxs, NaN);
    ZeroedSpec(map[], avgs);
  }

  /** `build(options)`: no group without directives, `InvalidGroupBy` for a
      `groupBy` alone, the group of `GroupOf` otherwise. */
  method Build(d: Directives) returns (r: Result<Option<GroupSpec>, AdapterError>)
    ensures !AnyDirective(d) ==> r == Success(None)
    ensures AnyDirective(d) && !AnyAccumulator(d) ==> r == Failure(InvalidGroupBy)
    ensures AnyAccumulator(d) ==> r == Success(Some(GroupOf(d)))
  {
    if !AnyDirective(d) {
      return Success(None);
    }
    if !AnyAccumulator(d) {
      return Failure(InvalidGroupBy);
    }
    var key: Option<map<string, int>> := None;
    if d.groupBy.Some? {
      var k := GroupKey(d.groupBy.value);
      key := Some(k);
    }
    var values: map<string, Number> := map[];
    var count: map<string, nat> := map[];
    var sums: seq<string> := [];
    var mins: seq<string> := [];
    var maxs: seq<string> := [];
    if d.sum.Some? {
      values, sums := SeedAll(values, sums, d.sum.value, Finite(0.0));
    }
    assert values == Seeded(map[], d.sum.GetOr([]), Finite(0.0));
    if d.average.Some? {
      values, count := SeedCounted(values, count, d.average.value);
    }
    assert count == Zeroed(map[], d.average.GetOr([]));
    assert values == Seeded(Seeded(map[], d.sum.GetOr([]), Finite(0.0)), d.average.GetOr([]), Finite(0.0));
    if d.min.Some? {
      values, mins := SeedAll(values, mins, d.min.value, NaN);
    }
    if d.max.Some? {
      values, maxs := SeedAll(values, maxs, d.max.value, NaN);
    }
    assert sums == d.sum.GetOr([]) && mins == d.min.GetOr([]) && maxs == d.max.GetOr([]);
    assert key == GroupOf(d).key;
    return Success(Some(GroupSpec(key, Record(values, Some(count)), sums, mins, maxs)));
  }

  /** The `groupBy` branch: `group.key[field] = 1` for each field. */
  method GroupKey(fields: seq<string>) returns (k: map<string, int>)
    ensures k == KeyOf(fields)
  {
    k := map[];
    for i := 0 to |fields|
      invariant k == KeyOf(fields[..i])
    {
      assert fields[..i + 1][..i] == fields[..i];
      k := k[fields[i] := 1];
    }
    assert fields[..|fields|] == fields;
  }

  /** The `else` branch for one directive: seed each field and push it onto
      the directive's `reduce` list. */
  method SeedAll(values: map<string, Number>, list: seq<string>, fields: seq<string>, seed: Number)
    returns (values': map<string, Number>, list': seq<string>)
    ensures values' == Seeded(values, fields, seed)
    ensures list' == list + fields
  {
    values', list' := values, list;
    for i := 0 to |fields|
      invariant values' == Seeded(values, fields[..i], seed)
      invariant list' == list + fields[..i]
    {
      assert fields[..i + 1][..i] == fields[..i];
      values' := values'[fields[i] := seed];
      list' := list' + [fields[i]];
    }
    assert fields[..|fields|] == fields;
  }

  /** The `average` branch: each field is seeded with 0 and its count with 0. */
  method SeedCounted(values: map<string, Number>, count: map<string, nat>, fields: seq<string>)
    returns (values': map<string, Number>, count': map<string, nat>)
    ensures values' == Seeded(values, fields, Finite(0.0))
    ensures count' == Zeroed(count, fields)
  {
    values', count' := values, count;
    for i := 0 to |fields|
      invariant values' == Seeded(values, fields[..i], Finite(0.0))
      invariant count' == Zeroed(count, fields[..i])
    {
      assert fields[..i + 1][..i] == fields[..i];
      count' := count'[fields[i] := 0];
      values' := values'[fields[i] := Finite(0.0)];
    }
    assert fields[..|fields|] == fields;
  }

  /* ======================= reduce and finalize ======================= */

  /** `result[field] += curr[field]` for each `sum` field, in order. */
  function SumAll(values: map<string, Number>, fields: seq<string>, doc: Doc): map<string, Number>
  {
    if fields == [] then values
    else
      var v := SumAll(values, fields[..|fields| - 1], doc);
      var f := fields[|fields| - 1];
      v[f := Add(Val(v, f), Cur(doc, f))]
  }

  /** The `min` rule: replace when smaller, or when the running value is NaN. */
  function MinWith(run: Number, c: Number): Number
  {
    if Less(c, run) || run == NaN then c else run
  }

  /** The `max` rule: replace when larger, or when the running value is NaN. */
  function MaxWith(run: Number, c: Number): Number
  {
    if Less(run, c) || run == NaN then c else run
  }

  function MinAll(values: map<string, Number>, fields: seq<string>, doc: Doc): map<string, Number>
  {
    if fields == [] then values
    else
      var v := MinAll(values, fields[..|fields| - 1], doc);
      var f := fields[|fields| - 1];
      v[f := MinWith(Val(v, f), Cur(doc, f))]
  }

  function MaxAll(values: map<string, Number>, fields: seq<string>, doc: Doc): map<string, Number>
  {
    if fields == [] then values
    else
      var v := MaxAll(values, fields[..|fields| - 1], doc);
      var f := fields[|fields| - 1];
      v[f := MaxWith(Val(v, f), Cur(doc, f))]
  }

  /** The `count` loop after the fields in `done` were visited. */
  function CountPart(values: map<string, Number>, done: set<string>, doc: Doc): map<string, Number>
  {
    map f | f in values.Keys + done :: if f in done then Add(Val(values, f), Cur(doc, f)) else values[f]
  }

  function Bumped(count: map<string, nat>, done: set<string>): map<string, nat>
  {
    map f | f in count :: if f in done then count[f] + 1 else count[f]
  }

  /** What one `reduce(curr, result)` call leaves in the record. */
  function Step(rec: Record, doc: Doc, sums: seq<string>, mins: seq<string>, maxs: seq<string>): Record
  {
    var v := MaxAll(MinAll(SumAll(rec.values, sums, doc), mins, doc), maxs, doc);
    match rec.count
    case None => Record(v, None)
    case Some(c) => Record(CountPart(v, c.Keys, doc), Some(Bumped(c, c.Keys)))
  }

  /** The `finalize` loop after the fields in `done` were visited. */
  function DividedPart(values: map<string, Number>, count: map<string, nat>, done: set<string>): map<string, Number>
    requires done <= count.Keys
  {
    map f | f in values.Keys + done :: if f in done then Div(Val(values, f), count[f]) else values[f]
  }

  /** What `finalize(result)` leaves in the record: `count` is gone. */
  function Finalized(rec: Record): Record
  {
    match rec.count
    case None => rec
    case Some(c) => Record(DividedPart(rec.values, c, c.Keys), None)
  }

  /** The `for (var field in result.count)` loop of `reduce`: each counted
      field takes the document's value and its count goes up by one. The
      fields are independent, so the visiting order does not matter. */
  method CountPhase(values: map<string, Number>, c: map<string, nat>, curr: Doc)
    returns (values': map<string, Number>, bumped: map<string, nat>)
    ensures values' == CountPart(values, c.Keys, curr)
    ensures bumped == Bumped(c, c.Keys)
  {
    values', bumped := values, c;
    var todo := c.Keys;
    var done: set<string> := {};
    while todo != {}
      invariant todo + done == c.Keys && todo !! done
      invariant values' == CountPart(values, done, curr)
      invariant bumped == Bumped(c, done)
      decreases todo
    {
      var f :| f in todo;
      CountPartStep(values, done, curr, f);
      BumpedStep(c, done, f);
      values' := values'[f := Add(Val(values', f), Cur(curr, f))];
      bumped := bumped[f := bumped[f] + 1];
      todo := todo - {f};
      done := done + {f};
    }
  }

  lemma CountPartStep(values: map<string, Number>, done: set<string>, doc: Doc, f: string)
    requires f !in done
    ensures Val(CountPart(values, done, doc), f) == Val(values, f)
    ensures CountPart(values, done, doc)[f := Add(Val(values, f), Cur(doc, f))] == CountPart(values, done + {f}, doc)
  {
  }

  lemma BumpedStep(count: map<string, nat>, done: set<string>, f: string)
    requires f in count && f !in done
    ensures Bumped(count, done)[f := Bumped(count, done)[f] + 1] == Bumped(count, done + {f})
  {
  }

  /** The accumulator record a store folds documents into with `reduce`, and
      finishes with `finalize`. The field lists are those the closures of
      `build` captured. */
  class Accumulator {
    const sums: seq<string>
    const mins: seq<string>
    const maxs: seq<string>
    var values: map<string, Number>
    var count: Option<map<string, nat>>

    constructor (g: GroupSpec)
      ensures sums == g.sums && mins == g.mins && maxs == g.maxs
      ensures values == g.initial.values && count == g.initial.count
    {
      sums, mins, maxs := g.sums, g.mins, g.maxs;
      values, count := g.initial.values, g.initial.count;
    }

    /** `reduce(curr, result)`. */
    method Reduce(curr: Doc)
      modifies this
      ensures Record(values, count) == Step(old(Record(values, count)), curr, sums, mins, maxs)
    {
      ghost var v0 := values;
      for i := 0 to |sums|
        invariant values == SumAll(v0, sums[..i], curr)
        invariant count == old(count)
      {
        assert sums[..i + 1][..i] == sums[..i];
        values := values[sums[i] := Add(Val(values, sums[i]), Cur(curr, sums[i]))];
      }
      assert sums[..|sums|] == sums;
      ghost var v1 := values;
      for i := 0 to |mins|
        invariant values == MinAll(v1, mins[..i], curr)
        invariant count == old(count)
      {
        assert mins[..i + 1][..i] == mins[..i];
        values := values[mins[i] := MinWith(Val(values, mins[i]), Cur(curr, mins[i]))];
      }
      assert mins[..|mins|] == mins;
      ghost var v2 := values;
      for i := 0 to |maxs|
        invariant values == MaxAll(v2, maxs[..i], curr)
        invariant count == old(count)
      {
        assert maxs[..i + 1][..i] == maxs[..i];
        values := values[maxs[i] := MaxWith(Val(values, maxs[i]), Cur(curr, maxs[i]))];
      }
      assert maxs[..|maxs|] == maxs;
      ghost var v3 := values;
      assert v3 == MaxAll(MinAll(SumAll(v0, sums, curr), mins, curr), maxs, curr);
      if count.Some? {
        var bumped;
        values, bumped := CountPhase(values, count.value, curr);
        count := Some(bumped);
      }
    }

    /** `finalize(result)`. */
    method Finalize()
      modifies this
      ensures Record(values, count) == Finalized(old(Record(values, count)))
    {
      if count.Some? {
        var c := count.value;
        ghost var v0 := values;
        var todo := c.Keys;
        var done: set<string> := {};
        while todo != {}
          invariant todo + done == c.Keys && todo !! done
          invariant values == DividedPart(v0, c, done)
          decreases todo
        {
          var f :| f in todo;
          assert Val(values, f) == Val(v0, f);
          values := values[f := Div(Val(values, f), c[f])];
          todo := todo - {f};
          done := done + {f};
        }
        count := None;
      }
    }
  }
}
