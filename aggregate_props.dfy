/** What the accumulator of lib/query/aggregate.js holds after a store has
    folded a sequence of documents into it with `reduce` and `finalize`. */
module AggregateProps {
  import opened Wrappers
  import opened Aggregate

  /** `reduce` applied to each document in turn. */
  function Fold(rec: Record, docs: seq<Doc>, sums: seq<string>, mins: seq<string>, maxs: seq<string>): Record
  {
    if docs == [] then rec
    else Step(Fold(rec, docs[..|docs| - 1], sums, mins, maxs), docs[|docs| - 1], sums, mins, maxs)
  }

  predicate AllHave(docs: seq<Doc>, f: string)
  {
    forall i :: 0 <= i < |docs| ==> f in docs[i]
  }

  function SumOf(docs: seq<Doc>, f: string): real
    requires AllHave(docs, f)
  {
    if docs == [] then 0.0 else SumOf(docs[..|docs| - 1], f) + docs[|docs| - 1][f]
  }

  function MinOf(docs: seq<Doc>, f: string): (m: real)
    requires docs != [] && AllHave(docs, f)
    ensures forall i :: 0 <= i < |docs| ==> m <= docs[i][f]
    ensures exists i :: 0 <= i < |docs| && m == docs[i][f]
  {
    var last := docs[|docs| - 1][f];
    if |docs| == 1 then last
    else
      var m := MinOf(docs[..|docs| - 1], f);
      if last < m then last else m
  }

  function MaxOf(docs: seq<Doc>, f: string): (m: real)
    requires docs != [] && AllHave(docs, f)
    ensures forall i :: 0 <= i < |docs| ==> docs[i][f] <= m
    ensures exists i :: 0 <= i < |docs| && m == docs[i][f]
  {
    var last := docs[|docs| - 1][f];
    if |docs| == 1 then last
    else
      var m := MaxOf(docs[..|docs| - 1], f);
      if m < last then last else m
  }

  /** `x + y + ... + y` with `n` additions. */
  function AddTimes(x: Number, y: Number, n: nat): Number
  {
    if n == 0 then x else Add(AddTimes(x, y, n - 1), y)
  }

  lemma {:induction false} AddTimesFinite(x: real, y: real, n: nat)
    ensures AddTimes(Finite(x), Finite(y), n) == Finite(x + n as real * y)
  {
    if n > 0 {
      AddTimesFinite(x, y, n - 1);
    }
  }

  /* ---------- one `reduce` call, field by field ---------- */

  /** A field listed `n` times under `sum` gets the document's value added `n` times. */
  lemma {:induction false} SumAllField(values: map<string, Number>, fields: seq<string>, doc: Doc, f: string)
    ensures Val(SumAll(values, fields, doc), f) == AddTimes(Val(values, f), Cur(doc, f), multiset(fields)[f])
  {
    if fields != [] {
      var init := fields[..|fields| - 1];
      assert fields == init + [fields[|fields| - 1]];
      SumAllField(values, init, doc, f);
    }
  }

  lemma MinWithTwice(a: Number, c: Number)
    requires c != NaN
    ensures MinWith(MinWith(a, c), c) == MinWith(a, c)
  {
  }

  lemma MaxWithTwice(a: Number, c: Number)
    requires c != NaN
    ensures MaxWith(MaxWith(a, c), c) == MaxWith(a, c)
  {
  }

  /** A `min` field takes the smaller of its running value and the document's,
      however many times it is listed. */
  lemma {:induction false} MinAllField(values: map<string, Number>, fields: seq<string>, doc: Doc, f: string)
    ensures Val(MinAll(values, fields, doc), f)
         == if f in fields then MinWith(Val(values, f), Cur(doc, f)) else Val(values, f)
  {
    if fields != [] {
      var init := fields[..|fields| - 1];
      assert fields == init + [fields[|fields| - 1]];
      MinAllField(values, init, doc, f);
      if f in init {
        MinWithTwice(Val(values, f), Cur(doc, f));
      }
    }
  }

  lemma {:induction false} MaxAllField(values: map<string, Number>, fields: seq<string>, doc: Doc, f: string)
    ensures Val(MaxAll(values, fields, doc), f)
         == if f in fields then MaxWith(Val(values, f), Cur(doc, f)) else Val(values, f)
  {
    if fields != [] {
      var init := fields[..|fields| - 1];
      assert fields == init + [fields[|fields| - 1]];
      MaxAllField(values, init, doc, f);
      if f in init {
        MaxWithTwice(Val(values, f), Cur(doc, f));
      }
    }
  }

  /** The role a field plays in a group: the lists and the `count` map it is in. */
  predicate Roles(rec: Record, sums: seq<string>, mins: seq<string>, maxs: seq<string>, f: string,
                  inSum: bool, inMin: bool, inMax: bool, inCount: bool)
  {
    && (f in sums <==> inSum)
    && (f in mins <==> inMin)
    && (f in maxs <==> inMax)
    && (rec.count.Some? && f in rec.count.value <==> inCount)
  }

  /** One `reduce` call on a field used by a single directive. */
  lemma StepField(rec: Record, doc: Doc, sums: seq<string>, mins: seq<string>, maxs: seq<string>, f: string)
    ensures var v := Step(rec, doc, sums, mins, maxs).values;
      var run := Val(rec.values, f);
      var c := Cur(doc, f);
      && (Roles(rec, sums, mins, maxs, f, true, false, false, false) ==> Val(v, f) == AddTimes(run, c, multiset(sums)[f]))
      && (Roles(rec, sums, mins, maxs, f, false, true, false, false) ==> Val(v, f) == MinWith(run, c))
      && (Roles(rec, sums, mins, maxs, f, false, false, true, false) ==> Val(v, f) == MaxWith(run, c))
      && (Roles(rec, sums, mins, maxs, f, false, false, false, true) ==> Val(v, f) == Add(run, c))
  {
    var v1 := SumAll(rec.values, sums, doc);
    var v2 := MinAll(v1, mins, doc);
    var v3 := MaxAll(v2, maxs, doc);
    SumAllField(rec.values, sums, doc, f);
    MinAllField(v1, mins, doc, f);
    MaxAllField(v2, maxs, doc, f);
    if f !in sums {
      assert multiset(sums)[f] == 0;
    }
  }

  function Raised(c: map<string, nat>, n: nat): map<string, nat>
  {
    map f | f in c :: c[f] + n
  }

  /** `reduce` keeps the keys of `count` and raises each count by one. */
  lemma {:induction false} FoldCount(rec: Record, docs: seq<Doc>, sums: seq<string>, mins: seq<string>, maxs: seq<string>)
    ensures Fold(rec, docs, sums, mins, maxs).count
         == match rec.count
            case None => None
            case Some(c) => Some(Raised(c, |docs|))
  {
    if docs != [] {
      var init := docs[..|docs| - 1];
      FoldCount(rec, init, sums, mins, maxs);
      if rec.count.Some? {
        var c := rec.count.value;
        assert Bumped(Raised(c, |init|), Raised(c, |init|).Keys) == Raised(c, |docs|);
      }
    } else if rec.count.Some? {
      var c := rec.count.value;
      assert Raised(c, 0) == c;
    }
  }

  /* ---------- folding a sequence of documents ---------- */

  /** A `sum` field ends at its seed plus the total of the documents' values
      (times the number of times it is listed). */
  lemma {:induction false} FoldSum(rec: Record, docs: seq<Doc>, sums: seq<string>, mins: seq<string>, maxs: seq<string>,
                                   f: string, x: real)
    requires Roles(rec, sums, mins, maxs, f, true, false, false, false)
    requires AllHave(docs, f) && Val(rec.values, f) == Finite(x)
    ensures Val(Fold(rec, docs, sums, mins, maxs).values, f) == Finite(x + multiset(sums)[f] as real * SumOf(docs, f))
  {
    if docs != [] {
      var init := docs[..|docs| - 1];
      var last := docs[|docs| - 1];
      var m := multiset(sums)[f];
      var s0 := SumOf(init, f);
      FoldSum(rec, init, sums, mins, maxs, f, x);
      FoldCount(rec, init, sums, mins, maxs);
      var r := Fold(rec, init, sums, mins, maxs);
      assert Val(r.values, f) == Finite(x + m as real * s0);
      assert Roles(r, sums, mins, maxs, f, true, false, false, false);
      assert Cur(last, f) == Finite(last[f]);
      StepField(r, last, sums, mins, maxs, f);
      assert Val(Fold(rec, docs, sums, mins, maxs).values, f) == AddTimes(Finite(x + m as real * s0), Finite(last[f]), m);
      AddTimesFinite(x + m as real * s0, last[f], m);
      assert SumOf(docs, f) == s0 + last[f];
      Distribute(x, m as real, s0, last[f], SumOf(docs, f));
    }
  }

  lemma Distribute(x: real, m: real, s: real, y: real, t: real)
    requires t == s + y
    ensures x + m * s + m * y == x + m * t
  {
  }

  /** A `min` field seeded with NaN ends at the smallest value seen. */
  lemma {:induction false} FoldMin(rec: Record, docs: seq<Doc>, sums: seq<string>, mins: seq<string>, maxs: seq<string>,
                                   f: string)
    requires Roles(rec, sums, mins, maxs, f, false, true, false, false)
    requires AllHave(docs, f) && Val(rec.values, f) == NaN
    ensures docs == [] ==> Val(Fold(rec, docs, sums, mins, maxs).values, f) == NaN
    ensures docs != [] ==> Val(Fold(rec, docs, sums, mins, maxs).values, f) == Finite(MinOf(docs, f))
  {
    if docs != [] {
      var init := docs[..|docs| - 1];
      var last := docs[|docs| - 1];
      FoldMin(rec, init, sums, mins, maxs, f);
      FoldCount(rec, init, sums, mins, maxs);
      var r := Fold(rec, init, sums, mins, maxs);
      assert Roles(r, sums, mins, maxs, f, false, true, false, false);
      StepField(r, last, sums, mins, maxs, f);
    }
  }

  /** A `max` field seeded with NaN ends at the largest value seen. */
  lemma {:induction false} FoldMax(rec: Record, docs: seq<Doc>, sums: seq<string>, mins: seq<string>, maxs: seq<string>,
                                   f: string)
    requires Roles(rec, sums, mins, maxs, f, false, false, true, false)
    requires AllHave(docs, f) && Val(rec.values, f) == NaN
    ensures docs == [] ==> Val(Fold(rec, docs, sums, mins, maxs).values, f) == NaN
    ensures docs != [] ==> Val(Fold(rec, docs, sums, mins, maxs).values, f) == Finite(MaxOf(docs, f))
  {
    if docs != [] {
      var init := docs[..|docs| - 1];
      var last := docs[|docs| - 1];
      FoldMax(rec, init, sums, mins, maxs, f);
      FoldCount(rec, init, sums, mins, maxs);
      var r := Fold(rec, init, sums, mins, maxs);
      assert Roles(r, sums, mins, maxs, f, false, false, true, false);
      StepField(r, last, sums, mins, maxs, f);
    }
  }

  /** A counted (average) field ends at its seed plus the total of the values. */
  lemma {:induction false} FoldCounted(rec: Record, docs: seq<Doc>, sums: seq<string>, mins: seq<string>, maxs: seq<string>,
                                       f: string, x: real)
    requires Roles(rec, sums, mins, maxs, f, false, false, false, true)
    requires AllHave(docs, f) && Val(rec.values, f) == Finite(x)
    ensures Val(Fold(rec, docs, sums, mins, maxs).values, f) == Finite(x + SumOf(docs, f))
  {
    if docs != [] {
      var init := docs[..|docs| - 1];
      var last := docs[|docs| - 1];
      FoldCounted(rec, init, sums, mins, maxs, f, x);
      FoldCount(rec, init, sums, mins, maxs);
      var r := Fold(rec, init, sums, mins, maxs);
      assert Roles(r, sums, mins, maxs, f, false, false, false, true);
      StepField(r, last, sums, mins, maxs, f);
    }
  }

  /* ---------- from the directives to the finished record ---------- */

  /** The record a group yields for `docs`: folded, then finalized. */
  function Aggregated(g: GroupSpec, docs: seq<Doc>): Record
  {
    Finalized(Fold(g.initial, docs, g.sums, g.mins, g.maxs))
  }

  lemma FinalizedField(rec: Record, f: string)
    ensures Finalized(rec).count == None
    ensures rec.count.Some? && f in rec.count.value ==>
      Val(Finalized(rec).values, f) == Div(Val(rec.values, f), rec.count.value[f])
    ensures !(rec.count.Some? && f in rec.count.value) ==> Val(Finalized(rec).values, f) == Val(rec.values, f)
  {
  }

  /** The part `finalize` plays for a field `count` does not track: none. */
  lemma {:induction false} Uncounted(g: GroupSpec, docs: seq<Doc>, f: string)
    requires !(g.initial.count.Some? && f in g.initial.count.value)
    ensures Val(Aggregated(g, docs).values, f) == Val(Fold(g.initial, docs, g.sums, g.mins, g.maxs).values, f)
  {
    FoldCount(g.initial, docs, g.sums, g.mins, g.maxs);
    FinalizedField(Fold(g.initial, docs, g.sums, g.mins, g.maxs), f);
  }

  /** For a field `count` tracks from zero, `finalize` divides by the number of documents. */
  lemma {:induction false} Counted(g: GroupSpec, docs: seq<Doc>, f: string)
    requires g.initial.count.Some? && f in g.initial.count.value && g.initial.count.value[f] == 0
    ensures Val(Aggregated(g, docs).values, f) == Div(Val(Fold(g.initial, docs, g.sums, g.mins, g.maxs).values, f), |docs|)
  {
    FoldCount(g.initial, docs, g.sums, g.mins, g.maxs);
    FinalizedField(Fold(g.initial, docs, g.sums, g.mins, g.maxs), f);
  }

  /** How `GroupOf` seeds a field listed under `average` only. */
  lemma AverageSeed(d: Directives, f: string)
    requires d.average.Some? && f in d.average.value
    requires f !in d.sum.GetOr([]) && f !in d.min.GetOr([]) && f !in d.max.GetOr([])
    ensures var g := GroupOf(d);
      && Roles(g.initial, g.sums, g.mins, g.maxs, f, false, false, false, true)
      && Val(g.initial.values, f) == Finite(0.0)
      && g.initial.count.value[f] == 0
  {
    GroupOfSpec(d);
  }

  /** How `GroupOf` seeds a field listed under `sum` only. */
  lemma SumSeed(d: Directives, f: string)
    requires d.sum.Some? && f in d.sum.value
    requires f !in d.average.GetOr([]) && f !in d.min.GetOr([]) && f !in d.max.GetOr([])
    ensures var g := GroupOf(d);
      && Roles(g.initial, g.sums, g.mins, g.maxs, f, true, false, false, false)
      && Val(g.initial.values, f) == Finite(0.0)
      && g.sums == d.sum.value
  {
    GroupOfSpec(d);
  }

  /** How `GroupOf` seeds a field listed under `min` only. */
  lemma MinSeed(d: Directives, f: string)
    requires d.min.Some? && f in d.min.value
    requires f !in d.sum.GetOr([]) && f !in d.average.GetOr([]) && f !in d.max.GetOr([])
    ensures var g := GroupOf(d);
      Roles(g.initial, g.sums, g.mins, g.maxs, f, false, true, false, false) && Val(g.initial.values, f) == NaN
  {
    GroupOfSpec(d);
  }

  /** How `GroupOf` seeds a field listed under `max` only. */
  lemma MaxSeed(d: Directives, f: string)
    requires d.max.Some? && f in d.max.value
    requires f !in d.sum.GetOr([]) && f !in d.average.GetOr([]) && f !in d.min.GetOr([])
    ensures var g := GroupOf(d);
      Roles(g.initial, g.sums, g.mins, g.maxs, f, false, false, true, false) && Val(g.initial.values, f) == NaN
  {
    GroupOfSpec(d);
  }

  /** An `average` field (in no other directive) ends at the mean of the
      documents' values, and at NaN when there is no document. */
  lemma AverageField(d: Directives, docs: seq<Doc>, f: string)
    requires d.average.Some? && f in d.average.value
    requires f !in d.sum.GetOr([]) && f !in d.min.GetOr([]) && f !in d.max.GetOr([])
    requires AllHave(docs, f)
    ensures Val(Aggregated(GroupOf(d), docs).values, f)
         == if docs == [] then NaN else Finite(SumOf(docs, f) / |docs| as real)
  {
    var g := GroupOf(d);
    AverageSeed(d, f);
    FoldCounted(g.initial, docs, g.sums, g.mins, g.maxs, f, 0.0);
    Counted(g, docs, f);
  }

  /** A `sum` field (in no other directive) ends at the documents' total,
      counted once per time it is listed. */
  lemma SumField(d: Directives, docs: seq<Doc>, f: string)
    requires d.sum.Some? && f in d.sum.value
    requires f !in d.average.GetOr([]) && f !in d.min.GetOr([]) && f !in d.max.GetOr([])
    requires AllHave(docs, f)
    ensures Val(Aggregated(GroupOf(d), docs).values, f) == Finite(multiset(d.sum.value)[f] as real * SumOf(docs, f))
  {
    SumSeed(d, f);
    SumGroup(GroupOf(d), docs, f);
  }

  lemma SumGroup(g: GroupSpec, docs: seq<Doc>, f: string)
    requires Roles(g.initial, g.sums, g.mins, g.maxs, f, true, false, false, false)
    requires Val(g.initial.values, f) == Finite(0.0) && AllHave(docs, f)
    ensures Val(Aggregated(g, docs).values, f) == Finite(multiset(g.sums)[f] as real * SumOf(docs, f))
  {
    FoldSum(g.initial, docs, g.sums, g.mins, g.maxs, f, 0.0);
    Uncounted(g, docs, f);
  }

  /** A `min` field (in no other directive) ends at the smallest value seen,
      and at NaN when there is no document. */
  lemma MinField(d: Directives, docs: seq<Doc>, f: string)
    requires d.min.Some? && f in d.min.value
    requires f !in d.sum.GetOr([]) && f !in d.average.GetOr([]) && f !in d.max.GetOr([])
    requires AllHave(docs, f)
    ensures Val(Aggregated(GroupOf(d), docs).values, f) == if docs == [] then NaN else Finite(MinOf(docs, f))
  {
    var g := GroupOf(d);
    MinSeed(d, f);
    FoldMin(g.initial, docs, g.sums, g.mins, g.maxs, f);
    Uncounted(g, docs, f);
  }

  /** A `max` field (in no other directive) ends at the largest value seen,
      and at NaN when there is no document. */
  lemma MaxField(d: Directives, docs: seq<Doc>, f: string)
    requires d.max.Some? && f in d.max.value
    requires f !in d.sum.GetOr([]) && f !in d.average.GetOr([]) && f !in d.min.GetOr([])
    requires AllHave(docs, f)
    ensures Val(Aggregated(GroupOf(d), docs).values, f) == if docs == [] then NaN else Finite(MaxOf(docs, f))
  {
    var g := GroupOf(d);
    MaxSeed(d, f);
    FoldMax(g.initial, docs, g.sums, g.mins, g.maxs, f);
    Uncounted(g, docs, f);
  }
}
