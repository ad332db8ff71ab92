/** Objects with several keys under the criteria translator of
    lib/criteria.js: a key that is renamed (a comparison alias in
    `recursiveParse2`, `or` in `parseTypes`) leaves its place and its new key
    is appended, while every other key is rewritten where it stands. */
module CriteriaShapes {
  import opened Wrappers
  import opened Json
  import opened Criteria
  import opened CriteriaProps

  /* ---------- a field between two lists ---------- */

  lemma GetMid(a: Fields, k: string, x: Value, b: Fields)
    requires !Has(a, k)
    ensures Get(a + [(k, x)] + b, k) == x
  {
    assert a + [(k, x)] + b == a + ([(k, x)] + b);
    GetConcat(a, [(k, x)] + b, k);
  }

  lemma SetMid(a: Fields, k: string, x: Value, b: Fields, y: Value)
    requires !Has(a, k)
    ensures Set(a + [(k, x)] + b, k, y) == a + [(k, y)] + b
  {
    assert a + [(k, x)] + b == a + ([(k, x)] + b);
    SetConcat(a, [(k, x)] + b, k, y);
    assert Set([(k, x)] + b, k, y) == [(k, y)] + b;
  }

  lemma DeleteMid(a: Fields, k: string, x: Value, b: Fields)
    requires !Has(a, k) && !Has(b, k)
    ensures Delete(a + [(k, x)] + b, k) == a + b
  {
    var tail := [(k, x)] + b;
    assert a + [(k, x)] + b == a + tail;
    DeleteConcat(a, tail, k);
    DeleteAbsent(a, k);
    assert tail[1..] == b;
    assert Delete(tail, k) == Delete(b, k);
    DeleteAbsent(b, k);
  }

  /** No key of `s[..i]` is the key at `i`, when the keys are distinct. */
  lemma NotBefore(s: Fields, i: nat)
    requires DistinctKeys(s) && i < |s|
    ensures !Has(s[..i], s[i].0) && !Has(s[i + 1..], s[i].0)
  {
  }

  /* ---------- recursiveParse2 on comparison aliases and ordinary keys ---------- */

  /** The keys nedb reads as comparison operators. */
  predicate OperatorName(k: string)
  {
    k == "$lt" || k == "$lte" || k == "$gt" || k == "$gte"
  }

  /** Every key is an ordinary key or a comparison alias, and none is already
      an operator. */
  predicate RangeKeys(fs: Fields)
  {
    forall i :: 0 <= i < |fs| ==> (Plain(fs[i].0) || ComparisonOperator(fs[i].0).Some?) && !OperatorName(fs[i].0)
  }

  /** No two aliases stand for the same operator. */
  predicate DistinctOperators(fs: Fields)
  {
    forall i, j :: 0 <= i < j < |fs| && ComparisonOperator(fs[i].0).Some? ==>
      ComparisonOperator(fs[i].0) != ComparisonOperator(fs[j].0)
  }

  /** What visiting the key `k` leaves in its place: its rewritten value when
      it is an ordinary key, nothing when it is an alias. */
  function KeptOne(k: string, v: Value, env: Env): (r: Fields)
  {
    if ComparisonOperator(k).Some? then [] else [(k, Leaf(k, v, env))]
  }

  /** What visiting the key `k` appends: the operator of an alias with the
      rewritten operand. */
  function MovedOne(k: string, v: Value, env: Env): (r: Fields)
  {
    if ComparisonOperator(k).Some? then [(ComparisonOperator(k).value, Child(v, env))] else []
  }

  /** The ordinary fields of `fs`, in order, each with the value its visit
      leaves. */
  function KeptFields(fs: Fields, env: Env): (r: Fields)
  {
    if fs == [] then [] else KeptFields(fs[..|fs| - 1], env) + KeptOne(fs[|fs| - 1].0, fs[|fs| - 1].1, env)
  }

  /** The operators the aliases of `fs` become, in visiting order, each with
      its rewritten operand. */
  function MovedFields(fs: Fields, env: Env): (r: Fields)
  {
    if fs == [] then [] else MovedFields(fs[..|fs| - 1], env) + MovedOne(fs[|fs| - 1].0, fs[|fs| - 1].1, env)
  }

  /** The object after the first `i` keys have been visited. */
  function RangeState(fs: Fields, i: nat, env: Env): Fields
    requires i <= |fs|
  {
    KeptFields(fs[..i], env) + fs[i..] + MovedFields(fs[..i], env)
  }

  /** The keys of one visit's output: the key itself, or its operator. */
  lemma OneHas(k: string, v: Value, x: string, env: Env)
    ensures Has(KeptOne(k, v, env), x) ==> x == k
    ensures Has(MovedOne(k, v, env), x) ==> ComparisonOperator(k) == Some(x)
  {
    if Has(KeptOne(k, v, env), x) {
      assert KeptOne(k, v, env)[0].0 == k;
    }
    if Has(MovedOne(k, v, env), x) {
      assert MovedOne(k, v, env)[0].0 == ComparisonOperator(k).value;
    }
  }

  lemma OneHeight(k: string, v: Value, env: Env)
    ensures FieldsHeight(KeptOne(k, v, env)) <= Height(v)
    ensures FieldsHeight(MovedOne(k, v, env)) <= Height(v)
  {
    if ComparisonOperator(k).Some? {
      FieldsHeightSingle((ComparisonOperator(k).value, Child(v, env)));
    } else {
      FieldsHeightSingle((k, Leaf(k, v, env)));
    }
  }

  /** A key of the prefix or the key of the last field is a key of the whole. */
  lemma HasSnoc(s: Fields, x: string)
    requires s != []
    ensures Has(s[..|s| - 1], x) ==> Has(s, x)
    ensures s[|s| - 1].0 == x ==> Has(s, x)
  {
  }

  lemma {:induction false} KeptHas(s: Fields, k: string, env: Env)
    ensures Has(KeptFields(s, env), k) ==> Has(s, k)
  {
    if s != [] {
      var n := |s| - 1;
      KeptHas(s[..n], k, env);
      HasConcat(KeptFields(s[..n], env), KeptOne(s[n].0, s[n].1, env), k);
      OneHas(s[n].0, s[n].1, k, env);
      HasSnoc(s, k);
    }
  }

  /** An operator key of the moved fields is the operator of some alias. */
  predicate AliasOf(s: Fields, x: string)
  {
    exists j :: 0 <= j < |s| && ComparisonOperator(s[j].0) == Some(x)
  }

  lemma AliasSnoc(s: Fields, x: string)
    requires s != []
    ensures AliasOf(s[..|s| - 1], x) ==> AliasOf(s, x)
    ensures ComparisonOperator(s[|s| - 1].0) == Some(x) ==> AliasOf(s, x)
  {
    var n := |s| - 1;
    if AliasOf(s[..n], x) {
      var j :| 0 <= j < n && ComparisonOperator(s[..n][j].0) == Some(x);
      assert s[j] == s[..n][j];
    }
  }

  lemma {:induction false} MovedHas(s: Fields, x: string, env: Env)
    ensures Has(MovedFields(s, env), x) ==> AliasOf(s, x)
  {
    if s != [] {
      var n := |s| - 1;
      MovedHas(s[..n], x, env);
      HasConcat(MovedFields(s[..n], env), MovedOne(s[n].0, s[n].1, env), x);
      OneHas(s[n].0, s[n].1, x, env);
      AliasSnoc(s, x);
    }
  }

  lemma Snoc<T>(s: seq<T>)
    requires s != []
    ensures s == s[..|s| - 1] + [s[|s| - 1]]
  {
  }

  /** The height of a list whose last field is `p`. */
  lemma HeightSnoc(s: Fields)
    requires s != []
    ensures FieldsHeight(s) == Max(FieldsHeight(s[..|s| - 1]), Height(s[|s| - 1].1))
  {
    Snoc(s);
    FieldsHeightConcat(s[..|s| - 1], [s[|s| - 1]]);
    FieldsHeightSingle(s[|s| - 1]);
  }

  lemma {:induction false} KeptHeight(s: Fields, env: Env)
    ensures FieldsHeight(KeptFields(s, env)) <= FieldsHeight(s)
  {
    if s != [] {
      var n := |s| - 1;
      KeptHeight(s[..n], env);
      HeightSnoc(s);
      OneHeight(s[n].0, s[n].1, env);
      FieldsHeightConcat(KeptFields(s[..n], env), KeptOne(s[n].0, s[n].1, env));
    }
  }

  lemma {:induction false} MovedHeight(s: Fields, env: Env)
    ensures FieldsHeight(MovedFields(s, env)) <= FieldsHeight(s)
  {
    if s != [] {
      var n := |s| - 1;
      MovedHeight(s[..n], env);
      HeightSnoc(s);
      OneHeight(s[n].0, s[n].1, env);
      FieldsHeightConcat(MovedFields(s[..n], env), MovedOne(s[n].0, s[n].1, env));
    }
  }

  lemma HeightAround(x: Fields, q: Fields, z: Fields, p: Fields)
    requires FieldsHeight(x) <= FieldsHeight(p) && FieldsHeight(z) <= FieldsHeight(p)
    ensures Height(Obj(x + q + z)) <= Height(Obj(p + q))
  {
    FieldsHeightConcat(p, q);
    FieldsHeightConcat(x, q);
    FieldsHeightConcat(x + q, z);
  }

  lemma RangeStateHeight(fs: Fields, i: nat, env: Env)
    requires i <= |fs|
    ensures Height(Obj(RangeState(fs, i, env))) <= Height(Obj(fs))
  {
    var pre, post := fs[..i], fs[i..];
    KeptHeight(pre, env);
    MovedHeight(pre, env);
    HeightAround(KeptFields(pre, env), post, MovedFields(pre, env), pre);
    assert pre + post == fs;
  }

  /** The key visited at `i` is held by no other part of the state. */
  lemma RangeKeyApart(fs: Fields, i: nat, env: Env)
    requires DistinctKeys(fs) && RangeKeys(fs) && i < |fs|
    ensures !Has(KeptFields(fs[..i], env), fs[i].0)
    ensures !Has(fs[i + 1..], fs[i].0) && !Has(MovedFields(fs[..i], env), fs[i].0)
  {
    var k := fs[i].0;
    NotBefore(fs, i);
    KeptHas(fs[..i], k, env);
    MovedHas(fs[..i], k, env);
    AliasOperator(fs[..i], k);
    assert !OperatorName(k);
  }

  lemma AliasOperator(s: Fields, x: string)
    ensures AliasOf(s, x) ==> OperatorName(x)
  {
  }

  /** Nor is the operator of an alias visited at `i`. */
  lemma RangeOperatorApart(fs: Fields, i: nat, env: Env)
    requires RangeKeys(fs) && DistinctOperators(fs) && i < |fs| && ComparisonOperator(fs[i].0).Some?
    ensures var op := ComparisonOperator(fs[i].0).value;
      !Has(KeptFields(fs[..i], env), op) && !Has(fs[i + 1..], op) && !Has(MovedFields(fs[..i], env), op)
  {
    var op := ComparisonOperator(fs[i].0).value;
    KeptHas(fs[..i], op, env);
    MovedHas(fs[..i], op, env);
  }

  /** The descent into the visited key replaces its value by its rewritten form. */
  lemma RangeDescend(a: Fields, k: string, v: Value, b: Fields, H: nat, env: Env)
    requires !Has(a, k) && Height(Obj(a + [(k, v)] + b)) <= H && 1 <= H
    ensures Descend(Obj(a + [(k, v)] + b), Name(k), H, env) == Obj(a + [(k, Child(v, env))] + b)
  {
    GetMid(a, k, v, b);
    SetMid(a, k, v, b, Child(v, env));
  }

  /** Under an ordinary key only a string operand changes. */
  lemma RangePlain(a: Fields, k: string, c: Value, b: Fields, env: Env)
    requires !Has(a, k) && Plain(k)
    ensures Rewrite(Obj(a + [(k, c)] + b), Name(k), env) == Obj(a + [(k, Patterned(k, c))] + b)
  {
    var m := Obj(a + [(k, c)] + b);
    OperatorSkips(m, k, env);
    ComparisonSkips(m, k);
    GetMid(a, k, c, b);
    SetMid(a, k, c, b, Patterned(k, c));
  }

  /** Writing a new key appends it. */
  lemma SetPastMid(a: Fields, k: string, c: Value, b: Fields, op: string)
    requires !Has(a, op) && !Has(b, op) && op != k
    ensures Set(a + [(k, c)] + b, op, c) == a + [(k, c)] + (b + [(op, c)])
  {
    HasConcat(a + [(k, c)], b, op);
    HasConcat(a, [(k, c)], op);
    assert !Has([(k, c)], op) by { assert [(k, c)][0].0 == k; }
    SetAbsent(a + [(k, c)] + b, op, c);
  }

  /** `MoveTo` on a key between two lists that hold neither it nor the operator. */
  lemma MoveToFields(m: Fields, k: string, op: string)
    ensures MoveTo(Obj(m), Name(k), op) == Obj(Delete(Set(m, op, Get(m, k)), k))
  {
  }

  lemma MoveMid(a: Fields, k: string, c: Value, b: Fields, op: string)
    requires !Has(a, k) && !Has(b, k) && !Has(a, op) && !Has(b, op) && op != k
    ensures MoveTo(Obj(a + [(k, c)] + b), Name(k), op) == Obj(a + b + [(op, c)])
  {
    var last := [(op, c)];
    MoveToFields(a + [(k, c)] + b, k, op);
    GetMid(a, k, c, b);
    SetPastMid(a, k, c, b, op);
    HasConcat(b, last, k);
    assert !Has(last, k) by { assert last[0].0 == op; }
    DeleteMid(a, k, c, b + last);
    Assoc(a, b, last);
  }

  /** Under an alias the operand leaves its place for the operator, appended. */
  lemma RangeAlias(a: Fields, k: string, c: Value, b: Fields, env: Env)
    requires ComparisonOperator(k).Some?
    requires var op := ComparisonOperator(k).value;
      !Has(a, k) && !Has(b, k) && !Has(a, op) && !Has(b, op)
    ensures var op := ComparisonOperator(k).value;
      Rewrite(Obj(a + [(k, c)] + b), Name(k), env) == Obj(a + b + [(op, c)])
  {
    var op := ComparisonOperator(k).value;
    var m := Obj(a + [(k, c)] + b);
    ComparisonNotOperator(k);
    OperatorSkips(m, k, env);
    ComparisonMoves(m, k);
    OperatorRenames(k);
    MoveMid(a, k, c, b, op);
    var after := a + b + [(op, c)];
    assert after == a + (b + [(op, c)]);
    HasConcat(a, b + [(op, c)], k);
    StringSkips(Obj(after), k);
  }

  /** Visiting an ordinary key rewrites its value where it stands. */
  lemma VisitPlain(a: Fields, k: string, v: Value, b: Fields, H: nat, env: Env)
    requires !Has(a, k) && Plain(k) && Height(Obj(a + [(k, v)] + b)) <= H && 1 <= H
    ensures Visit(Obj(a + [(k, v)] + b), Name(k), H, env) == Obj(a + [(k, Leaf(k, v, env))] + b)
  {
    RangeDescend(a, k, v, b, H, env);
    RangePlain(a, k, Child(v, env), b, env);
  }

  /** Visiting an alias moves its rewritten operand to the operator, at the end. */
  lemma VisitAlias(a: Fields, k: string, v: Value, b: Fields, H: nat, env: Env)
    requires ComparisonOperator(k).Some?
    requires var op := ComparisonOperator(k).value;
      !Has(a, k) && !Has(b, k) && !Has(a, op) && !Has(b, op)
    requires Height(Obj(a + [(k, v)] + b)) <= H && 1 <= H
    ensures Visit(Obj(a + [(k, v)] + b), Name(k), H, env) == Obj(a + b + [(ComparisonOperator(k).value, Child(v, env))])
  {
    RangeDescend(a, k, v, b, H, env);
    RangeAlias(a, k, Child(v, env), b, env);
  }

  lemma RangeStateAt(fs: Fields, i: nat, env: Env)
    requires i < |fs|
    ensures RangeState(fs, i, env) == KeptFields(fs[..i], env) + [fs[i]] + (fs[i + 1..] + MovedFields(fs[..i], env))
    ensures RangeState(fs, i + 1, env)
         == KeptFields(fs[..i], env) + KeptOne(fs[i].0, fs[i].1, env) + fs[i + 1..] + (MovedFields(fs[..i], env) + MovedOne(fs[i].0, fs[i].1, env))
  {
    assert fs[i..] == [fs[i]] + fs[i + 1..];
    assert fs[..i + 1][..i] == fs[..i];
  }

  /** One visit, on a key that neither the fields before it nor those after it
      hold, and whose operator they do not hold either. */
  lemma VisitStep(a: Fields, k: string, v: Value, rest: Fields, moved: Fields, H: nat, env: Env)
    requires Plain(k) || ComparisonOperator(k).Some?
    requires !Has(a, k) && !Has(rest, k) && !Has(moved, k)
    requires ComparisonOperator(k).Some? ==>
      var op := ComparisonOperator(k).value;
      !Has(a, op) && !Has(rest, op) && !Has(moved, op)
    requires Height(Obj(a + [(k, v)] + (rest + moved))) <= H && 1 <= H
    ensures Visit(Obj(a + [(k, v)] + (rest + moved)), Name(k), H, env)
         == Obj(a + KeptOne(k, v, env) + rest + (moved + MovedOne(k, v, env)))
  {
    var b := rest + moved;
    if ComparisonOperator(k).Some? {
      var op := ComparisonOperator(k).value;
      var x := Child(v, env);
      HasConcat(rest, moved, k);
      HasConcat(rest, moved, op);
      VisitAlias(a, k, v, b, H, env);
      assert KeptOne(k, v, env) == [] && MovedOne(k, v, env) == [(op, x)];
      Regroup(a, [], rest, moved, [(op, x)]);
    } else {
      VisitPlain(a, k, v, b, H, env);
      assert KeptOne(k, v, env) == [(k, Leaf(k, v, env))] && MovedOne(k, v, env) == [];
      Regroup(a, [(k, Leaf(k, v, env))], rest, moved, []);
    }
  }

  lemma Regroup<T>(a: seq<T>, x: seq<T>, rest: seq<T>, moved: seq<T>, y: seq<T>)
    ensures x == [] ==> a + (rest + moved) + y == a + x + rest + (moved + y)
    ensures y == [] ==> a + x + (rest + moved) == a + x + rest + (moved + y)
  {
  }

  /** Visiting the `i`-th key turns the state before it into the state after it. */
  lemma RangeVisit(fs: Fields, i: nat, env: Env)
    requires DistinctKeys(fs) && RangeKeys(fs) && DistinctOperators(fs) && i < |fs|
    ensures Height(Obj(RangeState(fs, i, env))) <= Height(Obj(fs))
    ensures Visit(Obj(RangeState(fs, i, env)), Name(fs[i].0), Height(Obj(fs)), env) == Obj(RangeState(fs, i + 1, env))
  {
    RangeStateAt(fs, i, env);
    RangeStateHeight(fs, i, env);
    RangeKeyApart(fs, i, env);
    if ComparisonOperator(fs[i].0).Some? {
      RangeOperatorApart(fs, i, env);
    }
    VisitStep(KeptFields(fs[..i], env), fs[i].0, fs[i].1, fs[i + 1..], MovedFields(fs[..i], env), Height(Obj(fs)), env);
  }

  lemma RangeStateEnd(fs: Fields, env: Env)
    ensures RangeState(fs, |fs|, env) == KeptFields(fs, env) + MovedFields(fs, env)
  {
    assert fs[..|fs|] == fs && fs[|fs|..] == [];
  }

  lemma {:induction false} RangeWalk(fs: Fields, i: nat, env: Env)
    requires DistinctKeys(fs) && RangeKeys(fs) && DistinctOperators(fs) && i <= |fs|
    ensures Height(Obj(RangeState(fs, i, env))) <= Height(Obj(fs))
    ensures Walk(Obj(RangeState(fs, i, env)), NameKeys(Keys(fs)), i, Height(Obj(fs)), env)
         == Obj(KeptFields(fs, env) + MovedFields(fs, env))
    decreases |fs| - i
  {
    RangeStateHeight(fs, i, env);
    if i == |fs| {
      RangeStateEnd(fs, env);
    } else {
      var keys, H := NameKeys(Keys(fs)), Height(Obj(fs));
      var cur, next := Obj(RangeState(fs, i, env)), Obj(RangeState(fs, i + 1, env));
      assert keys[i] == Name(fs[i].0);
      RangeVisit(fs, i, env);
      assert Visit(cur, keys[i], H, env) == next;
      RangeWalk(fs, i + 1, env);
      assert Walk(cur, keys, i, H, env) == Walk(next, keys, i + 1, H, env);
    }
  }

  /** An object of ordinary keys and comparison aliases: the ordinary keys
      keep their order and are rewritten as on their own; each alias is
      removed and its operator, holding the rewritten operand, is appended in
      the order the aliases are visited. */
  lemma RangeObject(fs: Fields, env: Env)
    requires DistinctKeys(fs) && RangeKeys(fs) && DistinctOperators(fs)
    ensures Normalized(Obj(fs), env) == Obj(KeptFields(fs, env) + MovedFields(fs, env))
  {
    DistinctKeysOwnKeys(fs);
    assert EnumKeys(Obj(fs)) == NameKeys(Keys(fs));
    assert fs[..0] == [] && fs[0..] == fs;
    assert RangeState(fs, 0, env) == fs;
    RangeWalk(fs, 0, env);
  }

  lemma FieldsSnoc(s: Fields, p: (string, Value), env: Env)
    ensures KeptFields(s + [p], env) == KeptFields(s, env) + KeptOne(p.0, p.1, env)
    ensures MovedFields(s + [p], env) == MovedFields(s, env) + MovedOne(p.0, p.1, env)
  {
    assert (s + [p])[..|s|] == s;
  }

  lemma AliasOperators()
    ensures ComparisonOperator(">") == Some("$gt") && ComparisonOperator("<") == Some("$lt")
  {
  }

  lemma RangeShape(a: Value, b: Value)
    ensures var fs := [(">", a), ("<", b)];
      DistinctKeys(fs) && RangeKeys(fs) && DistinctOperators(fs)
  {
    AliasOperators();
    assert ">" != "<";
  }

  lemma RangeFields(a: Value, b: Value, env: Env)
    ensures KeptFields([(">", a), ("<", b)], env) == []
    ensures MovedFields([(">", a), ("<", b)], env) == [("$gt", Child(a, env)), ("$lt", Child(b, env))]
  {
    var gt, lt := (">", a), ("<", b);
    AliasOperators();
    FieldsSnoc([], gt, env);
    FieldsSnoc([gt], lt, env);
    assert [] + [gt] == [gt] && [gt] + [lt] == [gt, lt];
  }

  /** `{'>': a, '<': b}` becomes `{$gt: a', $lt: b'}`. */
  lemma Range(a: Value, b: Value, env: Env)
    ensures Normalized(Obj([(">", a), ("<", b)]), env) == Obj([("$gt", Child(a, env)), ("$lt", Child(b, env))])
  {
    RangeShape(a, b);
    RangeObject([(">", a), ("<", b)], env);
    RangeFields(a, b, env);
  }

  /* ---------- parseTypes on objects with an `or` key ---------- */

  /** What the visit of `k` leaves in place: nothing when `or` is renamed,
      the parsed value otherwise. */
  function TypeKeptOne(k: string, v: Value, schema: Value, env: Env): (r: Fields)
  {
    if RenamesOr(k, v, schema) then [] else [(k, TypeLeaf(k, v, schema, env))]
  }

  /** What the visit of `k` appends: `$or` with the clauses, unparsed. */
  function TypeMovedOne(k: string, v: Value, schema: Value): (r: Fields)
  {
    if RenamesOr(k, v, schema) then [("$or", v)] else []
  }

  function TypeKept(fs: Fields, schema: Value, env: Env): (r: Fields)
  {
    if fs == [] then [] else TypeKept(fs[..|fs| - 1], schema, env) + TypeKeptOne(fs[|fs| - 1].0, fs[|fs| - 1].1, schema, env)
  }

  function TypeMoved(fs: Fields, schema: Value): (r: Fields)
  {
    if fs == [] then [] else TypeMoved(fs[..|fs| - 1], schema) + TypeMovedOne(fs[|fs| - 1].0, fs[|fs| - 1].1, schema)
  }

  /** The object after `parseTypes` has visited the first `i` keys. */
  function TypeState(fs: Fields, i: nat, schema: Value, env: Env): Fields
    requires i <= |fs|
  {
    TypeKept(fs[..i], schema, env) + fs[i..] + TypeMoved(fs[..i], schema)
  }

  lemma {:induction false} TypeKeptHas(s: Fields, x: string, schema: Value, env: Env)
    ensures Has(TypeKept(s, schema, env), x) ==> Has(s, x)
    ensures Has(TypeMoved(s, schema), x) ==> x == "$or" && Has(s, "or")
  {
    if s != [] {
      var n := |s| - 1;
      var (k, v) := s[n];
      TypeKeptHas(s[..n], x, schema, env);
      HasConcat(TypeKept(s[..n], schema, env), TypeKeptOne(k, v, schema, env), x);
      HasConcat(TypeMoved(s[..n], schema), TypeMovedOne(k, v, schema), x);
      assert s == s[..n] + [s[n]];
      HasConcat(s[..n], [s[n]], x);
      HasConcat(s[..n], [s[n]], "or");
      if Has(TypeKeptOne(k, v, schema, env), x) {
        assert TypeKeptOne(k, v, schema, env)[0].0 == k && [s[n]][0].0 == k;
      }
      if Has(TypeMovedOne(k, v, schema), x) {
        assert TypeMovedOne(k, v, schema)[0].0 == "$or" && [s[n]][0].0 == "or";
      }
    }
  }

  /** A key other than `or` is parsed in place. */
  lemma TypeStepKept(a: Fields, k: string, v: Value, b: Fields, schema: Value, env: Env, H: nat)
    requires !Has(a, k) && !RenamesOr(k, v, schema) && Height(v) < H
    ensures TypeStep(a + [(k, v)] + b, k, schema, env, H) == a + [(k, TypeLeaf(k, v, schema, env))] + b
  {
    GetMid(a, k, v, b);
    match TypedValue(k, v, schema, env)
    case Some(x) => SetMid(a, k, v, b, x);
    case None =>
  }

  /** `or` leaves its place and its clauses are appended under `$or`. */
  lemma TypeStepRenamed(a: Fields, v: Value, b: Fields, schema: Value, env: Env, H: nat)
    requires RenamesOr("or", v, schema) && Height(v) < H
    requires !Has(a, "or") && !Has(b, "or") && !Has(a, "$or") && !Has(b, "$or")
    ensures TypeStep(a + [("or", v)] + b, "or", schema, env, H) == a + b + [("$or", v)]
  {
    GetMid(a, "or", v, b);
    SetPastMid(a, "or", v, b, "$or");
    HasConcat(b, [("$or", v)], "or");
    assert !Has([("$or", v)], "or") by { assert [("$or", v)][0].0 == "$or"; }
    DeleteMid(a, "or", v, b + [("$or", v)]);
  }

  lemma TypeStepMid(a: Fields, k: string, v: Value, rest: Fields, moved: Fields, schema: Value, env: Env, H: nat)
    requires !Has(a, k) && !Has(rest, k) && !Has(moved, k) && Height(v) < H
    requires RenamesOr(k, v, schema) ==> !Has(a, "$or") && !Has(rest, "$or") && !Has(moved, "$or")
    ensures TypeStep(a + [(k, v)] + (rest + moved), k, schema, env, H)
         == a + TypeKeptOne(k, v, schema, env) + rest + (moved + TypeMovedOne(k, v, schema))
  {
    HasConcat(rest, moved, k);
    if RenamesOr(k, v, schema) {
      HasConcat(rest, moved, "$or");
      TypeStepRenamed(a, v, rest + moved, schema, env, H);
      Regroup(a, [], rest, moved, [("$or", v)]);
    } else {
      TypeStepKept(a, k, v, rest + moved, schema, env, H);
      Regroup(a, [(k, TypeLeaf(k, v, schema, env))], rest, moved, []);
    }
  }

  lemma TypeStateAt(fs: Fields, i: nat, schema: Value, env: Env)
    requires i < |fs|
    ensures TypeState(fs, i, schema, env) == TypeKept(fs[..i], schema, env) + [fs[i]] + (fs[i + 1..] + TypeMoved(fs[..i], schema))
    ensures TypeState(fs, i + 1, schema, env)
         == TypeKept(fs[..i], schema, env) + TypeKeptOne(fs[i].0, fs[i].1, schema, env) + fs[i + 1..]
            + (TypeMoved(fs[..i], schema) + TypeMovedOne(fs[i].0, fs[i].1, schema))
  {
    assert fs[i..] == [fs[i]] + fs[i + 1..];
    assert fs[..i + 1][..i] == fs[..i];
  }

  /** Neither the key visited at `i` nor `$or` is held elsewhere in the state. */
  lemma TypeKeyApart(fs: Fields, i: nat, schema: Value, env: Env)
    requires DistinctKeys(fs) && !Has(fs, "$or") && i < |fs|
    ensures var k := fs[i].0;
      && !Has(TypeKept(fs[..i], schema, env), k) && !Has(fs[i + 1..], k) && !Has(TypeMoved(fs[..i], schema), k)
    ensures fs[i].0 == "or" ==>
      !Has(TypeKept(fs[..i], schema, env), "$or") && !Has(fs[i + 1..], "$or") && !Has(TypeMoved(fs[..i], schema), "$or")
  {
    var k := fs[i].0;
    NotBefore(fs, i);
    TypeKeptHas(fs[..i], k, schema, env);
    TypeKeptHas(fs[..i], "$or", schema, env);
  }

  lemma TypeVisitAt(fs: Fields, i: nat, schema: Value, env: Env)
    requires DistinctKeys(fs) && !Has(fs, "$or") && i < |fs|
    ensures TypeStep(TypeState(fs, i, schema, env), fs[i].0, schema, env, Height(Obj(fs))) == TypeState(fs, i + 1, schema, env)
  {
    TypeStateAt(fs, i, schema, env);
    TypeKeyApart(fs, i, schema, env);
    GetAt(fs, i);
    GetHeight(fs, fs[i].0);
    TypeStepMid(TypeKept(fs[..i], schema, env), fs[i].0, fs[i].1, fs[i + 1..], TypeMoved(fs[..i], schema), schema, env, Height(Obj(fs)));
  }

  lemma TypeStateEnd(fs: Fields, schema: Value, env: Env)
    ensures TypeState(fs, |fs|, schema, env) == TypeKept(fs, schema, env) + TypeMoved(fs, schema)
  {
    assert fs[..|fs|] == fs && fs[|fs|..] == [];
  }

  lemma {:induction false} TypeWalkRenamed(fs: Fields, i: nat, schema: Value, env: Env)
    requires DistinctKeys(fs) && !Has(fs, "$or") && i <= |fs|
    ensures TypeWalk(TypeState(fs, i, schema, env), Keys(fs), i, schema, env, Height(Obj(fs)))
         == TypeKept(fs, schema, env) + TypeMoved(fs, schema)
    decreases |fs| - i
  {
    if i == |fs| {
      TypeStateEnd(fs, schema, env);
    } else {
      assert Keys(fs)[i] == fs[i].0;
      TypeVisitAt(fs, i, schema, env);
      TypeWalkRenamed(fs, i + 1, schema, env);
    }
  }

  /** An object that may hold `or` next to other keys: every other key is
      parsed where it stands, and a renamed `or` leaves its place while `$or`,
      holding its clauses unparsed, is appended at the end. */
  lemma ParseTypesMoves(fs: Fields, schema: Value, env: Env)
    requires DistinctKeys(fs) && !Has(fs, "$or")
    ensures TypesParsed(Obj(fs), schema, env) == Obj(TypeKept(fs, schema, env) + TypeMoved(fs, schema))
  {
    DistinctKeysOwnKeys(fs);
    assert fs[..0] == [] && fs[0..] == fs;
    assert TypeState(fs, 0, schema, env) == fs;
    TypeWalkRenamed(fs, 0, schema, env);
  }

  lemma SnocSplit<T>(s: seq<T>, t: seq<T>)
    requires t != []
    ensures (s + t)[..|s + t| - 1] == s + t[..|t| - 1] && (s + t)[|s + t| - 1] == t[|t| - 1]
  {
  }

  lemma Assoc<T>(x: seq<T>, y: seq<T>, z: seq<T>)
    ensures x + y + z == x + (y + z)
  {
  }

  lemma {:induction false} TypeKeptConcat(s: Fields, t: Fields, schema: Value, env: Env)
    ensures TypeKept(s + t, schema, env) == TypeKept(s, schema, env) + TypeKept(t, schema, env)
    decreases |t|
  {
    if t == [] {
      assert s + t == s;
    } else {
      var n := |t| - 1;
      SnocSplit(s, t);
      TypeKeptConcat(s, t[..n], schema, env);
      Assoc(TypeKept(s, schema, env), TypeKept(t[..n], schema, env), TypeKeptOne(t[n].0, t[n].1, schema, env));
    }
  }

  lemma {:induction false} TypeMovedConcat(s: Fields, t: Fields, schema: Value)
    ensures TypeMoved(s + t, schema) == TypeMoved(s, schema) + TypeMoved(t, schema)
    decreases |t|
  {
    if t == [] {
      assert s + t == s;
    } else {
      var n := |t| - 1;
      SnocSplit(s, t);
      TypeMovedConcat(s, t[..n], schema);
      Assoc(TypeMoved(s, schema), TypeMoved(t[..n], schema), TypeMovedOne(t[n].0, t[n].1, schema));
    }
  }

  lemma TypeLeavesSnoc(s: Fields, schema: Value, env: Env)
    requires s != []
    ensures var n := |s| - 1;
      TypeLeaves(s, schema, env) == TypeLeaves(s[..n], schema, env) + [(s[n].0, TypeLeaf(s[n].0, s[n].1, schema, env))]
  {
  }

  lemma HasPrefix(s: Fields, k: string)
    requires s != [] && !Has(s, k)
    ensures !Has(s[..|s| - 1], k) && s[|s| - 1].0 != k
  {
  }

  /** Without an `or` key nothing moves and every value is parsed in place. */
  lemma {:induction false} TypeKeptPlain(s: Fields, schema: Value, env: Env)
    requires !Has(s, "or")
    ensures TypeKept(s, schema, env) == TypeLeaves(s, schema, env)
    ensures TypeMoved(s, schema) == []
  {
    if s != [] {
      var n := |s| - 1;
      HasPrefix(s, "or");
      TypeKeptPlain(s[..n], schema, env);
      TypeLeavesSnoc(s, schema, env);
    }
  }

  lemma TypeKeptRenamed(v: Value, schema: Value, env: Env)
    requires RenamesOr("or", v, schema)
    ensures TypeKept([("or", v)], schema, env) == [] && TypeMoved([("or", v)], schema) == [("$or", v)]
  {
    assert [("or", v)][..0] == [];
  }

  /** The parsed parts of `a`, a renamed `or`, and `b`. */
  lemma TypeKeptAround(a: Fields, v: Value, b: Fields, schema: Value, env: Env)
    requires !Has(a, "or") && !Has(b, "or") && RenamesOr("or", v, schema)
    ensures TypeKept(a + [("or", v)] + b, schema, env) == TypeLeaves(a, schema, env) + TypeLeaves(b, schema, env)
    ensures TypeMoved(a + [("or", v)] + b, schema) == [("$or", v)]
  {
    var one := [("or", v)];
    TypeKeptConcat(a, one, schema, env);
    TypeKeptConcat(a + one, b, schema, env);
    TypeMovedConcat(a, one, schema);
    TypeMovedConcat(a + one, b, schema);
    TypeKeptRenamed(v, schema, env);
    TypeKeptPlain(a, schema, env);
    TypeKeptPlain(b, schema, env);
    assert TypeKept(a + one, schema, env) == TypeLeaves(a, schema, env);
    assert TypeMoved(a + one, schema) == [("$or", v)];
  }

  /** `{...a, or: clauses, ...b}` becomes `{...a', ...b', $or: clauses}`: the
      other keys keep their order and are parsed in place, and `$or` comes
      last. */
  lemma ParseTypesRenamed(a: Fields, v: Value, b: Fields, schema: Value, env: Env)
    requires DistinctKeys(a + [("or", v)] + b) && !Has(a + [("or", v)] + b, "$or")
    requires RenamesOr("or", v, schema)
    ensures TypesParsed(Obj(a + [("or", v)] + b), schema, env)
         == Obj(TypeLeaves(a, schema, env) + TypeLeaves(b, schema, env) + [("$or", v)])
  {
    var fs := a + [("or", v)] + b;
    ParseTypesMoves(fs, schema, env);
    NotBefore(fs, |a|);
    assert fs[..|a|] == a && fs[|a| + 1..] == b && fs[|a|].0 == "or";
    TypeKeptAround(a, v, b, schema, env);
  }
}
