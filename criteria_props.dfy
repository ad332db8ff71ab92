/** What the criteria translator of lib/criteria.js does to the clauses a
    Waterline query is made of, proved against the step-by-step model. */
module CriteriaProps {
  import opened Wrappers
  import opened Json
  import Utils
  import opened Criteria

  /** The value a key's operand holds after the depth-first descent of
      `recursiveParse2`: nested objects, arrays and RegExps are rewritten,
      dates and primitives are kept. */
  function Child(v: Value, env: Env): Value
  {
    if IsObject(v) && !v.Date? then Normalized(v, env) else v
  }

  /** The nedb operator each Waterline comparison alias stands for. */
  function ComparisonOperator(k: string): Option<string>
  {
    if k == "lessThan" || k == "<" then Some("$lt")
    else if k == "lessThanOrEqual" || k == "<=" then Some("$lte")
    else if k == "greaterThan" || k == ">" then Some("$gt")
    else if k == "greaterThanOrEqual" || k == ">=" then Some("$gte")
    else None
  }

  /** A key `recursiveParse2` gives no meaning of its own. */
  predicate Plain(k: string)
  {
    && k !in {"sort", "contains", "like", "startsWith", "endsWith"}
    && ComparisonOperator(k).None?
    && !IsNotKey(Name(k))
  }

  /** A one-key object is rewritten by exactly one visit. */
  lemma SingleWalk(k: string, v: Value, env: Env)
    ensures var obj := Obj([(k, v)]);
      Normalized(obj, env) == Visit(obj, Name(k), Height(obj), env)
  {
    var obj := Obj([(k, v)]);
    assert OwnKeys([(k, v)]) == [k] by {
      assert [(k, v)][1..] == [];
    }
    var keys := EnumKeys(obj);
    assert keys == [Name(k)];
    var H := Height(obj);
    assert Normalized(obj, env) == Walk(obj, keys, 0, H, env);
    assert Walk(obj, keys, 0, H, env) == Walk(Visit(obj, Name(k), H, env), keys, 1, H, env);
  }

  /** That visit first replaces the operand by its rewritten form. */
  lemma SingleDescend(k: string, v: Value, env: Env)
    ensures var obj := Obj([(k, v)]);
      Descend(obj, Name(k), Height(obj), env) == Obj([(k, Child(v, env))])
  {
    var obj := Obj([(k, v)]);
    assert Member(obj, Name(k)) == v;
  }

  /** A one-key object is rewritten once, after its operand. */
  lemma SingleKey(k: string, v: Value, env: Env)
    ensures Normalized(Obj([(k, v)]), env) == Rewrite(Obj([(k, Child(v, env))]), Name(k), env)
  {
    SingleWalk(k, v, env);
    SingleDescend(k, v, env);
  }

  /** Keys outside `sort`, `contains`, `like`, `startsWith` and `endsWith`
      pass the operator branches untouched. */
  lemma OperatorSkips(c: Value, k: string, env: Env)
    requires k !in {"sort", "contains", "like", "startsWith", "endsWith"}
    ensures RewriteOperator(c, Name(k), env) == c
  {
    var key := Name(k);
    assert SortStep(c, key) == c;
    assert ContainsStep(c, key, env) == c;
    assert LikeStep(c, key) == c;
    assert StartsWithStep(c, key, env) == c;
    assert EndsWithStep(c, key, env) == c;
  }

  /** Keys that are neither comparison aliases nor negations pass the
      comparison branches untouched. */
  lemma ComparisonSkips(c: Value, k: string)
    requires ComparisonOperator(k).None? && !IsNotKey(Name(k))
    ensures RewriteComparison(c, Name(k)) == c
  {
    var key := Name(k);
    assert MoveIf(c, key, "lessThan", "<", "$lt") == c;
    assert MoveIf(c, key, "lessThanOrEqual", "<=", "$lte") == c;
    assert MoveIf(c, key, "greaterThan", ">", "$gt") == c;
    assert MoveIf(c, key, "greaterThanOrEqual", ">=", "$gte") == c;
  }

  /** The string branch only touches a string operand. */
  lemma StringSkips(c: Value, k: string)
    requires !Member(c, Name(k)).Str?
    ensures RewriteString(c, Name(k)) == c
  {
  }

  /** A rewrite that turned the object into a pattern ends there. */
  lemma PatternStays(p: Value, k: string)
    requires p.Pattern? && !IsNotKey(Name(k))
    ensures RewriteString(RewriteComparison(p, Name(k)), Name(k)) == p
  {
    var key := Name(k);
    PatternMoves(p, key, "lessThan", "<", "$lt");
    PatternMoves(p, key, "lessThanOrEqual", "<=", "$lte");
    PatternMoves(p, key, "greaterThan", ">", "$gt");
    PatternMoves(p, key, "greaterThanOrEqual", ">=", "$gte");
    assert NotStep(p, key) == p;
    StringSkips(p, k);
  }

  /** A pattern has no properties to move. */
  lemma PatternMoves(p: Value, key: Key, alias: string, symbol: string, op: string)
    requires p.Pattern?
    ensures MoveIf(p, key, alias, symbol, op) == p
  {
  }

  lemma ComparisonNotOperator(k: string)
    requires ComparisonOperator(k).Some?
    ensures k !in {"sort", "contains", "like", "startsWith", "endsWith"}
  {
  }

  lemma OperatorRenames(k: string)
    requires ComparisonOperator(k).Some?
    ensures ComparisonOperator(k).value != k
  {
    assert ComparisonOperator(k).value[0] == '$';
    assert k[0] != '$';
  }

  lemma NotNegation(k: string)
    requires ComparisonOperator(k).Some?
    ensures !IsNotKey(Name(k))
  {
    assert |LowerAscii(k)| != 3;
  }

  lemma ComparisonChain(c: Value, k: string)
    ensures var key := Name(k);
      RewriteComparison(c, key)
      == NotStep(MoveIf(MoveIf(MoveIf(MoveIf(c, key, "lessThan", "<", "$lt"), key, "lessThanOrEqual", "<=", "$lte"),
                               key, "greaterThan", ">", "$gt"), key, "greaterThanOrEqual", ">=", "$gte"), key)
  {
  }

  /** The text of an escaped string operand is the escaped string. */
  lemma EscapedText(s: string, env: Env)
    ensures Child(Str(s), env) == Str(s)
    ensures ToStr(Utils.CaseInsensitive(Str(s)), env.text) == Utils.Escape(s)
  {
  }

  lemma InfixText(e: string)
    ensures "^" + (".*" + e + ".*") + "$" == "^.*" + e + ".*$"
  {
    assert "^" + (".*" + e + ".*") + "$" == "^" + ".*" + e + ".*" + "$";
    assert "^" + ".*" == "^.*";
    assert ".*" + "$" == ".*$";
  }

  lemma SuffixText(e: string)
    ensures "^" + (".*" + e) + "$" == "^.*" + e + "$"
  {
    assert "^" + (".*" + e) + "$" == "^" + ".*" + e + "$";
    assert "^" + ".*" == "^.*";
  }

  lemma MoveIfMiss(c: Value, key: Key, alias: string, symbol: string, op: string)
    requires key != Name(alias) && key != Name(symbol)
    ensures MoveIf(c, key, alias, symbol, op) == c
  {
  }

  lemma MoveIfHit(c: Value, key: Key, alias: string, symbol: string, op: string)
    requires key == Name(alias) || key == Name(symbol)
    ensures MoveIf(c, key, alias, symbol, op) == MoveTo(c, key, op)
  {
  }

  /** A comparison alias moves its operand to the nedb operator. */
  lemma ComparisonMoves(c: Value, k: string)
    requires ComparisonOperator(k).Some?
    ensures RewriteComparison(c, Name(k)) == MoveTo(c, Name(k), ComparisonOperator(k).value)
  {
    NotNegation(k);
    ComparisonChain(c, k);
    var key := Name(k);
    var m := MoveTo(c, key, ComparisonOperator(k).value);
    assert NotStep(m, key) == m;
    if k == "lessThan" || k == "<" {
      MoveIfHit(c, key, "lessThan", "<", "$lt");
      MoveIfMiss(m, key, "lessThanOrEqual", "<=", "$lte");
      MoveIfMiss(m, key, "greaterThan", ">", "$gt");
      MoveIfMiss(m, key, "greaterThanOrEqual", ">=", "$gte");
    } else if k == "lessThanOrEqual" || k == "<=" {
      MoveIfMiss(c, key, "lessThan", "<", "$lt");
      MoveIfHit(c, key, "lessThanOrEqual", "<=", "$lte");
      MoveIfMiss(m, key, "greaterThan", ">", "$gt");
      MoveIfMiss(m, key, "greaterThanOrEqual", ">=", "$gte");
    } else if k == "greaterThan" || k == ">" {
      MoveIfMiss(c, key, "lessThan", "<", "$lt");
      MoveIfMiss(c, key, "lessThanOrEqual", "<=", "$lte");
      MoveIfHit(c, key, "greaterThan", ">", "$gt");
      MoveIfMiss(m, key, "greaterThanOrEqual", ">=", "$gte");
    } else {
      MoveIfMiss(c, key, "lessThan", "<", "$lt");
      MoveIfMiss(c, key, "lessThanOrEqual", "<=", "$lte");
      MoveIfMiss(c, key, "greaterThan", ">", "$gt");
      MoveIfHit(c, key, "greaterThanOrEqual", ">=", "$gte");
    }
  }

  lemma MoveSingle(k: string, c: Value, op: string)
    requires k != op
    ensures MoveTo(Obj([(k, c)]), Name(k), op) == Obj([(op, c)])
  {
    var one := [(k, c)];
    assert one[1..] == [];
    assert Set(one, op, c) == [(k, c)] + Set([], op, c);
    var two := [(k, c), (op, c)];
    assert two[1..] == [(op, c)];
    assert two[1..][1..] == [];
    assert Delete(two, k) == Delete(two[1..], k);
    assert Delete(two[1..], k) == [(op, c)] + Delete([], k);
  }

  /** `{lessThan: v}` and its aliases become `{$lt: v}` and so on. The operand
      is not turned into a pattern even when it is a string. */
  lemma NormalizeComparison(k: string, v: Value, env: Env)
    requires ComparisonOperator(k).Some?
    ensures Normalized(Obj([(k, v)]), env) == Obj([(ComparisonOperator(k).value, Child(v, env))])
  {
    var c := Child(v, env);
    var op := ComparisonOperator(k).value;
    var c1 := Obj([(k, c)]);
    ComparisonNotOperator(k);
    OperatorSkips(c1, k, env);
    ComparisonMoves(c1, k);
    OperatorRenames(k);
    MoveSingle(k, c, op);
    GetSingle(op, c, k);
    StringSkips(Obj([(op, c)]), k);
    SingleKey(k, v, env);
  }

  /** `{not: v}` (in any letter case) and `{'!': v}` become `{$ne: v}`. */
  lemma NormalizeNot(k: string, v: Value, env: Env)
    requires IsNotKey(Name(k))
    ensures Normalized(Obj([(k, v)]), env) == Obj([("$ne", Child(v, env))])
  {
    var c := Child(v, env);
    var c1 := Obj([(k, c)]);
    NegationNotOperator(k);
    OperatorSkips(c1, k, env);
    var key := Name(k);
    assert MoveIf(c1, key, "lessThan", "<", "$lt") == c1;
    assert MoveIf(c1, key, "lessThanOrEqual", "<=", "$lte") == c1;
    assert MoveIf(c1, key, "greaterThan", ">", "$gt") == c1;
    assert MoveIf(c1, key, "greaterThanOrEqual", ">=", "$gte") == c1;
    assert RewriteComparison(c1, key) == Obj([("$ne", c)]);
    StringSkips(Obj([("$ne", c)]), k);
    SingleKey(k, v, env);
  }

  lemma NegationNotOperator(k: string)
    requires IsNotKey(Name(k))
    ensures k !in {"sort", "contains", "like", "startsWith", "endsWith", "$ne"}
    ensures ComparisonOperator(k).None?
  {
    assert LowerAscii("$ne") != "not" by {
      assert LowerAscii("$ne")[0] == '$';
    }
  }

  /** `{sort: v}`: 0 and -1 mean descending (-1), anything else ascending (1). */
  lemma NormalizeSort(v: Value, env: Env)
    ensures Normalized(Obj([("sort", v)]), env) == Obj([("sort", SortDirection(Child(v, env)))])
  {
    var c := Child(v, env);
    var c1 := Obj([("sort", c)]);
    var d := Obj([("sort", SortDirection(c))]);
    assert SortStep(c1, Name("sort")) == d;
    assert RewriteOperator(c1, Name("sort"), env) == d;
    ComparisonSkips(d, "sort");
    StringSkips(d, "sort");
    SingleKey("sort", v, env);
  }

  /** `{contains: v}` becomes a case-insensitive pattern matching any string
      holding the operand's text. */
  lemma NormalizeContains(v: Value, env: Env)
    ensures Normalized(Obj([("contains", v)]), env)
         == Pattern("^" + (".*" + ToStr(Utils.CaseInsensitive(Child(v, env)), env.text) + ".*") + "$", "ig")
  {
    var c := Child(v, env);
    var c1 := Obj([("contains", c)]);
    var p := Pattern("^" + (".*" + ToStr(Utils.CaseInsensitive(c), env.text) + ".*") + "$", "ig");
    var key := Name("contains");
    assert SortStep(c1, key) == c1;
    assert ContainsStep(c1, key, env) == p;
    assert RewriteOperator(c1, key, env) == p;
    PatternStays(p, "contains");
    SingleKey("contains", v, env);
  }

  /** For a string operand the text is escaped, so its characters match literally. */
  lemma ContainsString(s: string, env: Env)
    ensures Normalized(Obj([("contains", Str(s))]), env) == Pattern("^.*" + Utils.Escape(s) + ".*$", "ig")
  {
    EscapedText(s, env);
    NormalizeContains(Str(s), env);
    InfixText(Utils.Escape(s));
  }

  /** `{startsWith: v}` becomes a case-insensitive prefix pattern. */
  lemma NormalizeStartsWith(v: Value, env: Env)
    ensures Normalized(Obj([("startsWith", v)]), env)
         == Pattern("^" + (ToStr(Utils.CaseInsensitive(Child(v, env)), env.text) + ".*") + "$", "i")
  {
    var c := Child(v, env);
    var c1 := Obj([("startsWith", c)]);
    var p := Pattern("^" + (ToStr(Utils.CaseInsensitive(c), env.text) + ".*") + "$", "i");
    var key := Name("startsWith");
    assert SortStep(c1, key) == c1;
    assert ContainsStep(c1, key, env) == c1;
    assert LikeStep(c1, key) == c1;
    var escaped := Assign(c1, key, Utils.CaseInsensitive(c));
    assert escaped == Obj([("startsWith", Utils.CaseInsensitive(c))]);
    assert Member(escaped, key) == Utils.CaseInsensitive(c);
    assert StartsWithStep(c1, key, env) == p;
    assert RewriteOperator(c1, key, env) == p;
    PatternStays(p, "startsWith");
    SingleKey("startsWith", v, env);
  }

  lemma StartsWithString(s: string, env: Env)
    ensures Normalized(Obj([("startsWith", Str(s))]), env) == Pattern("^" + Utils.Escape(s) + ".*$", "i")
  {
    EscapedText(s, env);
    NormalizeStartsWith(Str(s), env);
    assert "^" + (Utils.Escape(s) + ".*") + "$" == "^" + Utils.Escape(s) + ".*$";
  }

  /** `{endsWith: v}` becomes a case-insensitive suffix pattern. */
  lemma NormalizeEndsWith(v: Value, env: Env)
    ensures Normalized(Obj([("endsWith", v)]), env)
         == Pattern("^" + (".*" + ToStr(Utils.CaseInsensitive(Child(v, env)), env.text)) + "$", "i")
  {
    var c := Child(v, env);
    var c1 := Obj([("endsWith", c)]);
    var p := Pattern("^" + (".*" + ToStr(Utils.CaseInsensitive(c), env.text)) + "$", "i");
    var key := Name("endsWith");
    assert SortStep(c1, key) == c1;
    assert ContainsStep(c1, key, env) == c1;
    assert LikeStep(c1, key) == c1;
    assert StartsWithStep(c1, key, env) == c1;
    var escaped := Assign(c1, key, Utils.CaseInsensitive(c));
    assert escaped == Obj([("endsWith", Utils.CaseInsensitive(c))]);
    assert Member(escaped, key) == Utils.CaseInsensitive(c);
    assert EndsWithStep(c1, key, env) == p;
    PatternStays(p, "endsWith");
    SingleKey("endsWith", v, env);
  }

  lemma EndsWithString(s: string, env: Env)
    ensures Normalized(Obj([("endsWith", Str(s))]), env) == Pattern("^.*" + Utils.Escape(s) + "$", "i")
  {
    EscapedText(s, env);
    NormalizeEndsWith(Str(s), env);
    SuffixText(Utils.Escape(s));
  }

  /** `{like: v}` with a primitive operand is replaced by the operand. */
  lemma NormalizeLike(v: Value, env: Env)
    requires !IsObject(v)
    ensures Normalized(Obj([("like", v)]), env) == v
  {
    var c1 := Obj([("like", v)]);
    var key := Name("like");
    assert Child(v, env) == v;
    assert SortStep(c1, key) == c1;
    assert ContainsStep(c1, key, env) == c1;
    assert LikeStep(c1, key) == v;
    assert StartsWithStep(v, key, env) == v;
    assert EndsWithStep(v, key, env) == v;
    ComparisonSkips(v, "like");
    StringSkips(v, "like");
    SingleKey("like", v, env);
  }

  /** `{k: {like: s}}` on an ordinary key: an exact, case-insensitive match in
      which `%` stands for any run of characters. */
  lemma LikeField(k: string, s: string, env: Env)
    requires Plain(k) && k != "_id" && k != "id"
    ensures Normalized(Obj([(k, Obj([("like", Str(s))]))]), env) == Obj([(k, StringPattern(s))])
  {
    NormalizeLike(Str(s), env);
    var c1 := Obj([(k, Str(s))]);
    OperatorSkips(c1, k, env);
    ComparisonSkips(c1, k);
    assert [(k, Str(s))][1..] == [];
    assert RewriteString(c1, Name(k)) == Obj([(k, StringPattern(s))]);
    SingleKey(k, Obj([("like", Str(s))]), env);
  }

  /* ---------- objects of ordinary keys ---------- */

  /** What an ordinary key's value becomes: its rewritten form, made a
      pattern when that is a string and the key is not an identifier. */
  function Leaf(k: string, v: Value, env: Env): (r: Value)
    ensures Height(r) <= Height(v)
  {
    Patterned(k, Child(v, env))
  }

  /** The string branch on an operand already rewritten. */
  function Patterned(k: string, c: Value): (r: Value)
    ensures Height(r) <= Height(c)
  {
    if k != "_id" && k != "id" && c.Str? then StringPattern(c.s) else c
  }

  function Leaves(fs: Fields, env: Env): (r: Fields)
    ensures |r| == |fs|
    ensures forall i :: 0 <= i < |fs| ==> r[i] == (fs[i].0, Leaf(fs[i].0, fs[i].1, env))
  {
    seq(|fs|, i requires 0 <= i < |fs| => (fs[i].0, Leaf(fs[i].0, fs[i].1, env)))
  }

  /** The object after the first `i` keys have been visited. */
  function Mixed(fs: Fields, i: nat, env: Env): (r: Fields)
    requires i <= |fs|
    ensures |r| == |fs|
    ensures forall j :: 0 <= j < |fs| ==> r[j].0 == fs[j].0
    ensures FieldsHeight(r) <= FieldsHeight(fs)
  {
    var r := Leaves(fs[..i], env) + fs[i..];
    MixedPointwise(fs, i, env, r);
    FieldsHeightPointwise(fs, r);
    r
  }

  /** Position by position, a half-visited object keeps the keys and grows no taller. */
  lemma MixedPointwise(fs: Fields, i: nat, env: Env, r: Fields)
    requires i <= |fs| && r == Leaves(fs[..i], env) + fs[i..]
    ensures |r| == |fs|
    ensures forall j :: 0 <= j < |fs| ==> r[j].0 == fs[j].0 && Height(r[j].1) <= Height(fs[j].1)
  {
    var front := Leaves(fs[..i], env);
    forall j | 0 <= j < |fs|
      ensures r[j].0 == fs[j].0 && Height(r[j].1) <= Height(fs[j].1)
    {
      if j < i {
        assert r[j] == front[j] == (fs[j].0, Leaf(fs[j].0, fs[j].1, env));
      } else {
        assert r[j] == fs[i..][j - i] == fs[j];
      }
    }
  }

  predicate AllPlain(fs: Fields)
  {
    forall i :: 0 <= i < |fs| ==> Plain(fs[i].0)
  }

  /** The descent into the `i`-th field of an object with distinct keys
      replaces that field's value by its rewritten form. */
  lemma DescendAt(m: Fields, i: nat, H: nat, env: Env)
    requires DistinctKeys(m) && i < |m| && Height(Obj(m)) <= H && 1 <= H
    ensures Descend(Obj(m), Name(m[i].0), H, env) == Obj(m[i := (m[i].0, Child(m[i].1, env))])
  {
    GetAt(m, i);
    SetAt(m, i, Child(m[i].1, env));
    assert m[i := (m[i].0, m[i].1)] == m;
  }

  /** Under an ordinary key only a string operand changes: it becomes a
      pattern unless the key is an identifier. */
  lemma RewriteAt(m: Fields, i: nat, env: Env)
    requires DistinctKeys(m) && i < |m| && Plain(m[i].0)
    ensures Rewrite(Obj(m), Name(m[i].0), env) == Obj(m[i := (m[i].0, Patterned(m[i].0, m[i].1))])
  {
    var k := m[i].0;
    OperatorSkips(Obj(m), k, env);
    ComparisonSkips(Obj(m), k);
    GetAt(m, i);
    SetAt(m, i, Patterned(k, m[i].1));
    assert m[i := (m[i].0, m[i].1)] == m;
  }

  lemma UpdateTwice<T>(s: seq<T>, i: nat, a: T, b: T)
    requires i < |s|
    ensures s[i := a][i := b] == s[i := b]
  {
  }

  lemma MixedStep(fs: Fields, i: nat, env: Env)
    requires i < |fs|
    ensures Mixed(fs, i, env)[i := (fs[i].0, Leaf(fs[i].0, fs[i].1, env))] == Mixed(fs, i + 1, env)
  {
  }

  /** Visiting the `i`-th ordinary key rewrites that key's value and nothing else. */
  lemma PlainVisit(fs: Fields, i: nat, env: Env)
    requires DistinctKeys(fs) && AllPlain(fs) && i < |fs|
    ensures Visit(Obj(Mixed(fs, i, env)), Name(fs[i].0), Height(Obj(fs)), env) == Obj(Mixed(fs, i + 1, env))
  {
    var H := Height(Obj(fs));
    var (k, v) := fs[i];
    var m := Mixed(fs, i, env);
    KeysDistinct(fs, m);
    assert m[i] == fs[i];
    DescendAt(m, i, H, env);
    var m1 := m[i := (k, Child(v, env))];
    KeysDistinct(fs, m1);
    RewriteAt(m1, i, env);
    assert Visit(Obj(m), Name(k), H, env) == Rewrite(Obj(m1), Name(k), env);
    UpdateTwice(m, i, (k, Child(v, env)), (k, Leaf(k, v, env)));
    MixedStep(fs, i, env);
  }

  lemma {:induction false} PlainWalk(fs: Fields, i: nat, env: Env)
    requires DistinctKeys(fs) && AllPlain(fs) && i <= |fs|
    ensures Walk(Obj(Mixed(fs, i, env)), NameKeys(Keys(fs)), i, Height(Obj(fs)), env) == Obj(Leaves(fs, env))
    decreases |fs| - i
  {
    var keys := NameKeys(Keys(fs));
    if i == |fs| {
      assert Mixed(fs, i, env) == Leaves(fs, env);
    } else {
      PlainVisit(fs, i, env);
      PlainWalk(fs, i + 1, env);
    }
  }

  /** An object none of whose keys is an operator keeps its keys in order;
      each value is rewritten on its own, and strings under every key but
      `_id` and `id` become case-insensitive whole-string patterns. */
  lemma PlainObject(fs: Fields, env: Env)
    requires DistinctKeys(fs) && AllPlain(fs)
    ensures Normalized(Obj(fs), env) == Obj(Leaves(fs, env))
  {
    DistinctKeysOwnKeys(fs);
    assert EnumKeys(Obj(fs)) == NameKeys(Keys(fs));
    assert Mixed(fs, 0, env) == fs;
    PlainWalk(fs, 0, env);
  }

  /* ---------- parseTypes ---------- */

  function TypeLeaves(fs: Fields, schema: Value, env: Env): (r: Fields)
    ensures |r| == |fs|
  {
    seq(|fs|, i requires 0 <= i < |fs| => (fs[i].0, TypeLeaf(fs[i].0, fs[i].1, schema, env)))
  }

  /** The object after `parseTypes` has visited its first `i` keys. */
  function TypeMixed(fs: Fields, i: nat, schema: Value, env: Env): (r: Fields)
    requires i <= |fs|
    ensures |r| == |fs|
    ensures forall j :: 0 <= j < |fs| ==> r[j].0 == fs[j].0
    ensures forall j :: i <= j < |fs| ==> r[j] == fs[j]
  {
    if i == 0 then fs
    else TypeMixed(fs, i - 1, schema, env)[i - 1 := (fs[i - 1].0, TypeLeaf(fs[i - 1].0, fs[i - 1].1, schema, env))]
  }

  /** One `parseTypes` step on a key other than `or` replaces that key's
      value by its parsed form, in place. */
  lemma TypeStepAt(m: Fields, i: nat, schema: Value, env: Env, H: nat)
    requires DistinctKeys(m) && i < |m| && m[i].0 != "or" && Height(m[i].1) < H
    ensures Get(m, m[i].0) == m[i].1
    ensures TypeStep(m, m[i].0, schema, env, H) == m[i := (m[i].0, TypeLeaf(m[i].0, m[i].1, schema, env))]
  {
    var (k, v) := m[i];
    GetAt(m, i);
    var x := TypeLeaf(k, v, schema, env);
    SetAt(m, i, x);
    assert m[i := (k, v)] == m;
  }

  lemma TypeMixedStep(fs: Fields, i: nat, schema: Value, env: Env)
    requires i < |fs|
    ensures TypeMixed(fs, i, schema, env)[i := (fs[i].0, TypeLeaf(fs[i].0, fs[i].1, schema, env))]
         == TypeMixed(fs, i + 1, schema, env)
  {
  }

  lemma TypeVisit(fs: Fields, i: nat, schema: Value, env: Env)
    requires DistinctKeys(fs) && !Has(fs, "or") && i < |fs|
    ensures var m := TypeMixed(fs, i, schema, env);
      Height(Get(m, fs[i].0)) < Height(Obj(fs)) &&
      TypeStep(m, fs[i].0, schema, env, Height(Obj(fs))) == TypeMixed(fs, i + 1, schema, env)
  {
    var (k, v) := fs[i];
    assert k != "or";
    var m := TypeMixed(fs, i, schema, env);
    KeysDistinct(fs, m);
    GetAt(fs, i);
    GetHeight(fs, k);
    assert m[i] == fs[i];
    GetAt(m, i);
    TypeStepAt(m, i, schema, env, Height(Obj(fs)));
    TypeMixedStep(fs, i, schema, env);
  }

  /** One key of the `_.each` loop of `parseTypes`, in terms of the
      partially parsed object. */
  lemma TypeWalkStep(fs: Fields, i: nat, schema: Value, env: Env)
    requires DistinctKeys(fs) && !Has(fs, "or") && i < |fs|
    ensures TypeWalk(TypeMixed(fs, i, schema, env), Keys(fs), i, schema, env, Height(Obj(fs)))
         == TypeWalk(TypeMixed(fs, i + 1, schema, env), Keys(fs), i + 1, schema, env, Height(Obj(fs)))
  {
    assert Keys(fs)[i] == fs[i].0;
    TypeVisit(fs, i, schema, env);
  }

  lemma {:induction false} TypeMixedPrefix(fs: Fields, i: nat, schema: Value, env: Env)
    requires i <= |fs|
    ensures forall j :: 0 <= j < i ==> TypeMixed(fs, i, schema, env)[j] == TypeLeaves(fs, schema, env)[j]
  {
    if i > 0 {
      TypeMixedPrefix(fs, i - 1, schema, env);
    }
  }

  lemma TypeMixedAll(fs: Fields, schema: Value, env: Env)
    ensures TypeMixed(fs, |fs|, schema, env) == TypeLeaves(fs, schema, env)
  {
    TypeMixedPrefix(fs, |fs|, schema, env);
  }

  lemma TypeWalkDone(fs: Fields, schema: Value, env: Env)
    ensures TypeWalk(TypeMixed(fs, |fs|, schema, env), Keys(fs), |fs|, schema, env, Height(Obj(fs)))
         == TypeLeaves(fs, schema, env)
  {
    TypeMixedAll(fs, schema, env);
  }

  lemma {:induction false} TypeWalkPlain(fs: Fields, i: nat, schema: Value, env: Env)
    requires DistinctKeys(fs) && !Has(fs, "or") && i <= |fs|
    ensures TypeWalk(TypeMixed(fs, i, schema, env), Keys(fs), i, schema, env, Height(Obj(fs)))
         == TypeLeaves(fs, schema, env)
    decreases |fs| - i
  {
    if i == |fs| {
      TypeWalkDone(fs, schema, env);
    } else {
      TypeWalkStep(fs, i, schema, env);
      TypeWalkPlain(fs, i + 1, schema, env);
    }
  }

  /** Without an `or` key, `parseTypes` keeps the keys in order and rewrites
      each value on its own: dates for datetime attributes, the literal
      strings "false", "true" and "null", lists into `$in`, and nested objects
      against the nested schema. */
  lemma ParseTypesShape(fs: Fields, schema: Value, env: Env)
    requires DistinctKeys(fs) && !Has(fs, "or")
    ensures TypesParsed(Obj(fs), schema, env) == Obj(TypeLeaves(fs, schema, env))
  {
    DistinctKeysOwnKeys(fs);
    assert TypeMixed(fs, 0, schema, env) == fs;
    TypeWalkPlain(fs, 0, schema, env);
  }

  /** An array is rewritten element by element, each under its position:
      the literal strings are coerced, lists become `$in` clauses, other
      strings and numbers stay, and positions the schema marks `datetime`
      hold a date when the element parses as one. */
  lemma ParseTypesArray(items: seq<Value>, schema: Value, env: Env)
    ensures var r := TypesParsed(Arr(items), schema, env);
      && r.Arr? && |r.items| == |items|
      && forall i :: 0 <= i < |items| ==> ItemParsed(items[i], r.items[i], NatText(i), schema, env)
  {
    var r := TypesParsed(Arr(items), schema, env);
    assert r.items == TypeItems(items, schema, env, Height(Arr(items)));
    forall i | 0 <= i < |items|
      ensures ItemParsed(items[i], r.items[i], NatText(i), schema, env)
    {
      assert r.items[i] == TypeLeaf(NatText(i), items[i], schema, env);
      LeafParsed(items[i], NatText(i), schema, env);
    }
  }

  lemma LeafParsed(v: Value, k: string, schema: Value, env: Env)
    ensures ItemParsed(v, TypeLeaf(k, v, schema, env), k, schema, env)
  {
    if IsDatetime(schema, k) {
    } else if v.Arr? {
      assert TypedValue(k, v, schema, env) == Some(Obj([("$in", v)]));
    } else if v.Obj? {
      assert TypedValue(k, v, schema, env) == Some(TypesParsed(v, NestedSchema(schema, k), env));
    }
  }

  /** How `parseTypes` rewrites the element `v` at the position named `k`
      into `x`. */
  predicate ItemParsed(v: Value, x: Value, k: string, schema: Value, env: Env)
  {
    if IsDatetime(schema, k) then
      x == (if env.dateOf(v).Some? then Date(env.dateOf(v).value) else v)
    else
      && (v == Str("false") ==> x == Bool(false))
      && (v == Str("true") ==> x == Bool(true))
      && (v == Str("null") ==> x == Null)
      && (v.Arr? ==> x == Obj([("$in", v)]))
      && (v.Obj? ==> x == TypesParsed(v, NestedSchema(schema, k), env))
      && (!IsObject(v) && v != Str("false") && v != Str("true") && v != Str("null") ==> x == v)
  }

  /** `{or: clauses}` becomes `{$or: clauses}`; the clauses are not parsed. */
  lemma ParseTypesOr(v: Value, schema: Value, env: Env)
    requires !IsDatetime(schema, "or") && !v.Num?
    requires v != Str("false") && v != Str("true") && v != Str("null")
    ensures TypesParsed(Obj([("or", v)]), schema, env) == Obj([("$or", v)])
  {
    var fs := [("or", v)];
    assert fs[1..] == [];
    assert OwnKeys(fs) == ["or"];
    SingletonHeight("or", v);
    var two := [("or", v), ("$or", v)];
    assert Set(fs, "$or", v) == two;
    assert two[1..] == [("$or", v)];
    assert two[1..][1..] == [];
    assert Delete(two, "or") == Delete(two[1..], "or");
    assert "$or" != "or";
    assert Delete(two[1..], "or") == [("$or", v)] + Delete([], "or");
    var H := Height(Obj(fs));
    AllGetHeight(fs);
    assert TypeStep(fs, "or", schema, env, H) == [("$or", v)];
    assert TypeWalk(fs, ["or"], 0, schema, env, H) == TypeWalk([("$or", v)], ["or"], 1, schema, env, H);
  }

  /* ---------- rewriteValues ---------- */

  lemma {:induction false} OperatorFieldsGet(fs: Fields, k: string)
    ensures Has(OperatorFields(fs), k) <==> IsOperatorKey(k) && Has(fs, k)
    ensures Get(OperatorFields(fs), k) == if IsOperatorKey(k) then Get(fs, k) else Undef
  {
    if fs != [] {
      var init := fs[..|fs| - 1];
      var last := fs[|fs| - 1];
      assert fs == init + [last];
      OperatorFieldsGet(init, k);
      GetSnoc(init, last, k);
      if IsOperatorKey(last.0) {
        GetSnoc(OperatorFields(init), last, k);
      } else {
        assert OperatorFields(fs) == OperatorFields(init);
      }
    }
  }

  lemma {:induction false} PlainFieldsGet(fs: Fields, k: string)
    ensures Has(PlainFields(fs), k) <==> !IsOperatorKey(k) && Has(fs, k)
    ensures Get(PlainFields(fs), k) == if IsOperatorKey(k) then Undef else Get(fs, k)
  {
    if fs != [] {
      var init := fs[..|fs| - 1];
      var last := fs[|fs| - 1];
      assert fs == init + [last];
      PlainFieldsGet(init, k);
      GetSnoc(init, last, k);
      if IsOperatorKey(last.0) {
        assert PlainFields(fs) == PlainFields(init);
      } else {
        GetSnoc(PlainFields(init), last, k);
      }
    }
  }

  /** Nothing is lost by `rewriteValues`: every `$`-key keeps its value at the
      top level (except a `$set` that the collected keys replace), and every
      other key leaves the top level for `$set`, with its value. */
  lemma RewriteValuesKeeps(values: Fields, k: string)
    ensures var r := RewrittenValues(values);
      && (IsOperatorKey(k) && (k != "$set" || PlainFields(values) == []) ==> Get(r, k) == Get(values, k))
      && (!IsOperatorKey(k) ==> Get(r, k) == Undef)
      && (!IsOperatorKey(k) && Has(values, k) ==>
            Get(r, "$set").Obj? && Get(Get(r, "$set").fields, k) == Get(values, k))
  {
    OperatorFieldsGet(values, k);
    PlainFieldsGet(values, k);
    var plain := PlainFields(values);
    if plain != [] {
      GetSetSame(OperatorFields(values), "$set", Obj(plain));
      if k != "$set" {
        GetSetOther(OperatorFields(values), "$set", Obj(plain), k);
      }
    } else if !IsOperatorKey(k) {
      assert !Has(plain, k);
    }
  }
}
