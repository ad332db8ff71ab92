/** lib/criteria.js: from a Waterline criteria object to a nedb query. */
module Criteria {
  import opened Wrappers
  import opened Json
  import Utils

  /** Runtime services the translator uses but does not define: the date
      `Date.parse`/`new Date` reads from a value (None when `Date.parse` gives
      NaN), and the text `String()` gives for a Date or a RegExp. */
  datatype Env = Env(dateOf: Value -> Option<int>, text: Value -> string)

  /* ======================= parseTypes ======================= */

  /** `schema && schema[key]`. */
  function NestedSchema(schema: Value, key: string): Value
  {
    if Truthy(schema) then Member(schema, Name(key)) else schema
  }

  /** `schema && schema[key] && schema[key].type === 'datetime'`. */
  predicate IsDatetime(schema: Value, key: string)
  {
    var attr := NestedSchema(schema, key);
    Truthy(schema) && Truthy(attr) && Member(attr, Name("type")) == Str("datetime")
  }

  /** Whether the `_.each` callback of `parseTypes` takes the `or` branch:
      none of the branches before it applies and the key is `or`. */
  predicate RenamesOr(k: string, val: Value, schema: Value)
  {
    && !IsDatetime(schema, k)
    && val != Str("false") && val != Str("true") && val != Str("null")
    && !val.Num?
    && k == "or"
  }

  /** What the `_.each` callback of `parseTypes` stores under a key when it
      does not take the `or` branch; None when it stores nothing. */
  function TypedValue(k: string, val: Value, schema: Value, env: Env): Option<Value>
    decreases Height(val), 3, 0
  {
    if IsDatetime(schema, k) then
      match env.dateOf(val)
      case Some(t) => Some(Date(t))
      case None => None
    else if val == Str("false") then Some(Bool(false))
    else if val == Str("true") then Some(Bool(true))
    else if val == Str("null") then Some(Null)
    else if val.Num? then Some(val)
    else if val.Arr? then Some(Obj([("$in", val)]))
    else if IsObject(val) then Some(TypesParsed(val, NestedSchema(schema, k), env))
    else None
  }

  /** What the `_.each` callback of `parseTypes` leaves under a key it does
      not rename. */
  function TypeLeaf(k: string, v: Value, schema: Value, env: Env): Value
    decreases Height(v), 4, 0
  {
    TypedValue(k, v, schema, env).GetOr(v)
  }

  /** One `_.each` step of `parseTypes` on key `k` of the object being
      rewritten, whose values are all lower than `H`. The first branch only
      makes termination evident: `ParseTypes` keeps every value lower than
      `H`, so it is never taken there. */
  function TypeStep(cur: Fields, k: string, schema: Value, env: Env, H: nat): (r: Fields)
    ensures forall k' :: k' != k && Height(Get(cur, k')) < H ==> Height(Get(r, k')) < H
    decreases H, 0, 0
  {
    var val := Get(cur, k);
    if H <= Height(val) then cur
    else if RenamesOr(k, val, schema) then
      GetSetOthers(cur, "$or", val);
      GetSetSame(cur, "$or", val);
      GetDeleteOthers(Set(cur, "$or", val), "or");
      Delete(Set(cur, "$or", val), "or")
    else
      match TypedValue(k, val, schema, env)
      case Some(x) => GetSetOthers(cur, k, x); Set(cur, k, x)
      case None => cur
  }

  /** The `_.each` loop of `parseTypes` from position `i` of its key snapshot. */
  function TypeWalk(cur: Fields, keys: seq<string>, i: nat, schema: Value, env: Env, H: nat): Fields
    requires i <= |keys|
    decreases H, 1, |keys| - i
  {
    if i == |keys| then cur
    else TypeWalk(TypeStep(cur, keys[i], schema, env, H), keys, i + 1, schema, env, H)
  }

  /** What `parseTypes(obj, schema)` returns. `_.each` walks an array by
      position and hands the callback the position as its key, which
      `schema[key]` reads under its decimal name and which is never `or`;
      each element is rewritten on its own. Over a string, a date or a RegExp
      nothing is assigned. */
  function TypesParsed(obj: Value, schema: Value, env: Env): Value
    decreases Height(obj), 2, 0
  {
    if obj.Obj? then
      Obj(TypeWalk(obj.fields, OwnKeys(obj.fields), 0, schema, env, Height(obj)))
    else if obj.Arr? then
      Arr(TypeItems(obj.items, schema, env, Height(obj)))
    else obj
  }

  /** The elements of an array after `parseTypes` has visited each position. */
  function TypeItems(items: seq<Value>, schema: Value, env: Env, H: nat): (r: seq<Value>)
    requires ItemsHeight(items) < H
    decreases H, 1, 0
  {
    seq(|items|, i requires 0 <= i < |items| =>
      ItemHeight(items, i);
      TypeLeaf(NatText(i), items[i], schema, env))
  }

  /** `parseTypes(obj, schema)`: coerces the literal strings "false", "true"
      and "null", reads dates for `datetime` attributes, renames `or` to `$or`,
      turns lists into `$in` and recurses into nested objects. */
  method ParseTypes(obj: Value, schema: Value, env: Env) returns (r: Value)
    ensures r == TypesParsed(obj, schema, env)
    decreases Height(obj), 2
  {
    if obj.Arr? {
      var items := ParseTypeItems(obj.items, schema, env, Height(obj));
      return Arr(items);
    }
    if !obj.Obj? {
      return obj;
    }
    var keys := OwnKeys(obj.fields);
    var cur := obj.fields;
    AllGetHeight(obj.fields);
    var i := 0;
    while i < |keys|
      invariant 0 <= i <= |keys|
      invariant Lower(cur, keys, i, Height(obj))
      invariant TypeWalk(cur, keys, i, schema, env, Height(obj))
             == TypeWalk(obj.fields, keys, 0, schema, env, Height(obj))
    {
      ghost var before := cur;
      cur := ParseTypeField(cur, keys[i], schema, env, Height(obj));
      LowerStep(before, keys, i, schema, env, Height(obj));
      i := i + 1;
    }
    r := Obj(cur);
  }

  /** The values under the keys `parseTypes` has still to visit are lower than `H`. */
  predicate Lower(cur: Fields, keys: seq<string>, i: nat, H: nat)
  {
    forall j {:trigger Get(cur, keys[j])} :: i <= j < |keys| ==> Height(Get(cur, keys[j])) < H
  }

  /** A step on one key leaves the values under the other keys as low as they were. */
  lemma LowerStep(cur: Fields, keys: seq<string>, i: nat, schema: Value, env: Env, H: nat)
    requires i < |keys| && Distinct(keys) && Lower(cur, keys, i, H)
    ensures Lower(TypeStep(cur, keys[i], schema, env, H), keys, i + 1, H)
  {
    var next := TypeStep(cur, keys[i], schema, env, H);
    forall j | i + 1 <= j < |keys|
      ensures Height(Get(next, keys[j])) < H
    {
      assert keys[j] != keys[i];
      assert Height(Get(cur, keys[j])) < H;
    }
  }

  /** The body of the `_.each` callback of `parseTypes` for one key of an
      object: the `or` branch, or whatever the other branches store. */
  method ParseTypeField(cur: Fields, key: string, schema: Value, env: Env, H: nat) returns (next: Fields)
    requires Height(Get(cur, key)) < H
    ensures next == TypeStep(cur, key, schema, env, H)
    decreases H, 1
  {
    var val := Get(cur, key);
    next := cur;
    if RenamesOr(key, val, schema) {
      next := Set(cur, "$or", val);
      next := Delete(next, "or");
    } else {
      var stored := ParseTypeValue(key, val, schema, env, H);
      if stored.Some? {
        next := Set(cur, key, stored.value);
      }
    }
  }

  /** The branches of the `_.each` callback of `parseTypes` other than `or`,
      in source order: what they store under `key`, or None. */
  method ParseTypeValue(key: string, val: Value, schema: Value, env: Env, H: nat) returns (stored: Option<Value>)
    requires Height(val) < H
    ensures stored == TypedValue(key, val, schema, env)
    decreases H, 0
  {
    stored := None;
    if IsDatetime(schema, key) {
      var parsed := env.dateOf(val);
      if parsed.Some? {
        stored := Some(Date(parsed.value));
      }
    } else if val == Str("false") {
      stored := Some(Bool(false));
    } else if val == Str("true") {
      stored := Some(Bool(true));
    } else if val == Str("null") {
      stored := Some(Null);
    } else if val.Num? {
      stored := Some(val);
    } else if val.Arr? {
      stored := Some(Obj([("$in", val)]));
    } else if IsObject(val) {
      var nested := ParseTypes(val, NestedSchema(schema, key), env);
      stored := Some(nested);
    }
  }

  /** The `_.each` loop of `parseTypes` over an array, position by position. */
  method ParseTypeItems(items: seq<Value>, schema: Value, env: Env, H: nat) returns (r: seq<Value>)
    requires ItemsHeight(items) < H
    ensures r == TypeItems(items, schema, env, H)
    decreases H, 1
  {
    r := items;
    for i := 0 to |items|
      invariant |r| == |items|
      invariant forall j :: 0 <= j < i ==> r[j] == TypeLeaf(NatText(j), items[j], schema, env)
      invariant forall j :: i <= j < |items| ==> r[j] == items[j]
    {
      ItemHeight(items, i);
      var stored := ParseTypeValue(NatText(i), items[i], schema, env, H);
      r := r[i := stored.GetOr(items[i])];
    }
  }

  /* ======================= normalizeCriteria ======================= */

  function LowerChar(c: char): char
  {
    if 'A' <= c <= 'Z' then (c as int + 32) as char else c
  }

  /** `toLowerCase` on the letters that matter here (A to Z). */
  function LowerAscii(s: string): (r: string)
    ensures |r| == |s|
  {
    if s == [] then [] else [LowerChar(s[0])] + LowerAscii(s[1..])
  }

  /** `key.toLowerCase() === 'not' || key === '!'`. Lower-casing keeps the
      length, so only a three-letter key can lower-case to "not". */
  predicate IsNotKey(key: Key)
  {
    key.Name? && ((|key.name| == 3 && LowerAscii(key.name) == "not") || key.name == "!")
  }

  /** `[0, -1].indexOf(v) > -1 ? -1 : 1`. */
  function SortDirection(v: Value): (r: Value)
    ensures r == Num(-1) <==> v == Num(0) || v == Num(-1)
    ensures r == Num(-1) || r == Num(1)
  {
    if v == Num(0) || v == Num(-1) then Num(-1) else Num(1)
  }

  /** `s.replace(/%/g, '.*')`. */
  function ReplacePercent(s: string): string
  {
    if s == [] then [] else (if s[0] == '%' then ".*" else [s[0]]) + ReplacePercent(s[1..])
  }

  /** The pattern a plain string value becomes: `/^E(s)$/ig` with `%` as `.*`. */
  function StringPattern(s: string): Value
  {
    Pattern("^" + ReplacePercent(Utils.Escape(s)) + "$", "ig")
  }

  /** First step of a `recursiveParse2` iteration: a nested object, array or
      RegExp under the key is rewritten first; a Date is not descended into. */
  function Descend(cur: Value, key: Key, H: nat, env: Env): (r: Value)
    requires Height(cur) <= H && 1 <= H
    ensures Height(r) <= H
    decreases H, 0, 0
  {
    var child := Member(cur, key);
    MemberHeight(cur, key);
    if IsObject(child) && !child.Date? then
      var parsed := Normalized(child, env);
      AssignHeight(cur, key, parsed);
      Assign(cur, key, parsed)
    else cur
  }

  /** `sort`: the operand becomes a sort direction. */
  function SortStep(c: Value, key: Key): (r: Value)
    ensures Height(r) <= Max(Height(c), 1)
  {
    AssignHeight(c, key, SortDirection(Member(c, key)));
    if key == Name("sort") then Assign(c, key, SortDirection(Member(c, key))) else c
  }

  /** `contains`: the whole object becomes `/^.*E(v).*$/ig`. */
  function ContainsStep(c: Value, key: Key, env: Env): (r: Value)
    ensures Height(r) <= Height(c)
  {
    if key == Name("contains") then
      Pattern("^" + (".*" + ToStr(Utils.CaseInsensitive(Member(c, key)), env.text) + ".*") + "$", "ig")
    else c
  }

  /** `like`: the whole object becomes its operand. */
  function LikeStep(c: Value, key: Key): (r: Value)
    ensures Height(r) <= Height(c)
  {
    MemberHeight(c, key);
    if key == Name("like") then Member(c, key) else c
  }

  /** `startsWith`: the operand is escaped in place, then the whole object
      becomes `/^E(v).*$/i`. */
  function StartsWithStep(c: Value, key: Key, env: Env): (r: Value)
    ensures Height(r) <= Height(c)
  {
    if key == Name("startsWith") then
      var escaped := Assign(c, key, Utils.CaseInsensitive(Member(c, key)));
      Pattern("^" + (ToStr(Member(escaped, key), env.text) + ".*") + "$", "i")
    else c
  }

  /** `endsWith`: the operand is escaped in place, then the whole object
      becomes `/^.*E(v)$/i`. */
  function EndsWithStep(c: Value, key: Key, env: Env): (r: Value)
    ensures Height(r) <= Height(c)
  {
    if key == Name("endsWith") then
      var escaped := Assign(c, key, Utils.CaseInsensitive(Member(c, key)));
      Pattern("^" + (".*" + ToStr(Member(escaped, key), env.text)) + "$", "i")
    else c
  }

  /** The `sort`, `contains`, `like`, `startsWith` and `endsWith` branches, in
      source order. */
  function RewriteOperator(c1: Value, key: Key, env: Env): (r: Value)
    ensures Height(r) <= Max(Height(c1), 1)
  {
    EndsWithStep(StartsWithStep(LikeStep(ContainsStep(SortStep(c1, key), key, env), key), key, env), key, env)
  }

  /** `obj[op] = obj[key]; delete obj[key];` */
  function MoveTo(c: Value, key: Key, op: string): (r: Value)
    ensures Height(r) <= Max(Height(c), 1)
  {
    MemberHeight(c, key);
    AssignHeight(c, Name(op), Member(c, key));
    RemoveHeight(Assign(c, Name(op), Member(c, key)), key);
    Remove(Assign(c, Name(op), Member(c, key)), key)
  }

  /** One comparison branch: under either alias the operand moves to `op`. */
  function MoveIf(c: Value, key: Key, alias: string, symbol: string, op: string): (r: Value)
    ensures Height(r) <= Max(Height(c), 1)
  {
    if key == Name(alias) || key == Name(symbol) then MoveTo(c, key, op) else c
  }

  /** The negation: the whole object becomes `{$ne: operand}`. */
  function NotStep(c: Value, key: Key): (r: Value)
    ensures Height(r) <= Max(Height(c), 1)
  {
    MemberHeight(c, key);
    SingletonHeight("$ne", Member(c, key));
    if IsNotKey(key) then Obj([("$ne", Member(c, key))]) else c
  }

  /** The comparison aliases and the negation, in source order. */
  function RewriteComparison(c6: Value, key: Key): (r: Value)
    ensures Height(r) <= Max(Height(c6), 1)
  {
    var c7 := MoveIf(c6, key, "lessThan", "<", "$lt");
    var c8 := MoveIf(c7, key, "lessThanOrEqual", "<=", "$lte");
    var c9 := MoveIf(c8, key, "greaterThan", ">", "$gt");
    var c10 := MoveIf(c9, key, "greaterThanOrEqual", ">=", "$gte");
    NotStep(c10, key)
  }

  /** The last branch: a string under any key but `_id` and `id` becomes a
      case-insensitive whole-string pattern. */
  function RewriteString(c11: Value, key: Key): (r: Value)
    ensures Height(r) <= Max(Height(c11), 1)
  {
    var v := Member(c11, key);
    if key != Name("_id") && key != Name("id") && v.Str? then
      AssignHeight(c11, key, StringPattern(v.s));
      Assign(c11, key, StringPattern(v.s))
    else c11
  }

  /** One iteration of the `for...in` loop of `recursiveParse2` on the current
      value of `obj`, which earlier iterations may have replaced. */
  function Visit(cur: Value, key: Key, H: nat, env: Env): (r: Value)
    requires Height(cur) <= H && 1 <= H
    ensures Height(r) <= H
    decreases H, 0, 1
  {
    if IsObject(cur) then Rewrite(Descend(cur, key, H, env), key, env) else cur
  }

  /** Everything an iteration does after the descent: operators, comparisons,
      then strings. */
  function Rewrite(c: Value, key: Key, env: Env): (r: Value)
    ensures Height(r) <= Max(Height(c), 1)
  {
    RewriteString(RewriteComparison(RewriteOperator(c, key, env), key), key)
  }

  /** The `for...in` loop of `recursiveParse2` from position `i` of the key
      snapshot taken when the loop started. */
  function Walk(cur: Value, keys: seq<Key>, i: nat, H: nat, env: Env): (r: Value)
    requires i <= |keys| && Height(cur) <= H && 1 <= H
    ensures Height(r) <= H
    decreases H, 1, |keys| - i
  {
    if i == |keys| then cur else Walk(Visit(cur, keys[i], H, env), keys, i + 1, H, env)
  }

  /** What `recursiveParse2(obj)` returns. A `for...in` loop over anything but
      an object or an array does nothing. */
  function Normalized(obj: Value, env: Env): (r: Value)
    ensures Height(r) <= Height(obj)
    decreases Height(obj), 2, 0
  {
    if obj.Obj? || obj.Arr? then Walk(obj, EnumKeys(obj), 0, Height(obj), env) else obj
  }

  /** `recursiveParse2(obj)`: rewrites operator keys into nedb operators and
      string values into case-insensitive patterns, depth first. */
  method RecursiveParse(obj: Value, env: Env) returns (r: Value)
    ensures r == Normalized(obj, env)
    decreases Height(obj), 1
  {
    if !(obj.Obj? || obj.Arr?) {
      return obj;
    }
    var keys := EnumKeys(obj);
    var H := Height(obj);
    var cur := obj;
    var i := 0;
    while i < |keys|
      invariant 0 <= i <= |keys|
      invariant Height(cur) <= H
      invariant Walk(cur, keys, i, H, env) == Walk(obj, keys, 0, H, env)
    {
      cur := VisitKey(cur, keys[i], H, env);
      i := i + 1;
    }
    r := cur;
  }

  /** One iteration of the `for...in` loop of `recursiveParse2`. */
  method VisitKey(cur: Value, key: Key, H: nat, env: Env) returns (next: Value)
    requires Height(cur) <= H && 1 <= H
    ensures next == Visit(cur, key, H, env)
    decreases H, 0
  {
    next := cur;
    if IsObject(cur) {
      var child := Member(cur, key);
      MemberHeight(cur, key);
      if IsObject(child) && !child.Date? {
        var parsed := RecursiveParse(child, env);
        next := Assign(cur, key, parsed);
      }
      next := SortStep(next, key);
      next := ContainsStep(next, key, env);
      next := LikeStep(next, key);
      next := StartsWithStep(next, key, env);
      next := EndsWithStep(next, key, env);
      next := MoveIf(next, key, "lessThan", "<", "$lt");
      next := MoveIf(next, key, "lessThanOrEqual", "<=", "$lte");
      next := MoveIf(next, key, "greaterThan", ">", "$gt");
      next := MoveIf(next, key, "greaterThanOrEqual", ">=", "$gte");
      next := NotStep(next, key);
      next := RewriteString(next, key);
    }
  }

  /** Every top-level value of a criteria object run through `recursiveParse2`. */
  function NormalizedValues(fs: Fields, env: Env): (r: Fields)
    ensures |r| == |fs|
    ensures forall i :: 0 <= i < |fs| ==> r[i] == (fs[i].0, Normalized(fs[i].1, env))
  {
    seq(|fs|, i requires 0 <= i < |fs| => (fs[i].0, Normalized(fs[i].1, env)))
  }

  /** `normalizeCriteria(query)`: `query[key] = recursiveParse2(query[key])`
      for every key, in order; keys and their order are kept. */
  method NormalizeCriteria(query: Fields, env: Env) returns (r: Fields)
    requires DistinctKeys(query)
    ensures r == NormalizedValues(query, env)
  {
    var keys := OwnKeys(query);
    DistinctKeysOwnKeys(query);
    var cur := query;
    var i := 0;
    while i < |keys|
      invariant 0 <= i <= |keys|
      invariant |cur| == |query|
      invariant forall j :: 0 <= j < |query| ==>
        cur[j] == if j < i then (query[j].0, Normalized(query[j].1, env)) else query[j]
    {
      var key := keys[i];
      KeysDistinct(query, cur);
      GetAt(cur, i);
      var parsed := RecursiveParse(Get(cur, key), env);
      SetAt(cur, i, parsed);
      cur := Set(cur, key, parsed);
      i := i + 1;
    }
    r := cur;
  }

  /* ======================= rewriteCriteria ======================= */

  /** `where.id && !where._id` */
  predicate MovesId(where: Value)
  {
    Truthy(Member(where, Name("id"))) && !Truthy(Member(where, Name("_id")))
  }

  /** The `id` to `_id` move of `rewriteCriteria`: a truthy `id` with no truthy
      `_id` is copied to `_id` and deleted. */
  function IdMoved(where: Value): (r: Value)
    ensures !MovesId(where) ==> r == where
    ensures MovesId(where) ==>
      && r.Obj?
      && !Has(r.fields, "id")
      && Get(r.fields, "_id") == Get(where.fields, "id")
      && forall k :: k != "id" && k != "_id" ==> Get(r.fields, k) == Get(where.fields, k)
  {
    if MovesId(where) then
      var id := Member(where, Name("id"));
      GetSetSame(where.fields, "_id", id);
      GetDeleteOther(Set(where.fields, "_id", id), "id", "_id");
      GetSetOthers(where.fields, "_id", id);
      GetDeleteOthers(Set(where.fields, "_id", id), "id");
      Remove(Assign(where, Name("_id"), id), Name("id"))
    else where
  }

  /** `rewriteCriteria(options, schema)`. Without an own `where` the options
      are returned untouched; a null `where` becomes `{}` and nothing else is
      done; an undefined one makes `options.where.id` throw. Otherwise `id` is
      moved to `_id`, the `where` is type-parsed, and every top-level value of
      the options is normalized. */
  method RewriteCriteria(options: Fields, schema: Value, env: Env) returns (r: Result<Fields, AdapterError>)
    requires DistinctKeys(options)
    ensures !Has(options, "where") ==> r == Success(options)
    ensures Has(options, "where") && Get(options, "where") == Null ==>
      r == Success(Set(options, "where", Obj([])))
    ensures Has(options, "where") && Get(options, "where") == Undef ==> r == Failure(TypeError)
    ensures Has(options, "where") && Get(options, "where") != Null && Get(options, "where") != Undef ==>
      var where := TypesParsed(IdMoved(Get(options, "where")), schema, env);
      r == Success(NormalizedValues(Set(options, "where", where), env))
  {
    if !Has(options, "where") {
      return Success(options);
    }
    var where := Get(options, "where");
    if where == Null {
      return Success(Set(options, "where", Obj([])));
    }
    if where == Undef {
      return Failure(TypeError);
    }
    if Truthy(Member(where, Name("id"))) && !Truthy(Member(where, Name("_id"))) {
      var id := Member(where, Name("id"));
      where := Assign(where, Name("_id"), id);
      where := Remove(where, Name("id"));
    }
    where := ParseTypes(where, schema, env);
    var opts := Set(options, "where", where);
    DistinctKeysSet(options, "where", where);
    opts := NormalizeCriteria(opts, env);
    return Success(opts);
  }

  /* ======================= rewriteValues ======================= */

  /** `i.indexOf("$") === 0` */
  predicate IsOperatorKey(k: string)
  {
    |k| > 0 && k[0] == '$'
  }

  /** The fields whose key starts with `$`, in order. */
  function OperatorFields(fs: Fields): (r: Fields)
    ensures forall k :: Has(r, k) ==> Has(fs, k)
  {
    if fs == [] then []
    else
      var last := fs[|fs| - 1];
      var init := fs[..|fs| - 1];
      var r := OperatorFields(init) + (if IsOperatorKey(last.0) then [last] else []);
      forall k | Has(r, k) ensures Has(fs, k) {
        var i :| 0 <= i < |r| && r[i].0 == k;
        if i < |OperatorFields(init)| {
          assert Has(init, k);
          var j :| 0 <= j < |init| && init[j].0 == k;
          assert fs[j].0 == k;
        } else {
          assert fs[|fs| - 1].0 == k;
        }
      }
      r
  }

  /** The fields whose key does not start with `$`, in order. */
  function PlainFields(fs: Fields): (r: Fields)
    ensures forall k :: Has(r, k) ==> Has(fs, k)
  {
    if fs == [] then []
    else
      var last := fs[|fs| - 1];
      var init := fs[..|fs| - 1];
      var r := PlainFields(init) + (if IsOperatorKey(last.0) then [] else [last]);
      forall k | Has(r, k) ensures Has(fs, k) {
        var i :| 0 <= i < |r| && r[i].0 == k;
        if i < |PlainFields(init)| {
          assert Has(init, k);
          var j :| 0 <= j < |init| && init[j].0 == k;
          assert fs[j].0 == k;
        } else {
          assert fs[|fs| - 1].0 == k;
        }
      }
      r
  }

  /** The update document `rewriteValues` builds: the `$`-keys in order, then
      `$set` holding every other key, present only when there is one. */
  function RewrittenValues(values: Fields): Fields
  {
    var plain := PlainFields(values);
    if plain == [] then OperatorFields(values) else Set(OperatorFields(values), "$set", Obj(plain))
  }

  /** `rewriteValues(values)`. */
  method RewriteValues(values: Fields) returns (r: Fields)
    requires DistinctKeys(values)
    ensures r == RewrittenValues(values)
  {
    var top: Fields := [];
    var toSet: Fields := [];
    var i := 0;
    while i < |values|
      invariant 0 <= i <= |values|
      invariant top == OperatorFields(values[..i])
      invariant toSet == PlainFields(values[..i])
    {
      var (k, e) := values[i];
      assert values[..i + 1][..i] == values[..i];
      assert !Has(values[..i], k) by {
        forall j | 0 <= j < i ensures values[..i][j].0 != k {
          assert values[j].0 != values[i].0;
        }
      }
      if IsOperatorKey(k) {
        SetAbsent(top, k, e);
        top := Set(top, k, e);
      } else {
        SetAbsent(toSet, k, e);
        toSet := Set(toSet, k, e);
      }
      i := i + 1;
    }
    assert values[..|values|] == values;
    r := top;
    if toSet != [] {
      r := Set(r, "$set", Obj(toSet));
    }
  }

  /* ======================= parseFindOptions ======================= */

  /** `parseFindOptions(options)`: the `where` clause, and the options without it. */
  function ParseFindOptions(options: Fields): (r: (Value, Fields))
    ensures r.0 == Get(options, "where")
    ensures !Has(r.1, "where")
    ensures forall k :: k != "where" ==> Get(r.1, k) == Get(options, k)
  {
    GetDeleteOthers(options, "where");
    (Get(options, "where"), Delete(options, "where"))
  }

  /** Splitting the options loses nothing: putting the `where` back gives
      every key its original value. */
  lemma ParseFindOptionsSplit(options: Fields, k: string)
    ensures var (where, rest) := ParseFindOptions(options);
      Get(Set(rest, "where", where), k) == Get(options, k)
  {
    var (where, rest) := ParseFindOptions(options);
    if k == "where" {
      GetSetSame(rest, "where", where);
    } else {
      GetSetOther(rest, "where", where, k);
    }
  }
}
