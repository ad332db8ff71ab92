/** lib/utils.js: regular-expression escaping and the `_id` to `id` rewrite. */
module Utils {
  import opened Wrappers
  import opened Json

  /** The characters `caseInsensitive` escapes: - [ ] { } ( ) + ? * . / , \ ^ $ | # */
  predicate IsMeta(c: char)
  {
    c in "-[]{}()+?*./,\\^$|#"
  }

  function MetaCount(s: string): nat
  {
    if s == [] then 0 else (if IsMeta(s[0]) then 1 else 0) + MetaCount(s[1..])
  }

  function EscapeChar(c: char): string
  {
    if IsMeta(c) then ['\\', c] else [c]
  }

  /** The string half of `caseInsensitive`: each metacharacter gets one
      backslash in front of it, every other character is copied. */
  function Escape(s: string): string
  {
    if s == [] then [] else EscapeChar(s[0]) + Escape(s[1..])
  }

  /** Drops the backslash in front of each escaped character. */
  function Unescape(t: string): string
  {
    if t == [] then []
    else if t[0] == '\\' && |t| >= 2 then [t[1]] + Unescape(t[2..])
    else [t[0]] + Unescape(t[1..])
  }

  /** `caseInsensitive(val)`: a non-string is returned as it is. */
  function CaseInsensitive(v: Value): (r: Value)
    ensures !v.Str? ==> r == v
    ensures v.Str? ==> r.Str? && Unescape(r.s) == v.s && |r.s| == |v.s| + MetaCount(v.s)
    ensures v.Str? ==> r == Str(Escape(v.s))
  {
    if v.Str? then
      UnescapeEscape(v.s);
      EscapeLength(v.s);
      Str(Escape(v.s))
    else v
  }

  lemma {:induction false} EscapeLength(s: string)
    ensures |Escape(s)| == |s| + MetaCount(s)
  {
    if s != [] { EscapeLength(s[1..]); }
  }

  /** Removing the inserted backslashes gives the input back. */
  lemma {:induction false} UnescapeEscape(s: string)
    ensures Unescape(Escape(s)) == s
  {
    if s != [] {
      UnescapeEscape(s[1..]);
      var e := Escape(s[1..]);
      if IsMeta(s[0]) {
        assert Escape(s) == ['\\', s[0]] + e;
        assert (['\\', s[0]] + e)[2..] == e;
      } else {
        assert s[0] != '\\';
        assert Escape(s) == [s[0]] + e;
        assert ([s[0]] + e)[1..] == e;
      }
    }
  }

  /** Escaping works character by character, in order. */
  lemma {:induction false} EscapeAppend(a: string, b: string)
    ensures Escape(a + b) == Escape(a) + Escape(b)
  {
    if a != [] {
      assert (a + b)[1..] == a[1..] + b;
      EscapeAppend(a[1..], b);
    } else {
      assert a + b == b;
    }
  }

  /** Escaping around one character: a metacharacter gets a backslash in
      front of it, any other character is copied, and what comes before and
      after it is escaped on its own. */
  lemma EscapeAt(a: string, c: char, b: string)
    ensures IsMeta(c) ==> Escape(a + [c] + b) == Escape(a) + ['\\', c] + Escape(b)
    ensures !IsMeta(c) ==> Escape(a + [c] + b) == Escape(a) + [c] + Escape(b)
  {
    EscapeAppend(a + [c], b);
    EscapeAppend(a, [c]);
    assert Escape([c]) == EscapeChar(c) by {
      assert [c][1..] == [];
    }
  }

  /** A string without metacharacters (for instance one made only of letters,
      digits, spaces and `%`) is left as it is. */
  lemma {:induction false} EscapePlain(s: string)
    requires forall i :: 0 <= i < |s| ==> !IsMeta(s[i])
    ensures Escape(s) == s
  {
    if s != [] {
      EscapePlain(s[1..]);
      assert s == [s[0]] + s[1..];
    }
  }

  /** `hop.call(obj, prop)` with `hop` the `hasOwnProperty` of
      `Object.prototype`. `null` and `undefined` cannot be made objects and
      throw. An object owns its keys; an array and a string own their
      positions, by decimal name, and `length`; a RegExp owns `lastIndex`;
      booleans, numbers and dates own nothing. */
  function HasOwnProperty(obj: Value, prop: string): (r: Result<bool, AdapterError>)
    ensures r.Failure? <==> obj.Undef? || obj.Null?
    ensures r.Failure? ==> r.error == TypeError
    ensures obj.Obj? ==> (r == Success(true) <==> prop in OwnKeys(obj.fields))
    ensures obj.Arr? ==> (r == Success(true) <==> prop == "length" || IsPositionName(prop, |obj.items|))
    ensures obj.Str? ==> (r == Success(true) <==> prop == "length" || IsPositionName(prop, |obj.s|))
    ensures r == Success(false) ==> Member(obj, Name(prop)) == Undef
  {
    match obj
    case Undef => Failure(TypeError)
    case Null => Failure(TypeError)
    case Obj(fs) => Success(Has(fs, prop))
    case Arr(items) => Success(prop == "length" || IsPositionName(prop, |items|))
    case Str(s) => Success(prop == "length" || IsPositionName(prop, |s|))
    case Pattern(_, _) => Success(prop == "lastIndex")
    case _ => Success(false)
  }

  /** Whether `prop` is the decimal name of a position below `n`. */
  predicate IsPositionName(prop: string, n: nat)
  {
    exists i: nat | i < n :: NatText(i) == prop
  }

  /** Every position of an array or a string is an own property, under its
      decimal name. */
  lemma HasOwnPosition(v: Value, i: nat)
    requires (v.Arr? && i < |v.items|) || (v.Str? && i < |v.s|)
    ensures HasOwnProperty(v, NatText(i)) == Success(true)
  {
    assert IsPositionName(NatText(i), if v.Arr? then |v.items| else |v.s|);
  }

  /** Assigning a key makes it an own property; deleting it makes it not one. */
  lemma HasOwnAfterWrite(fs: Fields, k: string, x: Value)
    ensures HasOwnProperty(Obj(Set(fs, k, x)), k) == Success(true)
    ensures HasOwnProperty(Obj(Delete(fs, k)), k) == Success(false)
  {
  }

  /** Whether `rewriteIds` changes this record: it is an object whose `_id` is truthy. */
  predicate HasTruthyId(model: Value)
  {
    model.Obj? && Truthy(Get(model.fields, "_id"))
  }

  /** The rewrite `rewriteIds` applies to one record. An object `_id` becomes
      its `toString()`, given by `idText`. */
  function RewriteId(model: Value, idText: Value -> string): (r: Value)
    ensures !HasTruthyId(model) ==> r == model
    ensures HasTruthyId(model) ==>
      var id := Get(model.fields, "_id");
      && r.Obj?
      && !Has(r.fields, "_id")
      && Get(r.fields, "id") == (if IsObject(id) then Str(idText(id)) else id)
      && forall k :: k != "id" && k != "_id" ==> Get(r.fields, k) == Get(model.fields, k)
    ensures !HasTruthyId(r)
  {
    if HasTruthyId(model) then
      var id := Get(model.fields, "_id");
      var shown := if IsObject(id) then Str(idText(id)) else id;
      var withId := Set(model.fields, "id", shown);
      GetSetSame(model.fields, "id", shown);
      GetDeleteOther(withId, "_id", "id");
      forall k | k != "id" && k != "_id"
        ensures Get(Delete(withId, "_id"), k) == Get(model.fields, k)
      {
        GetDeleteOther(withId, "_id", k);
        GetSetOther(model.fields, "id", shown, k);
      }
      Obj(Delete(withId, "_id"))
    else model
  }

  function RewrittenIds(models: seq<Value>, idText: Value -> string): (r: seq<Value>)
    ensures |r| == |models|
    ensures forall i :: 0 <= i < |models| ==> r[i] == RewriteId(models[i], idText)
  {
    seq(|models|, i requires 0 <= i < |models| => RewriteId(models[i], idText))
  }

  /** `rewriteIds(models)`: the records in the same order, each with a truthy
      `_id` moved to `id`. */
  method RewriteIds(models: seq<Value>, idText: Value -> string) returns (r: seq<Value>)
    ensures |r| == |models|
    ensures forall i :: 0 <= i < |models| ==> r[i] == RewriteId(models[i], idText)
  {
    r := [];
    var i := 0;
    while i < |models|
      invariant 0 <= i <= |models|
      invariant |r| == i
      invariant forall j :: 0 <= j < i ==> r[j] == RewriteId(models[j], idText)
    {
      r := r + [RewriteId(models[i], idText)];
      i := i + 1;
    }
  }

  /** A second `rewriteIds` changes nothing: no truthy `_id` is left. */
  lemma RewriteIdsIdempotent(models: seq<Value>, idText: Value -> string)
    ensures RewrittenIds(RewrittenIds(models, idText), idText) == RewrittenIds(models, idText)
  {
  }
}
