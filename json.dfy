/** JavaScript values as the adapter sees them: criteria, records, schemas. */
module Json {

  /** A JavaScript value. `Undef` is `undefined` stored under a key; an object
      keeps its keys in insertion order; a RegExp is kept as its source text and
      flags, and a Date as its time value. */
  datatype Value =
    | Undef
    | Null
    | Bool(b: bool)
    | Num(n: int)
    | Str(s: string)
    | Arr(items: seq<Value>)
    | Obj(fields: seq<(string, Value)>)
    | Date(time: int)
    | Pattern(text: string, flags: string)

  type Fields = seq<(string, Value)>

  /** A property key: a name, or a position when the value is an array. */
  datatype Key = Name(name: string) | Index(pos: nat)

  /* ---------- objects as ordered field lists ---------- */

  function Keys(fs: Fields): (ks: seq<string>)
    ensures |ks| == |fs|
    ensures forall i :: 0 <= i < |fs| ==> ks[i] == fs[i].0
  {
    if fs == [] then [] else [fs[0].0] + Keys(fs[1..])
  }

  predicate Distinct(ks: seq<string>)
  {
    forall i, j :: 0 <= i < j < |ks| ==> ks[i] != ks[j]
  }

  /** What every JavaScript object satisfies: no key occurs twice. */
  predicate DistinctKeys(fs: Fields)
  {
    forall i, j :: 0 <= i < j < |fs| ==> fs[i].0 != fs[j].0
  }

  predicate Has(fs: Fields, k: string)
  {
    exists i :: 0 <= i < |fs| && fs[i].0 == k
  }

  /** `obj[k]`: the value under the first occurrence of `k`, or `undefined`. */
  function Get(fs: Fields, k: string): (v: Value)
    ensures !Has(fs, k) ==> v == Undef
  {
    if fs == [] then Undef
    else if fs[0].0 == k then fs[0].1
    else Get(fs[1..], k)
  }

  /** `obj[k] = v`: replaces the value in place, or appends a new key at the end. */
  function Set(fs: Fields, k: string, v: Value): (r: Fields)
    ensures Has(r, k)
  {
    if fs == [] then
      assert [(k, v)][0].0 == k;
      [(k, v)]
    else if fs[0].0 == k then
      var r := [(k, v)] + fs[1..];
      assert r[0].0 == k;
      r
    else
      var rest := Set(fs[1..], k, v);
      HasCons(fs[0], rest, k);
      [fs[0]] + rest
  }

  lemma HasCons(field: (string, Value), rest: Fields, k: string)
    requires Has(rest, k)
    ensures Has([field] + rest, k)
  {
    var i :| 0 <= i < |rest| && rest[i].0 == k;
    assert ([field] + rest)[i + 1].0 == k;
  }

  /** `delete obj[k]`. */
  function Delete(fs: Fields, k: string): (r: Fields)
    ensures !Has(r, k)
  {
    if fs == [] then []
    else if fs[0].0 == k then Delete(fs[1..], k)
    else [fs[0]] + Delete(fs[1..], k)
  }

  /** The keys a `for...in` loop or `_.each` visits, each once, in order. */
  function OwnKeys(fs: Fields): (ks: seq<string>)
    ensures Distinct(ks)
    ensures forall k :: k in ks <==> Has(fs, k)
  {
    if fs == [] then []
    else
      var rest := OwnKeys(fs[1..]);
      var tail := Without(rest, fs[0].0);
      assert forall k :: Has(fs, k) <==> k == fs[0].0 || Has(fs[1..], k) by {
        forall k | Has(fs, k) ensures k == fs[0].0 || Has(fs[1..], k) {
          var i :| 0 <= i < |fs| && fs[i].0 == k;
          if i > 0 { assert fs[1..][i - 1].0 == k; }
        }
        forall k | Has(fs[1..], k) ensures Has(fs, k) {
          var i :| 0 <= i < |fs[1..]| && fs[1..][i].0 == k;
          assert fs[i + 1].0 == k;
        }
      }
      assert fs[0].0 !in tail;
      [fs[0].0] + tail
  }

  function Without(ks: seq<string>, k: string): (r: seq<string>)
    ensures forall x :: x in r <==> x in ks && x != k
    ensures Distinct(ks) ==> Distinct(r)
  {
    if ks == [] then []
    else if ks[0] == k then Without(ks[1..], k)
    else
      var rest := Without(ks[1..], k);
      assert Distinct(ks) ==> ks[0] !in ks[1..];
      [ks[0]] + rest
  }

  /* ---------- property access on any value ---------- */

  /** `v[key]`. Objects are read by name and arrays by position; a read from
      any other value yields `undefined`. */
  function Member(v: Value, key: Key): Value
  {
    match key
    case Name(k) => if v.Obj? then Get(v.fields, k) else Undef
    case Index(i) => if v.Arr? && i < |v.items| then v.items[i] else Undef
  }

  /** `v[key] = x`. Writes to anything but an object field or an array
      position are dropped. */
  function Assign(v: Value, key: Key, x: Value): Value
  {
    match key
    case Name(k) => if v.Obj? then Obj(Set(v.fields, k, x)) else v
    case Index(i) => if v.Arr? && i < |v.items| then Arr(v.items[i := x]) else v
  }

  /** `delete v[key]` for a named key. */
  function Remove(v: Value, key: Key): Value
  {
    match key
    case Name(k) => if v.Obj? then Obj(Delete(v.fields, k)) else v
    case Index(_) => v
  }

  /** The keys `for...in` visits on `v`: an object's own keys, an array's
      positions, nothing for anything else. */
  function EnumKeys(v: Value): seq<Key>
  {
    match v
    case Obj(fs) => NameKeys(OwnKeys(fs))
    case Arr(items) => IndexKeys(0, |items|)
    case _ => []
  }

  function NameKeys(ks: seq<string>): (r: seq<Key>)
    ensures |r| == |ks|
    ensures forall i :: 0 <= i < |ks| ==> r[i] == Name(ks[i])
  {
    if ks == [] then [] else [Name(ks[0])] + NameKeys(ks[1..])
  }

  function IndexKeys(from: nat, to: nat): (r: seq<Key>)
    decreases to - from
    ensures |r| == if from <= to then to - from else 0
    ensures forall i :: 0 <= i < |r| ==> r[i] == Index(from + i)
  {
    if from >= to then [] else [Index(from)] + IndexKeys(from + 1, to)
  }

  /* ---------- JavaScript predicates ---------- */

  /** JavaScript truthiness. */
  predicate Truthy(v: Value)
  {
    match v
    case Undef => false
    case Null => false
    case Bool(b) => b
    case Num(n) => n != 0
    case Str(s) => s != ""
    case _ => true
  }

  /** lodash `_.isObject`: arrays, objects, dates and regular expressions. */
  predicate IsObject(v: Value)
  {
    v.Arr? || v.Obj? || v.Date? || v.Pattern?
  }

  /* ---------- String(v) ---------- */

  function DigitChar(d: nat): char
    requires d < 10
  {
    "0123456789"[d]
  }

  function NatText(n: nat): (s: string)
    ensures |s| > 0
  {
    if n < 10 then [DigitChar(n)] else NatText(n / 10) + [DigitChar(n % 10)]
  }

  function IntText(n: int): string
  {
    if n < 0 then "-" + NatText(-n) else NatText(n)
  }

  /** JavaScript `String(v)`. The text of a Date or RegExp is supplied by
      `text`, as the runtime formats it. */
  function ToStr(v: Value, text: Value -> string): string
  {
    match v
    case Undef => "undefined"
    case Null => "null"
    case Bool(b) => if b then "true" else "false"
    case Num(n) => IntText(n)
    case Str(s) => s
    case Arr(items) => Join(items, text)
    case Obj(_) => "[object Object]"
    case Date(_) => text(v)
    case Pattern(_, _) => text(v)
  }

  /** `Array.prototype.join(",")`: null and undefined elements print empty. */
  function Join(items: seq<Value>, text: Value -> string): string
    decreases items
  {
    if items == [] then ""
    else
      var first := if items[0].Null? || items[0].Undef? then "" else ToStr(items[0], text);
      if |items| == 1 then first else first + "," + Join(items[1..], text)
  }

  /* ---------- height, used to bound recursion over rewritten trees ---------- */

  function Max(a: nat, b: nat): nat { if a < b then b else a }

  function Height(v: Value): nat
    decreases v
  {
    match v
    case Arr(items) => 1 + ItemsHeight(items)
    case Obj(fs) => 1 + FieldsHeight(fs)
    case _ => 0
  }

  function ItemsHeight(items: seq<Value>): nat
    decreases items
  {
    if items == [] then 0 else Max(Height(items[0]), ItemsHeight(items[1..]))
  }

  function FieldsHeight(fs: Fields): nat
    decreases fs
  {
    if fs == [] then 0
    else
      var p := fs[0];
      assert p in fs;
      var x := p.1;
      assert x < p;
      Max(Height(x), FieldsHeight(fs[1..]))
  }

  /* ---------- lemmas about field lists ---------- */

  lemma GetSetSame(fs: Fields, k: string, v: Value)
    ensures Get(Set(fs, k, v), k) == v
  {
    if fs != [] && fs[0].0 != k { GetSetSame(fs[1..], k, v); }
  }

  lemma GetSetOther(fs: Fields, k: string, v: Value, k': string)
    requires k' != k
    ensures Get(Set(fs, k, v), k') == Get(fs, k')
  {
    if fs != [] && fs[0].0 != k { GetSetOther(fs[1..], k, v, k'); }
  }

  lemma GetDeleteOther(fs: Fields, k: string, k': string)
    requires k' != k
    ensures Get(Delete(fs, k), k') == Get(fs, k')
  {
    if fs != [] { GetDeleteOther(fs[1..], k, k'); }
  }

  lemma HasTail(fs: Fields, k: string)
    requires fs != []
    ensures Has(fs, k) <==> fs[0].0 == k || Has(fs[1..], k)
  {
    if Has(fs, k) && fs[0].0 != k {
      var i :| 0 <= i < |fs| && fs[i].0 == k;
      assert fs[1..][i - 1].0 == k;
    }
    if Has(fs[1..], k) {
      var i :| 0 <= i < |fs[1..]| && fs[1..][i].0 == k;
      assert fs[i + 1].0 == k;
    }
  }

  lemma HasSet(fs: Fields, k: string, v: Value, k': string)
    ensures Has(Set(fs, k, v), k') <==> Has(fs, k') || k' == k
  {
    if fs != [] {
      HasTail(fs, k');
      if fs[0].0 == k {
        HasTail(Set(fs, k, v), k');
        assert Set(fs, k, v)[1..] == fs[1..];
      } else {
        HasSet(fs[1..], k, v, k');
        HasTail(Set(fs, k, v), k');
        assert Set(fs, k, v)[1..] == Set(fs[1..], k, v);
      }
    } else {
      HasTail(Set(fs, k, v), k');
    }
  }

  lemma HasDelete(fs: Fields, k: string, k': string)
    ensures Has(Delete(fs, k), k') <==> Has(fs, k') && k' != k
  {
    if fs != [] {
      HasTail(fs, k');
      HasDelete(fs[1..], k, k');
      if fs[0].0 != k {
        HasTail(Delete(fs, k), k');
        assert Delete(fs, k)[1..] == Delete(fs[1..], k);
      }
    }
  }

  /** In an object with distinct keys, a key sits at exactly one position. */
  lemma GetAt(fs: Fields, i: nat)
    requires DistinctKeys(fs) && i < |fs|
    ensures Get(fs, fs[i].0) == fs[i].1
  {
    if i > 0 {
      DistinctKeysTail(fs);
      GetAt(fs[1..], i - 1);
    }
  }

  lemma SetAt(fs: Fields, i: nat, v: Value)
    requires DistinctKeys(fs) && i < |fs|
    ensures Set(fs, fs[i].0, v) == fs[i := (fs[i].0, v)]
  {
    var k := fs[i].0;
    if i == 0 {
      assert Set(fs, k, v) == [(k, v)] + fs[1..];
      HeadUpdate(fs, (k, v));
    } else {
      DistinctKeysTail(fs);
      SetAt(fs[1..], i - 1, v);
      assert fs[0].0 != k;
      assert Set(fs, k, v) == [fs[0]] + Set(fs[1..], k, v);
      ConsUpdate(fs, i, (k, v));
    }
  }

  lemma HeadUpdate<T>(s: seq<T>, x: T)
    requires s != []
    ensures s[0 := x] == [x] + s[1..]
  {
  }

  lemma ConsUpdate<T>(s: seq<T>, i: nat, x: T)
    requires 0 < i < |s|
    ensures s[i := x] == [s[0]] + s[1..][i - 1 := x]
  {
  }

  lemma DistinctKeysTail(fs: Fields)
    requires DistinctKeys(fs) && fs != []
    ensures DistinctKeys(fs[1..])
  {
    forall a, b | 0 <= a < b < |fs[1..]| ensures fs[1..][a].0 != fs[1..][b].0 {
      assert fs[a + 1].0 != fs[b + 1].0;
    }
  }

  lemma DistinctKeysOwnKeys(fs: Fields)
    requires DistinctKeys(fs)
    ensures OwnKeys(fs) == Keys(fs)
  {
    if fs != [] {
      DistinctKeysTail(fs);
      DistinctKeysOwnKeys(fs[1..]);
      assert !Has(fs[1..], fs[0].0) by {
        forall i | 0 <= i < |fs[1..]| ensures fs[1..][i].0 != fs[0].0 {
          assert fs[1..][i] == fs[i + 1];
        }
      }
      WithoutAbsent(OwnKeys(fs[1..]), fs[0].0);
    }
  }

  lemma WithoutAbsent(ks: seq<string>, k: string)
    requires k !in ks
    ensures Without(ks, k) == ks
  {
    if ks != [] { WithoutAbsent(ks[1..], k); }
  }

  /* ---------- lemmas about heights ---------- */

  lemma GetHeight(fs: Fields, k: string)
    ensures Height(Get(fs, k)) <= FieldsHeight(fs)
  {
    if fs != [] && fs[0].0 != k { GetHeight(fs[1..], k); }
  }

  lemma SetHeight(fs: Fields, k: string, x: Value)
    ensures FieldsHeight(Set(fs, k, x)) <= Max(FieldsHeight(fs), Height(x))
  {
    if fs != [] && fs[0].0 != k { SetHeight(fs[1..], k, x); }
  }

  lemma DeleteHeight(fs: Fields, k: string)
    ensures FieldsHeight(Delete(fs, k)) <= FieldsHeight(fs)
  {
    if fs != [] { DeleteHeight(fs[1..], k); }
  }

  lemma ItemHeight(items: seq<Value>, i: nat)
    requires i < |items|
    ensures Height(items[i]) <= ItemsHeight(items)
  {
    if i > 0 { ItemHeight(items[1..], i - 1); }
  }

  lemma UpdateHeight(items: seq<Value>, i: nat, x: Value)
    requires i < |items|
    ensures ItemsHeight(items[i := x]) <= Max(ItemsHeight(items), Height(x))
  {
    if i > 0 {
      UpdateHeight(items[1..], i - 1, x);
      assert items[i := x][1..] == items[1..][i - 1 := x];
    } else {
      assert items[i := x][1..] == items[1..];
    }
  }

  /** Reading a property never yields a taller value than the one read from. */
  lemma MemberHeight(v: Value, key: Key)
    ensures Height(Member(v, key)) < Max(Height(v), 1)
  {
    match key
    case Name(k) => if v.Obj? { GetHeight(v.fields, k); }
    case Index(i) => if v.Arr? && i < |v.items| { ItemHeight(v.items, i); }
  }

  lemma AssignHeight(v: Value, key: Key, x: Value)
    ensures Height(Assign(v, key, x)) <= Max(Height(v), 1 + Height(x))
  {
    match key
    case Name(k) => if v.Obj? { SetHeight(v.fields, k, x); }
    case Index(i) => if v.Arr? && i < |v.items| { UpdateHeight(v.items, i, x); }
  }

  lemma RemoveHeight(v: Value, key: Key)
    ensures Height(Remove(v, key)) <= Height(v)
  {
    if key.Name? && v.Obj? { DeleteHeight(v.fields, key.name); }
  }

  lemma GetSetOthers(fs: Fields, k: string, v: Value)
    ensures forall k' :: k' != k ==> Get(Set(fs, k, v), k') == Get(fs, k')
  {
    forall k' | k' != k ensures Get(Set(fs, k, v), k') == Get(fs, k') {
      GetSetOther(fs, k, v, k');
    }
  }

  lemma GetDeleteOthers(fs: Fields, k: string)
    ensures forall k' :: k' != k ==> Get(Delete(fs, k), k') == Get(fs, k')
  {
    forall k' | k' != k ensures Get(Delete(fs, k), k') == Get(fs, k') {
      GetDeleteOther(fs, k, k');
    }
  }

  lemma AllGetHeight(fs: Fields)
    ensures forall k :: Height(Get(fs, k)) < Height(Obj(fs))
  {
    forall k ensures Height(Get(fs, k)) < Height(Obj(fs)) {
      GetHeight(fs, k);
    }
  }

  lemma GetSingle(k: string, v: Value, k': string)
    ensures Get([(k, v)], k') == if k == k' then v else Undef
  {
    assert [(k, v)][1..] == [];
  }

  lemma SingletonHeight(k: string, v: Value)
    ensures Height(Obj([(k, v)])) == 1 + Height(v)
  {
    var fs := [(k, v)];
    assert fs[1..] == [];
    assert FieldsHeight(fs[1..]) == 0;
    assert FieldsHeight(fs) == Max(Height(fs[0].1), FieldsHeight(fs[1..]));
  }

  lemma TakeAll<T>(s: seq<T>)
    ensures s[..|s|] == s && s[|s|..] == []
  {
  }

  lemma KeysDistinct(fs: Fields, gs: Fields)
    requires DistinctKeys(fs) && |gs| == |fs|
    requires forall i :: 0 <= i < |fs| ==> gs[i].0 == fs[i].0
    ensures DistinctKeys(gs)
  {
  }

  /** Setting a key that is not there appends it. */
  lemma SetAbsent(fs: Fields, k: string, v: Value)
    requires !Has(fs, k)
    ensures Set(fs, k, v) == fs + [(k, v)]
  {
    if fs != [] {
      HasTail(fs, k);
      SetAbsent(fs[1..], k, v);
      assert Set(fs, k, v) == [fs[0]] + (fs[1..] + [(k, v)]);
      assert fs == [fs[0]] + fs[1..];
    }
  }

  lemma DistinctKeysSet(fs: Fields, k: string, v: Value)
    requires DistinctKeys(fs)
    ensures DistinctKeys(Set(fs, k, v))
  {
    if Has(fs, k) {
      var i :| 0 <= i < |fs| && fs[i].0 == k;
      SetAt(fs, i, v);
    } else {
      SetAbsent(fs, k, v);
    }
  }

  /** Replacing values by no taller ones keeps an object no taller. */
  lemma {:induction false} FieldsHeightPointwise(fs: Fields, gs: Fields)
    requires |gs| == |fs|
    requires forall i :: 0 <= i < |fs| ==> Height(gs[i].1) <= Height(fs[i].1)
    ensures FieldsHeight(gs) <= FieldsHeight(fs)
  {
    if fs != [] {
      FieldsHeightPointwise(fs[1..], gs[1..]);
    }
  }

  /** Appending a field only adds its key, and only matters when the key is new. */
  lemma {:induction false} GetSnoc(fs: Fields, p: (string, Value), k: string)
    ensures Has(fs + [p], k) <==> Has(fs, k) || p.0 == k
    ensures Get(fs + [p], k) == if Has(fs, k) then Get(fs, k) else if p.0 == k then p.1 else Undef
  {
    if fs == [] {
      assert fs + [p] == [p];
      assert [p][1..] == [];
      if p.0 == k { assert [p][0].0 == k; }
    } else {
      assert (fs + [p])[1..] == fs[1..] + [p];
      GetSnoc(fs[1..], p, k);
      HasTail(fs, k);
      HasTail(fs + [p], k);
    }
  }
  /* ---------- concatenated field lists ---------- */

  lemma HasConcat(a: Fields, b: Fields, k: string)
    ensures Has(a + b, k) <==> Has(a, k) || Has(b, k)
  {
    if Has(a + b, k) {
      var i :| 0 <= i < |a + b| && (a + b)[i].0 == k;
      if i < |a| { assert a[i].0 == k; } else { assert b[i - |a|].0 == k; }
    }
    if Has(a, k) {
      var i :| 0 <= i < |a| && a[i].0 == k;
      assert (a + b)[i].0 == k;
    }
    if Has(b, k) {
      var i :| 0 <= i < |b| && b[i].0 == k;
      assert (a + b)[|a| + i].0 == k;
    }
  }

  /** A key that is not in `a` is read from `b`. */
  lemma {:induction false} GetConcat(a: Fields, b: Fields, k: string)
    requires !Has(a, k)
    ensures Get(a + b, k) == Get(b, k)
  {
    if a == [] {
      assert a + b == b;
    } else {
      HasTail(a, k);
      assert (a + b)[1..] == a[1..] + b;
      GetConcat(a[1..], b, k);
    }
  }

  /** A key that is not in `a` is written in `b`. */
  lemma {:induction false} SetConcat(a: Fields, b: Fields, k: string, x: Value)
    requires !Has(a, k)
    ensures Set(a + b, k, x) == a + Set(b, k, x)
  {
    if a == [] {
      assert a + b == b;
    } else {
      HasTail(a, k);
      assert (a + b)[1..] == a[1..] + b;
      SetConcat(a[1..], b, k, x);
      assert a == [a[0]] + a[1..];
    }
  }

  lemma {:induction false} DeleteConcat(a: Fields, b: Fields, k: string)
    ensures Delete(a + b, k) == Delete(a, k) + Delete(b, k)
  {
    if a == [] {
      assert a + b == b;
    } else {
      assert (a + b)[1..] == a[1..] + b;
      DeleteConcat(a[1..], b, k);
    }
  }

  lemma {:induction false} DeleteAbsent(fs: Fields, k: string)
    requires !Has(fs, k)
    ensures Delete(fs, k) == fs
  {
    if fs != [] {
      HasTail(fs, k);
      DeleteAbsent(fs[1..], k);
      assert fs == [fs[0]] + fs[1..];
    }
  }

  lemma {:induction false} FieldsHeightConcat(a: Fields, b: Fields)
    ensures FieldsHeight(a + b) == Max(FieldsHeight(a), FieldsHeight(b))
  {
    if a == [] {
      assert a + b == b;
    } else {
      assert (a + b)[1..] == a[1..] + b;
      assert (a + b)[0] == a[0];
      FieldsHeightConcat(a[1..], b);
    }
  }

  lemma FieldsHeightSingle(p: (string, Value))
    ensures FieldsHeight([p]) == Height(p.1)
  {
    assert [p][1..] == [];
  }
}
