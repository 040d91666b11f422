/** The JavaScript object values the metadata of a memory is built from, with
    the semantics of property assignment (`o[k] = v` overwrites in place or
    appends a new key), object spread (`{ ...a, ...b }`), truthiness, and
    `JSON.stringify`/`JSON.parse` as a pair of functions. */
module Json {
  import opened Wrappers

  datatype Value = Null | Bool(b: bool) | Num(n: real) | Str(s: string) | Arr(items: seq<Value>) | Obj(fields: seq<Field>)
  datatype Field = Field(key: string, value: Value)

  /** The property names of an object, in insertion order. */
  function Keys(fs: seq<Field>): (r: seq<string>)
    ensures |r| == |fs| && forall i :: 0 <= i < |fs| ==> r[i] == fs[i].key
  {
    seq(|fs|, i requires 0 <= i < |fs| => fs[i].key)
  }

  /** A JavaScript object never holds two properties with one name. */
  ghost predicate Keyed(fs: seq<Field>)
  {
    forall i, j :: 0 <= i < j < |fs| ==> fs[i].key != fs[j].key
  }

  /** `o[k]`: the value of the last property named `k`, if any. */
  function Get(fs: seq<Field>, k: string): (r: Option<Value>)
    ensures r.Some? ==> Field(k, r.value) in fs
    ensures r.None? <==> k !in Keys(fs)
  {
    if fs == [] then None
    else if fs[|fs| - 1].key == k then Some(fs[|fs| - 1].value)
    else
      var r := Get(fs[..|fs| - 1], k);
      assert Keys(fs) == Keys(fs[..|fs| - 1]) + [fs[|fs| - 1].key];
      r
  }

  /** `o[k] = v`: an existing property keeps its place and takes the new
      value; a new one is appended. */
  function Put(fs: seq<Field>, k: string, v: Value): (r: seq<Field>)
    ensures Keys(r) == if k in Keys(fs) then Keys(fs) else Keys(fs) + [k]
  {
    if fs == [] then [Field(k, v)]
    else if fs[0].key == k then [Field(k, v)] + fs[1..]
    else
      assert Keys(fs) == [fs[0].key] + Keys(fs[1..]);
      [fs[0]] + Put(fs[1..], k, v)
  }

  /** `{ ...a, ...b }` for an object `a` already built: `b`'s properties are
      assigned in order. */
  function Spread(a: seq<Field>, b: seq<Field>): seq<Field>
  {
    if b == [] then a else Put(Spread(a, b[..|b| - 1]), b[|b| - 1].key, b[|b| - 1].value)
  }

  /** `{ ...a }`. */
  function Copy(a: seq<Field>): seq<Field>
  {
    Spread([], a)
  }

  /** Assignment keeps names unique, gives `k` the new value and leaves every
      other property as it was. */
  lemma {:induction false} PutGet(fs: seq<Field>, k: string, v: Value)
    requires Keyed(fs)
    ensures Keyed(Put(fs, k, v))
    ensures forall k' :: Get(Put(fs, k, v), k') == if k' == k then Some(v) else Get(fs, k')
  {
    var r := Put(fs, k, v);
    var ks := Keys(r);
    assert forall i, j :: 0 <= i < j < |r| ==> ks[i] != ks[j] by {
      if k in Keys(fs) {
        assert ks == Keys(fs);
      } else {
        assert ks == Keys(fs) + [k];
      }
    }
    forall k' ensures Get(r, k') == if k' == k then Some(v) else Get(fs, k') {
      GetKeyed(fs, k');
      GetKeyed(r, k');
      if k' == k {
        assert Field(k, v) in r by { PutHas(fs, k, v); }
      } else if Get(fs, k').Some? {
        PutKeeps(fs, k, v, Field(k', Get(fs, k').value));
      } else {
        assert k' !in Keys(r);
      }
    }
  }

  lemma {:induction false} PutHas(fs: seq<Field>, k: string, v: Value)
    ensures Field(k, v) in Put(fs, k, v)
  {
    if fs != [] && fs[0].key != k {
      PutHas(fs[1..], k, v);
    }
  }

  lemma {:induction false} PutKeeps(fs: seq<Field>, k: string, v: Value, f: Field)
    requires f in fs && f.key != k
    ensures f in Put(fs, k, v)
  {
    if fs[0] != f {
      assert f in fs[1..];
      if fs[0].key != k {
        PutKeeps(fs[1..], k, v, f);
      }
    }
  }

  /** In an object with unique names, a property is found exactly when it is there. */
  lemma GetKeyed(fs: seq<Field>, k: string)
    requires Keyed(fs)
    ensures forall v :: Field(k, v) in fs ==> Get(fs, k) == Some(v)
  {
    forall v | Field(k, v) in fs ensures Get(fs, k) == Some(v) {
      var i :| 0 <= i < |fs| && fs[i] == Field(k, v);
      assert Get(fs, k).Some?;
      var j :| 0 <= j < |fs| && fs[j] == Field(k, Get(fs, k).value);
      assert i == j;
    }
  }

  /** A spread yields an object with unique names in which every property of
      `b` wins over the property of `a` with the same name. */
  lemma {:induction false} SpreadGet(a: seq<Field>, b: seq<Field>)
    requires Keyed(a)
    ensures Keyed(Spread(a, b))
    ensures forall k :: Get(Spread(a, b), k) == if Get(b, k).Some? then Get(b, k) else Get(a, k)
  {
    if b != [] {
      var init := b[..|b| - 1];
      var last := b[|b| - 1];
      SpreadGet(a, init);
      PutGet(Spread(a, init), last.key, last.value);
    }
  }

  /** Spreading one more property is assigning it after the spread. */
  lemma SpreadSnoc(a: seq<Field>, b: seq<Field>, f: Field)
    ensures Spread(a, b + [f]) == Put(Spread(a, b), f.key, f.value)
  {
    assert (b + [f])[..|b|] == b;
  }

  /** Spreading three properties with distinct names over an object: each of
      them is set, every other property stays. */
  lemma SpreadThree(a: seq<Field>, f1: Field, f2: Field, f3: Field)
    requires Keyed(a) && f1.key != f2.key && f1.key != f3.key && f2.key != f3.key
    ensures var m := Spread(a, [f1, f2, f3]);
      && Keyed(m)
      && Get(m, f1.key) == Some(f1.value) && Get(m, f2.key) == Some(f2.value) && Get(m, f3.key) == Some(f3.value)
      && forall k :: k != f1.key && k != f2.key && k != f3.key ==> Get(m, k) == Get(a, k)
  {
    SpreadSnoc(a, [], f1);
    SpreadSnoc(a, [f1], f2);
    SpreadSnoc(a, [f1, f2], f3);
    assert [f1] + [f2] == [f1, f2];
    assert [f1, f2] + [f3] == [f1, f2, f3];
    var m1 := Put(a, f1.key, f1.value);
    var m2 := Put(m1, f2.key, f2.value);
    PutGet(a, f1.key, f1.value);
    PutGet(m1, f2.key, f2.value);
    PutGet(m2, f3.key, f3.value);
  }

  /** Spreading one more property sets it and keeps the rest. */
  lemma SpreadOneMore(a: seq<Field>, b: seq<Field>, f: Field)
    requires Keyed(Spread(a, b))
    ensures Keyed(Spread(a, b + [f]))
    ensures forall k :: Get(Spread(a, b + [f]), k) == if k == f.key then Some(f.value) else Get(Spread(a, b), k)
  {
    SpreadSnoc(a, b, f);
    PutGet(Spread(a, b), f.key, f.value);
  }

  /** The same with a fourth property. */
  lemma SpreadFour(a: seq<Field>, f1: Field, f2: Field, f3: Field, f4: Field)
    requires Keyed(a) && f1.key != f2.key && f1.key != f3.key && f2.key != f3.key
    requires f4.key != f1.key && f4.key != f2.key && f4.key != f3.key
    ensures var m := Spread(a, [f1, f2, f3, f4]);
      && Keyed(m)
      && Get(m, f1.key) == Some(f1.value) && Get(m, f2.key) == Some(f2.value) && Get(m, f3.key) == Some(f3.value)
      && Get(m, f4.key) == Some(f4.value)
      && forall k :: k != f1.key && k != f2.key && k != f3.key && k != f4.key ==> Get(m, k) == Get(a, k)
  {
    SpreadThree(a, f1, f2, f3);
    assert [f1, f2, f3] + [f4] == [f1, f2, f3, f4];
    SpreadOneMore(a, [f1, f2, f3], f4);
  }

  /** JavaScript truthiness of a value (`NaN` is not modelled). */
  predicate Truthy(v: Value)
  {
    match v
    case Null => false
    case Bool(b) => b
    case Num(n) => n != 0.0
    case Str(s) => s != ""
    case Arr(_) => true
    case Obj(_) => true
  }

  /** `metadata.sector` when it is a string, which is what `classifyContent` checks. */
  function Sector(fs: seq<Field>): (r: Option<string>)
    ensures r.Some? <==> Get(fs, "sector").Some? && Get(fs, "sector").value.Str?
  {
    var v := Get(fs, "sector");
    if v.Some? && v.value.Str? then Some(v.value.s) else None
  }

  /** `JSON.stringify` and `JSON.parse` (a parse that throws is `None`). */
  datatype Codec = Codec(stringify: Value -> string, parse: string -> Option<Value>)

  /** `v` is written as a non-empty text that parses back to `v`. */
  predicate RoundTrips(c: Codec, v: Value)
  {
    c.stringify(v) != "" && c.parse(c.stringify(v)) == Some(v)
  }
}
