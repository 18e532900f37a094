/**
 * JavaScript values and plain objects. An object is an association list of
 * (key, value) entries in enumeration order, since definition order fixes the
 * order of the prompt questions. Also src/lib/object-map.js: `objectMap`.
 */
module JsObject {
  import opened Wrappers

  /** The JavaScript values the model passes around (numbers are taken as integers). */
  datatype JsValue =
    | Undefined
    | Null
    | Bool(b: bool)
    | Number(n: int)
    | Str(s: string)
    | Arr(items: seq<JsValue>)
    | Obj(entries: seq<(string, JsValue)>)

  /** The decimal digits of `n`. */
  function Digits(n: nat): (r: string)
    ensures r != [] && forall i :: 0 <= i < |r| ==> '0' <= r[i] <= '9'
  {
    var d := ['0', '1', '2', '3', '4', '5', '6', '7', '8', '9'][n % 10];
    if n < 10 then [d] else Digits(n / 10) + [d]
  }

  /**
   * `String(v)`, the text a replacement callback's result becomes: arrays
   * join their items with `,` (null and undefined items as empty text),
   * objects read `[object Object]`.
   */
  function ToText(v: JsValue): string
  {
    match v
    case Undefined => "undefined"
    case Null => "null"
    case Bool(b) => if b then "true" else "false"
    case Number(n) => if n < 0 then "-" + Digits(-n) else Digits(n)
    case Str(s) => s
    case Arr(items) => ItemsText(items)
    case Obj(_) => "[object Object]"
  }

  function ItemsText(items: seq<JsValue>): string
  {
    if items == [] then ""
    else
      var first := if items[0].Undefined? || items[0].Null? then "" else ToText(items[0]);
      if |items| == 1 then first else first + "," + ItemsText(items[1..])
  }

  /** The texts of values that are all strings. */
  function Texts(values: seq<JsValue>): (r: seq<string>)
    requires forall i :: 0 <= i < |values| ==> values[i].Str?
    ensures |r| == |values| && forall i :: 0 <= i < |values| ==> values[i] == Str(r[i])
  {
    seq(|values|, i requires 0 <= i < |values| => values[i].s)
  }

  /** The own enumerable entries of an object, as `Object.entries` lists them. */
  type Entries<V> = seq<(string, V)>

  /** `Object.keys(o)`. */
  function Keys<V>(o: Entries<V>): (r: seq<string>)
    ensures |r| == |o|
    ensures forall i :: 0 <= i < |o| ==> r[i] == o[i].0
  {
    seq(|o|, i requires 0 <= i < |o| => o[i].0)
  }

  /** Every JavaScript object has distinct keys; an association list models one only when this holds. */
  predicate DistinctKeys<V>(o: Entries<V>)
  {
    forall i, j :: 0 <= i < j < |o| ==> o[i].0 != o[j].0
  }

  /** `o[k]` for an own key: `None` when `k` is not a key of `o`. */
  function Get<V>(o: Entries<V>, k: string): (r: Option<V>)
    ensures r.Some? <==> k in Keys(o)
    ensures r.Some? ==> (k, r.value) in o
  {
    if o == [] then None
    else if o[0].0 == k then Some(o[0].1)
    else
      assert Keys(o) == [o[0].0] + Keys(o[1..]);
      Get(o[1..], k)
  }

  /** With distinct keys, the value of a key is the value of its one entry. */
  lemma {:induction false} GetEntry<V>(o: Entries<V>, i: nat)
    requires DistinctKeys(o) && i < |o|
    ensures Get(o, o[i].0) == Some(o[i].1)
  {
    if i > 0 {
      GetEntry(o[1..], i - 1);
    }
  }

  /** `o[k]` on a JavaScript object: `undefined` when `k` is absent. */
  function Lookup(o: Entries<JsValue>, k: string): JsValue
  {
    match Get(o, k)
    case Some(v) => v
    case None => Undefined
  }

  /**
   * The assignment `o[k] = v`: an existing key keeps its position and takes
   * the new value; a new key is appended. JavaScript enumerates string keys in
   * insertion order, but integer-like keys first, in ascending order; the model
   * keeps insertion order for every key.
   */
  function Set<V>(o: Entries<V>, k: string, v: V): (r: Entries<V>)
    ensures Keys(r) == if k in Keys(o) then Keys(o) else Keys(o) + [k]
    ensures k !in Keys(o) ==> r == o + [(k, v)]
  {
    if o == [] then [(k, v)]
    else
      KeysCons(o[0], o[1..]);
      if o[0].0 == k then
        KeysCons((k, v), o[1..]);
        [(k, v)] + o[1..]
      else
        var rest := Set(o[1..], k, v);
        KeysCons(o[0], rest);
        assert [o[0]] + (o[1..] + [(k, v)]) == o + [(k, v)];
        [o[0]] + rest
  }

  lemma KeysCons<V>(e: (string, V), o: Entries<V>)
    ensures Keys([e] + o) == [e.0] + Keys(o)
  {
  }

  /** After `o[k] = v`, reading `k` gives `v` and every other key reads as before. */
  lemma {:induction false} SetGet<V>(o: Entries<V>, k: string, v: V, k': string)
    ensures Get(Set(o, k, v), k') == if k' == k then Some(v) else Get(o, k')
  {
    if o != [] && o[0].0 != k {
      SetGet(o[1..], k, v, k');
    }
  }

  /** Assignment keeps the keys of an object distinct. */
  lemma SetDistinct<V>(o: Entries<V>, k: string, v: V)
    requires DistinctKeys(o)
    ensures DistinctKeys(Set(o, k, v))
  {
    var r := Set(o, k, v);
    assert Keys(r) == if k in Keys(o) then Keys(o) else Keys(o) + [k];
    forall i, j | 0 <= i < j < |r| ensures r[i].0 != r[j].0 {
      assert r[i].0 == Keys(r)[i] && r[j].0 == Keys(r)[j];
    }
  }

  /**
   * `Object.assign(target, source)`: assigns every own entry of `source` onto
   * `target`, in order. The target's keys stay first and in order, and the
   * keys of the result are those of the target and the source.
   */
  function Assign<V>(target: Entries<V>, source: Entries<V>): (r: Entries<V>)
    ensures |target| <= |r| && Keys(r)[..|target|] == Keys(target)
    ensures forall k :: k in Keys(r) <==> k in Keys(target) || k in Keys(source)
    decreases |source|
  {
    if source == [] then target
    else
      var t' := Set(target, source[0].0, source[0].1);
      var r := Assign(t', source[1..]);
      AssignPrefixStep(target, source, r);
      AssignMembersStep(target, source, r);
      r
  }

  /** One assignment of `Object.assign` keeps the keys already in front of the target. */
  lemma AssignPrefixStep<V>(target: Entries<V>, source: Entries<V>, r: Entries<V>)
    requires source != []
    requires var t' := Set(target, source[0].0, source[0].1);
      |t'| <= |r| && Keys(r)[..|t'|] == Keys(t')
    ensures |target| <= |r| && Keys(r)[..|target|] == Keys(target)
  {
    var t' := Set(target, source[0].0, source[0].1);
    assert Keys(t')[..|target|] == Keys(target);
    assert Keys(r)[..|target|] == Keys(r)[..|t'|][..|target|];
  }

  /** One assignment of `Object.assign` adds the source's first key to the keys of the rest. */
  lemma AssignMembersStep<V>(target: Entries<V>, source: Entries<V>, r: Entries<V>)
    requires source != []
    requires forall k :: k in Keys(r) <==> k in Keys(Set(target, source[0].0, source[0].1)) || k in Keys(source[1..])
    ensures forall k :: k in Keys(r) <==> k in Keys(target) || k in Keys(source)
  {
    var t' := Set(target, source[0].0, source[0].1);
    assert Keys(source) == [source[0].0] + Keys(source[1..]);
    assert forall k :: k in Keys(t') <==> k in Keys(target) || k == source[0].0;
  }

  /**
   * What `objectMap(obj, mapper)` computes: the same keys in the same order,
   * each value replaced by `mapper(value, key, obj)`.
   */
  function MapValues<V, U>(obj: Entries<V>, mapper: (V, string, Entries<V>) -> U): (r: Entries<U>)
    ensures |r| == |obj|
  {
    seq(|obj|, i requires 0 <= i < |obj| => (obj[i].0, mapper(obj[i].1, obj[i].0, obj)))
  }

  /**
   * `objectMap(obj, mapper)`: folds over `Object.entries(obj)`, assigning
   * `newObj[key] = mapper(value, key, obj)` on a fresh accumulator. The input is
   * a value, so it cannot be modified.
   */
  method ObjectMap<V, U>(obj: Entries<V>, mapper: (V, string, Entries<V>) -> U) returns (newObj: Entries<U>)
    requires DistinctKeys(obj)
    ensures newObj == MapValues(obj, mapper)
  {
    newObj := [];
    var i := 0;
    while i < |obj|
      invariant 0 <= i <= |obj|
      invariant |newObj| == i
      invariant forall j :: 0 <= j < i ==> newObj[j] == (obj[j].0, mapper(obj[j].1, obj[j].0, obj))
    {
      var (key, value) := obj[i];
      assert key !in Keys(newObj) by {
        forall j | 0 <= j < i ensures Keys(newObj)[j] != key {
          assert newObj[j].0 == obj[j].0;
        }
      }
      newObj := Set(newObj, key, mapper(value, key, obj));
      assert Keys(newObj)[i] == key;
      i := i + 1;
    }
  }

  /** The result of `objectMap` has exactly the input's keys, in order, and maps each to the mapper's value. */
  lemma MapValuesEntries<V, U>(obj: Entries<V>, mapper: (V, string, Entries<V>) -> U, k: string)
    requires DistinctKeys(obj)
    ensures Keys(MapValues(obj, mapper)) == Keys(obj)
    ensures DistinctKeys(MapValues(obj, mapper))
    ensures match Get(obj, k)
            case Some(v) => Get(MapValues(obj, mapper), k) == Some(mapper(v, k, obj))
            case None => Get(MapValues(obj, mapper), k).None?
  {
    var r := MapValues(obj, mapper);
    assert Keys(r) == Keys(obj);
    if k in Keys(obj) {
      var i :| 0 <= i < |obj| && obj[i].0 == k;
      GetEntry(obj, i);
      GetEntry(r, i);
    }
  }
}
