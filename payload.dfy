/**
 * Key/value payloads as JavaScript objects hold them: an ordered list of
 * entries (insertion order is what `Object.entries` and `JSON.stringify`
 * walk), with the object operations the client performs on them.
 */
module Payload {
  import opened Wrappers

  /**
   * A payload value. A Buffer is folded into `Str` (its UTF-8 text), so a
   * Buffer is treated like a string everywhere. Numbers are integers. An array holds objects only,
   * each wrapped as an `Item`.
   */
  datatype Value =
    | Str(s: string)
    | Num(n: int)
    | Bool(b: bool)
    | Null
    | Undefined
    | Obj(fields: seq<Entry>)
    | Arr(items: seq<Item>)

  datatype Entry = Entry(key: string, value: Value)

  /** An element of an array value: an object. */
  datatype Item = Item(fields: seq<Entry>)

  /** A plain object: its own enumerable properties in insertion order. */
  type Record = seq<Entry>

  /** `Object.keys(r)`. */
  function KeySeq(r: Record): (ks: seq<string>)
    ensures |ks| == |r|
    ensures forall i :: 0 <= i < |r| ==> ks[i] == r[i].key
  {
    if r == [] then [] else [r[0].key] + KeySeq(r[1..])
  }

  /** A JavaScript object never holds the same key twice. */
  predicate UniqueKeys(r: Record)
  {
    forall i, j :: 0 <= i < j < |r| ==> r[i].key != r[j].key
  }

  /** `k in r ? r[k] : absent`. */
  function Get(r: Record, k: string): (x: Option<Value>)
    ensures x.None? <==> k !in KeySeq(r)
  {
    if r == [] then None
    else if r[0].key == k then Some(r[0].value)
    else Get(r[1..], k)
  }

  /** Where key `k` sits, if present: the entry `Get` reads. */
  function IndexOf(r: Record, k: string): (i: Option<nat>)
    ensures i.Some? ==> i.value < |r| && r[i.value].key == k && Get(r, k) == Some(r[i.value].value)
    ensures i.None? ==> Get(r, k) == None
  {
    if r == [] then None
    else if r[0].key == k then Some(0)
    else match IndexOf(r[1..], k)
      case None => None
      case Some(j) => Some(j + 1)
  }

  /** In an object with unique keys, each entry is what its key reads back. */
  lemma {:induction false} GetAt(r: Record, i: nat)
    requires UniqueKeys(r) && i < |r|
    ensures Get(r, r[i].key) == Some(r[i].value)
  {
    if i > 0 {
      GetAt(r[1..], i - 1);
    }
  }

  /** `r[k] = v`: an existing key keeps its place, a new key goes last. */
  function Put(r: Record, k: string, v: Value): (r': Record)
    ensures Get(r', k) == Some(v)
    ensures forall k' :: k' != k ==> Get(r', k') == Get(r, k')
    ensures KeySeq(r') == if k in KeySeq(r) then KeySeq(r) else KeySeq(r) + [k]
  {
    if r == [] then [Entry(k, v)]
    else if r[0].key == k then
      var r' := [Entry(k, v)] + r[1..];
      assert r'[1..] == r[1..];
      assert KeySeq(r) == [k] + KeySeq(r[1..]);
      r'
    else
      var rest := Put(r[1..], k, v);
      PutStep(r, k, v, rest);
      [r[0]] + rest
  }

  /** The step of `Put` past an entry with another key. */
  lemma PutStep(r: Record, k: string, v: Value, rest: Record)
    requires r != [] && r[0].key != k
    requires Get(rest, k) == Some(v)
    requires forall k' :: k' != k ==> Get(rest, k') == Get(r[1..], k')
    requires KeySeq(rest) == if k in KeySeq(r[1..]) then KeySeq(r[1..]) else KeySeq(r[1..]) + [k]
    ensures Get([r[0]] + rest, k) == Some(v)
    ensures forall k' :: k' != k ==> Get([r[0]] + rest, k') == Get(r, k')
    ensures KeySeq([r[0]] + rest) == if k in KeySeq(r) then KeySeq(r) else KeySeq(r) + [k]
  {
    var r' := [r[0]] + rest;
    assert r'[1..] == rest;
    forall k' | k' != k ensures Get(r', k') == Get(r, k') {
      if r[0].key != k' {
        assert Get(r', k') == Get(rest, k');
      }
    }
    assert KeySeq(r') == [r[0].key] + KeySeq(rest);
    assert KeySeq(r) == [r[0].key] + KeySeq(r[1..]);
    assert k in KeySeq(r) <==> k in KeySeq(r[1..]);
  }

  lemma PutUnique(r: Record, k: string, v: Value)
    ensures UniqueKeys(r) ==> UniqueKeys(Put(r, k, v))
  {
    var r' := Put(r, k, v);
    if UniqueKeys(r) {
      var ks, old_ks := KeySeq(r'), KeySeq(r);
      forall i, j | 0 <= i < j < |r'| ensures r'[i].key != r'[j].key {
        assert ks[i] == r'[i].key && ks[j] == r'[j].key;
        if j < |r| {
          assert ks[i] == old_ks[i] == r[i].key && ks[j] == old_ks[j] == r[j].key;
        } else {
          assert ks[i] == old_ks[i] && old_ks[i] in old_ks;
        }
      }
    }
  }

  /** `delete r[k]`: the other entries keep their order. */
  function Delete(r: Record, k: string): (r': Record)
    ensures Get(r', k) == None
    ensures forall k' :: k' != k ==> Get(r', k') == Get(r, k')
    ensures forall k' :: k' in KeySeq(r') <==> k' in KeySeq(r) && k' != k
  {
    if r == [] then []
    else
      var rest := Delete(r[1..], k);
      assert KeySeq(r) == [r[0].key] + KeySeq(r[1..]);
      if r[0].key == k then rest
      else
        assert KeySeq([r[0]] + rest) == [r[0].key] + KeySeq(rest);
        [r[0]] + rest
  }

  /** Two records with unique, disjoint keys concatenate to one with unique keys. */
  lemma UniqueAppend(a: Record, b: Record)
    requires UniqueKeys(a) && UniqueKeys(b)
    requires forall k :: k in KeySeq(a) ==> k !in KeySeq(b)
    ensures UniqueKeys(a + b)
  {
    var c := a + b;
    forall i, j | 0 <= i < j < |c| ensures c[i].key != c[j].key {
      if j < |a| {
        assert c[i] == a[i] && c[j] == a[j];
      } else if i >= |a| {
        assert c[i] == b[i - |a|] && c[j] == b[j - |a|];
      } else {
        assert c[i] == a[i] && c[j] == b[j - |a|];
        assert a[i].key in KeySeq(a) by { assert KeySeq(a)[i] == a[i].key; }
        assert b[j - |a|].key in KeySeq(b) by { assert KeySeq(b)[j - |a|] == b[j - |a|].key; }
      }
    }
  }

  /** `{...a, ...b}`: `b`'s entries are written over `a` one by one, in order. */
  function Spread(a: Record, b: Record): (r: Record)
    ensures UniqueKeys(a) ==> UniqueKeys(r)
    ensures KeySeq(a) <= KeySeq(r)
    decreases |b|
  {
    if b == [] then a
    else
      PutUnique(a, b[0].key, b[0].value);
      Spread(Put(a, b[0].key, b[0].value), b[1..])
  }

  /** A key of `b` takes `b`'s value; any other key keeps `a`'s. */
  lemma {:induction false} GetSpread(a: Record, b: Record, k: string)
    requires UniqueKeys(b)
    ensures Get(Spread(a, b), k) == if k in KeySeq(b) then Get(b, k) else Get(a, k)
    decreases |b|
  {
    if b != [] {
      GetSpread(Put(a, b[0].key, b[0].value), b[1..], k);
      assert KeySeq(b) == [b[0].key] + KeySeq(b[1..]);
    }
  }

  /** JavaScript truthiness: `""`, `0`, `false`, `null` and `undefined` are falsy; objects and arrays are not. */
  predicate Truthy(v: Value)
  {
    match v
    case Str(s) => s != ""
    case Num(n) => n != 0
    case Bool(b) => b
    case Null => false
    case Undefined => false
    case Obj(_) => true
    case Arr(_) => true
  }

  /** `x ?? d`: the fallback applies to absent, `undefined` and `null`. */
  function Coalesce(x: Option<Value>, d: Value): (r: Value)
    ensures x.Some? && !x.value.Undefined? && !x.value.Null? ==> r == x.value
    ensures x.None? || x.value.Undefined? || x.value.Null? ==> r == d
  {
    if x.Some? && !x.value.Undefined? && !x.value.Null? then x.value else d
  }

  /** `r[k]`, where an absent key reads as `undefined`. */
  function Read(r: Record, k: string): Value
  {
    match Get(r, k)
    case Some(v) => v
    case None => Undefined
  }
}
