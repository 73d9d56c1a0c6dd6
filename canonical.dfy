/**
 * The canonical string that requests are signed over and responses are
 * verified against: `sortKeys` and `convertDataToString` of src/utils.ts.
 *
 * `sortKeys` walks the keys in sorted order, drops `sign`, keeps strings and
 * numbers, normalises every object of an array by the same rule, and
 * replaces any other object by the sorted list of its key names.
 * `convertDataToString` renders one `key=value` part per remaining key,
 * sorts those parts again as whole strings and concatenates them.
 */
module Canonical {
  import opened Wrappers
  import opened Text
  import opened Payload
  import opened Lists
  import Json

  /** A value as `sortKeys` stores it. */
  datatype Norm =
    | NStr(s: string)
    | NNum(n: int)
    | NBool(b: bool)
    | NNull
    | NUndefined
    | NKeys(names: seq<string>)
    | NArr(items: seq<NItem>)

  datatype NEntry = NEntry(key: string, value: Norm)

  datatype NItem = NItem(fields: seq<NEntry>)

  /** The key excluded from every canonical string. */
  const SignKey := "sign"

  // ---------------------------------------------------------------------
  // sortKeys, as a specification

  function NormalizeValue(v: Value): Norm
    decreases v, 0
  {
    match v
    case Str(s) => NStr(s)
    case Num(n) => NNum(n)
    case Arr(items) => NArr(NormalizeItems(items))
    case Obj(fields) => NKeys(Sort(KeySeq(fields)))
    case Bool(b) => NBool(b)
    case Null => NNull
    case Undefined => NUndefined
  }

  function NormalizeItems(items: seq<Item>): (r: seq<NItem>)
    ensures |r| == |items|
    decreases items, 0
  {
    if items == [] then []
    else
      [NItem(Normalized(items[0].fields))] + NormalizeItems(items[1..])
  }

  /** The walk over the keys `ks` of `r`, skipping `sign`. */
  function NormalizeFields(r: Record, ks: seq<string>): seq<NEntry>
    decreases r, |ks|
  {
    if ks == [] then [] else FieldEntry(r, ks[0]) + NormalizeFields(r, ks[1..])
  }

  /** What the walk stores for key `k` of `r`: nothing for `sign`. */
  function FieldEntry(r: Record, k: string): (es: seq<NEntry>)
    ensures |es| <= 1
    decreases r, 0
  {
    if k == SignKey then []
    else match IndexOf(r, k)
      case None => []
      case Some(i) => [NEntry(k, NormalizeValue(r[i].value))]
  }

  /** `sortKeys(r)`. */
  function Normalized(r: Record): seq<NEntry>
  {
    NormalizeFields(r, Sort(KeySeq(r)))
  }

  // ---------------------------------------------------------------------
  // convertDataToString, as a specification

  /** `JSON.stringify` of a normalised value; `None` for `undefined`. */
  function NormJson(n: Norm): (r: Option<string>)
    ensures r.None? <==> n.NUndefined?
    decreases n, 0
  {
    match n
    case NStr(s) => Some(Json.Quote(s))
    case NNum(k) => Some(IntToString(k))
    case NBool(b) => Some(if b then "true" else "false")
    case NNull => Some("null")
    case NUndefined => None
    case NKeys(names) => Some("[" + Join(",", QuoteAll(names)) + "]")
    case NArr(items) => Some("[" + Join(",", NormItemsJson(items)) + "]")
  }

  function QuoteAll(names: seq<string>): (r: seq<string>)
    ensures |r| == |names|
  {
    if names == [] then [] else [Json.Quote(names[0])] + QuoteAll(names[1..])
  }

  function NormItemsJson(items: seq<NItem>): (r: seq<string>)
    ensures |r| == |items|
    decreases items, 0
  {
    if items == [] then [] else [NormObjectJson(items[0].fields)] + NormItemsJson(items[1..])
  }

  /** An object: members whose value is `undefined` are left out. */
  function NormObjectJson(fields: seq<NEntry>): string
    decreases fields, 1
  {
    "{" + Join(",", NormMembersJson(fields)) + "}"
  }

  function NormMembersJson(fields: seq<NEntry>): seq<string>
    decreases fields, 0
  {
    if fields == [] then []
    else
      var rest := NormMembersJson(fields[1..]);
      match NormJson(fields[0].value)
      case None => rest
      case Some(t) => [Json.Quote(fields[0].key) + ":" + t] + rest
  }

  /** The text after `key=`: a string verbatim, `undefined` as the word, anything else as JSON. */
  function Render(n: Norm): string
  {
    if n.NStr? then n.s
    else match NormJson(n)
      case None => "undefined"
      case Some(t) => t
  }

  function Part(e: NEntry): string
  {
    e.key + "=" + Render(e.value)
  }

  function Parts(es: seq<NEntry>): (r: seq<string>)
    ensures |r| == |es|
    ensures forall i :: 0 <= i < |es| ==> r[i] == Part(es[i])
  {
    if es == [] then [] else [Part(es[0])] + Parts(es[1..])
  }

  /** `convertDataToString(r)`. */
  function CanonicalString(r: Record): string
  {
    Concat(Sort(Parts(Normalized(r))))
  }

  // ---------------------------------------------------------------------
  // The source's loops

  /** `sortKeys`: fills `sorted` while walking the sorted keys. */
  method SortKeys(data: Record) returns (sorted: seq<NEntry>)
    ensures sorted == Normalized(data)
    decreases data, 2
  {
    var keys := Sort(KeySeq(data));
    sorted := WalkKeys(data, keys);
  }

  /** The loop of `sortKeys` over the keys `keys`. */
  method WalkKeys(data: Record, keys: seq<string>) returns (sorted: seq<NEntry>)
    ensures sorted == NormalizeFields(data, keys)
    decreases data, 1
  {
    sorted := [];
    for i := 0 to |keys|
      invariant sorted == NormalizeFields(data, keys[..i])
    {
      var es := KeyEntry(data, keys[i]);
      NormalizeFieldsAppend(data, keys[..i], [keys[i]]);
      assert keys[..i + 1] == keys[..i] + [keys[i]];
      sorted := sorted + es;
    }
    assert keys[..|keys|] == keys;
  }

  /** One step of `sortKeys`: `sign` and absent keys store nothing. */
  method KeyEntry(data: Record, key: string) returns (es: seq<NEntry>)
    ensures es == FieldEntry(data, key)
    decreases data, 0
  {
    es := [];
    if key != SignKey {
      match IndexOf(data, key)
      case Some(j) =>
        var n := NormalizeOne(data[j].value);
        es := [NEntry(key, n)];
      case None =>
    }
  }

  /** The branch on the type of one value inside `sortKeys`. */
  method NormalizeOne(value: Value) returns (n: Norm)
    ensures n == NormalizeValue(value)
    decreases value, 0
  {
    match value
    case Str(s) => n := NStr(s);
    case Num(k) => n := NNum(k);
    case Arr(items) =>
      var out := NormalizeArray(items);
      n := NArr(out);
    case Obj(fields) => n := NKeys(Sort(KeySeq(fields)));
    case Bool(b) => n := NBool(b);
    case Null => n := NNull;
    case Undefined => n := NUndefined;
  }

  /** The array case, `value.map(item => sortKeys(item))`. */
  method NormalizeArray(items: seq<Item>) returns (out: seq<NItem>)
    ensures out == NormalizeItems(items)
    decreases items, 0
  {
    if items == [] {
      out := [];
    } else {
      var s := SortKeys(items[0].fields);
      var rest := NormalizeArray(items[1..]);
      out := [NItem(s)] + rest;
    }
  }

  lemma {:induction false} NormalizeFieldsAppend(r: Record, a: seq<string>, b: seq<string>)
    ensures NormalizeFields(r, a + b) == NormalizeFields(r, a) + NormalizeFields(r, b)
    decreases |a|
  {
    if a != [] {
      assert (a + b)[0] == a[0] && (a + b)[1..] == a[1..] + b;
      NormalizeFieldsAppend(r, a[1..], b);
    } else {
      assert a + b == b;
    }
  }

  /** `convertDataToString`: pushes the parts, sorts them, joins them. */
  method ConvertDataToString(data: Record) returns (s: string)
    ensures s == CanonicalString(data)
  {
    var obj := SortKeys(data);
    var parts := PushParts(obj);
    parts := Sort(parts);
    s := Concat(parts);
  }

  /** The loop of `convertDataToString` that renders each entry as `key=value`. */
  method PushParts(obj: seq<NEntry>) returns (parts: seq<string>)
    ensures parts == Parts(obj)
  {
    parts := [];
    for i := 0 to |obj|
      invariant parts == Parts(obj[..i])
    {
      var strVal := RenderValue(obj[i].value);
      assert obj[..i + 1] == obj[..i] + [obj[i]];
      PartsAppend(obj[..i], [obj[i]]);
      parts := parts + [obj[i].key + "=" + strVal];
    }
    assert obj[..|obj|] == obj;
  }

  /** The text of one value: strings verbatim, everything else through `JSON.stringify`. */
  method RenderValue(value: Norm) returns (strVal: string)
    ensures strVal == Render(value)
  {
    if value.NStr? {
      strVal := value.s;
    } else {
      match NormJson(value)
      case None => strVal := "undefined";
      case Some(t) => strVal := t;
    }
  }

  lemma {:induction false} PartsAppend(a: seq<NEntry>, b: seq<NEntry>)
    ensures Parts(a + b) == Parts(a) + Parts(b)
    decreases |a|
  {
    if a == [] {
      assert a + b == b;
    } else {
      assert (a + b)[0] == a[0] && (a + b)[1..] == a[1..] + b;
      PartsAppend(a[1..], b);
    }
  }

  // ---------------------------------------------------------------------
  // What the canonical string depends on

  /**
   * How a value is rendered after `key=`: a string verbatim, a number as its
   * decimal text, booleans and `null` as their JSON words, `undefined` as
   * the word `undefined`, and a nested object as the JSON array of its
   * sorted key names.
   */
  lemma RenderRules(v: Value)
    ensures v.Str? ==> Render(NormalizeValue(v)) == v.s
    ensures v.Num? ==> Render(NormalizeValue(v)) == IntToString(v.n)
    ensures v.Bool? ==> Render(NormalizeValue(v)) == if v.b then "true" else "false"
    ensures v.Null? ==> Render(NormalizeValue(v)) == "null"
    ensures v.Undefined? ==> Render(NormalizeValue(v)) == "undefined"
    ensures v.Obj? ==> Render(NormalizeValue(v)) == "[" + Join(",", QuoteAll(Sort(KeySeq(v.fields)))) + "]"
  {
  }

  /** The normalised value stored under a key, when the key is present. */
  function NormalizeOpt(x: Option<Value>): Option<Norm>
  {
    match x
    case None => None
    case Some(v) => Some(NormalizeValue(v))
  }

  /** The walk stores for `k` exactly what `Get` reads there, normalised, unless `k` is `sign`. */
  lemma FieldEntryByGet(r: Record, k: string)
    ensures FieldEntry(r, k) ==
      if k == SignKey || Get(r, k).None? then [] else [NEntry(k, NormalizeValue(Get(r, k).value))]
  {
  }

  /** The parts one key contributes. */
  function FieldParts(r: Record): string -> seq<string>
  {
    k => Parts(FieldEntry(r, k))
  }

  lemma {:induction false} FieldPartsFlatMap(r: Record, ks: seq<string>)
    ensures Parts(NormalizeFields(r, ks)) == FlatMap(FieldParts(r), ks)
    decreases |ks|
  {
    if ks != [] {
      PartsAppend(FieldEntry(r, ks[0]), NormalizeFields(r, ks[1..]));
      FieldPartsFlatMap(r, ks[1..]);
    }
  }

  /** `ks` without `sign`. */
  function NonSignKeys(ks: seq<string>): (r: seq<string>)
    ensures forall k :: k in r <==> k in ks && k != SignKey
  {
    if ks == [] then []
    else if ks[0] == SignKey then NonSignKeys(ks[1..])
    else [ks[0]] + NonSignKeys(ks[1..])
  }

  lemma {:induction false} NonSignKeysDistinct(ks: seq<string>)
    requires Distinct(ks)
    ensures Distinct(NonSignKeys(ks))
    decreases |ks|
  {
    if ks != [] {
      assert Distinct(ks[1..]);
      NonSignKeysDistinct(ks[1..]);
      assert ks[0] !in ks[1..];
    }
  }

  lemma {:induction false} FieldsSkipSign(r: Record, ks: seq<string>)
    ensures NormalizeFields(r, ks) == NormalizeFields(r, NonSignKeys(ks))
    decreases |ks|
  {
    if ks != [] {
      FieldsSkipSign(r, ks[1..]);
    }
  }

  lemma {:induction false} FieldsAgree(a: Record, b: Record, ks: seq<string>)
    requires forall k :: k in ks ==> FieldEntry(a, k) == FieldEntry(b, k)
    ensures NormalizeFields(a, ks) == NormalizeFields(b, ks)
    decreases |ks|
  {
    if ks != [] {
      assert ks[0] in ks;
      FieldsAgree(a, b, ks[1..]);
    }
  }

  lemma KeysDistinct(r: Record)
    requires UniqueKeys(r)
    ensures Distinct(KeySeq(r))
  {
  }

  /** Up to order, the parts of `sortKeys(r)` are the parts of the non-`sign` keys in input order. */
  lemma PartsUpToOrder(r: Record)
    ensures multiset(Parts(Normalized(r))) == multiset(FlatMap(FieldParts(r), NonSignKeys(KeySeq(r))))
  {
    var ks := KeySeq(r);
    FieldPartsFlatMap(r, Sort(ks));
    FlatMapPermutation(FieldParts(r), Sort(ks), ks);
    FieldPartsFlatMap(r, ks);
    FieldsSkipSign(r, ks);
    FieldPartsFlatMap(r, NonSignKeys(ks));
  }

  /**
   * The canonical string depends only on the normalised value under each
   * key other than `sign`: not on the order of the keys, not on `sign`.
   */
  lemma CanonicalDependsOnNormalizedValues(a: Record, b: Record)
    requires UniqueKeys(a) && UniqueKeys(b)
    requires forall k :: k != SignKey ==> NormalizeOpt(Get(a, k)) == NormalizeOpt(Get(b, k))
    ensures CanonicalString(a) == CanonicalString(b)
  {
    var na, nb := NonSignKeys(KeySeq(a)), NonSignKeys(KeySeq(b));
    KeysDistinct(a);
    KeysDistinct(b);
    NonSignKeysDistinct(KeySeq(a));
    NonSignKeysDistinct(KeySeq(b));
    forall k ensures k in na <==> k in nb {
      assert NormalizeOpt(Get(a, k)).None? <==> Get(a, k).None?;
      assert NormalizeOpt(Get(b, k)).None? <==> Get(b, k).None?;
    }
    DistinctSameElements(na, nb);
    forall k | k in nb ensures FieldEntry(a, k) == FieldEntry(b, k) {
      FieldEntryByGet(a, k);
      FieldEntryByGet(b, k);
    }
    FieldsAgree(a, b, nb);
    FieldPartsFlatMap(a, nb);
    FieldPartsFlatMap(b, nb);
    FlatMapPermutation(FieldParts(a), na, nb);
    PartsUpToOrder(a);
    PartsUpToOrder(b);
    SortPermutationInvariant(Parts(Normalized(a)), Parts(Normalized(b)));
  }

  /** Reordering the keys leaves the canonical string unchanged, and so does any value under `sign`. */
  lemma CanonicalIgnoresOrderAndSign(a: Record, b: Record)
    requires UniqueKeys(a) && UniqueKeys(b)
    requires forall k :: k != SignKey ==> Get(a, k) == Get(b, k)
    ensures CanonicalString(a) == CanonicalString(b)
  {
    CanonicalDependsOnNormalizedValues(a, b);
  }

  /** Setting `sign` on a payload does not change what is signed. */
  lemma CanonicalIgnoresSign(r: Record, v: Value)
    requires UniqueKeys(r)
    ensures CanonicalString(Put(r, SignKey, v)) == CanonicalString(r)
  {
    PutUnique(r, SignKey, v);
    CanonicalDependsOnNormalizedValues(Put(r, SignKey, v), r);
  }

  /**
   * A nested object contributes only its key names: two objects with the
   * same keys give the same canonical string whatever their values.
   */
  lemma CanonicalIgnoresNestedValues(r: Record, k: string, f: seq<Entry>, g: seq<Entry>)
    requires UniqueKeys(r)
    requires multiset(KeySeq(f)) == multiset(KeySeq(g))
    ensures CanonicalString(Put(r, k, Obj(f))) == CanonicalString(Put(r, k, Obj(g)))
  {
    SortPermutationInvariant(KeySeq(f), KeySeq(g));
    PutUnique(r, k, Obj(f));
    PutUnique(r, k, Obj(g));
    CanonicalDependsOnNormalizedValues(Put(r, k, Obj(f)), Put(r, k, Obj(g)));
  }

  /** The non-`sign` entries of `r` in input order, normalised. */
  function InputOrderEntries(r: Record): seq<NEntry>
  {
    if r == [] then []
    else
      (if r[0].key == SignKey then [] else [NEntry(r[0].key, NormalizeValue(r[0].value))])
      + InputOrderEntries(r[1..])
  }

  lemma {:induction false} WalkInInputOrder(r: Record, i: nat)
    requires UniqueKeys(r) && i <= |r|
    ensures NormalizeFields(r, KeySeq(r)[i..]) == InputOrderEntries(r[i..])
    decreases |r| - i
  {
    if i < |r| {
      WalkInInputOrder(r, i + 1);
      assert KeySeq(r)[i..][0] == r[i].key && KeySeq(r)[i..][1..] == KeySeq(r)[i + 1..];
      assert r[i..][0] == r[i] && r[i..][1..] == r[i + 1..];
      GetAt(r, i);
      FieldEntryByGet(r, r[i].key);
    }
  }

  /**
   * The canonical string is the concatenation, in sorted order, of one
   * `key=value` part per key other than `sign`.
   */
  lemma CanonicalIsSortedRendering(r: Record)
    requires UniqueKeys(r)
    ensures CanonicalString(r) == Concat(Sort(Parts(InputOrderEntries(r))))
  {
    PartsUpToOrder(r);
    WalkInInputOrder(r, 0);
    assert KeySeq(r)[0..] == KeySeq(r) && r[0..] == r;
    FieldsSkipSign(r, KeySeq(r));
    FieldPartsFlatMap(r, NonSignKeys(KeySeq(r)));
    SortPermutationInvariant(Parts(Normalized(r)), Parts(InputOrderEntries(r)));
  }

  /** The key names of normalised entries. */
  function NKeySeq(es: seq<NEntry>): (ks: seq<string>)
    ensures |ks| == |es|
    ensures forall i :: 0 <= i < |es| ==> ks[i] == es[i].key
  {
    if es == [] then [] else [es[0].key] + NKeySeq(es[1..])
  }

  lemma {:induction false} FieldsKeys(r: Record, ks: seq<string>)
    ensures forall k :: k in NKeySeq(NormalizeFields(r, ks)) <==> k in ks && k in KeySeq(r) && k != SignKey
    decreases |ks|
  {
    if ks != [] {
      FieldsKeys(r, ks[1..]);
      FieldEntryByGet(r, ks[0]);
      var head, rest := FieldEntry(r, ks[0]), NormalizeFields(r, ks[1..]);
      assert NKeySeq(head + rest) == NKeySeq(head) + NKeySeq(rest);
      assert ks == [ks[0]] + ks[1..];
    }
  }

  lemma {:induction false} FieldsSorted(r: Record, ks: seq<string>)
    requires Sorted(ks)
    ensures Sorted(NKeySeq(NormalizeFields(r, ks)))
    decreases |ks|
  {
    if ks != [] {
      assert Sorted(ks[1..]);
      FieldsSorted(r, ks[1..]);
      FieldsKeys(r, ks[1..]);
      FieldEntryByGet(r, ks[0]);
      var head, rest := FieldEntry(r, ks[0]), NormalizeFields(r, ks[1..]);
      assert NKeySeq(head + rest) == NKeySeq(head) + NKeySeq(rest);
      forall j | 0 <= j < |NKeySeq(rest)| ensures Le(ks[0], NKeySeq(rest)[j]) {
        var k := NKeySeq(rest)[j];
        assert k in ks[1..];
        var m :| 0 <= m < |ks[1..]| && ks[1..][m] == k;
        assert ks[m + 1] == k;
      }
    }
  }

  /** Walking keys without repeats stores each key at most once. */
  lemma {:induction false} FieldsDistinct(r: Record, ks: seq<string>)
    requires Distinct(ks)
    ensures Distinct(NKeySeq(NormalizeFields(r, ks)))
    decreases |ks|
  {
    if ks != [] {
      assert Distinct(ks[1..]);
      FieldsDistinct(r, ks[1..]);
      FieldsKeys(r, ks[1..]);
      var head, rest := FieldEntry(r, ks[0]), NormalizeFields(r, ks[1..]);
      assert NKeySeq(head + rest) == NKeySeq(head) + NKeySeq(rest);
      assert ks[0] !in ks[1..];
    }
  }

  /**
   * `sortKeys(r)` holds every key of `r` except `sign`, each once, in
   * sorted order.
   */
  lemma NormalizedShape(r: Record)
    ensures Sorted(NKeySeq(Normalized(r)))
    ensures forall k :: k in NKeySeq(Normalized(r)) <==> k in KeySeq(r) && k != SignKey
    ensures UniqueKeys(r) ==> Distinct(NKeySeq(Normalized(r)))
  {
    if UniqueKeys(r) {
      KeysDistinct(r);
      PermutationDistinct(KeySeq(r), Sort(KeySeq(r)));
      FieldsDistinct(r, Sort(KeySeq(r)));
    }
    SortSorted(KeySeq(r));
    FieldsKeys(r, Sort(KeySeq(r)));
    FieldsSorted(r, Sort(KeySeq(r)));
    forall k ensures k in Sort(KeySeq(r)) <==> k in KeySeq(r) {
      assert k in multiset(Sort(KeySeq(r))) <==> k in multiset(KeySeq(r));
    }
  }

  /**
   * The parts are sorted as whole strings, so a key that is a prefix of
   * another can land after it: `a` sorts before `a-b`, but `a-b=2` sorts
   * before `a=1` because `-` precedes `=`.
   */
  lemma PartsSortedAsWholeStrings()
    ensures Sort(["a", "a-b"]) == ["a", "a-b"]
    ensures CanonicalString([Entry("a", Num(1)), Entry("a-b", Num(2))]) == "a-b=2" + "a=1"
  {
    assert Le("a", "a-b") by { assert "a"[1..] == []; }
    SortPair("a", "a-b");
    assert !Le("a=1", "a-b=2") by {
      assert "a=1"[1..] == "=1" && "a-b=2"[1..] == "-b=2";
    }
    SortPair("a=1", "a-b=2");
    assert "a" != SignKey && "a-b" != SignKey && "a" != "a-b";
    TwoEntries(Entry("a", Num(1)), Entry("a-b", Num(2)));
    PairConcat(Entry("a", Num(1)), Entry("a-b", Num(2)));
    QuirkParts();
    ConcatPair("a-b=2", "a=1");
  }

  lemma TwoEntries(e1: Entry, e2: Entry)
    requires e1.key != e2.key && e1.key != SignKey && e2.key != SignKey
    ensures CanonicalString([e1] + [e2])
      == Concat(Sort([e1.key + "=" + Render(NormalizeValue(e1.value)), e2.key + "=" + Render(NormalizeValue(e2.value))]))
  {
    var r := [e1] + [e2];
    var n1, n2 := NEntry(e1.key, NormalizeValue(e1.value)), NEntry(e2.key, NormalizeValue(e2.value));
    calc {
      CanonicalString(r);
    == { assert UniqueKeys(r); CanonicalIsSortedRendering(r); }
      Concat(Sort(Parts(InputOrderEntries(r))));
    == { InputOrderCons(e2, []);
         InputOrderCons(e1, [e2]);
         assert [n1] + ([n2] + []) == [n1, n2]; }
      Concat(Sort(Parts([n1, n2])));
    == { PartsPair(n1, n2); }
      Concat(Sort([Part(n1), Part(n2)]));
    }
  }

  lemma PartsPair(a: NEntry, b: NEntry)
    ensures Parts([a, b]) == [Part(a), Part(b)]
  {
    assert [a, b][1..] == [b] && [b][1..] == [];
  }

  lemma QuirkParts()
    ensures "a" + "=" + Render(NormalizeValue(Num(1))) == "a=1"
    ensures "a-b" + "=" + Render(NormalizeValue(Num(2))) == "a-b=2"
  {
    RenderSmallNumber(1);
    RenderSmallNumber(2);
  }

  lemma RenderSmallNumber(d: nat)
    requires d < 10
    ensures Render(NormalizeValue(Num(d))) == [DigitChar(d)]
  {
    assert IntToString(d) == [DigitChar(d)];
  }

  lemma ConcatPair(x: string, y: string)
    ensures Concat([x, y]) == x + y
  {
    assert [x, y][1..] == [y] && [y][1..] == [];
    assert Concat([y]) == y + Concat([]) == y;
    assert Concat([x, y]) == x + Concat([y]);
  }

  lemma PairConcat<T>(a: T, b: T)
    ensures [a] + [b] == [a, b]
  {
  }

  lemma InputOrderCons(e: Entry, rest: Record)
    requires e.key != SignKey
    ensures InputOrderEntries([e] + rest) == [NEntry(e.key, NormalizeValue(e.value))] + InputOrderEntries(rest)
  {
    assert ([e] + rest)[0] == e && ([e] + rest)[1..] == rest;
  }

  lemma SortPair(x: string, y: string)
    ensures Sort([x, y]) == if Le(x, y) then [x, y] else [y, x]
  {
    assert Sort([y]) == [y] by {
      assert [y][1..] == [];
    }
    assert Sort([x, y]) == Insert(x, [y]) by {
      assert [x, y][0] == x && [x, y][1..] == [y];
    }
    assert Insert(x, [y]) == if Le(x, y) then [x, y] else [y, x] by {
      assert [y][1..] == [] && Insert(x, []) == [x];
    }
  }

  /**
   * The canonical string does not separate one part from the next or a key
   * from its value unambiguously: different payloads can share it.
   */
  lemma CanonicalNotInjective()
    ensures CanonicalString([Entry("a", Str("=b"))]) == CanonicalString([Entry("a=", Str("b"))]) == "a==b"
  {
    assert "a" != SignKey && "a=" != SignKey;
    SingleEntry("a", Str("=b"));
    SingleEntry("a=", Str("b"));
    RenderString("=b");
    RenderString("b");
    EqualsJoins();
  }

  lemma RenderString(s: string)
    ensures Render(NormalizeValue(Str(s))) == s
  {
  }

  lemma EqualsJoins()
    ensures "a" + "=" + "=b" == "a==b" == "a=" + "=" + "b"
  {
  }

  lemma SingleEntry(k: string, v: Value)
    requires k != SignKey
    ensures CanonicalString([Entry(k, v)]) == k + "=" + Render(NormalizeValue(v))
  {
    var r := [Entry(k, v)];
    CanonicalIsSortedRendering(r);
    assert r[1..] == [];
    assert InputOrderEntries(r) == [NEntry(k, NormalizeValue(v))];
    assert Parts(InputOrderEntries(r)) == [k + "=" + Render(NormalizeValue(v))];
  }
}
