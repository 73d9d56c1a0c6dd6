/**
 * `buildFormBody` of src/client.ts: the name/value pairs a payload puts in
 * the `application/x-www-form-urlencoded` body, in payload order.
 */
module Form {
  import opened Wrappers
  import opened Text
  import opened Payload
  import Json

  /** A name/value pair as `URLSearchParams.append` stores it. */
  datatype Pair = Pair(name: string, value: string)

  /**
   * The text a value is sent as: none for `undefined` and `null`,
   * `String(v)` for strings, numbers and booleans, and the JSON text of
   * objects and arrays.
   */
  function FormValue(v: Value): (t: Option<string>)
    ensures t.None? <==> v.Undefined? || v.Null?
    ensures v.Str? ==> t == Some(v.s)
    ensures v.Obj? || v.Arr? ==> t == Json.Stringify(v)
  {
    match v
    case Undefined => None
    case Null => None
    case Str(s) => Some(s)
    case Num(n) => Some(IntToString(n))
    case Bool(b) => Some(if b then "true" else "false")
    case Obj(_) => Json.Stringify(v)
    case Arr(_) => Json.Stringify(v)
  }

  /** The pair one entry contributes, if any. */
  function EntryPairs(e: Entry): (ps: seq<Pair>)
    ensures |ps| <= 1
  {
    match FormValue(e.value)
    case None => []
    case Some(t) => [Pair(e.key, t)]
  }

  /** The pairs of a payload, entry by entry. */
  function FormPairs(r: Record): seq<Pair>
  {
    if r == [] then [] else FormPairs(r[..|r| - 1]) + EntryPairs(r[|r| - 1])
  }

  /** `buildFormBody(payload)`, up to the serialisation of the pairs. */
  method BuildFormBody(payload: Record) returns (pairs: seq<Pair>)
    ensures pairs == FormPairs(payload)
    ensures |pairs| <= |payload|
  {
    FormPairsLength(payload);
    pairs := [];
    for i := 0 to |payload|
      invariant pairs == FormPairs(payload[..i])
    {
      assert payload[..i + 1][..i] == payload[..i];
      var entry := payload[i];
      var text := FormValue(entry.value);
      if text.Some? {
        pairs := pairs + [Pair(entry.key, text.value)];
      }
    }
    assert payload[..|payload|] == payload;
  }

  lemma {:induction false} FormPairsLength(r: Record)
    ensures |FormPairs(r)| <= |r|
    decreases |r|
  {
    if r != [] {
      FormPairsLength(r[..|r| - 1]);
    }
  }

  /** The pairs keep payload order: the pairs of a concatenation are the concatenated pairs. */
  lemma {:induction false} FormPairsAppend(a: Record, b: Record)
    ensures FormPairs(a + b) == FormPairs(a) + FormPairs(b)
    decreases |b|
  {
    if b == [] {
      assert a + b == a;
    } else {
      var b' := b[..|b| - 1];
      assert (a + b)[..|a + b| - 1] == a + b';
      FormPairsAppend(a, b');
    }
  }

  lemma FormPairsCons(e: Entry, r: Record)
    ensures FormPairs([e] + r) == EntryPairs(e) + FormPairs(r)
  {
    FormPairsAppend([e], r);
    assert [e][..0] == [];
  }

  /**
   * A pair is sent for exactly the entries whose value is neither
   * `undefined` nor `null`, under the entry's own key, with the entry's
   * text.
   */
  lemma {:induction false} FormPairsMembers(r: Record, p: Pair)
    ensures p in FormPairs(r) <==> exists i :: 0 <= i < |r| && r[i].key == p.name && FormValue(r[i].value) == Some(p.value)
    decreases |r|
  {
    if r != [] {
      FormPairsCons(r[0], r[1..]);
      assert r == [r[0]] + r[1..];
      FormPairsMembers(r[1..], p);
      if p in FormPairs(r[1..]) {
        var i :| 0 <= i < |r[1..]| && r[1..][i].key == p.name && FormValue(r[1..][i].value) == Some(p.value);
        assert r[i + 1] == r[1..][i];
      }
      if exists i :: 0 <= i < |r| && r[i].key == p.name && FormValue(r[i].value) == Some(p.value) {
        var i :| 0 <= i < |r| && r[i].key == p.name && FormValue(r[i].value) == Some(p.value);
        if i > 0 {
          assert r[1..][i - 1] == r[i];
        }
      }
    }
  }

  /** A key the payload does not hold names no pair of the body. */
  lemma AbsentKeySendsNothing(r: Record, k: string)
    requires k !in KeySeq(r)
    ensures forall p :: p in FormPairs(r) ==> p.name != k
  {
    forall p | p in FormPairs(r) ensures p.name != k {
      FormPairsMembers(r, p);
      var j :| 0 <= j < |r| && r[j].key == p.name && FormValue(r[j].value) == Some(p.value);
      assert KeySeq(r)[j] == r[j].key;
    }
  }

  /** An entry holding `undefined` or `null` sends nothing: removing it leaves the body unchanged. */
  lemma DroppedEntries(a: Record, e: Entry, b: Record)
    requires e.value.Undefined? || e.value.Null?
    ensures FormPairs(a + [e] + b) == FormPairs(a + b)
  {
    FormPairsAppend(a + [e], b);
    FormPairsAppend(a, [e]);
    FormPairsAppend(a, b);
    assert [e][..0] == [];
  }
}
