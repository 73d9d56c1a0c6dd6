/**
 * The two per-endpoint rewrites the client applies to a validated request
 * before signing it (src/client.ts): `applyDecodeFields`, which
 * percent-decodes listed string fields, and `applyOmitFields`, which
 * deletes listed fields.
 */
module Fields {
  import opened Wrappers
  import opened Payload
  import opened Lists
  import opened Utils

  // ---------------------------------------------------------------------
  // applyDecodeFields

  /** What decoding does to the value under a listed key: only a string changes. */
  function DecodedValue(x: Option<Value>): Option<Value>
  {
    if x.Some? && x.value.Str? then Some(Str(SafeDecode(x.value.s))) else x
  }

  /** One iteration of `applyDecodeFields`: the string under `f`, if any, is replaced by its decoding. */
  function DecodeField(r: Record, f: string): (r': Record)
    ensures KeySeq(r') == KeySeq(r)
    ensures Get(r', f) == DecodedValue(Get(r, f))
    ensures forall k :: k != f ==> Get(r', k) == Get(r, k)
  {
    match Get(r, f)
    case Some(Str(s)) => Put(r, f, Str(SafeDecode(s)))
    case _ => r
  }

  /** The listed fields decoded one after the other, in list order. */
  function Decoded(r: Record, fields: seq<string>): Record
  {
    if fields == [] then r else DecodeField(Decoded(r, fields[..|fields| - 1]), fields[|fields| - 1])
  }

  /** `applyDecodeFields(data, fields)`. */
  method ApplyDecodeFields(data: Record, fields: seq<string>) returns (next: Record)
    ensures next == Decoded(data, fields)
    ensures KeySeq(next) == KeySeq(data)
    ensures forall k :: k !in fields ==> Get(next, k) == Get(data, k)
    ensures Distinct(fields) ==> forall k :: k in fields ==> Get(next, k) == DecodedValue(Get(data, k))
  {
    DecodedKeys(data, fields);
    DecodedOthers(data, fields);
    if Distinct(fields) {
      forall k | k in fields ensures Get(Decoded(data, fields), k) == DecodedValue(Get(data, k)) {
        DecodedListed(data, fields, k);
      }
    }
    if |fields| == 0 {
      return data;
    }
    next := data;
    for i := 0 to |fields|
      invariant next == Decoded(data, fields[..i])
    {
      assert fields[..i + 1][..i] == fields[..i];
      var value := Read(next, fields[i]);
      if value.Str? {
        next := Put(next, fields[i], Str(SafeDecode(value.s)));
      }
    }
    assert fields[..|fields|] == fields;
  }

  /** Decoding keeps every key, in its place. */
  lemma {:induction false} DecodedKeys(r: Record, fields: seq<string>)
    ensures KeySeq(Decoded(r, fields)) == KeySeq(r)
    decreases |fields|
  {
    if fields != [] {
      DecodedKeys(r, fields[..|fields| - 1]);
    }
  }

  /** A key that is not listed keeps its value. */
  lemma {:induction false} DecodedOthers(r: Record, fields: seq<string>)
    ensures forall k :: k !in fields ==> Get(Decoded(r, fields), k) == Get(r, k)
    decreases |fields|
  {
    if fields != [] {
      var init := fields[..|fields| - 1];
      DecodedOthers(r, init);
      forall k | k !in fields ensures Get(Decoded(r, fields), k) == Get(r, k) {
        assert k !in init;
      }
    }
  }

  /** A key listed once holds the decoding of its string value, and any other value unchanged. */
  lemma {:induction false} DecodedListed(r: Record, fields: seq<string>, k: string)
    requires Distinct(fields) && k in fields
    ensures Get(Decoded(r, fields), k) == DecodedValue(Get(r, k))
    decreases |fields|
  {
    var init, last := fields[..|fields| - 1], fields[|fields| - 1];
    assert fields == init + [last];
    if k == last {
      assert k !in init;
      DecodedOthers(r, init);
    } else {
      assert k in init;
      assert Distinct(init);
      DecodedListed(r, init, k);
    }
  }

  /** With an empty list, `applyDecodeFields` returns its input. */
  lemma DecodeNothing(r: Record)
    ensures Decoded(r, []) == r
  {
  }

  /** Decoding keeps the keys unique. */
  lemma DecodedUnique(r: Record, fields: seq<string>)
    requires UniqueKeys(r)
    ensures UniqueKeys(Decoded(r, fields))
  {
    var d := Decoded(r, fields);
    DecodedKeys(r, fields);
    forall i, j | 0 <= i < j < |d| ensures d[i].key != d[j].key {
      assert KeySeq(d)[i] == KeySeq(r)[i] && KeySeq(d)[j] == KeySeq(r)[j];
    }
  }

  /** A string value without `%` is left as it is by decoding. */
  lemma DecodePlainValue(r: Record, k: string)
    requires Get(r, k).Some? && Get(r, k).value.Str? && '%' !in Get(r, k).value.s
    ensures DecodedValue(Get(r, k)) == Get(r, k)
  {
    SafeDecodeWithoutPercent(Get(r, k).value.s);
  }

  // ---------------------------------------------------------------------
  // applyOmitFields

  /** The listed fields deleted one after the other. */
  function Omitted(r: Record, fields: seq<string>): (r': Record)
    ensures forall k :: k in KeySeq(r') <==> k in KeySeq(r) && k !in fields
    ensures forall k :: k !in fields ==> Get(r', k) == Get(r, k)
  {
    if fields == [] then r
    else
      var init := fields[..|fields| - 1];
      assert fields == init + [fields[|fields| - 1]];
      Delete(Omitted(r, init), fields[|fields| - 1])
  }

  /** The entries of `r` whose key is not listed, in their order: the reference for `Omitted`. */
  function Without(r: Record, fields: seq<string>): Record
  {
    if r == [] then []
    else (if r[0].key in fields then [] else [r[0]]) + Without(r[1..], fields)
  }

  /** `applyOmitFields(data, fields)`. */
  method ApplyOmitFields(data: Record, fields: seq<string>) returns (next: Record)
    ensures next == Omitted(data, fields)
    ensures next == Without(data, fields)
  {
    OmittedIsWithout(data, fields);
    if |fields| == 0 {
      return data;
    }
    next := data;
    for i := 0 to |fields|
      invariant next == Omitted(data, fields[..i])
    {
      assert fields[..i + 1][..i] == fields[..i];
      next := Delete(next, fields[i]);
    }
    assert fields[..|fields|] == fields;
  }

  lemma {:induction false} WithoutAppend(r: Record, fields: seq<string>, f: string)
    ensures Delete(Without(r, fields), f) == Without(r, fields + [f])
    decreases |r|
  {
    if r != [] {
      WithoutAppend(r[1..], fields, f);
      var rest := Without(r[1..], fields);
      if r[0].key in fields {
        assert r[0].key in fields + [f];
        assert Without(r, fields) == rest && Without(r, fields + [f]) == Without(r[1..], fields + [f]);
      } else {
        assert Delete([r[0]] + rest, f) == (if r[0].key == f then [] else [r[0]]) + Delete(rest, f) by {
          assert ([r[0]] + rest)[0] == r[0] && ([r[0]] + rest)[1..] == rest;
        }
      }
    }
  }

  lemma {:induction false} WithoutNothing(r: Record)
    ensures Without(r, []) == r
    decreases |r|
  {
    if r != [] {
      WithoutNothing(r[1..]);
    }
  }

  /** Deleting the listed fields keeps the other entries in their order, and nothing else. */
  lemma {:induction false} OmittedIsWithout(r: Record, fields: seq<string>)
    ensures Omitted(r, fields) == Without(r, fields)
    decreases |fields|
  {
    if fields == [] {
      WithoutNothing(r);
    } else {
      var init := fields[..|fields| - 1];
      OmittedIsWithout(r, init);
      WithoutAppend(r, init, fields[|fields| - 1]);
      assert init + [fields[|fields| - 1]] == fields;
    }
  }

  /** Deleting keeps the keys unique. */
  lemma {:induction false} WithoutUnique(r: Record, fields: seq<string>)
    requires UniqueKeys(r)
    ensures UniqueKeys(Without(r, fields))
    ensures forall k :: k in KeySeq(Without(r, fields)) ==> k in KeySeq(r)
    decreases |r|
  {
    if r != [] {
      WithoutUnique(r[1..], fields);
      var rest := Without(r[1..], fields);
      assert KeySeq(r) == [r[0].key] + KeySeq(r[1..]);
      assert r[0].key !in KeySeq(r[1..]) by {
        forall j | 0 <= j < |r| - 1 ensures KeySeq(r[1..])[j] != r[0].key {
          assert r[1..][j] == r[j + 1];
        }
      }
      if r[0].key !in fields {
        UniqueAppend([r[0]], rest);
      }
    }
  }

  /** The listed keys are gone; the rest read as before. */
  lemma OmittedKeys(r: Record, fields: seq<string>, k: string)
    ensures k in fields ==> Get(Omitted(r, fields), k) == None
    ensures k !in fields ==> Get(Omitted(r, fields), k) == Get(r, k)
  {
  }
}
