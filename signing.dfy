/**
 * What the client signs and what it verifies (src/client.ts): the header
 * merged into every request, the `sign` field attached after signing, and
 * the payload a response signature is checked against.
 *
 * RSA-MD5 itself is not modelled: signing and verification are function
 * parameters over the canonical string.
 */
module Signing {
  import opened Wrappers
  import opened Text
  import opened Payload
  import opened Lists
  import opened Canonical
  import opened Form

  // ---------------------------------------------------------------------
  // Requests

  /** The fields the client adds to every request: `appid`, `nonce_str` and `time_stamp`. */
  function Header(appId: string, nonce: string, timestamp: int): Record
  {
    [Entry("appid", Str(appId)), Entry("nonce_str", Str(nonce)), Entry("time_stamp", Num(timestamp))]
  }

  /** `{ appid, nonce_str, time_stamp, ...sanitized }`: the object that is signed. */
  function WithHeader(appId: string, nonce: string, timestamp: int, sanitized: Record): Record
  {
    Spread(Header(appId, nonce, timestamp), sanitized)
  }

  /** `{ ...withHeader, sign }`: the object that is sent. */
  function Signed(withHeader: Record, signature: string): Record
  {
    Spread(withHeader, [Entry(SignKey, Str(signature))])
  }

  lemma HeaderUnique(appId: string, nonce: string, timestamp: int)
    ensures UniqueKeys(Header(appId, nonce, timestamp))
    ensures KeySeq(Header(appId, nonce, timestamp)) == ["appid", "nonce_str", "time_stamp"]
  {
  }

  /**
   * The signed object has `appid`, `nonce_str` and `time_stamp`; a value
   * the caller supplies under any key, those three included, wins over
   * the header's.
   */
  lemma HeaderMerge(appId: string, nonce: string, timestamp: int, sanitized: Record, k: string)
    requires UniqueKeys(sanitized)
    ensures UniqueKeys(WithHeader(appId, nonce, timestamp, sanitized))
    ensures Get(WithHeader(appId, nonce, timestamp, sanitized), k) ==
      if k in KeySeq(sanitized) then Get(sanitized, k) else Get(Header(appId, nonce, timestamp), k)
    ensures "appid" in KeySeq(WithHeader(appId, nonce, timestamp, sanitized))
    ensures "nonce_str" in KeySeq(WithHeader(appId, nonce, timestamp, sanitized))
    ensures "time_stamp" in KeySeq(WithHeader(appId, nonce, timestamp, sanitized))
  {
    var h := Header(appId, nonce, timestamp);
    HeaderUnique(appId, nonce, timestamp);
    GetSpread(h, sanitized, k);
    var ks := KeySeq(WithHeader(appId, nonce, timestamp, sanitized));
    assert KeySeq(h) <= ks;
    assert ks[0] == "appid" && ks[1] == "nonce_str" && ks[2] == "time_stamp";
  }

  lemma SignedIsPut(w: Record, signature: string)
    ensures Signed(w, signature) == Put(w, SignKey, Str(signature))
  {
    var e := Entry(SignKey, Str(signature));
    assert [e][1..] == [];
    assert Spread(w, [e]) == Spread(Put(w, e.key, e.value), []);
  }

  /**
   * `sign` is set last: it holds the signature, replacing any `sign` the
   * caller gave, and every other key reads as in the signed object.
   */
  lemma SignAttached(w: Record, signature: string, k: string)
    ensures Get(Signed(w, signature), SignKey) == Some(Str(signature))
    ensures k != SignKey ==> Get(Signed(w, signature), k) == Get(w, k)
    ensures KeySeq(Signed(w, signature)) == if SignKey in KeySeq(w) then KeySeq(w) else KeySeq(w) + [SignKey]
  {
    SignedIsPut(w, signature);
  }

  /** Attaching the signature does not change the canonical string: the receiver can recompute what was signed. */
  lemma SignedMessageUnchanged(w: Record, signature: string)
    requires UniqueKeys(w)
    ensures CanonicalString(Signed(w, signature)) == CanonicalString(w)
  {
    SignedIsPut(w, signature);
    CanonicalIgnoresSign(w, Str(signature));
  }

  /**
   * A key holding `null` or `undefined` is signed but not sent: its part
   * (`k=null` or `k=undefined`) is among the sorted parts of the signed
   * string, while the form body has no pair named `k`.
   */
  lemma SignedButNotSent(w: Record, signature: string, k: string)
    requires UniqueKeys(w) && k != SignKey
    requires Get(w, k) == Some(Null) || Get(w, k) == Some(Undefined)
    ensures k + "=" + (if Get(w, k) == Some(Null) then "null" else "undefined") in Sort(Parts(Normalized(w)))
    ensures forall p :: p in FormPairs(Signed(w, signature)) ==> p.name != k
  {
    var v := Get(w, k).value;
    assert Render(NormalizeValue(v)) == if v.Null? then "null" else "undefined";
    PartListed(w, k);
    NoPairFor(w, signature, k);
  }

  /** Every non-`sign` key of `w` contributes its part to the signed string. */
  lemma PartListed(w: Record, k: string)
    requires UniqueKeys(w) && k != SignKey && k in KeySeq(w)
    ensures k + "=" + Render(NormalizeValue(Get(w, k).value)) in Sort(Parts(Normalized(w)))
  {
    var part := k + "=" + Render(NormalizeValue(Get(w, k).value));
    FieldEntryByGet(w, k);
    assert FieldParts(w)(k) == [part];
    var ks := NonSignKeys(KeySeq(w));
    assert k in ks;
    var i :| 0 <= i < |ks| && ks[i] == k;
    FlatMapContains(FieldParts(w), ks, i, part);
    PartsUpToOrder(w);
    assert part in multiset(Parts(Normalized(w)));
    assert part in multiset(Sort(Parts(Normalized(w))));
  }

  /** A key whose value the form body drops has no pair in the body of the signed request. */
  lemma NoPairFor(w: Record, signature: string, k: string)
    requires UniqueKeys(w) && k != SignKey
    requires Get(w, k) == Some(Null) || Get(w, k) == Some(Undefined)
    ensures forall p :: p in FormPairs(Signed(w, signature)) ==> p.name != k
  {
    var sent := Signed(w, signature);
    SignedIsPut(w, signature);
    PutUnique(w, SignKey, Str(signature));
    assert Get(sent, k) == Get(w, k);
    forall p | p in FormPairs(sent) ensures p.name != k {
      FormPairsMembers(sent, p);
      var j :| 0 <= j < |sent| && sent[j].key == p.name && FormValue(sent[j].value) == Some(p.value);
      if sent[j].key == k {
        GetAt(sent, j);
        assert false;
      }
    }
  }

  // ---------------------------------------------------------------------
  // Responses

  const PayoutKeys: seq<string> := ["mobile", "mch_id", "account_type", "business_mode", "nonce_str"]

  /** An array seen as an object: its items under the keys "0", "1", ... */
  function ArrayAsRecord(items: seq<Item>): (r: Record)
    ensures |r| == |items|
    ensures forall i :: 0 <= i < |items| ==> r[i] == Entry(IntToString(i), Obj(items[i].fields))
  {
    seq(|items|, i requires 0 <= i < |items| => Entry(IntToString(i), Obj(items[i].fields)))
  }

  /** The five payout keys, with the values `data` holds under them. */
  function PayoutPayload(fields: Record): (r: Record)
    ensures KeySeq(r) == PayoutKeys
    ensures forall i :: 0 <= i < 5 ==> r[i].value == Read(fields, PayoutKeys[i])
  {
    var r := seq(5, i requires 0 <= i < 5 => Entry(PayoutKeys[i], Read(fields, PayoutKeys[i])));
    assert KeySeq(r) == PayoutKeys by {
      forall i | 0 <= i < 5 ensures KeySeq(r)[i] == PayoutKeys[i] {
      }
    }
    r
  }

  predicate HasPayoutKeys(fields: Record)
  {
    forall i :: 0 <= i < |PayoutKeys| ==> PayoutKeys[i] in KeySeq(fields)
  }

  /**
   * `buildSignaturePayload(data)`: nothing for a falsy or non-object value;
   * only the five payout fields when all five are present; otherwise the
   * data as it is.
   */
  function SignaturePayload(data: Value): (r: Record)
    ensures !Truthy(data) || !(data.Obj? || data.Arr?) ==> r == []
    ensures data.Obj? && HasPayoutKeys(data.fields) ==> r == PayoutPayload(data.fields)
    ensures data.Obj? && !HasPayoutKeys(data.fields) ==> r == data.fields
  {
    match data
    case Obj(fields) => if HasPayoutKeys(fields) then PayoutPayload(fields) else fields
    case Arr(items) => ArrayAsRecord(items)
    case _ => []
  }

  /**
   * `verifySignature(response)`: false without a truthy `data` and a truthy
   * `sign`; otherwise what the verifier says of the canonical string of
   * the signature payload and the signature.
   */
  function VerifySignature(response: Record, verify: (string, Value) -> bool): (ok: bool)
    ensures ok ==> Truthy(Read(response, "data")) && Truthy(Read(response, SignKey))
    ensures ok ==> verify(CanonicalString(SignaturePayload(Read(response, "data"))), Read(response, SignKey))
  {
    var data, signature := Read(response, "data"), Read(response, SignKey);
    if !Truthy(data) || !Truthy(signature) then false
    else verify(CanonicalString(SignaturePayload(data)), signature)
  }

  /** With `data` and `sign` both present and truthy, the verifier alone decides. */
  lemma VerifyDecides(response: Record, verify: (string, Value) -> bool)
    requires Truthy(Read(response, "data")) && Truthy(Read(response, SignKey))
    ensures VerifySignature(response, verify) ==
      verify(CanonicalString(SignaturePayload(Read(response, "data"))), Read(response, SignKey))
  {
  }

  /** A payout response is verified over its five payout fields only: any other field may change freely. */
  lemma PayoutFieldsOnly(fields: Record, k: string, v: Value)
    requires HasPayoutKeys(fields) && k !in PayoutKeys
    ensures SignaturePayload(Obj(Put(fields, k, v))) == SignaturePayload(Obj(fields))
  {
    var changed := Put(fields, k, v);
    assert HasPayoutKeys(changed) by {
      forall i | 0 <= i < |PayoutKeys| ensures PayoutKeys[i] in KeySeq(changed) {
        assert PayoutKeys[i] in KeySeq(fields);
      }
    }
    var a, b := PayoutPayload(changed), PayoutPayload(fields);
    forall i | 0 <= i < 5 ensures a[i] == b[i] {
      assert PayoutKeys[i] != k;
      assert Read(changed, PayoutKeys[i]) == Read(fields, PayoutKeys[i]);
      assert a[i].key == KeySeq(a)[i] == KeySeq(b)[i] == b[i].key;
    }
    assert a == b;
  }

  /** With any one of the five payout keys missing, the whole data object is what the signature covers. */
  lemma PayoutNeedsAllFive(fields: Record, j: nat)
    requires j < |PayoutKeys| && PayoutKeys[j] !in KeySeq(fields)
    ensures SignaturePayload(Obj(fields)) == fields
  {
    assert !HasPayoutKeys(fields);
  }
}
