/**
 * The request schemas of src/schemas.ts, as zod 3 applies them to a plain
 * object: each declared field is checked in declaration order, a type
 * mismatch aborts the parse, a length violation only marks it dirty, and a
 * `refine` predicate runs unless the parse was aborted. On success the
 * result holds the declared fields present in the input, then (for a
 * passthrough schema) the other keys whose value is not `undefined`.
 */
module Schemas {
  import opened Wrappers
  import opened Text
  import opened Payload

  /** One zod issue: where it is (a path of keys) and its message. */
  datatype Issue = Issue(path: seq<string>, message: string)

  /** The check a declared field carries. */
  datatype Rule =
    | AnyString  // z.string()
    | NonEmpty   // z.string().min(1)
    | Max32      // z.string().min(1).max(32)
    | Amount     // z.union([z.string(), z.number()])

  datatype Field = Field(name: string, rule: Rule, optional: bool)

  /** What happens to keys the schema does not declare. */
  datatype UnknownKeys = Passthrough | Strip

  /** A `refine` that some listed field be truthy, with its message. */
  datatype Refinement = NoRefinement | AnyTruthy(names: seq<string>, message: string)

  datatype ObjectSchema = ObjectSchema(fields: seq<Field>, unknownKeys: UnknownKeys, refinement: Refinement)

  // ---------------------------------------------------------------------
  // The schemas of src/schemas.ts

  const PayBase := ObjectSchema(
    [Field("mch_order_no", Max32, false), Field("total_fee", Amount, false), Field("fee_type", NonEmpty, false)],
    Passthrough, NoRefinement)

  const QueryByOrder := ObjectSchema(
    [Field("mch_order_no", Max32, true), Field("ksher_order_no", AnyString, true)],
    Passthrough,
    AnyTruthy(["mch_order_no", "ksher_order_no"], "mch_order_no or ksher_order_no is required"))

  const RefundQuery := ObjectSchema(
    [Field("mch_refund_no", AnyString, true), Field("ksher_refund_no", AnyString, true), Field("mch_order_no", Max32, true)],
    Passthrough,
    AnyTruthy(["mch_refund_no", "ksher_refund_no", "mch_order_no"],
              "mch_refund_no, ksher_refund_no, or mch_order_no is required"))

  const GatewayPay := ObjectSchema(
    PayBase.fields + [
      Field("refer_url", NonEmpty, false), Field("product_name", NonEmpty, false),
      Field("channel_list", NonEmpty, false), Field("mch_redirect_url", NonEmpty, false),
      Field("mch_redirect_url_fail", NonEmpty, false), Field("mch_code", Max32, true)],
    Passthrough, NoRefinement)

  const QuickPay := ObjectSchema(PayBase.fields + [Field("auth_code", NonEmpty, false)], Passthrough, NoRefinement)

  /** The schema of `orderRefund` and of `payout`. */
  const OrderNumberOnly := ObjectSchema([Field("mch_order_no", Max32, false)], Passthrough, NoRefinement)

  /** `z.object({}).passthrough()`: the schema of the balance, rate, merchant and settlement queries. */
  const OpenObject := ObjectSchema([], Passthrough, NoRefinement)

  const OrderCreate := ObjectSchema(
    [Field("amount", Amount, false), Field("merchant_order_id", Max32, false),
     Field("product_name", NonEmpty, false), Field("note", AnyString, true),
     Field("channel", NonEmpty, false), Field("redirect_url", NonEmpty, false),
     Field("redirect_url_fail", NonEmpty, false), Field("refer_url", NonEmpty, false),
     Field("timestamp", NonEmpty, false), Field("fee_type", AnyString, true),
     Field("mch_code", Max32, true)],
    Passthrough, NoRefinement)

  // ---------------------------------------------------------------------
  // Checking one field

  /** The type name zod reports for a value it did not expect. */
  function TypeName(v: Value): string
  {
    match v
    case Str(_) => "string"
    case Num(_) => "number"
    case Bool(_) => "boolean"
    case Null => "null"
    case Undefined => "undefined"
    case Obj(_) => "object"
    case Arr(_) => "array"
  }

  /** A field passes, fails and lets the parse go on (dirty), or fails and aborts it. */
  datatype Check = Pass | Dirty(issue: Issue) | Abort(issue: Issue)

  const TooShort := "String must contain at least 1 character(s)"
  const TooLong := "String must contain at most 32 character(s)"

  function CheckField(f: Field, x: Value): Check
  {
    var at := [f.name];
    if x.Undefined? then
      if f.optional then Pass
      else if f.rule.Amount? then Abort(Issue(at, "Invalid input"))
      else Abort(Issue(at, "Required"))
    else match f.rule
      case Amount => if x.Str? || x.Num? then Pass else Abort(Issue(at, "Invalid input"))
      case AnyString => if x.Str? then Pass else Abort(Issue(at, "Expected string, received " + TypeName(x)))
      case NonEmpty =>
        if !x.Str? then Abort(Issue(at, "Expected string, received " + TypeName(x)))
        else if Utf16Length(x.s) < 1 then Dirty(Issue(at, TooShort))
        else Pass
      case Max32 =>
        if !x.Str? then Abort(Issue(at, "Expected string, received " + TypeName(x)))
        else if Utf16Length(x.s) < 1 then Dirty(Issue(at, TooShort))
        else if Utf16Length(x.s) > 32 then Dirty(Issue(at, TooLong))
        else Pass
  }

  /** What the rule admits, stated directly. */
  predicate FieldOk(f: Field, x: Value)
  {
    if x.Undefined? then f.optional
    else match f.rule
      case Amount => x.Str? || x.Num?
      case AnyString => x.Str?
      case NonEmpty => x.Str? && Utf16Length(x.s) >= 1
      case Max32 => x.Str? && 1 <= Utf16Length(x.s) <= 32
  }

  lemma CheckFieldPasses(f: Field, x: Value)
    ensures CheckField(f, x).Pass? <==> FieldOk(f, x)
  {
  }

  // ---------------------------------------------------------------------
  // Checking an object

  function FieldIssues(fields: seq<Field>, r: Record): seq<Issue>
  {
    if fields == [] then []
    else
      var rest := FieldIssues(fields[1..], r);
      match CheckField(fields[0], Read(r, fields[0].name))
      case Pass => rest
      case Dirty(i) => [i] + rest
      case Abort(i) => [i] + rest
  }

  predicate Aborted(fields: seq<Field>, r: Record)
  {
    fields != [] && (CheckField(fields[0], Read(r, fields[0].name)).Abort? || Aborted(fields[1..], r))
  }

  predicate AllFieldsOk(fields: seq<Field>, r: Record)
  {
    forall i :: 0 <= i < |fields| ==> FieldOk(fields[i], Read(r, fields[i].name))
  }

  predicate RefinementHolds(refinement: Refinement, r: Record)
  {
    match refinement
    case NoRefinement => true
    case AnyTruthy(names, _) => exists i :: 0 <= i < |names| && Truthy(Read(r, names[i]))
  }

  function FieldNames(fields: seq<Field>): (ns: seq<string>)
    ensures |ns| == |fields|
    ensures forall i :: 0 <= i < |fields| ==> ns[i] == fields[i].name
  {
    seq(|fields|, i requires 0 <= i < |fields| => fields[i].name)
  }

  /** The declared fields present in the input, in declaration order. */
  function ShapePart(fields: seq<Field>, r: Record): Record
  {
    if fields == [] then []
    else
      var rest := ShapePart(fields[1..], r);
      match Get(r, fields[0].name)
      case None => rest
      case Some(v) => [Entry(fields[0].name, v)] + rest
  }

  /** The undeclared keys of the input whose value is not `undefined`, in input order. */
  function ExtraPart(names: seq<string>, r: Record): Record
  {
    if r == [] then []
    else
      var rest := ExtraPart(names, r[1..]);
      if r[0].key in names || r[0].value.Undefined? then rest else [r[0]] + rest
  }

  /** The object a successful parse returns. */
  function Output(s: ObjectSchema, r: Record): Record
  {
    ShapePart(s.fields, r) + (if s.unknownKeys.Passthrough? then ExtraPart(FieldNames(s.fields), r) else [])
  }

  /** `schema.safeParse(r)`: the parsed object, or the issues in the order zod reports them. */
  function Parse(s: ObjectSchema, r: Record): Result<Record, seq<Issue>>
  {
    var issues := FieldIssues(s.fields, r);
    if Aborted(s.fields, r) then Failure(issues)
    else
      var out := Output(s, r);
      var refined := if RefinementHolds(s.refinement, out) then [] else [Issue([], s.refinement.message)];
      if issues + refined == [] then Success(out) else Failure(issues + refined)
  }

  /** Every name a refinement reads is a declared field. */
  predicate RefinesDeclared(s: ObjectSchema)
  {
    s.refinement.AnyTruthy? ==> forall n :: n in s.refinement.names ==> n in FieldNames(s.fields)
  }

  /** `Accepts`: the reference statement of what a schema admits. */
  predicate Accepts(s: ObjectSchema, r: Record)
  {
    AllFieldsOk(s.fields, r) && RefinementHolds(s.refinement, r)
  }

  // ---------------------------------------------------------------------
  // Properties

  lemma {:induction false} NoIssuesWhenAllOk(fields: seq<Field>, r: Record)
    ensures FieldIssues(fields, r) == [] <==> AllFieldsOk(fields, r)
    ensures AllFieldsOk(fields, r) ==> !Aborted(fields, r)
  {
    if fields != [] {
      NoIssuesWhenAllOk(fields[1..], r);
      CheckFieldPasses(fields[0], Read(r, fields[0].name));
      assert AllFieldsOk(fields, r) <==>
        FieldOk(fields[0], Read(r, fields[0].name)) && AllFieldsOk(fields[1..], r) by {
        if FieldOk(fields[0], Read(r, fields[0].name)) && AllFieldsOk(fields[1..], r) {
          forall i | 0 <= i < |fields| ensures FieldOk(fields[i], Read(r, fields[i].name)) {
            if i > 0 { assert fields[i] == fields[1..][i - 1]; }
          }
        }
        if AllFieldsOk(fields, r) {
          forall i | 0 <= i < |fields| - 1 ensures FieldOk(fields[1..][i], Read(r, fields[1..][i].name)) {
            assert fields[1..][i] == fields[i + 1];
          }
        }
      }
    }
  }

  lemma {:induction false} ShapePartGet(fields: seq<Field>, r: Record, k: string)
    ensures k in FieldNames(fields) ==> Get(ShapePart(fields, r), k) == Get(r, k)
    ensures k !in FieldNames(fields) ==> k !in KeySeq(ShapePart(fields, r))
  {
    if fields != [] {
      ShapePartGet(fields[1..], r, k);
      assert FieldNames(fields) == [fields[0].name] + FieldNames(fields[1..]);
      var rest := ShapePart(fields[1..], r);
      match Get(r, fields[0].name)
      case None =>
      case Some(v) =>
        assert KeySeq([Entry(fields[0].name, v)] + rest) == [fields[0].name] + KeySeq(rest);
    }
  }

  lemma {:induction false} ExtraPartGet(names: seq<string>, r: Record, k: string)
    requires UniqueKeys(r)
    ensures k in names ==> k !in KeySeq(ExtraPart(names, r))
    ensures k !in names && (Get(r, k).None? || Get(r, k).value.Undefined?) ==> Get(ExtraPart(names, r), k) == None
    ensures k !in names && Get(r, k).Some? && !Get(r, k).value.Undefined? ==> Get(ExtraPart(names, r), k) == Get(r, k)
  {
    if r != [] {
      assert UniqueKeys(r[1..]);
      ExtraPartGet(names, r[1..], k);
      var rest := ExtraPart(names, r[1..]);
      assert KeySeq([r[0]] + rest) == [r[0].key] + KeySeq(rest);
      if r[0].key == k {
        assert k !in KeySeq(r[1..]);
      }
    }
  }

  lemma GetAppend(a: Record, b: Record, k: string)
    ensures Get(a + b, k) == if k in KeySeq(a) then Get(a, k) else Get(b, k)
  {
    if a != [] {
      assert (a + b)[1..] == a[1..] + b;
      GetAppend(a[1..], b, k);
      assert KeySeq(a) == [a[0].key] + KeySeq(a[1..]);
    } else {
      assert a + b == b;
    }
  }

  /**
   * The parsed object reads like the input: declared keys always, and
   * under passthrough every key. Only an undeclared key holding
   * `undefined` disappears, and it still reads as `undefined`.
   */
  lemma OutputReads(s: ObjectSchema, r: Record, k: string)
    requires UniqueKeys(r)
    ensures k in FieldNames(s.fields) ==> Get(Output(s, r), k) == Get(r, k)
    ensures s.unknownKeys.Passthrough? ==> Read(Output(s, r), k) == Read(r, k)
    ensures s.unknownKeys.Passthrough? && Get(r, k).Some? && !Get(r, k).value.Undefined? ==>
      Get(Output(s, r), k) == Get(r, k)
    ensures s.unknownKeys.Strip? && k !in FieldNames(s.fields) ==> Get(Output(s, r), k) == None
    ensures k !in FieldNames(s.fields) && Read(r, k).Undefined? ==> Get(Output(s, r), k) == None
  {
    var names := FieldNames(s.fields);
    ShapePartGet(s.fields, r, k);
    var extra := if s.unknownKeys.Passthrough? then ExtraPart(names, r) else [];
    GetAppend(ShapePart(s.fields, r), extra, k);
    if s.unknownKeys.Passthrough? {
      ExtraPartGet(names, r, k);
    }
  }

  /** No two declared fields share a name. */
  predicate DistinctNames(fields: seq<Field>)
  {
    forall i, j :: 0 <= i < j < |fields| ==> fields[i].name != fields[j].name
  }

  lemma {:induction false} ShapePartKeys(fields: seq<Field>, r: Record)
    requires DistinctNames(fields)
    ensures UniqueKeys(ShapePart(fields, r))
    ensures forall k :: k in KeySeq(ShapePart(fields, r)) ==> k in FieldNames(fields)
    decreases |fields|
  {
    if fields != [] {
      ShapePartKeys(fields[1..], r);
      var rest := ShapePart(fields[1..], r);
      assert FieldNames(fields) == [fields[0].name] + FieldNames(fields[1..]);
      assert fields[0].name !in FieldNames(fields[1..]) by {
        forall j | 0 <= j < |fields| - 1 ensures FieldNames(fields[1..])[j] != fields[0].name {
          assert fields[1..][j] == fields[j + 1];
        }
      }
      if Get(r, fields[0].name).Some? {
        UniqueAppend([Entry(fields[0].name, Get(r, fields[0].name).value)], rest);
      }
    }
  }

  lemma {:induction false} ExtraPartKeys(names: seq<string>, r: Record)
    requires UniqueKeys(r)
    ensures UniqueKeys(ExtraPart(names, r))
    ensures forall k :: k in KeySeq(ExtraPart(names, r)) ==> k in KeySeq(r) && k !in names
    decreases |r|
  {
    if r != [] {
      ExtraPartKeys(names, r[1..]);
      var rest := ExtraPart(names, r[1..]);
      assert KeySeq(r) == [r[0].key] + KeySeq(r[1..]);
      assert r[0].key !in KeySeq(r[1..]) by {
        forall j | 0 <= j < |r| - 1 ensures KeySeq(r[1..])[j] != r[0].key {
          assert r[1..][j] == r[j + 1];
        }
      }
      if !(r[0].key in names || r[0].value.Undefined?) {
        UniqueAppend([r[0]], rest);
      }
    }
  }

  /** A parse of an object with unique keys returns an object with unique keys. */
  lemma OutputUnique(s: ObjectSchema, r: Record)
    requires UniqueKeys(r) && DistinctNames(s.fields)
    ensures UniqueKeys(Output(s, r))
  {
    ShapePartKeys(s.fields, r);
    var names := FieldNames(s.fields);
    if s.unknownKeys.Passthrough? {
      ExtraPartKeys(names, r);
      UniqueAppend(ShapePart(s.fields, r), ExtraPart(names, r));
    } else {
      assert Output(s, r) == ShapePart(s.fields, r);
    }
  }

  /** Every request schema declares each field once. */
  lemma SchemasDistinctNames()
    ensures DistinctNames(PayBase.fields) && DistinctNames(QueryByOrder.fields) && DistinctNames(RefundQuery.fields)
    ensures DistinctNames(GatewayPay.fields) && DistinctNames(QuickPay.fields) && DistinctNames(OrderNumberOnly.fields)
    ensures DistinctNames(OpenObject.fields) && DistinctNames(OrderCreate.fields)
  {
    PayBaseDistinct();
    GatewayPayDistinct();
    OrderCreateDistinct();
    assert QuickPay.fields == PayBase.fields + [Field("auth_code", NonEmpty, false)];
  }

  lemma PayBaseDistinct()
    ensures DistinctNames(PayBase.fields)
  {
  }

  lemma GatewayPayDistinct()
    ensures DistinctNames(GatewayPay.fields)
  {
  }

  lemma OrderCreateDistinct()
    ensures DistinctNames(OrderCreate.fields)
  {
  }

  lemma RefinementOnOutput(s: ObjectSchema, r: Record)
    requires UniqueKeys(r) && RefinesDeclared(s)
    ensures RefinementHolds(s.refinement, Output(s, r)) <==> RefinementHolds(s.refinement, r)
  {
    if s.refinement.AnyTruthy? {
      forall i | 0 <= i < |s.refinement.names|
        ensures Read(Output(s, r), s.refinement.names[i]) == Read(r, s.refinement.names[i])
      {
        assert s.refinement.names[i] in s.refinement.names;
        OutputReads(s, r, s.refinement.names[i]);
      }
    }
  }

  /**
   * `safeParse` succeeds exactly when every declared field satisfies its
   * rule and the refinement holds; it then returns `Output`, and on
   * failure it reports at least one issue.
   */
  lemma ParseIsAccepts(s: ObjectSchema, r: Record)
    requires UniqueKeys(r) && RefinesDeclared(s)
    ensures Parse(s, r).Success? <==> Accepts(s, r)
    ensures Parse(s, r).Success? ==> Parse(s, r).value == Output(s, r)
    ensures Parse(s, r).Failure? ==> |Parse(s, r).error| > 0
  {
    NoIssuesWhenAllOk(s.fields, r);
    RefinementOnOutput(s, r);
    NoAbortMeansIssueFree(s.fields, r);
  }

  lemma {:induction false} NoAbortMeansIssueFree(fields: seq<Field>, r: Record)
    ensures Aborted(fields, r) ==> FieldIssues(fields, r) != []
  {
    if fields != [] {
      NoAbortMeansIssueFree(fields[1..], r);
    }
  }

  /** A passthrough schema keeps every undeclared key whose value is defined, with its value. */
  lemma PassthroughKeepsUnknownKeys(s: ObjectSchema, r: Record, k: string, v: Value)
    requires UniqueKeys(r) && RefinesDeclared(s) && s.unknownKeys.Passthrough?
    requires Parse(s, r).Success? && Get(r, k) == Some(v) && !v.Undefined?
    ensures Get(Parse(s, r).value, k) == Some(v)
  {
    ParseIsAccepts(s, r);
    OutputReads(s, r, k);
  }

  /** Every schema of src/schemas.ts only refines on fields it declares. */
  lemma SchemasRefineDeclared()
    ensures RefinesDeclared(QueryByOrder) && RefinesDeclared(RefundQuery)
    ensures RefinesDeclared(PayBase) && RefinesDeclared(GatewayPay) && RefinesDeclared(QuickPay)
    ensures RefinesDeclared(OrderNumberOnly) && RefinesDeclared(OpenObject) && RefinesDeclared(OrderCreate)
  {
    assert FieldNames(QueryByOrder.fields) == ["mch_order_no", "ksher_order_no"];
    assert FieldNames(RefundQuery.fields) == ["mch_refund_no", "ksher_refund_no", "mch_order_no"];
  }

  /** A string field declared with `max32String` holds 1 to 32 characters whenever it is present. */
  lemma Max32Bounds(s: ObjectSchema, r: Record, i: nat)
    requires Accepts(s, r) && i < |s.fields| && s.fields[i].rule.Max32?
    ensures var x := Read(r, s.fields[i].name);
      x.Undefined? || (x.Str? && 1 <= Utf16Length(x.s) <= 32)
  {
  }

  /**
   * The query-by-order schemas accept exactly when the optional order
   * numbers are well typed and one of them is a non-empty string.
   */
  lemma QueryByOrderAccepts(r: Record)
    requires UniqueKeys(r)
    ensures Parse(QueryByOrder, r).Success? <==>
      var m, k := Read(r, "mch_order_no"), Read(r, "ksher_order_no");
      (m.Undefined? || (m.Str? && 1 <= Utf16Length(m.s) <= 32)) &&
      (k.Undefined? || k.Str?) &&
      ((m.Str? && m.s != "") || (k.Str? && k.s != ""))
  {
    SchemasRefineDeclared();
    ParseIsAccepts(QueryByOrder, r);
    QueryByOrderRule(r);
  }

  /** What `Accepts` says of the query-by-order schema, field by field. */
  lemma QueryByOrderRule(r: Record)
    ensures Accepts(QueryByOrder, r) <==>
      var m, k := Read(r, "mch_order_no"), Read(r, "ksher_order_no");
      (m.Undefined? || (m.Str? && 1 <= Utf16Length(m.s) <= 32)) &&
      (k.Undefined? || k.Str?) &&
      ((m.Str? && m.s != "") || (k.Str? && k.s != ""))
  {
    var m, k := Read(r, "mch_order_no"), Read(r, "ksher_order_no");
    var fs := QueryByOrder.fields;
    assert |fs| == 2 && fs[0] == Field("mch_order_no", Max32, true) && fs[1] == Field("ksher_order_no", AnyString, true);
    assert AllFieldsOk(fs, r) <==> FieldOk(fs[0], m) && FieldOk(fs[1], k) by {
      if FieldOk(fs[0], m) && FieldOk(fs[1], k) {
        forall i | 0 <= i < |fs| ensures FieldOk(fs[i], Read(r, fs[i].name)) {
          if i == 0 {} else {}
        }
      }
    }
    assert RefinementHolds(QueryByOrder.refinement, r) <==> Truthy(m) || Truthy(k) by {
      var names := ["mch_order_no", "ksher_order_no"];
      assert Truthy(Read(r, names[0])) == Truthy(m) && Truthy(Read(r, names[1])) == Truthy(k);
    }
  }

  /** A field of an accepted object satisfies its rule. */
  lemma AcceptedField(s: ObjectSchema, r: Record, i: nat)
    requires Accepts(s, r) && i < |s.fields|
    ensures FieldOk(s.fields[i], Read(r, s.fields[i].name))
  {
  }

  predicate NonEmptyString(v: Value)
  {
    v.Str? && v.s != ""
  }

  /**
   * Two empty order numbers are rejected twice over: `mch_order_no` is too
   * short, and neither field satisfies the refinement.
   */
  lemma QueryByOrderEmptyStrings()
    ensures Parse(QueryByOrder, [Entry("mch_order_no", Str("")), Entry("ksher_order_no", Str(""))]) ==
      Failure([Issue(["mch_order_no"], TooShort), Issue([], "mch_order_no or ksher_order_no is required")])
  {
    var r := [Entry("mch_order_no", Str("")), Entry("ksher_order_no", Str(""))];
    var fs := QueryByOrder.fields;
    var tooShort := Issue(["mch_order_no"], TooShort);
    assert Read(r, "mch_order_no") == Str("") && Read(r, "ksher_order_no") == Str("") by {
      assert r[1..] == [Entry("ksher_order_no", Str(""))];
    }
    assert FieldIssues(fs, r) == [tooShort] && !Aborted(fs, r) by {
      assert CheckField(fs[0], Read(r, fs[0].name)) == Dirty(tooShort);
      assert CheckField(fs[1], Read(r, fs[1].name)) == Pass;
      assert fs[1..][1..] == [];
    }
    assert !RefinementHolds(QueryByOrder.refinement, r) by {
      var names := QueryByOrder.refinement.names;
      forall i | 0 <= i < |names| ensures !Truthy(Read(r, names[i])) {
        assert names[i] in ["mch_order_no", "ksher_order_no"];
      }
    }
    assert Parse(QueryByOrder, r) == Failure([tooShort] + [Issue([], QueryByOrder.refinement.message)]) by {
      assert UniqueKeys(r);
      SchemasRefineDeclared();
      ParseAfterFields(QueryByOrder, r);
    }
    assert [tooShort] + [Issue([], QueryByOrder.refinement.message)] ==
      [tooShort, Issue([], "mch_order_no or ksher_order_no is required")];
  }

  /** With none of the three refund references, the only issue is the refinement's, naming all three. */
  lemma RefundQueryNeedsAReference(r: Record)
    requires UniqueKeys(r)
    requires Get(r, "mch_refund_no").None? && Get(r, "ksher_refund_no").None? && Get(r, "mch_order_no").None?
    ensures Parse(RefundQuery, r) ==
      Failure([Issue([], "mch_refund_no, ksher_refund_no, or mch_order_no is required")])
  {
    var fs := RefundQuery.fields;
    assert AllFieldsOk(fs, r) by {
      forall i | 0 <= i < |fs| ensures FieldOk(fs[i], Read(r, fs[i].name)) {
        assert fs[i].name in ["mch_refund_no", "ksher_refund_no", "mch_order_no"];
      }
    }
    assert !RefinementHolds(RefundQuery.refinement, r) by {
      var names := RefundQuery.refinement.names;
      forall i | 0 <= i < |names| ensures !Truthy(Read(r, names[i])) {
        assert names[i] in ["mch_refund_no", "ksher_refund_no", "mch_order_no"];
      }
    }
    assert Parse(RefundQuery, r) == Failure([] + [Issue([], RefundQuery.refinement.message)]) by {
      SchemasRefineDeclared();
      NoIssuesWhenAllOk(fs, r);
      ParseAfterFields(RefundQuery, r);
    }
    assert [] + [Issue([], RefundQuery.refinement.message)] ==
      [Issue([], "mch_refund_no, ksher_refund_no, or mch_order_no is required")];
  }

  /** Once no field aborts, the parse reports the field issues, then the refinement's if it fails on the input. */
  lemma ParseAfterFields(s: ObjectSchema, r: Record)
    requires UniqueKeys(r) && RefinesDeclared(s) && !Aborted(s.fields, r)
    ensures var issues := FieldIssues(s.fields, r) +
        (if RefinementHolds(s.refinement, r) then [] else [Issue([], s.refinement.message)]);
      Parse(s, r) == if issues == [] then Success(Output(s, r)) else Failure(issues)
  {
    RefinementOnOutput(s, r);
  }

  /** What the pay schemas (native, app, mini-program, WAP, JSAPI) require of an accepted request. */
  lemma PayBaseRequires(r: Record)
    requires Accepts(PayBase, r)
    ensures var m := Read(r, "mch_order_no"); m.Str? && 1 <= Utf16Length(m.s) <= 32
    ensures var t := Read(r, "total_fee"); t.Str? || t.Num?
    ensures NonEmptyString(Read(r, "fee_type"))
  {
    AcceptedField(PayBase, r, 0);
    AcceptedField(PayBase, r, 1);
    AcceptedField(PayBase, r, 2);
  }

  /** The gateway-pay schema extends the pay schema with five non-empty strings and an optional `mch_code`. */
  lemma GatewayPayRequires(r: Record)
    requires Accepts(GatewayPay, r)
    ensures Accepts(PayBase, r)
    ensures NonEmptyString(Read(r, "refer_url")) && NonEmptyString(Read(r, "product_name"))
    ensures NonEmptyString(Read(r, "channel_list")) && NonEmptyString(Read(r, "mch_redirect_url"))
    ensures NonEmptyString(Read(r, "mch_redirect_url_fail"))
    ensures var c := Read(r, "mch_code"); c.Undefined? || (c.Str? && 1 <= Utf16Length(c.s) <= 32)
  {
    var fs := GatewayPay.fields;
    forall i | 0 <= i < 3 ensures FieldOk(PayBase.fields[i], Read(r, PayBase.fields[i].name)) {
      assert PayBase.fields[i] == fs[i];
      AcceptedField(GatewayPay, r, i);
    }
    AcceptedField(GatewayPay, r, 3);
    AcceptedField(GatewayPay, r, 4);
    AcceptedField(GatewayPay, r, 5);
    AcceptedField(GatewayPay, r, 6);
    AcceptedField(GatewayPay, r, 7);
    AcceptedField(GatewayPay, r, 8);
  }

  /** The refund query accepts a merchant order number of 1 to 32 UTF-16 code units on its own. */
  lemma RefundQueryByOrderNumberAccepted(v: string)
    requires 1 <= Utf16Length(v) <= 32
    ensures Accepts(RefundQuery, [Entry("mch_order_no", Str(v))])
  {
    var data := [Entry("mch_order_no", Str(v))];
    var fs := RefundQuery.fields;
    assert Read(data, "mch_order_no") == Str(v);
    forall i | 0 <= i < |fs| ensures FieldOk(fs[i], Read(data, fs[i].name)) {
      assert i == 2 || fs[i].name != "mch_order_no";
    }
    assert Truthy(Read(data, RefundQuery.refinement.names[2]));
  }

  /** The refund-query schema accepts `{ mch_order_no: v }` and keeps the number. */
  lemma RefundQueryOrderNumberParses(v: string)
    requires 1 <= Utf16Length(v) <= 32
    ensures var data := [Entry("mch_order_no", Str(v))];
      var parsed := Parse(RefundQuery, data);
      parsed.Success? && UniqueKeys(parsed.value) && Get(parsed.value, "mch_order_no") == Some(Str(v))
  {
    var data := [Entry("mch_order_no", Str(v))];
    RefundQueryByOrderNumberAccepted(v);
    SchemasRefineDeclared();
    ParseIsAccepts(RefundQuery, data);
    OutputReads(RefundQuery, data, "mch_order_no");
    SchemasDistinctNames();
    OutputUnique(RefundQuery, data);
  }

  /** A merchant order number over 32 UTF-16 code units is too long, even when it has fewer characters. */
  lemma RefundQueryRejectsLongOrderNumber(v: string)
    requires Utf16Length(v) > 32
    ensures !Accepts(RefundQuery, [Entry("mch_order_no", Str(v))])
  {
    var data := [Entry("mch_order_no", Str(v))];
    assert Read(data, "mch_order_no") == Str(v);
    assert RefundQuery.fields[2].name == "mch_order_no";
    assert !FieldOk(RefundQuery.fields[2], Str(v));
  }

  /** Seventeen emoji are 17 characters but 34 UTF-16 code units: too long for a merchant order number. */
  lemma SeventeenEmojiTooLong()
    ensures var v := seq(17, _ => '\U{1F600}');
      |v| == 17 && Utf16Length(v) == 34 && !Accepts(RefundQuery, [Entry("mch_order_no", Str(v))])
  {
    var v := seq(17, _ => '\U{1F600}');
    Utf16LengthAstral(v);
    RefundQueryRejectsLongOrderNumber(v);
  }

  /** `gatewayPay` refuses an object whose `fee_type` is the empty string. */
  lemma GatewayPayRefusesEmptyFeeType(r: Record)
    requires Read(r, "fee_type") == Str("")
    ensures !Accepts(GatewayPay, r)
  {
    var f := GatewayPay.fields[2];
    assert f.name == "fee_type";
    assert !FieldOk(f, Read(r, f.name));
  }

  /** What an accepted `orderCreate` input holds. */
  lemma OrderCreateRequires(r: Record)
    requires Accepts(OrderCreate, r)
    ensures var a := Read(r, "amount"); a.Str? || a.Num?
    ensures var m := Read(r, "merchant_order_id"); m.Str? && 1 <= Utf16Length(m.s) <= 32
    ensures NonEmptyString(Read(r, "product_name")) && NonEmptyString(Read(r, "channel"))
    ensures NonEmptyString(Read(r, "redirect_url")) && NonEmptyString(Read(r, "redirect_url_fail"))
    ensures NonEmptyString(Read(r, "refer_url")) && NonEmptyString(Read(r, "timestamp"))
    ensures var x := Read(r, "note"); x.Undefined? || x.Str?
    ensures var x := Read(r, "fee_type"); x.Undefined? || x.Str?
    ensures var x := Read(r, "mch_code"); x.Undefined? || (x.Str? && 1 <= Utf16Length(x.s) <= 32)
  {
    AcceptedField(OrderCreate, r, 0);
    AcceptedField(OrderCreate, r, 1);
    AcceptedField(OrderCreate, r, 2);
    AcceptedField(OrderCreate, r, 3);
    AcceptedField(OrderCreate, r, 4);
    AcceptedField(OrderCreate, r, 5);
    AcceptedField(OrderCreate, r, 6);
    AcceptedField(OrderCreate, r, 7);
    AcceptedField(OrderCreate, r, 8);
    AcceptedField(OrderCreate, r, 9);
    AcceptedField(OrderCreate, r, 10);
  }
}
