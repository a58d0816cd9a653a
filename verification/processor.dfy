/**
 The record transformer (`processWith`) and the exported dispatcher of
 index.js: a stream record's `dynamodb` payload is decoded and, on request,
 diffed; a batch is transformed element by element.
 */
module Processor {
  import opened Wrappers
  import opened Js
  import opened Differ
  import opened Unmarshall

  const MissingDynamodbMessage: string := "Record is missing dynamodb property"
  const InvalidInputMessage: string := "Input must be array or object"

  /** The foreign primitives: the SDK converter and deep-object-diff. */
  datatype Foreign = Foreign(decode: Decoder, diffs: DiffLibrary)

  /** The one-field object `key: v` when `present`, no field otherwise. */
  function OptionalField(key: string, present: bool, v: Value): seq<Field> {
    if present then [(key, v)] else []
  }

  /** The difference between the decoded images: computed by the strategy the
      mode selects, on (old, new), only when the mode and both images are
      truthy; `undefined` otherwise, where the source keeps whichever falsy
      value stopped the check (only its truthiness is used later). A
      strategy's exception propagates. */
  function DiffOf(lib: DiffLibrary, diffType: Value, oldImage: Value, newImage: Value): Result<Value, Exception> {
    if Truthy(diffType) && Truthy(oldImage) && Truthy(newImage) && oldImage.Obj? && newImage.Obj? then
      var d :- Run(lib, DiffFunction(diffType), oldImage.entries, newImage.entries);
      Success(Obj(d))
    else Success(Undefined)
  }

  /** The fresh payload: `Keys`, `NewImage`, `OldImage` and `Diff`, in that
      order, each only when its value is truthy. */
  function Assemble(keys: Value, newImage: Value, oldImage: Value, diff: Value): seq<Field> {
    OptionalFields(Truthy(keys), keys, Truthy(newImage), newImage, Truthy(oldImage), oldImage, Truthy(diff), diff)
  }

  /** The transform of one stream record under a diff mode and decoder options. */
  function ProcessWith(diffType: Value, options: Value, ext: Foreign, record: Value): (r: Result<Value, Exception>)
    ensures record == Undefined || record == Null ==> r == Failure(TypeError("dynamodb"))
    ensures record != Undefined && record != Null && !Truthy(Get(record, "dynamodb")) ==>
      r == Failure(Error(MissingDynamodbMessage))
    ensures r.Success? ==> record.Obj? && r.value.Obj? && Truthy(Get(record, "dynamodb"))
    ensures r.Success? ==> KeySet(r.value.entries) == KeySet(record.entries)
  {
    var payload :- Prop(record, "dynamodb");
    if !Truthy(payload) then Failure(Error(MissingDynamodbMessage))
    else
      var keys :- UnmarshallWith(options, ext.decode, Get(payload, "Keys"));
      var newImage :- UnmarshallWith(options, ext.decode, Get(payload, "NewImage"));
      var oldImage :- UnmarshallWith(options, ext.decode, Get(payload, "OldImage"));
      var diff :- DiffOf(ext.diffs, diffType, oldImage, newImage);
      var out := Assemble(keys, newImage, oldImage, diff);
      assert record.Obj?;
      assert "dynamodb" in KeySet(record.entries) by {
        assert record.entries[IndexOf(record.entries, "dynamodb")] in record.entries;
      }
      Success(Obj(Put(record.entries, "dynamodb", Obj(out))))
  }

  /** A successful transform, step by step: the three decodes and the diff
      succeed, and the record's `dynamodb` is replaced by their assembly. */
  lemma ProcessWithUnfolds(diffType: Value, options: Value, ext: Foreign, record: Value)
    requires ProcessWith(diffType, options, ext, record).Success?
    ensures record.Obj?
    ensures var keys := UnmarshallWith(options, ext.decode, Source(record, "Keys"));
      var newImage := UnmarshallWith(options, ext.decode, Source(record, "NewImage"));
      var oldImage := UnmarshallWith(options, ext.decode, Source(record, "OldImage"));
      && keys.Success? && newImage.Success? && oldImage.Success?
      && DiffOf(ext.diffs, diffType, oldImage.value, newImage.value).Success?
      && ProcessWith(diffType, options, ext, record).value
         == Obj(Put(record.entries, "dynamodb", Obj(Assemble(keys.value, newImage.value, oldImage.value,
              DiffOf(ext.diffs, diffType, oldImage.value, newImage.value).value))))
  {
  }

  /** The payload field `key` of a record, as the transformer reads it. */
  function Source(record: Value, key: string): Value {
    Get(Get(record, "dynamodb"), key)
  }

  /** A successful transform keeps the envelope: the same property names in
      the same order, every property other than `dynamodb` unchanged, and
      `dynamodb` replaced by a fresh object. */
  lemma ProcessKeepsEnvelope(diffType: Value, options: Value, ext: Foreign, record: Value)
    requires ProcessWith(diffType, options, ext, record).Success?
    ensures record.Obj?
    ensures var out := ProcessWith(diffType, options, ext, record).value;
      && out.Obj?
      && |out.entries| == |record.entries|
      && (forall i :: 0 <= i < |out.entries| ==> out.entries[i].0 == record.entries[i].0)
      && (forall i :: 0 <= i < |out.entries| && record.entries[i].0 != "dynamodb" ==>
            out.entries[i] == record.entries[i])
      && Get(out, "dynamodb").Obj?
  {
    ProcessWithUnfolds(diffType, options, ext, record);
  }

  /** The output payload of a successful transform holds only `Keys`,
      `NewImage`, `OldImage` and `Diff`; each of the first three is present
      exactly when its source field is truthy, and holds that field decoded
      on its own (`undefined` when absent). Other payload fields are dropped. */
  lemma ProcessPayloadFields(diffType: Value, options: Value, ext: Foreign, record: Value)
    requires ProcessWith(diffType, options, ext, record).Success?
    ensures var p := Get(ProcessWith(diffType, options, ext, record).value, "dynamodb");
      && p.Obj?
      && DistinctKeys(p.entries)
      && KeySet(p.entries) <= {"Keys", "NewImage", "OldImage", "Diff"}
      && ("Keys" in KeySet(p.entries) <==> Truthy(Source(record, "Keys")))
      && ("NewImage" in KeySet(p.entries) <==> Truthy(Source(record, "NewImage")))
      && ("OldImage" in KeySet(p.entries) <==> Truthy(Source(record, "OldImage")))
      && Success(Lookup(p.entries, "Keys")) == UnmarshallWith(options, ext.decode, Source(record, "Keys"))
      && Success(Lookup(p.entries, "NewImage")) == UnmarshallWith(options, ext.decode, Source(record, "NewImage"))
      && Success(Lookup(p.entries, "OldImage")) == UnmarshallWith(options, ext.decode, Source(record, "OldImage"))
  {
    ProcessWithUnfolds(diffType, options, ext, record);
    var keys := UnmarshallWith(options, ext.decode, Source(record, "Keys")).value;
    var newImage := UnmarshallWith(options, ext.decode, Source(record, "NewImage")).value;
    var oldImage := UnmarshallWith(options, ext.decode, Source(record, "OldImage")).value;
    var diff := DiffOf(ext.diffs, diffType, oldImage, newImage).value;
    LookupPutSame(record.entries, "dynamodb", Obj(Assemble(keys, newImage, oldImage, diff)));
    AssembledPayloadFacts(keys, newImage, oldImage, diff);
  }

  /** `Diff` is present exactly when the diff mode is truthy and both the old
      and the new image were present on input; it then holds the selected
      strategy applied to the decoded (old, new) images in that order. */
  lemma ProcessDiffPresence(diffType: Value, options: Value, ext: Foreign, record: Value)
    requires ProcessWith(diffType, options, ext, record).Success?
    ensures var p := Get(ProcessWith(diffType, options, ext, record).value, "dynamodb");
      && p.Obj?
      && ("Diff" in KeySet(p.entries) <==>
            Truthy(diffType) && Truthy(Source(record, "OldImage")) && Truthy(Source(record, "NewImage")))
      && ("Diff" in KeySet(p.entries) ==>
            && Lookup(p.entries, "OldImage").Obj?
            && Lookup(p.entries, "NewImage").Obj?
            && Run(ext.diffs, DiffFunction(diffType),
                 Lookup(p.entries, "OldImage").entries, Lookup(p.entries, "NewImage").entries).Success?
            && Lookup(p.entries, "Diff") == Obj(Run(ext.diffs, DiffFunction(diffType),
                 Lookup(p.entries, "OldImage").entries, Lookup(p.entries, "NewImage").entries).value))
  {
    var keys := UnmarshallWith(options, ext.decode, Source(record, "Keys")).value;
    var newImage := UnmarshallWith(options, ext.decode, Source(record, "NewImage")).value;
    var oldImage := UnmarshallWith(options, ext.decode, Source(record, "OldImage")).value;
    var diff := DiffOf(ext.diffs, diffType, oldImage, newImage).value;
    var p := Assemble(keys, newImage, oldImage, diff);
    assert Get(ProcessWith(diffType, options, ext, record).value, "dynamodb") == Obj(p) by {
      ProcessWithUnfolds(diffType, options, ext, record);
      LookupPutSame(record.entries, "dynamodb", Obj(p));
    }
    assert Truthy(diff) <==> Truthy(diffType) && Truthy(Source(record, "OldImage")) && Truthy(Source(record, "NewImage")) by {
      ProcessWithUnfolds(diffType, options, ext, record);
    }
    AssembledPayloadFacts(keys, newImage, oldImage, diff);
  }

  /** The four optional payload fields, each decided by its own flag. */
  function OptionalFields(pk: bool, keys: Value, pn: bool, newImage: Value,
                          po: bool, oldImage: Value, pd: bool, diff: Value): seq<Field> {
    OptionalField("Keys", pk, keys)
      + (OptionalField("NewImage", pn, newImage) + (OptionalField("OldImage", po, oldImage) + OptionalField("Diff", pd, diff)))
  }

  /** The optional fields name exactly the flagged fields. */
  lemma OptionalFieldsNames(pk: bool, keys: Value, pn: bool, newImage: Value,
                            po: bool, oldImage: Value, pd: bool, diff: Value)
    ensures var p := OptionalFields(pk, keys, pn, newImage, po, oldImage, pd, diff);
      && KeySet(p) <= {"Keys", "NewImage", "OldImage", "Diff"}
      && ("Keys" in KeySet(p) <==> pk)
      && ("NewImage" in KeySet(p) <==> pn)
      && ("OldImage" in KeySet(p) <==> po)
      && ("Diff" in KeySet(p) <==> pd)
  {
    var p := OptionalFields(pk, keys, pn, newImage, po, oldImage, pd, diff);
    forall x | x in KeySet(p)
      ensures x in {"Keys", "NewImage", "OldImage", "Diff"}
    {
      OptionalFieldsNameAt(pk, keys, pn, newImage, po, oldImage, pd, diff, x);
    }
    assert "Keys" in KeySet(p) <==> pk by {
      OptionalFieldsNameAt(pk, keys, pn, newImage, po, oldImage, pd, diff, "Keys");
    }
    assert "NewImage" in KeySet(p) <==> pn by {
      OptionalFieldsNameAt(pk, keys, pn, newImage, po, oldImage, pd, diff, "NewImage");
    }
    assert "OldImage" in KeySet(p) <==> po by {
      OptionalFieldsNameAt(pk, keys, pn, newImage, po, oldImage, pd, diff, "OldImage");
    }
    assert "Diff" in KeySet(p) <==> pd by {
      OptionalFieldsNameAt(pk, keys, pn, newImage, po, oldImage, pd, diff, "Diff");
    }
  }

  /** Whether one name occurs among the optional fields: exactly when the
      field of that name is flagged. */
  lemma OptionalFieldsNameAt(pk: bool, keys: Value, pn: bool, newImage: Value,
                             po: bool, oldImage: Value, pd: bool, diff: Value, x: string)
    ensures x in KeySet(OptionalFields(pk, keys, pn, newImage, po, oldImage, pd, diff))
      <==> (pk && x == "Keys") || (pn && x == "NewImage") || (po && x == "OldImage") || (pd && x == "Diff")
  {
    var d := OptionalField("Diff", pd, diff) + [];
    assert d == OptionalField("Diff", pd, diff);
    var od := OptionalField("OldImage", po, oldImage) + d;
    var nod := OptionalField("NewImage", pn, newImage) + od;
    assert x !in KeySet([]);
    OptionalFieldFrontHas("Diff", pd, diff, [], x);
    OptionalFieldFrontHas("OldImage", po, oldImage, d, x);
    OptionalFieldFrontHas("NewImage", pn, newImage, od, x);
    OptionalFieldFrontHas("Keys", pk, keys, nod, x);
  }

  /** The optional fields never repeat a name. */
  lemma OptionalFieldsDistinct(pk: bool, keys: Value, pn: bool, newImage: Value,
                               po: bool, oldImage: Value, pd: bool, diff: Value)
    ensures DistinctKeys(OptionalFields(pk, keys, pn, newImage, po, oldImage, pd, diff))
  {
    var d := OptionalField("Diff", pd, diff) + [];
    assert d == OptionalField("Diff", pd, diff);
    var od := OptionalField("OldImage", po, oldImage) + d;
    var nod := OptionalField("NewImage", pn, newImage) + od;
    assert "Diff" !in KeySet([]);
    OptionalFieldFrontDistinct("Diff", pd, diff, []);
    assert "OldImage" !in KeySet(d) by {
      OptionalFieldFrontHas("Diff", pd, diff, [], "OldImage");
    }
    OptionalFieldFrontDistinct("OldImage", po, oldImage, d);
    assert "NewImage" !in KeySet(od) by {
      OptionalFieldFrontHas("Diff", pd, diff, [], "NewImage");
      OptionalFieldFrontHas("OldImage", po, oldImage, d, "NewImage");
    }
    OptionalFieldFrontDistinct("NewImage", pn, newImage, od);
    assert "Keys" !in KeySet(nod) by {
      OptionalFieldFrontHas("Diff", pd, diff, [], "Keys");
      OptionalFieldFrontHas("OldImage", po, oldImage, d, "Keys");
      OptionalFieldFrontHas("NewImage", pn, newImage, od, "Keys");
    }
    OptionalFieldFrontDistinct("Keys", pk, keys, nod);
  }

  /** Each optional field reads back as its value when flagged and as
      `undefined` otherwise. */
  lemma {:induction false} OptionalFieldsLookups(pk: bool, keys: Value, pn: bool, newImage: Value,
                              po: bool, oldImage: Value, pd: bool, diff: Value)
    ensures var p := OptionalFields(pk, keys, pn, newImage, po, oldImage, pd, diff);
      && Lookup(p, "Keys") == (if pk then keys else Undefined)
      && Lookup(p, "NewImage") == (if pn then newImage else Undefined)
      && Lookup(p, "OldImage") == (if po then oldImage else Undefined)
      && Lookup(p, "Diff") == (if pd then diff else Undefined)
  {
    var d := OptionalField("Diff", pd, diff) + [];
    assert d == OptionalField("Diff", pd, diff);
    var od := OptionalField("OldImage", po, oldImage) + d;
    var nod := OptionalField("NewImage", pn, newImage) + od;
    var p := OptionalField("Keys", pk, keys) + nod;
    assert Lookup(p, "Keys") == (if pk then keys else Undefined) by {
      OptionalFieldsLookupAt(pk, keys, pn, newImage, po, oldImage, pd, diff, "Keys");
    }
    assert Lookup(p, "NewImage") == (if pn then newImage else Undefined) by {
      OptionalFieldsLookupAt(pk, keys, pn, newImage, po, oldImage, pd, diff, "NewImage");
    }
    assert Lookup(p, "OldImage") == (if po then oldImage else Undefined) by {
      OptionalFieldsLookupAt(pk, keys, pn, newImage, po, oldImage, pd, diff, "OldImage");
    }
    assert Lookup(p, "Diff") == (if pd then diff else Undefined) by {
      OptionalFieldsLookupAt(pk, keys, pn, newImage, po, oldImage, pd, diff, "Diff");
    }
  }

  /** Reading one name of the optional fields: the first flagged field of
      that name, or `undefined`. */
  lemma OptionalFieldsLookupAt(pk: bool, keys: Value, pn: bool, newImage: Value,
                               po: bool, oldImage: Value, pd: bool, diff: Value, j: string)
    ensures Lookup(OptionalFields(pk, keys, pn, newImage, po, oldImage, pd, diff), j)
      == if pk && j == "Keys" then keys
         else if pn && j == "NewImage" then newImage
         else if po && j == "OldImage" then oldImage
         else if pd && j == "Diff" then diff
         else Undefined
  {
    var d := OptionalField("Diff", pd, diff) + [];
    assert d == OptionalField("Diff", pd, diff);
    var od := OptionalField("OldImage", po, oldImage) + d;
    var nod := OptionalField("NewImage", pn, newImage) + od;
    assert Lookup([], j) == Undefined;
    OptionalFieldFrontLookup("Diff", pd, diff, [], j);
    OptionalFieldFrontLookup("OldImage", po, oldImage, d, j);
    OptionalFieldFrontLookup("NewImage", pn, newImage, od, j);
    OptionalFieldFrontLookup("Keys", pk, keys, nod, j);
  }

  /** Prepending an optional field adds its name exactly when it is present. */
  lemma OptionalFieldFrontHas(key: string, present: bool, v: Value, rest: seq<Field>, x: string)
    ensures x in KeySet(OptionalField(key, present, v) + rest) <==> (present && x == key) || x in KeySet(rest)
  {
    var p := OptionalField(key, present, v) + rest;
    if present {
      assert p == [(key, v)] + rest;
      if x in KeySet(rest) {
        var f :| f in rest && f.0 == x;
        assert f in p;
      }
      assert p[0] == (key, v);
    } else {
      assert p == rest;
    }
  }

  /** Prepending an optional field whose name is not yet used keeps the
      names distinct. */
  lemma OptionalFieldFrontDistinct(key: string, present: bool, v: Value, rest: seq<Field>)
    requires key !in KeySet(rest)
    requires DistinctKeys(rest)
    ensures DistinctKeys(OptionalField(key, present, v) + rest)
  {
    var p := OptionalField(key, present, v) + rest;
    if present {
      forall i | 0 < i < |p|
        ensures p[i].0 != key
      {
        assert p[i] == rest[i - 1];
        assert rest[i - 1] in rest;
      }
    } else {
      assert p == rest;
    }
  }

  /** Reading a property of a payload with an optional field prepended. */
  lemma OptionalFieldFrontLookup(key: string, present: bool, v: Value, rest: seq<Field>, j: string)
    ensures Lookup(OptionalField(key, present, v) + rest, j) == if j == key && present then v else Lookup(rest, j)
  {
    var p := OptionalField(key, present, v) + rest;
    if present {
      assert p[1..] == rest;
      if j != key {
        var t := IndexOf(rest, j);
        assert IndexOf(p, j) == if t < 0 then -1 else t + 1;
      }
    } else {
      assert p == rest;
    }
  }

  /** Both facts about an assembled payload. */
  lemma {:induction false} AssembledPayloadFacts(keys: Value, newImage: Value, oldImage: Value, diff: Value)
    ensures var p := Assemble(keys, newImage, oldImage, diff);
      && DistinctKeys(p)
      && KeySet(p) <= {"Keys", "NewImage", "OldImage", "Diff"}
      && ("Keys" in KeySet(p) <==> Truthy(keys))
      && ("NewImage" in KeySet(p) <==> Truthy(newImage))
      && ("OldImage" in KeySet(p) <==> Truthy(oldImage))
      && ("Diff" in KeySet(p) <==> Truthy(diff))
      && Lookup(p, "Keys") == (if Truthy(keys) then keys else Undefined)
      && Lookup(p, "NewImage") == (if Truthy(newImage) then newImage else Undefined)
      && Lookup(p, "OldImage") == (if Truthy(oldImage) then oldImage else Undefined)
      && Lookup(p, "Diff") == (if Truthy(diff) then diff else Undefined)
  {
    var tk, tn, to, td := Truthy(keys), Truthy(newImage), Truthy(oldImage), Truthy(diff);
    OptionalFieldsNames(tk, keys, tn, newImage, to, oldImage, td, diff);
    OptionalFieldsDistinct(tk, keys, tn, newImage, to, oldImage, td, diff);
    OptionalFieldsLookups(tk, keys, tn, newImage, to, oldImage, td, diff);
  }

  /** With a truthy payload, the transform fails exactly when decoding one of
      `Keys`, `NewImage`, `OldImage` fails, or the selected diff strategy
      fails on the decoded (old, new) images; it then fails with the first
      such exception, in that order. Nothing is caught or wrapped. */
  lemma ProcessPropagatesErrors(diffType: Value, options: Value, ext: Foreign, record: Value)
    requires Truthy(Get(record, "dynamodb"))
    ensures var r := ProcessWith(diffType, options, ext, record);
      var keys := UnmarshallWith(options, ext.decode, Source(record, "Keys"));
      var newImage := UnmarshallWith(options, ext.decode, Source(record, "NewImage"));
      var oldImage := UnmarshallWith(options, ext.decode, Source(record, "OldImage"));
      && (keys.Failure? ==> r == Failure(keys.error))
      && (keys.Success? && newImage.Failure? ==> r == Failure(newImage.error))
      && (keys.Success? && newImage.Success? && oldImage.Failure? ==> r == Failure(oldImage.error))
      && (keys.Success? && newImage.Success? && oldImage.Success? ==>
            var diffed := Truthy(diffType) && Truthy(Source(record, "OldImage")) && Truthy(Source(record, "NewImage"));
            && (diffed ==> oldImage.value.Obj? && newImage.value.Obj?)
            && (r.Failure? <==>
                  diffed && Run(ext.diffs, DiffFunction(diffType), oldImage.value.entries, newImage.value.entries).Failure?)
            && (r.Failure? ==>
                  r == Failure(Run(ext.diffs, DiffFunction(diffType), oldImage.value.entries, newImage.value.entries).error)))
  {
  }

  /** The transform of a batch: the records are transformed in order and the
      first exception aborts the whole batch. */
  function ProcessAll(diffType: Value, options: Value, ext: Foreign, records: seq<Value>): (r: Result<seq<Value>, Exception>)
    ensures r.Success? ==>
      && |r.value| == |records|
      && forall i :: 0 <= i < |records| ==> ProcessWith(diffType, options, ext, records[i]) == Success(r.value[i])
    ensures r.Failure? ==>
      exists i :: 0 <= i < |records|
        && ProcessWith(diffType, options, ext, records[i]) == Failure(r.error)
        && forall j :: 0 <= j < i ==> ProcessWith(diffType, options, ext, records[j]).Success?
  {
    if |records| == 0 then Success([])
    else
      var first :- ProcessWith(diffType, options, ext, records[0]);
      var rest := ProcessAll(diffType, options, ext, records[1..]);
      if rest.Failure? then
        FailureAfterSuccess(diffType, options, ext, records, rest.error);
        Failure(rest.error)
      else
        Success([first] + rest.value)
  }

  /** A batch whose tail fails first at some record, after a head that
      succeeds, fails first at the matching record of the whole batch. */
  lemma FailureAfterSuccess(diffType: Value, options: Value, ext: Foreign, records: seq<Value>, e: Exception)
    requires |records| > 0 && ProcessWith(diffType, options, ext, records[0]).Success?
    requires
      exists i :: 0 <= i < |records| - 1
        && ProcessWith(diffType, options, ext, records[1..][i]) == Failure(e)
        && forall j :: 0 <= j < i ==> ProcessWith(diffType, options, ext, records[1..][j]).Success?
    ensures
      exists i :: 0 <= i < |records|
        && ProcessWith(diffType, options, ext, records[i]) == Failure(e)
        && forall j :: 0 <= j < i ==> ProcessWith(diffType, options, ext, records[j]).Success?
  {
    var i :| 0 <= i < |records| - 1
      && ProcessWith(diffType, options, ext, records[1..][i]) == Failure(e)
      && forall j :: 0 <= j < i ==> ProcessWith(diffType, options, ext, records[1..][j]).Success?;
    assert records[i + 1] == records[1..][i];
    forall j | 0 <= j < i + 1
      ensures ProcessWith(diffType, options, ext, records[j]).Success?
    {
      if j > 0 {
        assert records[j] == records[1..][j - 1];
      }
    }
  }

  /** The diff mode the caller gave, `false` when omitted. */
  function DiffTypeOrDefault(diffType: Value): Value {
    if diffType == Undefined then Bool(false) else diffType
  }

  /** The options the caller gave, `{}` when omitted. */
  function OptionsOrDefault(options: Value): Value {
    if options == Undefined then Obj([]) else options
  }

  /** The exported entry point, with the diff mode defaulting to `false` and
      the options to an empty object. An array is transformed element-wise,
      all or nothing; any other object is transformed once; anything else is
      rejected. */
  function Transform(records: Value, diffType: Value, options: Value, ext: Foreign): (r: Result<Value, Exception>)
    ensures records.Arr? && r.Success? ==>
      && r.value.Arr?
      && |r.value.items| == |records.items|
      && forall i :: 0 <= i < |records.items| ==>
           ProcessWith(DiffTypeOrDefault(diffType), OptionsOrDefault(options), ext, records.items[i])
             == Success(r.value.items[i])
    ensures records.Arr? ==>
      (r.Failure? <==>
         exists i :: 0 <= i < |records.items| &&
           ProcessWith(DiffTypeOrDefault(diffType), OptionsOrDefault(options), ext, records.items[i]).Failure?)
    ensures records.Obj? || records.DynamoSet? ==>
      r == ProcessWith(DiffTypeOrDefault(diffType), OptionsOrDefault(options), ext, records)
    ensures !records.Arr? && !records.Obj? && !records.DynamoSet? ==>
      r == Failure(Error(InvalidInputMessage))
  {
    var mode := DiffTypeOrDefault(diffType);
    var opts := OptionsOrDefault(options);
    match records
    case Arr(items) =>
      var outs :- ProcessAll(mode, opts, ext, items);
      Success(Arr(outs))
    case Obj(_) => ProcessWith(mode, opts, ext, records)
    case DynamoSet(_) => ProcessWith(mode, opts, ext, records)
    case _ => Failure(Error(InvalidInputMessage))
  }

  /** A failed batch reports the exception of its first failing record. */
  lemma TransformBatchFirstError(records: seq<Value>, diffType: Value, options: Value, ext: Foreign)
    requires Transform(Arr(records), diffType, options, ext).Failure?
    ensures var mode, opts := DiffTypeOrDefault(diffType), OptionsOrDefault(options);
      exists i :: 0 <= i < |records|
        && ProcessWith(mode, opts, ext, records[i]) == Failure(Transform(Arr(records), diffType, options, ext).error)
        && forall j :: 0 <= j < i ==> ProcessWith(mode, opts, ext, records[j]).Success?
  {
  }

  /** Without a diff mode, no transformed record carries a `Diff`: neither a
      single record nor any record of a batch. */
  lemma {:induction false} TransformWithoutDiffMode(records: Value, options: Value, ext: Foreign)
    requires Transform(records, Undefined, options, ext).Success?
    ensures var out := Transform(records, Undefined, options, ext).value;
      && (records.Obj? ==>
            out.Obj? && Get(out, "dynamodb").Obj? && "Diff" !in KeySet(Get(out, "dynamodb").entries))
      && (records.Arr? ==>
            out.Arr? && |out.items| == |records.items|
            && forall i :: 0 <= i < |out.items| ==>
                 out.items[i].Obj? && Get(out.items[i], "dynamodb").Obj?
                 && "Diff" !in KeySet(Get(out.items[i], "dynamodb").entries))
  {
    var opts := OptionsOrDefault(options);
    if records.Obj? {
      ProcessDiffPresence(Bool(false), opts, ext, records);
    } else if records.Arr? {
      var out := Transform(records, Undefined, options, ext).value;
      forall i | 0 <= i < |out.items|
        ensures out.items[i].Obj? && Get(out.items[i], "dynamodb").Obj?
        ensures "Diff" !in KeySet(Get(out.items[i], "dynamodb").entries)
      {
        ProcessDiffPresence(Bool(false), opts, ext, records.items[i]);
      }
    }
  }
}
