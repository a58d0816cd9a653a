/**
 Decoding of DynamoDB's tagged attribute encoding (`unmarshallWith`,
 index.js). The decoding itself is the AWS SDK converter's, supplied as an
 opaque function; this module models what the processor does around it:
 skipping falsy input and flattening top-level SDK sets into arrays.
 */
module Unmarshall {
  import opened Wrappers
  import opened Js

  /** The SDK converter's decoding of a tagged value under the caller's
      options: the fields of the object it returns, or the exception it
      throws on malformed input. */
  type Decoder = (Value, Value) -> Result<seq<Field>, Exception>

  /** An SDK set becomes the array of its members; any other value is kept. */
  function Unwrap(v: Value): Value {
    match v
    case DynamoSet(members) => Arr(members)
    case _ => v
  }

  /** The fold over the decoded object's entries: starting from an empty
      object, each entry in turn is written into the accumulator under its
      own name, a set value unwrapped to its members. */
  function FlattenSets(entries: seq<Field>): (r: seq<Field>)
    ensures KeySet(r) == KeySet(entries)
    ensures DistinctKeys(r)
    decreases |entries|
  {
    if |entries| == 0 then []
    else
      var init, last := entries[..|entries| - 1], entries[|entries| - 1];
      var acc := FlattenSets(init);
      assert KeySet(entries) == KeySet(init) + {last.0} by {
        assert entries == init + [last];
      }
      PutDistinct(acc, last.0, Unwrap(last.1));
      Put(acc, last.0, Unwrap(last.1))
  }

  /** No top-level property holds an SDK set. */
  predicate NoTopLevelSets(entries: seq<Field>) {
    forall i :: 0 <= i < |entries| ==> !entries[i].1.DynamoSet?
  }

  /** Flattening, entry by entry, for fields with distinct names (as
      `Object.entries` always yields): the same names in the same order, each
      set replaced by the array of its members in the decoder's order, and
      every other value, including sets nested deeper, left untouched. */
  lemma {:induction false} FlattenSetsPointwise(entries: seq<Field>)
    requires DistinctKeys(entries)
    ensures |FlattenSets(entries)| == |entries|
    ensures forall i :: 0 <= i < |entries| ==> FlattenSets(entries)[i].0 == entries[i].0
    ensures forall i :: 0 <= i < |entries| && entries[i].1.DynamoSet? ==>
      FlattenSets(entries)[i].1 == Arr(entries[i].1.members)
    ensures forall i :: 0 <= i < |entries| && !entries[i].1.DynamoSet? ==>
      FlattenSets(entries)[i].1 == entries[i].1
  {
    FlattenSetsUnwrapsEach(entries);
  }

  /** Flattening distinct-named fields unwraps each entry where it stands. */
  lemma {:induction false} FlattenSetsUnwrapsEach(entries: seq<Field>)
    requires DistinctKeys(entries)
    ensures |FlattenSets(entries)| == |entries|
    ensures forall i :: 0 <= i < |entries| ==> FlattenSets(entries)[i] == (entries[i].0, Unwrap(entries[i].1))
    decreases |entries|
  {
    if |entries| > 0 {
      var init := entries[..|entries| - 1];
      FlattenSetsUnwrapsEach(init);
      FlattenSetsLast(entries);
      var r, acc := FlattenSets(entries), FlattenSets(init);
      forall i | 0 <= i < |init|
        ensures r[i] == (entries[i].0, Unwrap(entries[i].1))
      {
        assert r[i] == acc[i] && entries[i] == init[i];
      }
    }
  }

  /** The last entry of distinct-named fields is appended, unwrapped, after
      the flattening of those before it. */
  lemma FlattenSetsLast(entries: seq<Field>)
    requires |entries| > 0
    requires DistinctKeys(entries)
    ensures FlattenSets(entries)
      == FlattenSets(entries[..|entries| - 1]) + [(entries[|entries| - 1].0, Unwrap(entries[|entries| - 1].1))]
  {
    var init, last := entries[..|entries| - 1], entries[|entries| - 1];
    assert last.0 !in KeySet(init) by {
      forall f | f in init
        ensures f.0 != last.0
      {
        var j :| 0 <= j < |init| && init[j] == f;
        assert entries[j] == f;
      }
    }
  }

  /** After flattening, no top-level property holds a set. */
  lemma {:induction false} FlattenSetsRemovesTopLevelSets(entries: seq<Field>)
    ensures NoTopLevelSets(FlattenSets(entries))
    decreases |entries|
  {
    if |entries| > 0 {
      FlattenSetsRemovesTopLevelSets(entries[..|entries| - 1]);
    }
  }

  /** Flattening an object that holds no top-level set changes nothing. */
  lemma FlattenSetsWithoutSets(entries: seq<Field>)
    requires DistinctKeys(entries)
    requires NoTopLevelSets(entries)
    ensures FlattenSets(entries) == entries
  {
    FlattenSetsPointwise(entries);
  }

  /** Flattening is idempotent. */
  lemma {:induction false} FlattenSetsIdempotent(entries: seq<Field>)
    ensures FlattenSets(FlattenSets(entries)) == FlattenSets(entries)
  {
    FlattenSetsRemovesTopLevelSets(entries);
    FlattenSetsWithoutSets(FlattenSets(entries));
  }

  /** Decoding of one payload field: `undefined` for a falsy `obj`; otherwise
      the decoded object, with top-level sets flattened unless
      `options.wrapSets` is truthy. */
  function UnmarshallWith(options: Value, decode: Decoder, obj: Value): (r: Result<Value, Exception>)
    ensures !Truthy(obj) ==> r == Success(Undefined)
    ensures Truthy(obj) && decode(obj, options).Failure? ==> r == Failure(decode(obj, options).error)
    ensures Truthy(obj) && decode(obj, options).Success? && options == Null ==> r == Failure(TypeError("wrapSets"))
    ensures r.Success? ==> (Truthy(r.value) <==> Truthy(obj))
    ensures r.Success? && Truthy(obj) ==>
      && decode(obj, options).Success?
      && r.value.Obj?
      && KeySet(r.value.entries) == KeySet(decode(obj, options).value)
  {
    if !Truthy(obj) then Success(Undefined)
    else
      var item :- decode(obj, options);
      var wrapSets :- Prop(options, "wrapSets");
      if Truthy(wrapSets) then Success(Obj(item)) else Success(Obj(FlattenSets(item)))
  }

  /** The decoder is not consulted for a falsy field: any two decoders give
      the same result. */
  lemma UnmarshallFalsySkipsDecoder(options: Value, decode1: Decoder, decode2: Decoder, obj: Value)
    requires !Truthy(obj)
    ensures UnmarshallWith(options, decode1, obj) == UnmarshallWith(options, decode2, obj)
    ensures UnmarshallWith(options, decode1, obj) == Success(Undefined)
  {
  }

  /** With `wrapSets` truthy, the result is the decoder's output unchanged,
      the decoder having received the caller's options verbatim. */
  lemma UnmarshallWrapSets(options: Value, decode: Decoder, obj: Value)
    requires Truthy(obj)
    requires Truthy(Get(options, "wrapSets"))
    requires decode(obj, options).Success?
    ensures UnmarshallWith(options, decode, obj) == Success(Obj(decode(obj, options).value))
  {
  }

  /** With `wrapSets` falsy (absent by default), the result has the decoded
      object's property names in its order, each top-level set replaced by
      its members and every other value unchanged. */
  lemma UnmarshallFlattensSets(options: Value, decode: Decoder, obj: Value)
    requires Truthy(obj)
    requires options != Undefined && options != Null
    requires !Truthy(Get(options, "wrapSets"))
    requires decode(obj, options).Success?
    requires DistinctKeys(decode(obj, options).value)
    ensures UnmarshallWith(options, decode, obj).Success?
    ensures var item, r := decode(obj, options).value, UnmarshallWith(options, decode, obj).value.entries;
      && |r| == |item|
      && (forall i :: 0 <= i < |item| ==> r[i].0 == item[i].0)
      && (forall i :: 0 <= i < |item| && item[i].1.DynamoSet? ==> r[i].1 == Arr(item[i].1.members))
      && (forall i :: 0 <= i < |item| && !item[i].1.DynamoSet? ==> r[i].1 == item[i].1)
  {
    FlattenSetsPointwise(decode(obj, options).value);
  }
}
