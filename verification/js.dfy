/**
 The fragment of JavaScript's value model the stream processor relies on:
 truthiness, property reads, and objects as insertion-ordered field lists
 built by spread and computed-key assignment.
 */
module Js {
  import opened Wrappers

  /** A JavaScript value as the processor sees it. `DynamoSet` is an instance
      of the AWS SDK's DynamoDB `Set` class, whose `values` field holds the
      members in the order the decoder produced them. */
  datatype Value =
    | Undefined
    | Null
    | Bool(b: bool)
    | Num(n: real)
    | Str(s: string)
    | Arr(items: seq<Value>)
    | Obj(entries: seq<Field>)
    | DynamoSet(members: seq<Value>)

  /** One own property of a plain object: its name and its value. */
  type Field = (string, Value)

  /** A thrown exception: a `TypeError` raised by reading a property of
      `null` or `undefined`, or an `Error` with a message. */
  datatype Exception = TypeError(property: string) | Error(message: string)

  /** JavaScript truthiness (`NaN` is not modelled). */
  predicate Truthy(v: Value) {
    match v
    case Undefined => false
    case Null => false
    case Bool(b) => b
    case Num(n) => n != 0.0
    case Str(s) => s != ""
    case _ => true
  }

  /** The property names of an object. */
  function KeySet(entries: seq<Field>): set<string> {
    set f | f in entries :: f.0
  }

  /** No property name occurs twice, as in every object JavaScript builds. */
  predicate DistinctKeys(entries: seq<Field>) {
    forall i, j :: 0 <= i < j < |entries| ==> entries[i].0 != entries[j].0
  }

  /** Position of the property named `key`, or -1 when there is none. */
  function IndexOf(entries: seq<Field>, key: string): (r: int)
    ensures -1 <= r < |entries|
    ensures 0 <= r ==> entries[r].0 == key
    ensures 0 <= r ==> forall j :: 0 <= j < r ==> entries[j].0 != key
    ensures r == -1 <==> key !in KeySet(entries)
  {
    if |entries| == 0 then -1
    else if entries[0].0 == key then 0
    else
      var t := IndexOf(entries[1..], key);
      assert KeySet(entries) == {entries[0].0} + KeySet(entries[1..]) by {
        assert entries == [entries[0]] + entries[1..];
      }
      if t < 0 then -1 else t + 1
  }

  /** `obj[key]` on an object: the property's value, `undefined` when absent. */
  function Lookup(entries: seq<Field>, key: string): Value {
    var i := IndexOf(entries, key);
    if i < 0 then Undefined else entries[i].1
  }

  /** A copy of an object with property `key` set to `v`: an existing
      property keeps its position and takes the new value; a new property is
      appended. */
  function Put(entries: seq<Field>, key: string, v: Value): (r: seq<Field>)
    ensures KeySet(r) == KeySet(entries) + {key}
    ensures |r| == if key in KeySet(entries) then |entries| else |entries| + 1
    ensures forall i :: 0 <= i < |entries| ==> r[i].0 == entries[i].0
    ensures forall i :: 0 <= i < |entries| && entries[i].0 != key ==> r[i] == entries[i]
    ensures key in KeySet(entries) ==> r[IndexOf(entries, key)] == (key, v)
    ensures key !in KeySet(entries) ==> r[|entries|] == (key, v)
  {
    var i := IndexOf(entries, key);
    if i < 0 then entries + [(key, v)]
    else
      KeySetRename(entries, i, v);
      entries[i := (key, v)]
  }

  /** Replacing a value in place leaves the property names unchanged. */
  lemma KeySetRename(entries: seq<Field>, i: int, v: Value)
    requires 0 <= i < |entries|
    ensures KeySet(entries[i := (entries[i].0, v)]) == KeySet(entries)
  {
    var r := entries[i := (entries[i].0, v)];
    forall k | k in KeySet(entries)
      ensures k in KeySet(r)
    {
      var f :| f in entries && f.0 == k;
      var j :| 0 <= j < |entries| && entries[j] == f;
      assert r[j].0 == k;
    }
    forall k | k in KeySet(r)
      ensures k in KeySet(entries)
    {
      var f :| f in r && f.0 == k;
      var j :| 0 <= j < |r| && r[j] == f;
      assert entries[j].0 == k;
    }
  }

  /** Property read `v[key]` on a value that is not `null`/`undefined`. Only
      own properties of plain objects are modelled; none of the names the
      processor reads is a built-in property of strings, arrays or sets. */
  function Get(v: Value, key: string): Value {
    match v
    case Obj(entries) => Lookup(entries, key)
    case _ => Undefined
  }

  /** Property read `v.key`, which throws on `null` and `undefined`. */
  function Prop(v: Value, key: string): (r: Result<Value, Exception>)
    ensures r.Failure? <==> v == Undefined || v == Null
    ensures r.Failure? ==> r.error == TypeError(key)
    ensures Truthy(v) ==> r == Success(Get(v, key))
  {
    if v.Undefined? || v.Null? then Failure(TypeError(key)) else Success(Get(v, key))
  }

  /** Reading back a property just written yields the written value. */
  lemma LookupPutSame(entries: seq<Field>, key: string, v: Value)
    ensures Lookup(Put(entries, key, v), key) == v
  {
  }

  /** Writing one property leaves every other property's value unchanged. */
  lemma LookupPutOther(entries: seq<Field>, key: string, v: Value, other: string)
    requires other != key
    ensures Lookup(Put(entries, key, v), other) == Lookup(entries, other)
  {
    var r := Put(entries, key, v);
    var a, b := IndexOf(r, other), IndexOf(entries, other);
    if b >= 0 {
      assert r[b].0 == other;
      assert a == b;
    } else {
      assert other !in KeySet(r);
    }
  }

  /** Writing preserves distinctness of property names. */
  lemma PutDistinct(entries: seq<Field>, key: string, v: Value)
    requires DistinctKeys(entries)
    ensures DistinctKeys(Put(entries, key, v))
  {
    var r := Put(entries, key, v);
    if key !in KeySet(entries) {
      forall i | 0 <= i < |entries|
        ensures r[i].0 != key
      {
        assert entries[i] in entries;
      }
    }
  }
}
