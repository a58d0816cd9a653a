# DynamoDB Streams Processor — Dafny model

This project models the record-transformation pipeline of the DynamoDB
Streams Processor, a single JavaScript module that reshapes DynamoDB stream
records. For each record it decodes the `Keys`, `NewImage` and `OldImage`
snapshots out of DynamoDB's tagged attribute encoding. By default it
flattens top-level DynamoDB sets into plain arrays. When a diff mode is
given and both snapshots exist, it attaches a structural `Diff` of the old
and new images. A batch (array) is transformed record by record. A single
object is transformed once. Anything else is rejected.

Layout:

- `wrappers.dfy` — `Result`, the value-or-exception type every throwing operation returns.
- `js.dfy` — the JavaScript value model. It covers truthiness and property reads,
  which throw on `null`/`undefined`. Objects are insertion-ordered field lists.
  Writing a field with spread/assign keeps an existing field in place and
  appends a new one. A JavaScript exception is either a `TypeError` or an `Error` with a message.
- `differ.dfy` — `diffFunction`: the five-way strategy selection, and the
  deep-object-diff strategies as opaque functions.
- `unmarshall.dfy` — `unmarshallWith`: skipping falsy fields, calling the
  SDK converter (an opaque function parameter), and the `reduce` that
  flattens top-level sets.
- `processor.dfy` — `processWith` (one record) and the exported dispatcher.

The two foreign libraries are not modelled; they are passed in as function
values (`Processor.Foreign`):

- The AWS SDK converter's `unmarshall` is a function from (tagged value, options)
  to the fields of the decoded object, or to the exception it throws.
- deep-object-diff's `diff`, `addedDiff`, `deletedDiff`, `updatedDiff` and
  `detailedDiff` are functions from the (old, new) objects' fields to the
  result object's fields, or to the exception they throw. A computed diff
  is an object, so it is always truthy.

## Behaviour that follows the code

The model follows index.js where its documented contract says less or
says otherwise:

- A batch element that is `null` or `undefined` makes `record.dynamodb` throw a
  `TypeError`. It does not produce the "Record is missing dynamodb property" error.
  A primitive element such as `5` does produce that error.
- Explicit `null` options are not replaced by `{}`. Decoding a present field
  then throws when `options.wrapSets` is read.
- `Diff` presence is decided on the decoded images. The decoder always returns an object,
  so this matches the presence of the original `OldImage`/`NewImage` fields.

## Model

| member | source | states |
|---|---|---|
| Js.Put | index.js:48-52 | Writing property `k` into an object by spread or assignment adds `k` to the property names and keeps every existing name at its position. Every other property keeps its value, an existing `k` takes the new value at its first position, and a new `k` is appended at the end. |
| Js.LookupPutOther | index.js:74-76 | Writing one property never changes what another property reads as. |
| Js.PutDistinct | index.js:48-54 | Writing a property never creates a duplicate property name. |
| Differ.DiffFunction | index.js:24-37 | `'added'`, `'deleted'`, `'updated'` and `'detailed'` select their own strategy, in both directions of the iff. Every other mode value, including `true`, numbers and unknown strings, selects the full `diff`. |
| Unmarshall.FlattenSets | index.js:48-54 | The object built by the `reduce` has exactly the decoded object's property names, each occurring once. |
| Unmarshall.FlattenSetsPointwise | index.js:48-54 | For an object with distinct names, flattening keeps the same names in the same order. Each top-level set becomes the array of its members in the decoder's order. Every other value, including sets nested inside maps or lists, is unchanged. |
| Unmarshall.FlattenSetsRemovesTopLevelSets | index.js:51 | No top-level property of a flattened object holds an SDK set. |
| Unmarshall.FlattenSetsWithoutSets | index.js:48-54 | An object without top-level sets comes out of flattening unchanged. |
| Unmarshall.FlattenSetsIdempotent | index.js:48-54 | Flattening twice equals flattening once. |
| Unmarshall.UnmarshallWith | index.js:40-55 | A falsy field decodes to `undefined`. A decoder exception propagates unchanged. With `null` options the `wrapSets` read throws. Otherwise the result is an object exactly when the field was truthy, and it has the decoded object's property names. |
| Unmarshall.UnmarshallFalsySkipsDecoder | index.js:41 | For a falsy field the decoder is not consulted: any two decoders give the same `undefined` result. |
| Unmarshall.UnmarshallWrapSets | index.js:44-47 | With `wrapSets` truthy, the result is exactly the decoder's output for the caller's options, passed verbatim. |
| Unmarshall.UnmarshallFlattensSets | index.js:44-54 | With `wrapSets` falsy, the result keeps the decoded object's names and order. It replaces each top-level set by its members and leaves every other value unchanged. |
| Processor.ProcessWith | index.js:57-83 | A `null`/`undefined` record throws a `TypeError`. A record whose `dynamodb` is falsy fails with "Record is missing dynamodb property". A successful output is an object with the input record's property names. |
| Processor.ProcessKeepsEnvelope | index.js:74-76 | A transformed record has the input's property names in the input's order. Every property other than `dynamodb` is unchanged, and `dynamodb` is a fresh object. |
| Processor.AssembledPayloadFacts | index.js:76-81 | The new `dynamodb` object holds only `Keys`, `NewImage`, `OldImage` and `Diff`, each at most once. Each is present exactly when its value is truthy, and reads back as that value or as `undefined`. |
| Processor.ProcessPayloadFields | index.js:63-67 | The output payload holds no field besides the four. `Keys`, `NewImage` and `OldImage` are each present iff the source field is truthy, and each equals that field decoded on its own. Other payload fields are dropped. |
| Processor.ProcessDiffPresence | index.js:68-72 | `Diff` is present iff the diff mode is truthy and both source images are truthy. It then equals the selected strategy applied to the decoded (old, new) images, in that order. |
| Processor.ProcessPropagatesErrors | index.js:65-72 | With a payload present, the transform fails iff decoding `Keys`, `NewImage` or `OldImage` fails, or the selected diff strategy throws on the decoded (old, new) images when a diff is computed. The failure carries the first such exception, in that order, unchanged. |
| Processor.ProcessAll | index.js:90 | On success the output has the input's length, and element i is the transform of record i. On failure some record fails with exactly that exception, and every record before it succeeds. |
| Processor.Transform | index.js:86-95 | An array gives an array of the same length whose element i is the transform of record i. The array fails iff some record fails. A non-array object is transformed once. Any other input fails with "Input must be array or object". Omitted mode and options default to `false` and `{}`. |
| Processor.TransformBatchFirstError | index.js:89-90 | A failed batch reports the exception of its first failing record. No partial result is returned. |
| Processor.TransformWithoutDiffMode | index.js:86-95 | When no diff mode is given, no transformed record carries a `Diff`: neither a single transformed object nor any record of a transformed batch. |

## Left out

- The DynamoDB attribute decoding inside `converter.unmarshall` (index.js:9, 44): number precision, empty values and set construction. It is an opaque function parameter.
- The deep-object-diff algorithms (index.js:15-21) are opaque function parameters. Their result shapes are not specified. Each either returns the fields of an object or throws, and a thrown exception propagates out of the transform.
- The `require` plumbing and the identity of the SDK `Set` class (index.js:8-12). Being an SDK set is the `DynamoSet` variant of a value, not an `instanceof` test.
- Full JavaScript semantics are not modelled. `NaN` truthiness, functions as values, getters, prototype properties, and built-in properties of strings, arrays and sets are left out. None of the property names the processor reads is such a built-in.
- Integer-like property names, which JavaScript enumerates before other names, are not reordered. Field order is plain insertion order.
- Processor.DiffOf: a falsy `Diff` is collapsed to `undefined`. The source keeps the falsy operand of `&&`, but only its truthiness is ever used.
- Processor.Transform: the default `false`/`{}` is applied only to an omitted (`undefined`) argument, as in the source. An explicit `null` for the options reaches the decoder and then throws on the `wrapSets` read.
