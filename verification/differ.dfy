/**
 Selection of a structural-diff strategy by the caller's diff mode
 (`diffFunction`, index.js). The five strategies belong to the
 deep-object-diff library and are supplied as opaque functions.
 */
module Differ {
  import opened Wrappers
  import opened Js

  /** The five strategies deep-object-diff exports. */
  datatype Strategy = Added | Deleted | Updated | Detailed | Full

  /** One deep-object-diff function over (old, new). Applied to two objects
      it returns an object, given here by its fields, or throws. */
  type DiffStrategy = (seq<Field>, seq<Field>) -> Result<seq<Field>, Exception>

  /** deep-object-diff's five exported functions. */
  datatype DiffLibrary = DiffLibrary(
    diff: DiffStrategy,
    addedDiff: DiffStrategy,
    deletedDiff: DiffStrategy,
    updatedDiff: DiffStrategy,
    detailedDiff: DiffStrategy)

  /** The strategy a diff mode names. The `switch` compares with `===`, so only
      the four exact strings select a restricted strategy; every other value,
      `true`, numbers and unknown strings included, selects the full diff. */
  function DiffFunction(diffType: Value): (s: Strategy)
    ensures s == Added <==> diffType == Str("added")
    ensures s == Deleted <==> diffType == Str("deleted")
    ensures s == Updated <==> diffType == Str("updated")
    ensures s == Detailed <==> diffType == Str("detailed")
    ensures s == Full <==> diffType !in {Str("added"), Str("deleted"), Str("updated"), Str("detailed")}
  {
    match diffType
    case Str(name) =>
      if name == "added" then Added
      else if name == "deleted" then Deleted
      else if name == "updated" then Updated
      else if name == "detailed" then Detailed
      else Full
    case _ => Full
  }

  /** Applies a strategy to (old, new), in that argument order. */
  function Run(lib: DiffLibrary, s: Strategy, before: seq<Field>, after: seq<Field>): Result<seq<Field>, Exception> {
    match s
    case Added => lib.addedDiff(before, after)
    case Deleted => lib.deletedDiff(before, after)
    case Updated => lib.updatedDiff(before, after)
    case Detailed => lib.detailedDiff(before, after)
    case Full => lib.diff(before, after)
  }
}
