/**
 * The Mongoose schema-type rules that every model file relies on: how a
 * reference path is cast to an ObjectId, what `maxlength` and `required`
 * accept, and how an update document overwrites the paths it names.
 */
module SchemaTypes {
  import opened Wrappers
  import opened QueryUtils

  /** `maxlength: max` on an optional string path. */
  predicate WithinLength(s: Option<string>, max: nat) {
    s.None? || |s.value| <= max
  }

  /** `required: true` on a string path: present and not the empty string. */
  predicate IsPresent(s: Option<string>) {
    s.Some? && s.value != ""
  }

  /** An `ObjectId` path casts when it is absent or holds a valid id. */
  predicate RefCasts(raw: Option<string>) {
    raw.None? || IsValidObjectId(raw.value)
  }

  /** An array of `ObjectId` casts when every element does. */
  predicate RefsCast(raw: Option<seq<string>>) {
    raw.None? || forall i :: 0 <= i < |raw.value| ==> IsValidObjectId(raw.value[i])
  }

  /** `enum: values` on an optional string path. */
  predicate InEnum(s: Option<string>, values: seq<string>) {
    s.None? || s.value in values
  }

  /** An update document sets the paths it names and leaves the others. */
  function Overwrite<T>(given: Option<T>, current: T): T {
    if given.Some? then given.value else current
  }

  /** The same for an optional path. */
  function OverwriteOptional<T>(given: Option<T>, current: Option<T>): Option<T> {
    if given.Some? then given else current
  }
}
