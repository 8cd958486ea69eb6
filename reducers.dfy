/** The two per-field reducers the state annotations declare, and how a node's
    partial update is merged through them: a field the update leaves out keeps
    its current value. */
module Reducers {
  import opened Wrappers

  /** `(_, next) => next` */
  function Replace<T>(prev: T, next: T): (r: T)
    ensures r == next
  {
    next
  }

  /** `(prev, next) => [...prev, ...next]` */
  function Append<T>(prev: seq<T>, next: seq<T>): (r: seq<T>)
    ensures |r| == |prev| + |next|
    ensures r[..|prev|] == prev && r[|prev|..] == next
  {
    prev + next
  }

  /** Merge one replace-field of a partial update into the current value. */
  function MergeReplace<T>(current: T, update: Option<T>): (r: T)
    ensures update.None? ==> r == current
    ensures update.Some? ==> r == update.value
  {
    match update
    case None => current
    case Some(next) => Replace(current, next)
  }

  /** Merge one append-field of a partial update into the current value. */
  function MergeAppend<T>(current: seq<T>, update: Option<seq<T>>): (r: seq<T>)
    ensures update.None? ==> r == current
    ensures update.Some? ==> r == current + update.value
  {
    match update
    case None => current
    case Some(next) => Append(current, next)
  }

  /** Replacing is idempotent: merging the same value twice is merging it once. */
  lemma MergeReplaceIdempotent<T>(current: T, update: Option<T>)
    ensures MergeReplace(MergeReplace(current, update), update) == MergeReplace(current, update)
  {
  }

  /** Appending accumulates: two merges append both updates in order. */
  lemma MergeAppendAccumulates<T>(current: seq<T>, a: seq<T>, b: seq<T>)
    ensures MergeAppend(MergeAppend(current, Some(a)), Some(b)) == current + a + b
  {
  }
}
