/** Optional values and positions in lists, shared by every component. */
module Wrappers {

  datatype Option<+T> = None | Some(value: T)

  /** Some positions in a list of this length, in order. */
  ghost predicate Positions(at: seq<nat>, length: nat) {
    && (forall k :: 0 <= k < |at| ==> at[k] < length)
    && (forall j, k :: 0 <= j < k < |at| ==> at[j] < at[k])
  }
}
