/** Notions that several parts of the model share. */
module Basics {

  datatype Option<T> = None | Some(value: T)

  ghost predicate NoRepeats<T>(list: seq<T>)
  {
    forall i, j :: 0 <= i < j < |list| ==> list[i] != list[j]
  }

  /** The element behind index `i`, or `end` behind the last one: what a link of an intrusive
      list points to. */
  function Follower<T>(list: seq<T>, i: nat, end: T): T
  {
    if i + 1 < |list| then list[i + 1] else end
  }
}
