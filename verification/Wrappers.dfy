/** The result of something that may be missing, and what a filter keeps of a sequence. */
module Wrappers {

  datatype Option<T> = None | Some(value: T)

  /** `at` holds the positions of the true flags, in order: where a filter finds what it keeps. */
  ghost predicate Picks(at: seq<nat>, flags: seq<bool>) {
    && (forall j, k :: 0 <= j < k < |at| ==> at[j] < at[k])
    && (forall k :: 0 <= k < |at| ==> at[k] < |flags|)
    && (forall i :: 0 <= i < |flags| ==> (flags[i] <==> i in at))
  }

  /** The positions when one more flag is looked at. */
  function Picking(at: seq<nat>, n: nat, flag: bool): seq<nat> {
    if flag then at + [n] else at
  }

  lemma PicksOneMore(at: seq<nat>, flags: seq<bool>, flag: bool)
    requires Picks(at, flags)
    ensures Picks(Picking(at, |flags|, flag), flags + [flag])
  {
    var more := Picking(at, |flags|, flag);
    assert forall i :: 0 <= i < |flags| ==> (i in more <==> i in at);
    assert |flags| in more <==> flag;
  }

  lemma NothingPicked()
    ensures Picks([], [])
  {
  }
}
