/** The user-ID generator: a counter guarded by a mutex, incremented and
    read on every call. Calls are serialised by the mutex, so one call
    happens after another. */
module Ids {

  /** The IDs handed out by the first `n` calls: 1, 2, ..., n. */
  ghost predicate CountsFromOne(issued: seq<int>) {
    forall i :: 0 <= i < |issued| ==> issued[i] == i + 1
  }

  /** IDs handed out in order from 1 are unique and strictly increasing. */
  lemma IssuedAscending(issued: seq<int>)
    requires CountsFromOne(issued)
    ensures forall i, j :: 0 <= i < j < |issued| ==> 0 < issued[i] < issued[j]
  {
  }

  class IdGenerator {
    /** The last ID handed out, 0 before the first call. */
    var nextId: int
    /** Every ID handed out so far, in the order of the calls. */
    ghost var issued: seq<int>

    ghost predicate Valid()
      reads this
    {
      CountsFromOne(issued) && nextId == |issued|
    }

    constructor ()
      ensures Valid() && nextId == 0 && issued == []
    {
      nextId := 0;
      issued := [];
    }

    /** Hands out the next ID: one more than the last, 1 on the first call. */
    method Next() returns (id: int)
      requires Valid()
      modifies this
      ensures Valid()
      ensures id == old(nextId) + 1 && nextId == id
      ensures issued == old(issued) + [id]
      ensures forall j :: 0 <= j < |old(issued)| ==> issued[j] < id
    {
      nextId := nextId + 1;
      id := nextId;
      issued := issued + [id];
    }
  }
}
