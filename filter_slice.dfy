/** The post-list sort choice in the store (store/FilterSlice.jsx). */
module FilterSlice {

  const InitialSortBy := "newest"

  /** The slice's one action. */
  datatype Action = SetSortBy(payload: string)

  /** The sort choice after a run of actions from `sortBy`. */
  function ReduceAll(sortBy: string, actions: seq<Action>): string
    decreases |actions|
  {
    if actions == [] then sortBy else ReduceAll(actions[0].payload, actions[1..])
  }

  /** The last write wins, and the payload is taken as it is, known option or not. */
  lemma {:induction false} LastWriteWins(sortBy: string, actions: seq<Action>)
    ensures ReduceAll(sortBy, actions) == if actions == [] then sortBy else actions[|actions| - 1].payload
    decreases |actions|
  {
    if |actions| > 1 {
      LastWriteWins(actions[0].payload, actions[1..]);
    }
  }

  /** The slice as it lives in the store: `sortBy` is its only field. */
  class Slice {
    var sortBy: string

    constructor ()
      ensures sortBy == InitialSortBy
    {
      sortBy := InitialSortBy;
    }

    method SetSortBy(payload: string)
      modifies this
      ensures sortBy == payload
    {
      sortBy := payload;
    }

    /** Dispatching a run of actions leaves the last payload. */
    method DispatchAll(actions: seq<Action>)
      modifies this
      ensures sortBy == ReduceAll(old(sortBy), actions)
    {
      ghost var start := sortBy;
      var i := 0;
      while i < |actions|
        invariant 0 <= i <= |actions|
        invariant ReduceAll(sortBy, actions[i..]) == ReduceAll(start, actions)
      {
        assert actions[i..][1..] == actions[i + 1..];
        SetSortBy(actions[i].payload);
        i := i + 1;
      }
    }
  }
}
