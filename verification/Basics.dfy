/** The few types every part of the model shares. */
module Basics {

  datatype Option<+T> = None | Some(value: T)

  type byte = x: nat | x < 0x100
  type u16 = x: nat | x < 0x1_0000
  type u32 = x: nat | x < 0x1_0000_0000

  // What is left of a list when every `x` is taken out.
  function Without<T(==, !new)>(list: seq<T>, x: T): (r: seq<T>)
    ensures forall y :: y in r <==> y in list && y != x
  {
    if list == [] then []
    else if list[0] == x then Without(list[1..], x)
    else [list[0]] + Without(list[1..], x)
  }

  ghost predicate Rising(at: seq<nat>) {
    forall i, j :: 0 <= i < j < |at| ==> at[i] < at[j]
  }

  /** The results are those of the entries that have one, each once and in their order. */
  ghost predicate Picks<B(!new), E(!new)>(entries: seq<B>, one: B -> Option<E>, results: seq<E>) {
    exists at :: PicksAt(entries, one, results, at)
  }

  ghost predicate PicksAt<B(!new), E(!new)>(entries: seq<B>, one: B -> Option<E>, results: seq<E>, at: seq<nat>) {
    && |at| == |results| && Rising(at)
    && (forall j :: 0 <= j < |at| ==> at[j] < |entries| && one(entries[at[j]]) == Some(results[j]))
    && forall i :: 0 <= i < |entries| && one(entries[i]).Some? ==> i in at
  }

  lemma PicksNone<B(!new), E(!new)>(one: B -> Option<E>)
    ensures Picks([], one, [])
  {
    assert PicksAt([], one, [], []);
  }

  lemma PicksNext<B(!new), E(!new)>(entries: seq<B>, b: B, one: B -> Option<E>, results: seq<E>)
    requires Picks(entries, one, results)
    ensures Picks(entries + [b], one, results + match one(b) case Some(e) => [e] case None => [])
  {
    var at: seq<nat> :| PicksAt(entries, one, results, at);
    match one(b)
    case Some(e) =>
      PicksOneMore(entries, b, one, results, at);
    case None =>
      assert results + [] == results;
      assert PicksAt(entries + [b], one, results, at);
  }

  lemma PicksOneMore<B(!new), E(!new)>(entries: seq<B>, b: B, one: B -> Option<E>, results: seq<E>, at: seq<nat>)
    requires PicksAt(entries, one, results, at) && one(b).Some?
    ensures PicksAt(entries + [b], one, results + [one(b).value], at + [|entries|])
  {
    var n, longer: seq<nat>, all := |entries|, at + [|entries|], entries + [b];
    forall j | 0 <= j < |longer|
      ensures longer[j] < |all| && one(all[longer[j]]) == Some((results + [one(b).value])[j])
    {
      if j < |at| {
        assert longer[j] == at[j] && all[at[j]] == entries[at[j]];
      }
    }
    forall i | 0 <= i < |all| && one(all[i]).Some?
      ensures i in longer
    {
      if i < n {
        assert all[i] == entries[i] && i in at;
      } else {
        assert longer[|at|] == i;
      }
    }
  }
}
