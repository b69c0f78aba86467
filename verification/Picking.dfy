/** Part of a sequence, by position: what was picked, in what order and how often. */
module Picking {

  predicate Increasing(at: seq<nat>) {
    forall i, j :: 0 <= i < j < |at| ==> at[i] < at[j]
  }

  /** ys are the elements of xs at the positions at, in order. */
  predicate Picks<T(==)>(xs: seq<T>, at: seq<nat>, ys: seq<T>) {
    && |at| == |ys| && Increasing(at)
    && (forall i :: 0 <= i < |at| ==> at[i] < |xs| && ys[i] == xs[at[i]])
  }

  function Shifted(at: seq<nat>): (next: seq<nat>)
    ensures |next| == |at| && forall i :: 0 <= i < |at| ==> next[i] == at[i] + 1
  {
    if at == [] then [] else [at[0] + 1] + Shifted(at[1..])
  }

  lemma InShifted(at: seq<nat>, j: nat)
    ensures j in Shifted(at) <==> j > 0 && j - 1 in at
  {
    if j > 0 && j - 1 in at {
      var i :| 0 <= i < |at| && at[i] == j - 1;
      assert Shifted(at)[i] == j;
    }
  }

  lemma PickRest<T>(xs: seq<T>, at: seq<nat>, ys: seq<T>)
    requires xs != [] && Picks(xs[1..], at, ys)
    ensures Picks(xs, Shifted(at), ys)
  {
  }

  lemma PickFirst<T>(xs: seq<T>, at: seq<nat>, ys: seq<T>)
    requires xs != [] && Picks(xs, at, ys) && 0 !in at
    ensures Picks(xs, [0] + at, [xs[0]] + ys)
  {
    assert forall i :: 0 <= i < |at| ==> at[i] in at;
  }

  lemma AllShifted(at: seq<nat>)
    ensures 0 !in Shifted(at)
    ensures forall j: nat :: j + 1 in Shifted(at) <==> j in at
  {
    InShifted(at, 0);
    forall j: nat
      ensures j + 1 in Shifted(at) <==> j in at
    {
      InShifted(at, j + 1);
    }
  }

  /** One more element in front, picked or not. */
  lemma PickHead<T>(xs: seq<T>, at: seq<nat>, ys: seq<T>, keep: bool) returns (next: seq<nat>)
    requires xs != [] && Picks(xs[1..], at, ys)
    ensures Picks(xs, next, (if keep then [xs[0]] else []) + ys)
    ensures 0 in next <==> keep
    ensures forall j: nat :: j + 1 in next <==> j in at
  {
    PickRest(xs, at, ys);
    AllShifted(at);
    if keep {
      PickFirst(xs, Shifted(at), ys);
      next := [0] + Shifted(at);
    } else {
      next := Shifted(at);
      assert [] + ys == ys;
    }
  }
}
