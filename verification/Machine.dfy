/** Runs of a machine whose steps may be refused. */
module Machine {
  import opened Basics

  function Exec<S, M>(next: (S, M) -> Option<S>, s: S, run: seq<M>): Option<S>
    decreases |run|
  {
    if run == [] then Some(s)
    else
      var t := next(s, run[0]);
      if t.None? then None else Exec(next, t.value, run[1..])
  }

  lemma {:induction false} ExecAppend<S, M>(next: (S, M) -> Option<S>, s: S, first: seq<M>, second: seq<M>)
    requires Exec(next, s, first).Some?
    ensures Exec(next, s, first + second) == Exec(next, Exec(next, s, first).value, second)
    decreases |first|
  {
    if first == [] {
      assert first + second == second;
    } else {
      assert (first + second)[1..] == first[1..] + second;
      ExecAppend(next, next(s, first[0]).value, first[1..], second);
    }
  }

  /** Extends a run by one step. */
  lemma Go<S, M>(next: (S, M) -> Option<S>, s0: S, run: seq<M>, s: S, m: M) returns (run': seq<M>, s': S)
    requires Exec(next, s0, run) == Some(s) && next(s, m).Some?
    ensures run' == run + [m] && Exec(next, s0, run') == Some(s') && s' == next(s, m).value
  {
    run', s' := run + [m], next(s, m).value;
    ExecAppend(next, s0, run, [m]);
    assert [m][1..] == [];
  }

  /** A run of a part, as a run of the whole. */
  function Lift<A, M>(f: A -> M, run: seq<A>): (moves: seq<M>)
    ensures |moves| == |run|
    ensures forall i :: 0 <= i < |run| ==> moves[i] == f(run[i])
  {
    if run == [] then [] else [f(run[0])] + Lift(f, run[1..])
  }
}
