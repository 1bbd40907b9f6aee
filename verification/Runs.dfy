/** Shared vocabulary: optional values, and runs of a state machine whose step
    function is total (an action that is not enabled leaves the state as it is),
    so that every finite sequence of actions is a run. */
module Runs {

  datatype Option<+T> = None | Some(value: T)

  /** The state reached from `s` by performing `acts` in order. */
  ghost function Exec<S, A>(step: (S, A) -> S, s: S, acts: seq<A>): S
  {
    if acts == [] then s else Exec(step, step(s, acts[0]), acts[1..])
  }

  /** A predicate kept by every step holds after every run. */
  lemma {:induction false} Always<S(!new), A(!new)>(step: (S, A) -> S, inv: S -> bool, s: S, acts: seq<A>)
    requires inv(s)
    requires forall t, a :: inv(t) ==> inv(step(t, a))
    ensures inv(Exec(step, s, acts))
  {
    if acts != [] {
      Always(step, inv, step(s, acts[0]), acts[1..]);
    }
  }

  /** A run of `first` followed by a run of `second` is a run of both. */
  lemma {:induction false} ExecAppend<S, A>(step: (S, A) -> S, s: S, first: seq<A>, second: seq<A>)
    ensures Exec(step, s, first + second) == Exec(step, Exec(step, s, first), second)
  {
    if first == [] {
      assert first + second == second;
    } else {
      assert (first + second)[1..] == first[1..] + second;
      ExecAppend(step, step(s, first[0]), first[1..], second);
    }
  }

  lemma ExecOne<S, A>(step: (S, A) -> S, s: S, a: A)
    ensures Exec(step, s, [a]) == step(s, a)
  {
    assert [a][1..] == [];
  }

  lemma ExecTwo<S, A>(step: (S, A) -> S, s: S, a: A, b: A)
    ensures Exec(step, s, [a, b]) == step(step(s, a), b)
  {
    assert [a, b][1..] == [b];
    ExecOne(step, step(s, a), b);
  }

  lemma ExecThree<S, A>(step: (S, A) -> S, s: S, a: A, b: A, c: A)
    ensures Exec(step, s, [a, b, c]) == step(step(step(s, a), b), c)
  {
    assert [a, b, c][1..] == [b, c];
    ExecTwo(step, step(s, a), b, c);
  }
}
