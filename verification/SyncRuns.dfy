/**
 Lists of actions executed from a given state, and the runs they stand for.
 */
module SyncRuns {
  import opened SyncProtocol

  ghost predicate Executable(s: State, acts: seq<Action>)
    decreases |acts|
  {
    acts != [] ==> Enabled(s, acts[0]) && Executable(Apply(s, acts[0]), acts[1..])
  }

  ghost function Exec(s: State, acts: seq<Action>): State
    requires Executable(s, acts)
    decreases |acts|
  {
    if acts == [] then s else Exec(Apply(s, acts[0]), acts[1..])
  }

  lemma {:induction false} ExecAppend(s: State, acts: seq<Action>, a: Action)
    requires Executable(s, acts) && Enabled(Exec(s, acts), a)
    ensures Executable(s, acts + [a]) && Exec(s, acts + [a]) == Apply(Exec(s, acts), a)
    decreases |acts|
  {
    if acts == [] {
      assert acts + [a] == [a] && [a][1..] == [];
    } else {
      ExecAppend(Apply(s, acts[0]), acts[1..], a);
      assert (acts + [a])[1..] == acts[1..] + [a];
    }
  }

  /** Executing a list of actions passes through the states of a run. */
  lemma {:induction false} ExecIsRun(s: State, acts: seq<Action>) returns (states: seq<State>)
    requires Executable(s, acts)
    ensures Run(states, acts) && states[0] == s && states[|acts|] == Exec(s, acts)
    decreases |acts|
  {
    states := [s];
    if acts != [] {
      var rest := ExecIsRun(Apply(s, acts[0]), acts[1..]);
      states := [s] + rest;
      forall i | 0 <= i < |acts|
        ensures Enabled(states[i], acts[i]) && states[i + 1] == Apply(states[i], acts[i])
      {
        if i > 0 { assert acts[i] == acts[1..][i - 1] && states[i] == rest[i - 1] && states[i + 1] == rest[i - 1 + 1]; }
      }
    }
  }

  lemma ExecCons(s: State, a: Action, acts: seq<Action>)
    requires Enabled(s, a) && Executable(Apply(s, a), acts)
    ensures Executable(s, [a] + acts) && Exec(s, [a] + acts) == Exec(Apply(s, a), acts)
  {
    assert ([a] + acts)[1..] == acts;
  }

  lemma {:induction false} ExecConcat(s: State, a: seq<Action>, b: seq<Action>)
    requires Executable(s, a) && Executable(Exec(s, a), b)
    ensures Executable(s, a + b) && Exec(s, a + b) == Exec(Exec(s, a), b)
    decreases |a|
  {
    if a == [] {
      assert a + b == b;
    } else {
      assert (a + b)[1..] == a[1..] + b;
      ExecConcat(Apply(s, a[0]), a[1..], b);
    }
  }

  lemma ExecOne(s: State, a: Action)
    requires Enabled(s, a)
    ensures Executable(s, [a]) && Exec(s, [a]) == Apply(s, a)
  {
    ExecCons(s, a, []);
    assert [a] + [] == [a];
  }

  lemma ExecTwo(s: State, a: Action, b: Action)
    requires Enabled(s, a) && Enabled(Apply(s, a), b)
    ensures Executable(s, [a, b]) && Exec(s, [a, b]) == Apply(Apply(s, a), b)
  {
    ExecOne(Apply(s, a), b);
    ExecCons(s, a, [b]);
    assert [a] + [b] == [a, b];
  }

  lemma ExecThree(s: State, a: Action, b: Action, c: Action)
    requires Enabled(s, a) && Enabled(Apply(s, a), b) && Enabled(Apply(Apply(s, a), b), c)
    ensures Executable(s, [a, b, c]) && Exec(s, [a, b, c]) == Apply(Apply(Apply(s, a), b), c)
  {
    ExecTwo(Apply(s, a), b, c);
    ExecCons(s, a, [b, c]);
    assert [a] + [b, c] == [a, b, c];
  }
}
