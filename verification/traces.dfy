/** Traces of light commands and the replay of an event sequence through a
    monitor's step function. */
module Traces {

  /** The two light commands the monitors issue to the light service. */
  datatype Command = TurnOn | TurnOff

  /** One light command, stamped with the clock reading at which it was issued. */
  datatype Action = Action(cmd: Command, at: int)

  /** A monitor's state after an event, together with the light commands it issued. */
  datatype Transition<S> = Transition(state: S, out: seq<Action>)

  /** Feeds the events to `step` in order, concatenating the commands issued. */
  function Replay<S, E>(step: (S, E) -> Transition<S>, s: S, es: seq<E>): Transition<S>
    decreases |es|
  {
    if |es| == 0 then Transition(s, [])
    else
      var t := step(s, es[0]);
      var rest := Replay(step, t.state, es[1..]);
      Transition(rest.state, t.out + rest.out)
  }

  /** A replay starting with `e` is `e`'s step followed by the replay of the rest. */
  lemma ReplayCons<S, E>(step: (S, E) -> Transition<S>, s: S, e: E, es: seq<E>)
    ensures var t := step(s, e); var rest := Replay(step, t.state, es);
      Replay(step, s, [e] + es) == Transition(rest.state, t.out + rest.out)
  {
    assert ([e] + es)[0] == e && ([e] + es)[1..] == es;
  }

  lemma ReplayOne<S, E>(step: (S, E) -> Transition<S>, s: S, e: E)
    ensures Replay(step, s, [e]) == step(s, e)
  {
    assert [e][1..] == [];
  }

  /** Replaying `a` then `b` is replaying `a + b`. */
  lemma {:induction false} ReplayAppend<S, E>(step: (S, E) -> Transition<S>, s: S, a: seq<E>, b: seq<E>)
    ensures var ra := Replay(step, s, a); var rb := Replay(step, ra.state, b);
      Replay(step, s, a + b) == Transition(rb.state, ra.out + rb.out)
    decreases |a|
  {
    if |a| == 0 {
      assert a + b == b;
    } else {
      assert (a + b)[0] == a[0];
      assert (a + b)[1..] == a[1..] + b;
      ReplayAppend(step, step(s, a[0]).state, a[1..], b);
    }
  }

  /** `n` copies of the same action. */
  function Repeat(a: Action, n: nat): (r: seq<Action>)
    ensures |r| == n && forall i :: 0 <= i < n ==> r[i] == a
  {
    seq(n, _ => a)
  }

  /** The number of "turn off" commands in a trace. */
  function Offs(out: seq<Action>): nat
    decreases |out|
  {
    if |out| == 0 then 0 else Offs(out[..|out| - 1]) + (if out[|out| - 1].cmd == TurnOff then 1 else 0)
  }

  lemma {:induction false} OffsAppend(a: seq<Action>, b: seq<Action>)
    ensures Offs(a + b) == Offs(a) + Offs(b)
    decreases |b|
  {
    if |b| == 0 {
      assert a + b == a;
    } else {
      assert (a + b)[..|a + b| - 1] == a + b[..|b| - 1];
      OffsAppend(a, b[..|b| - 1]);
    }
  }

  lemma {:induction false} OffsRepeat(n: nat, at: int)
    ensures Offs(Repeat(Action(TurnOff, at), n)) == n
    decreases n
  {
    if n > 0 {
      assert Repeat(Action(TurnOff, at), n)[..n - 1] == Repeat(Action(TurnOff, at), n - 1);
      OffsRepeat(n - 1, at);
    }
  }
}
