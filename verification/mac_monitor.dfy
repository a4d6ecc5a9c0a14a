/** The macOS monitor (`CameraMonitorService`): classifies each line of the
    power-log stream by substring markers, turns the lights on at once for an
    "on" line, and arms a cancellable 3000 ms off-timer for an "off" line. */
module MacMonitor {
  import opened Wrappers
  import opened Text
  import opened Traces
  import opened Timers

  /** Marker of a log line reporting that the camera powered on. */
  const OnMarker: string := "\"VDCAssistant_Power_State\" = On;"

  /** Marker of a log line reporting that the camera powered off. */
  const OffMarker: string := "\"VDCAssistant_Power_State\" = Off;"

  /** Clock, timer table, and `_cancellationTokenSource` as the id of the timer it guards. */
  datatype State = State(now: int, timers: seq<Timer>, handle: Option<nat>)

  /** The service as constructed: no timers, no handle. */
  const Start: State := State(0, [], None)

  /** A line delivered by the log stream (`None` for a null line), or the clock moving on. */
  datatype Event = Line(text: Option<string>) | Advance(dt: nat)

  /** The line carries the on marker (and is not null or blank). */
  predicate TurnsOn(line: Option<string>) {
    !IsNullOrWhiteSpace(line) && Contains(line.value, OnMarker)
  }

  /** The line carries the off marker but not the on marker (and is not null or blank). */
  predicate ArmsOff(line: Option<string>) {
    !IsNullOrWhiteSpace(line) && !Contains(line.value, OnMarker) && Contains(line.value, OffMarker)
  }

  /** `ProcessLogEvent`. */
  function ProcessLogEvent(s: State, line: Option<string>): (r: Transition<State>)
    ensures r.state.now == s.now
    ensures IsNullOrWhiteSpace(line) ==> r == Transition(s, [])
    ensures r.out == (if TurnsOn(line) then [Action(TurnOn, s.now)] else [])
    ensures TurnsOn(line) ==>
      && r.state.handle.None?
      && |r.state.timers| == |s.timers|
      && (forall i :: 0 <= i < |s.timers| && s.handle != Some(i) ==> r.state.timers[i] == s.timers[i])
      && (s.handle.Some? && s.handle.value < |s.timers| ==> r.state.timers[s.handle.value] == s.timers[s.handle.value].(cancelled := true))
    ensures ArmsOff(line) ==>
      && r.state.timers == s.timers + [Timer(s.now + OffDelayMs, false, None)]
      && r.state.handle == Some(|s.timers|)
    ensures !TurnsOn(line) && !ArmsOff(line) ==> r == Transition(s, [])
  {
    if IsNullOrWhiteSpace(line) then
      Transition(s, [])
    else if Contains(line.value, OnMarker) then
      Transition(s.(timers := Cancel(s.timers, s.handle), handle := None), [Action(TurnOn, s.now)])
    else if Contains(line.value, OffMarker) then
      // the old handle is overwritten, not cancelled
      Transition(s.(timers := Arm(s.timers, s.now), handle := Some(|s.timers|)), [])
    else
      Transition(s, [])
  }

  /** The clock moves on by `dt`; every pending timer whose deadline has come runs its
      continuation, which finds its token uncancelled and turns the lights off. */
  function AdvanceClock(s: State, dt: nat): (r: Transition<State>)
    ensures r.state.now == s.now + dt && r.state.handle == s.handle
    ensures |r.state.timers| == |s.timers|
    ensures forall i :: 0 <= i < |s.timers| ==>
      r.state.timers[i] == (if s.timers[i].Due(s.now + dt)
                            then s.timers[i].(firedAt := Some(s.now + dt)) else s.timers[i])
    ensures |r.out| == DueCount(s.timers, s.now + dt)
    ensures forall k :: 0 <= k < |r.out| ==> r.out[k] == Action(TurnOff, s.now + dt)
  {
    var now := s.now + dt;
    Transition(s.(now := now, timers := FireDue(s.timers, now)),
               Repeat(Action(TurnOff, now), DueCount(s.timers, now)))
  }

  function Step(s: State, e: Event): Transition<State>
  {
    match e
    case Line(text) => ProcessLogEvent(s, text)
    case Advance(dt) => AdvanceClock(s, dt)
  }

  /** Feeds the events in order, concatenating the commands issued. */
  function Run(s: State, es: seq<Event>): Transition<State>
  {
    Replay(Step, s, es)
  }

  /** A run starting with `e` is `e`'s step followed by the run of the rest. */
  lemma RunCons(s: State, e: Event, es: seq<Event>)
    ensures var t := Step(s, e); var rest := Run(t.state, es);
      Run(s, [e] + es) == Transition(rest.state, t.out + rest.out)
  {
    ReplayCons(Step, s, e, es);
  }

  lemma RunOne(s: State, e: Event)
    ensures Run(s, [e]) == Step(s, e)
  {
    ReplayOne(Step, s, e);
  }

  /** Running `a` then `b` is running `a + b`. */
  lemma RunAppend(s: State, a: seq<Event>, b: seq<Event>)
    ensures var ra := Run(s, a); var rb := Run(ra.state, b);
      Run(s, a + b) == Transition(rb.state, ra.out + rb.out)
  {
    ReplayAppend(Step, s, a, b);
  }

  /** Total time the clock moves on during `es`. */
  function Elapsed(es: seq<Event>): nat
    decreases |es|
  {
    if |es| == 0 then 0 else (if es[0].Advance? then es[0].dt else 0) + Elapsed(es[1..])
  }

  /** The one-shot check of a recent log snapshot: the on marker wins, then the off
      marker; neither gives no command. */
  function CheckInitialCameraState(snapshot: string): (r: Option<Command>)
  {
    if Contains(snapshot, OnMarker) then Some(TurnOn)
    else if Contains(snapshot, OffMarker) then Some(TurnOff)
    else None
  }

  // ---- invariants over runs ----

  /** The handle names an existing timer, and the timer table is settled at `now`. */
  predicate Good(s: State) {
    && (s.handle.Some? ==> s.handle.value < |s.timers|)
    && Settled(s.timers, s.now)
  }

  /** The effect of an "on" line, read off the contract of `ProcessLogEvent`. */
  lemma OnLineStep(s: State, line: Option<string>)
    requires TurnsOn(line)
    ensures ProcessLogEvent(s, line)
            == Transition(State(s.now, Cancel(s.timers, s.handle), None), [Action(TurnOn, s.now)])
    ensures Step(s, Line(line)) == ProcessLogEvent(s, line)
  {
  }

  /** The effect of an "off" line, read off the contract of `ProcessLogEvent`. */
  lemma OffLineStep(s: State, line: Option<string>)
    requires ArmsOff(line)
    ensures ProcessLogEvent(s, line)
            == Transition(State(s.now, s.timers + [Timer(s.now + OffDelayMs, false, None)], Some(|s.timers|)), [])
    ensures Step(s, Line(line)) == ProcessLogEvent(s, line)
  {
  }

  /** The effect of the clock moving on by `dt`. */
  lemma AdvanceStep(s: State, dt: nat)
    ensures Step(s, Advance(dt))
            == Transition(State(s.now + dt, FireDue(s.timers, s.now + dt), s.handle),
                          Repeat(Action(TurnOff, s.now + dt), DueCount(s.timers, s.now + dt)))
  {
  }

  /** A log line keeps `Good`, only extends the timer table, leaves the clock alone
      and runs no timer. */
  lemma LineInvariant(s: State, line: Option<string>)
    requires Good(s)
    ensures var t := ProcessLogEvent(s, line);
      && Good(t.state)
      && Extends(s.timers, t.state.timers)
      && Offs(t.out) == 0
      && Count(s.timers, IsFired) == Count(t.state.timers, IsFired)
  {
    if TurnsOn(line) {
      OnLineStep(s, line);
      CancelSettled(s.timers, s.now, s.handle);
      assert Offs([Action(TurnOn, s.now)]) == 0 by { assert [Action(TurnOn, s.now)][..0] == []; }
    } else if ArmsOff(line) {
      OffLineStep(s, line);
      ArmSettled(s.timers, s.now);
    } else {
      assert ProcessLogEvent(s, line) == Transition(s, []);
    }
  }

  /** Moving the clock keeps `Good` and issues one "turn off" per timer that runs. */
  lemma AdvanceInvariant(s: State, dt: nat)
    requires Good(s)
    ensures var t := AdvanceClock(s, dt);
      && Good(t.state)
      && Extends(s.timers, t.state.timers)
      && Count(s.timers, IsFired) + Offs(t.out) == Count(t.state.timers, IsFired)
  {
    var now := s.now + dt;
    var t := AdvanceClock(s, dt);
    FireDueSettled(s.timers, s.now, now);
    OffsRepeat(DueCount(s.timers, now), now);
    assert t == Transition(s.(now := now, timers := FireDue(s.timers, now)),
                           Repeat(Action(TurnOff, now), DueCount(s.timers, now)));
  }

  /** One event keeps `Good`, only extends the timer table, moves the clock by the
      event's own advance, and issues exactly one "turn off" per timer that ran. */
  lemma StepInvariant(s: State, e: Event)
    requires Good(s)
    ensures var t := Step(s, e);
      && Good(t.state)
      && Extends(s.timers, t.state.timers)
      && t.state.now == s.now + (if e.Advance? then e.dt else 0)
      && Count(s.timers, IsFired) + Offs(t.out) == Count(t.state.timers, IsFired)
  {
    match e
    case Line(text) => LineInvariant(s, text);
    case Advance(dt) => AdvanceInvariant(s, dt);
  }

  /** `StepInvariant` over a whole run: every "turn off" in the trace is one timer
      running, and the clock moves by exactly the elapsed time. */
  lemma {:induction false} RunInvariant(s: State, es: seq<Event>)
    requires Good(s)
    ensures var t := Run(s, es);
      && Good(t.state)
      && Extends(s.timers, t.state.timers)
      && t.state.now == s.now + Elapsed(es)
      && Count(s.timers, IsFired) + Offs(t.out) == Count(t.state.timers, IsFired)
    decreases |es|
  {
    if |es| > 0 {
      var t := Step(s, es[0]);
      StepInvariant(s, es[0]);
      RunInvariant(t.state, es[1..]);
      OffsAppend(t.out, Run(t.state, es[1..]).out);
      ExtendsTransitive(s.timers, t.state.timers, Run(t.state, es[1..]).state.timers);
    }
  }

  /** A timer cancelled before it ran never runs, so it never turns the lights off. */
  lemma CancelledTimerNeverFires(s: State, es: seq<Event>, id: nat)
    requires Good(s)
    requires id < |s.timers| && s.timers[id].cancelled && s.timers[id].firedAt.None?
    ensures id < |Run(s, es).state.timers| && Run(s, es).state.timers[id].firedAt.None?
  {
    RunInvariant(s, es);
  }

  /** A timer that is pending at the start of a run whose clock reaches its deadline
      has by then run or been cancelled (or both: a later "on" line may cancel the token
      of a timer that already ran); if it ran, it ran no earlier than its deadline and
      no later than the end of the run. */
  lemma UncancelledTimerFires(s: State, es: seq<Event>, id: nat)
    requires Good(s)
    requires id < |s.timers| && s.timers[id].Live()
    requires s.timers[id].deadline <= s.now + Elapsed(es)
    ensures id < |Run(s, es).state.timers|
    ensures Run(s, es).state.timers[id].firedAt.Some? || Run(s, es).state.timers[id].cancelled
    ensures Run(s, es).state.timers[id].firedAt.Some? ==>
      s.timers[id].deadline <= Run(s, es).state.timers[id].firedAt.value <= s.now + Elapsed(es)
  {
    RunInvariant(s, es);
  }

}
