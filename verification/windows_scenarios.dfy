/** Properties of the Windows monitor over sequences of events: at most one pending
    off-timer, "off" handled only when nothing is pending, the re-check at fire time,
    flap suppression, silence after `Dispose`, and the start-up check. */
module WindowsScenarios {
  import opened Wrappers
  import opened Traces
  import opened Timers
  import opened WindowsMonitor

  /** The monitor's invariant: the handle names an existing timer and is cleared while
      the camera is believed in use; only the handle's timer can be pending, and none
      after `Dispose`; the timer table is settled at `now`. */
  predicate Good(s: State) {
    && (s.handle.Some? ==> s.handle.value < |s.timers|)
    && (s.lastInUse ==> s.handle.None?)
    && LiveOnlyHandle(s.timers, s.handle)
    && (s.disposed ==> NoneLive(s.timers))
    && Settled(s.timers, s.now)
  }

  lemma StartIsGood()
    ensures Good(Start)
  {
  }

  /** Cancelling the handle's timer leaves nothing pending when it was the only one. */
  lemma CancelHandleSilences(s: State)
    requires LiveOnlyHandle(s.timers, s.handle)
    ensures forall i :: 0 <= i < |s.timers| ==> !Cancel(s.timers, s.handle)[i].Live()
  {
    var ts := Cancel(s.timers, s.handle);
    forall i | 0 <= i < |s.timers| ensures !ts[i].Live() {
      if s.handle != Some(i) {
        assert ts[i] == s.timers[i];
      }
    }
  }

  /** `HandleCameraOn` followed by recording "in use" keeps `Good` and runs nothing. */
  lemma HandleOnInvariant(s: State)
    requires Good(s)
    ensures var t := HandleCameraOn(s);
      && Good(t.state.(lastInUse := true))
      && Extends(s.timers, t.state.timers)
      && Count(s.timers, IsFired) == Count(t.state.timers, IsFired)
      && Offs(t.out) == 0
  {
    CancelHandleSilences(s);
    CancelSettled(s.timers, s.now, s.handle);
    assert Offs([Action(TurnOn, s.now)]) == 0 by { assert [Action(TurnOn, s.now)][..0] == []; }
  }

  /** `HandleCameraOff`, reached only from "in use", followed by recording "not in use",
      keeps `Good` and runs nothing. */
  lemma HandleOffInvariant(s: State)
    requires Good(s) && s.lastInUse && !s.disposed
    ensures var t := HandleCameraOff(s);
      && Good(t.state.(lastInUse := false))
      && Extends(s.timers, t.state.timers)
      && Count(s.timers, IsFired) == Count(t.state.timers, IsFired)
  {
    ArmSettled(s.timers, s.now);
    var ts := HandleCameraOff(s).state.timers;
    assert forall j :: 0 <= j < |s.timers| ==> ts[j] == s.timers[j];
  }

  lemma PollInvariant(s: State, procs: Option<seq<string>>)
    requires Good(s)
    ensures var t := Step(s, Poll(procs));
      && Good(t.state)
      && Extends(s.timers, t.state.timers)
      && t.state.now == s.now
      && Count(s.timers, IsFired) + Offs(t.out) == Count(t.state.timers, IsFired)
  {
    var inUse := IsCameraInUse(procs);
    if !s.disposed && inUse != s.lastInUse {
      if inUse {
        HandleOnInvariant(s);
      } else {
        HandleOffInvariant(s);
      }
    }
  }

  lemma AdvanceInvariant(s: State, dt: nat, procs: Option<seq<string>>)
    requires Good(s)
    ensures var t := Step(s, Advance(dt, procs));
      && Good(t.state)
      && Extends(s.timers, t.state.timers)
      && t.state.now == s.now + dt
      && Count(s.timers, IsFired) + Offs(t.out) <= Count(t.state.timers, IsFired)
  {
    var now := s.now + dt;
    var ts := FireDue(s.timers, now);
    var t := Step(s, Advance(dt, procs));
    FireDueSettled(s.timers, s.now, now);
    assert t.state == s.(now := now, timers := ts);
    AdvanceKeepsGood(s, now);
    if IsCameraInUse(procs) {
      assert t.out == [];
    } else {
      assert t.out == Repeat(Action(TurnOff, now), DueCount(s.timers, now));
      OffsRepeat(DueCount(s.timers, now), now);
    }
  }

  /** Firing the due timers as the clock moves to `now` keeps `Good`. */
  lemma AdvanceKeepsGood(s: State, now: int)
    requires Good(s) && s.now <= now
    ensures Good(s.(now := now, timers := FireDue(s.timers, now)))
  {
    var ts := FireDue(s.timers, now);
    FireDueSettled(s.timers, s.now, now);
    assert forall i :: 0 <= i < |ts| && ts[i].Live() ==> s.timers[i].Live();
  }

  lemma DisposeInvariant(s: State)
    requires Good(s)
    ensures var t := Step(s, Dispose);
      && Good(t.state)
      && Extends(s.timers, t.state.timers)
      && t.state.now == s.now && t.out == []
      && Count(s.timers, IsFired) == Count(t.state.timers, IsFired)
  {
    CancelHandleSilences(s);
    CancelSettled(s.timers, s.now, s.handle);
  }

  lemma StepInvariant(s: State, e: Event)
    requires Good(s)
    ensures var t := Step(s, e);
      && Good(t.state)
      && Extends(s.timers, t.state.timers)
      && t.state.now == s.now + (if e.Advance? then e.dt else 0)
      && Count(s.timers, IsFired) + Offs(t.out) <= Count(t.state.timers, IsFired)
  {
    match e
    case Poll(procs) => PollInvariant(s, procs);
    case Advance(dt, procs) => AdvanceInvariant(s, dt, procs);
    case Dispose => DisposeInvariant(s);
  }

  /** `Good` holds along every run, every "turn off" is a timer running, and the clock
      moves by exactly the elapsed time. */
  lemma {:induction false} RunInvariant(s: State, es: seq<Event>)
    requires Good(s)
    ensures var t := Run(s, es);
      && Good(t.state)
      && Extends(s.timers, t.state.timers)
      && t.state.now == s.now + Elapsed(es)
      && Count(s.timers, IsFired) + Offs(t.out) <= Count(t.state.timers, IsFired)
    decreases |es|
  {
    if |es| > 0 {
      var t := Step(s, es[0]);
      var rest := Run(t.state, es[1..]);
      StepInvariant(s, es[0]);
      RunInvariant(t.state, es[1..]);
      assert es == [es[0]] + es[1..];
      ReplayCons(Step, s, es[0], es[1..]);
      OffsAppend(t.out, rest.out);
      ExtendsTransitive(s.timers, t.state.timers, rest.state.timers);
    }
  }

  /** At most one off-timer is ever pending. */
  lemma AtMostOneLiveTimer(s: State)
    requires Good(s)
    ensures Count(s.timers, IsLive) <= 1
  {
    CountAtMostOne(s.timers, IsLive, if s.handle.Some? then s.handle.value else 0);
  }

  /** Along any run from the start, at most one off-timer is pending at the end. */
  lemma AtMostOneLiveTimerOnRuns(es: seq<Event>)
    ensures Count(Run(Start, es).state.timers, IsLive) <= 1
  {
    RunInvariant(Start, es);
    AtMostOneLiveTimer(Run(Start, es).state);
  }

  /** A poll reaches `HandleCameraOff` only when the camera was believed in use, and then
      no timer is pending; afterwards exactly the new timer is. */
  lemma OffHandledOnlyWhenQuiet(s: State, procs: Option<seq<string>>)
    requires Good(s) && !s.disposed
    requires IsCameraInUse(procs) != s.lastInUse && !IsCameraInUse(procs)
    ensures NoneLive(s.timers)
    ensures var t := Step(s, Poll(procs)).state;
      Count(t.timers, IsLive) == 1 && t.timers[|s.timers|].Live() && t.handle == Some(|s.timers|)
  {
    var t := Step(s, Poll(procs)).state;
    assert t.timers == s.timers + [Timer(s.now + OffDelayMs, false, None)];
    assert t.timers[..|s.timers|] == s.timers;
    CountZero(s.timers, IsLive);
  }

  /** A clock step issues at most one "turn off", and none while the camera is in use
      at the moment the timer runs. */
  lemma AtMostOneOffPerAdvance(s: State, dt: nat, procs: Option<seq<string>>)
    requires Good(s)
    ensures |Step(s, Advance(dt, procs)).out| <= 1
    ensures IsCameraInUse(procs) ==> Step(s, Advance(dt, procs)).out == []
  {
    CountMono(s.timers, (t: Timer) => t.Due(s.now + dt), IsLive);
    AtMostOneLiveTimer(s);
  }

  /** An event that cannot bring the camera back: a poll that finds it not in use, or
      the clock moving on. */
  predicate QuietEvent(e: Event) {
    (e.Poll? && !IsCameraInUse(e.procs)) || e.Advance?
  }

  predicate AllQuiet(es: seq<Event>) {
    forall i :: 0 <= i < |es| ==> QuietEvent(es[i])
  }

  /** Flap suppression: the camera goes out of use, any polls that still find it out of
      use and any clock steps follow, less than the delay in all, and then a poll finds it
      in use again; no "turn off" is issued and no timer is left pending. */
  lemma FlapSuppressed(s: State, offProcs: Option<seq<string>>, mid: seq<Event>, onProcs: Option<seq<string>>)
    requires Good(s) && !s.disposed && s.lastInUse
    requires !IsCameraInUse(offProcs) && IsCameraInUse(onProcs)
    requires AllQuiet(mid) && Elapsed(mid) < OffDelayMs
    ensures var t := Run(s, [Poll(offProcs)] + mid + [Poll(onProcs)]);
      Offs(t.out) == 0 && NoneLive(t.state.timers)
  {
    var t1 := Step(s, Poll(offProcs));
    var s1 := t1.state;
    OffArmsFreshTimer(s, offProcs, Elapsed(mid));
    QuietWait(s1, mid);
    var r2 := Run(s1, mid);
    OnPollSilences(r2.state, onProcs);
    var t3 := Step(r2.state, Poll(onProcs));
    assert [Poll(offProcs)] + mid + [Poll(onProcs)] == [Poll(offProcs)] + (mid + [Poll(onProcs)]);
    ReplayCons(Step, s, Poll(offProcs), mid + [Poll(onProcs)]);
    ReplayAppend(Step, s1, mid, [Poll(onProcs)]);
    ReplayOne(Step, r2.state, Poll(onProcs));
    assert t1.out + (r2.out + t3.out) == t3.out;
  }

  /** The poll that sees the camera go out of use issues nothing, keeps the invariant,
      and leaves only the fresh timer pending, due a full delay later. */
  lemma OffArmsFreshTimer(s: State, offProcs: Option<seq<string>>, wait: nat)
    requires Good(s) && !s.disposed && s.lastInUse && !IsCameraInUse(offProcs)
    requires wait < OffDelayMs
    ensures var t := Step(s, Poll(offProcs));
      && t.out == [] && Good(t.state) && !t.state.disposed && !t.state.lastInUse
      && t.state.handle == Some(|s.timers|)
      && t.state.timers[|s.timers|] == Timer(s.now + OffDelayMs, false, None)
      && forall i :: 0 <= i < |t.state.timers| && t.state.timers[i].Live() ==> t.state.now + wait < t.state.timers[i].deadline
  {
    var s1 := Step(s, Poll(offProcs)).state;
    OffHandledOnlyWhenQuiet(s, offProcs);
    PollInvariant(s, offProcs);
    assert s1.timers == s.timers + [Timer(s.now + OffDelayMs, false, None)];
  }

  /** While the camera stays out of use and no pending deadline is reached, nothing is
      issued and the monitor stays live with its invariant. */
  lemma {:induction false} QuietWait(s: State, es: seq<Event>)
    requires Good(s) && !s.disposed && !s.lastInUse && AllQuiet(es)
    requires forall i :: 0 <= i < |s.timers| && s.timers[i].Live() ==> s.now + Elapsed(es) < s.timers[i].deadline
    ensures var t := Run(s, es);
      t.out == [] && Good(t.state) && !t.state.disposed && !t.state.lastInUse
    decreases |es|
  {
    if |es| > 0 {
      var t := Step(s, es[0]);
      QuietStep(s, es[0], Elapsed(es[1..]));
      assert AllQuiet(es[1..]) by {
        forall i | 0 <= i < |es[1..]| ensures QuietEvent(es[1..][i]) {
          assert es[1..][i] == es[i + 1];
        }
      }
      QuietWait(t.state, es[1..]);
      assert es == [es[0]] + es[1..];
      ReplayCons(Step, s, es[0], es[1..]);
    }
  }

  /** One quiet event: nothing issued, the timers unchanged, the invariant kept, and the
      clock moved by the event's own advance. */
  lemma QuietStep(s: State, e: Event, later: nat)
    requires Good(s) && !s.disposed && !s.lastInUse && QuietEvent(e)
    requires forall i :: 0 <= i < |s.timers| && s.timers[i].Live() ==>
      s.now + (if e.Advance? then e.dt else 0) + later < s.timers[i].deadline
    ensures var t := Step(s, e);
      && t.out == [] && Good(t.state) && !t.state.disposed && !t.state.lastInUse
      && t.state.timers == s.timers
      && t.state.now == s.now + (if e.Advance? then e.dt else 0)
  {
    match e {
      case Poll(procs) =>
        assert Step(s, e) == Transition(s, []);
      case Advance(dt, procs) =>
        CountZero(s.timers, (x: Timer) => x.Due(s.now + dt));
        FireNoneDue(s.timers, s.now + dt);
        AdvanceInvariant(s, dt, procs);
        assert Step(s, e).out == [];
    }
  }

  /** A poll that finds the camera in use, on a live monitor, issues no "turn off" and
      leaves nothing pending. */
  lemma OnPollSilences(s: State, procs: Option<seq<string>>)
    requires Good(s) && !s.disposed && IsCameraInUse(procs)
    ensures var t := Step(s, Poll(procs));
      Offs(t.out) == 0 && NoneLive(t.state.timers)
  {
    var t := Step(s, Poll(procs));
    CancelHandleSilences(s);
    assert Offs(t.out) == 0 by { assert t.out[..0] == []; }
  }

  /** After `Dispose` nothing pends and polls are ignored, so no command is ever issued. */
  lemma {:induction false} DisposedIsSilent(s: State, es: seq<Event>)
    requires Good(s) && s.disposed
    ensures Run(s, es).out == []
    decreases |es|
  {
    if |es| > 0 {
      var t := Step(s, es[0]);
      StepInvariant(s, es[0]);
      if es[0].Advance? {
        CountZero(s.timers, (x: Timer) => x.Due(s.now + es[0].dt));
      }
      assert t.out == [];
      assert t.state.disposed;
      DisposedIsSilent(t.state, es[1..]);
      assert es == [es[0]] + es[1..];
      ReplayCons(Step, s, es[0], es[1..]);
    }
  }

  /** `Dispose` silences the monitor for good. */
  lemma DisposeSilences(s: State, es: seq<Event>)
    requires Good(s)
    ensures Run(s, [Dispose] + es).out == []
  {
    DisposeInvariant(s);
    DisposedIsSilent(Step(s, Dispose).state, es);
    ReplayCons(Step, s, Dispose, es);
  }

  /** The start-up check does not update `_lastCameraState`: with the camera already in
      use, the first poll sees a change and turns the lights on a second time; with it
      not in use, the start-up check turns them off and the first poll does nothing. */
  lemma StartupThenFirstPoll(procs: Option<seq<string>>)
    ensures var init := CheckInitialCameraState(Start, procs);
      init.out + Step(init.state, Poll(procs)).out
        == if IsCameraInUse(procs) then [Action(TurnOn, 0), Action(TurnOn, 0)] else [Action(TurnOff, 0)]
  {
  }
}
