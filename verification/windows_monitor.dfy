/** The Windows monitor (`WindowsCameraMonitorService`): polls the running process
    names, turns the lights on at once when the camera comes into use, and arms a
    cancellable 3000 ms off-timer when it goes out of use; the timer re-checks the
    process list when it runs. */
module WindowsMonitor {
  import opened Wrappers
  import opened Text
  import opened Traces
  import opened Timers

  // ---- the process-name classifier (`IsCameraInUse`) ----

  /** Applications that are taken to hold the camera whenever they run. */
  const CameraApps: seq<string> :=
    ["teams", "zoom", "skype", "discord", "obs64", "obs32",
     "chrome", "firefox", "edge", "msedge", "WindowsCamera"]

  /** Some running process has one of the listed application names. */
  function AnyCameraApp(names: seq<string>): (r: bool)
    ensures r <==> exists i :: 0 <= i < |names| && names[i] in CameraApps
    decreases |names|
  {
    if |names| == 0 then false
    else names[0] in CameraApps || AnyCameraApp(names[1..])
  }

  /** The name mentions "camera", "webcam" or "cam", ignoring case. */
  predicate CameraLike(name: string) {
    || ContainsIgnoreCase(name, "camera")
    || ContainsIgnoreCase(name, "webcam")
    || ContainsIgnoreCase(name, "cam")
  }

  /** Some running process has a camera-like name. */
  function AnyCameraLike(names: seq<string>): (r: bool)
    ensures r <==> exists i :: 0 <= i < |names| && CameraLike(names[i])
    decreases |names|
  {
    if |names| == 0 then false
    else CameraLike(names[0]) || AnyCameraLike(names[1..])
  }

  /** `IsCameraInUse` over a snapshot of the running process names; `None` stands for
      an enumeration that threw, which the source reports as "not in use". */
  function IsCameraInUse(procs: Option<seq<string>>): (r: bool)
    ensures procs.None? ==> !r
    ensures procs == Some([]) ==> !r
    ensures procs.Some? && (exists i :: 0 <= i < |procs.value| && procs.value[i] in CameraApps) ==> r
  {
    match procs
    case None => false
    case Some(names) => AnyCameraApp(names) || AnyCameraLike(names)
  }

  /** "camera" and "webcam" both contain "cam", so the three-way test is the "cam" test. */
  lemma CameraLikeIsCam(name: string)
    ensures CameraLike(name) <==> ContainsIgnoreCase(name, "cam")
  {
    assert Fold("camera") == "camera";
    assert Fold("webcam") == "webcam";
    assert Fold("cam") == "cam";
    assert OccursAt("camera", "cam", 0);
    assert OccursAt("webcam", "cam", 3);
    if Contains(Fold(name), "camera") {
      ContainsTransitive(Fold(name), "camera", "cam");
    }
    if Contains(Fold(name), "webcam") {
      ContainsTransitive(Fold(name), "webcam", "cam");
    }
  }

  /** The classifier as one test per name: a listed application, or "cam" in any case. */
  lemma InUseIffAppOrCam(names: seq<string>)
    ensures IsCameraInUse(Some(names))
            <==> exists i :: 0 <= i < |names| && (names[i] in CameraApps || ContainsIgnoreCase(names[i], "cam"))
  {
    forall i | 0 <= i < |names| {
      CameraLikeIsCam(names[i]);
    }
  }

  // ---- the polling monitor ----

  /** Clock, timer table, `_cancellationTokenSource` as a timer id, `_lastCameraState`,
      and whether `Dispose` has run. */
  datatype State = State(now: int, timers: seq<Timer>, handle: Option<nat>, lastInUse: bool, disposed: bool)

  /** The service as constructed: `_lastCameraState` is false. */
  const Start: State := State(0, [], None, false, false)

  /** A poll of the process list; the clock moving on, with the process list seen by
      any off-timer that runs meanwhile; or `Dispose`. */
  datatype Event = Poll(procs: Option<seq<string>>) | Advance(dt: nat, procsAtFire: Option<seq<string>>) | Dispose

  /** `HandleCameraOn`: cancel the pending off-timer, forget it, turn the lights on. */
  function HandleCameraOn(s: State): (r: Transition<State>)
    ensures r.state.handle.None? && r.out == [Action(TurnOn, s.now)]
    ensures |r.state.timers| == |s.timers|
    ensures s.handle.Some? && s.handle.value < |s.timers| ==> r.state.timers[s.handle.value] == s.timers[s.handle.value].(cancelled := true)
    ensures forall i :: 0 <= i < |s.timers| && s.handle != Some(i) ==> r.state.timers[i] == s.timers[i]
    ensures r.state.now == s.now && r.state.lastInUse == s.lastInUse && r.state.disposed == s.disposed
  {
    Transition(s.(timers := Cancel(s.timers, s.handle), handle := None), [Action(TurnOn, s.now)])
  }

  /** `HandleCameraOff`: arm a new off-timer and make it the handle. */
  function HandleCameraOff(s: State): (r: Transition<State>)
    ensures r.state.timers == s.timers + [Timer(s.now + OffDelayMs, false, None)]
    ensures r.state.handle == Some(|s.timers|) && r.out == []
    ensures r.state.now == s.now && r.state.lastInUse == s.lastInUse && r.state.disposed == s.disposed
  {
    Transition(s.(timers := Arm(s.timers, s.now), handle := Some(|s.timers|)), [])
  }

  /** `CheckCameraStateChange`: act only when the observed state differs from the last one. */
  function CheckCameraStateChange(s: State, procs: Option<seq<string>>): (r: Transition<State>)
    ensures IsCameraInUse(procs) == s.lastInUse ==> r == Transition(s, [])
    ensures IsCameraInUse(procs) != s.lastInUse ==>
      && r.state.lastInUse == IsCameraInUse(procs)
      && r.state.now == s.now && r.state.disposed == s.disposed
    ensures IsCameraInUse(procs) != s.lastInUse && IsCameraInUse(procs) ==>
      && r.out == [Action(TurnOn, s.now)] && r.state.handle.None?
      && |r.state.timers| == |s.timers|
      && (s.handle.Some? && s.handle.value < |s.timers| ==> r.state.timers[s.handle.value] == s.timers[s.handle.value].(cancelled := true))
      && (forall i :: 0 <= i < |s.timers| && s.handle != Some(i) ==> r.state.timers[i] == s.timers[i])
    ensures IsCameraInUse(procs) != s.lastInUse && !IsCameraInUse(procs) ==>
      && r.out == []
      && r.state.timers == s.timers + [Timer(s.now + OffDelayMs, false, None)]
      && r.state.handle == Some(|s.timers|)
  {
    var inUse := IsCameraInUse(procs);
    if inUse == s.lastInUse then
      Transition(s, [])
    else
      var t := if inUse then HandleCameraOn(s) else HandleCameraOff(s);
      Transition(t.state.(lastInUse := inUse), t.out)
  }

  /** The clock moves on by `dt`; every pending timer whose deadline has come runs, and
      its continuation turns the lights off only if the camera is not in use then. The
      continuation touches neither the handle, nor the last reading, nor disposal. */
  function AdvanceClock(s: State, dt: nat, procsAtFire: Option<seq<string>>): (r: Transition<State>)
    ensures r.state.now == s.now + dt
    ensures r.state.handle == s.handle && r.state.lastInUse == s.lastInUse && r.state.disposed == s.disposed
    ensures |r.state.timers| == |s.timers|
    ensures forall i :: 0 <= i < |s.timers| ==>
      r.state.timers[i] == (if s.timers[i].Due(s.now + dt)
                            then s.timers[i].(firedAt := Some(s.now + dt)) else s.timers[i])
    ensures IsCameraInUse(procsAtFire) ==> r.out == []
    ensures !IsCameraInUse(procsAtFire) ==> |r.out| == DueCount(s.timers, s.now + dt)
    ensures forall k :: 0 <= k < |r.out| ==> r.out[k] == Action(TurnOff, s.now + dt)
  {
    var now := s.now + dt;
    var fired := DueCount(s.timers, now);
    Transition(s.(now := now, timers := FireDue(s.timers, now)),
               if IsCameraInUse(procsAtFire) then [] else Repeat(Action(TurnOff, now), fired))
  }

  /** `Dispose`: cancels the pending off-timer and stops the polling timer. The token
      source is disposed but not forgotten, so the handle stays as it was. */
  function DisposeMonitor(s: State): (r: Transition<State>)
    ensures r.out == [] && r.state.disposed
    ensures r.state.now == s.now && r.state.handle == s.handle && r.state.lastInUse == s.lastInUse
    ensures |r.state.timers| == |s.timers|
    ensures s.handle.Some? && s.handle.value < |s.timers| ==> r.state.timers[s.handle.value] == s.timers[s.handle.value].(cancelled := true)
    ensures forall i :: 0 <= i < |s.timers| && s.handle != Some(i) ==> r.state.timers[i] == s.timers[i]
  {
    Transition(s.(timers := Cancel(s.timers, s.handle), disposed := true), [])
  }

  function Step(s: State, e: Event): Transition<State>
  {
    match e
    case Poll(procs) => if s.disposed then Transition(s, []) else CheckCameraStateChange(s, procs)
    case Advance(dt, procs) => AdvanceClock(s, dt, procs)
    case Dispose => DisposeMonitor(s)
  }

  function Run(s: State, es: seq<Event>): Transition<State>
  {
    Replay(Step, s, es)
  }

  /** Total time the clock moves on during `es`. */
  function Elapsed(es: seq<Event>): nat
    decreases |es|
  {
    if |es| == 0 then 0 else (if es[0].Advance? then es[0].dt else 0) + Elapsed(es[1..])
  }

  /** The one-shot start-up check: always issues exactly one command, and leaves the
      state (in particular `_lastCameraState`) as it was. */
  function CheckInitialCameraState(s: State, procs: Option<seq<string>>): (r: Transition<State>)
    ensures r.state == s && |r.out| == 1 && r.out[0].at == s.now
    ensures r.out[0].cmd == TurnOn <==> IsCameraInUse(procs)
  {
    Transition(s, [Action(if IsCameraInUse(procs) then TurnOn else TurnOff, s.now)])
  }
}
