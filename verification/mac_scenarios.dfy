/** Properties of the macOS monitor over sequences of events: flap suppression,
    the orphaned timer left by a repeated "off" line, the fixed deadline, and the
    agreement of the start-up check with the per-line classification. */
module MacScenarios {
  import opened Wrappers
  import opened Text
  import opened Traces
  import opened Timers
  import opened MacMonitor

  /** No event of `es` is an "off" line, so none arms a timer. */
  predicate NoArming(es: seq<Event>) {
    forall i :: 0 <= i < |es| ==> !(es[i].Line? && ArmsOff(es[i].text))
  }

  /** While no line arms a timer and no pending timer comes due, no "turn off" is issued,
      no timer is added, and the handle keeps naming the only pending timer. */
  lemma {:induction false} QuietRun(s: State, es: seq<Event>)
    requires LiveOnlyHandle(s.timers, s.handle) && NoArming(es)
    requires forall i :: 0 <= i < |s.timers| && s.timers[i].Live() ==> s.now + Elapsed(es) < s.timers[i].deadline
    ensures var t := Run(s, es);
      && Offs(t.out) == 0
      && LiveOnlyHandle(t.state.timers, t.state.handle)
      && |t.state.timers| == |s.timers|
      && (NoneLive(s.timers) ==> NoneLive(t.state.timers))
    decreases |es|
  {
    if |es| > 0 {
      var e := es[0];
      var t := Step(s, e);
      assert !(e.Line? && ArmsOff(e.text));
      match e {
      case Line(text) =>
        if TurnsOn(text) {
          OnLineStep(s, text);
          forall i | 0 <= i < |t.state.timers| ensures !t.state.timers[i].Live() {
            if s.handle != Some(i) {
              assert t.state.timers[i] == s.timers[i];
            }
          }
          assert Offs(t.out) == 0 by { assert t.out[..0] == []; }
        } else {
          assert t == Transition(s, []);
        }
      case Advance(dt) =>
        CountZero(s.timers, (x: Timer) => x.Due(s.now + dt));
        assert t.out == [];
        assert t.state.timers == s.timers;
      }
      assert NoArming(es[1..]) by {
        forall i | 0 <= i < |es[1..]| ensures !(es[1..][i].Line? && ArmsOff(es[1..][i].text)) {
          assert es[1..][i] == es[i + 1];
        }
      }
      QuietRun(t.state, es[1..]);
      OffsAppend(t.out, Run(t.state, es[1..]).out);
    }
  }

  /** From a quiet state, an "off" line leaves exactly one pending timer, the one the
      handle names, due one delay later. */
  lemma OffFromQuiet(s: State, offLine: string)
    requires NoneLive(s.timers) && ArmsOff(Some(offLine))
    ensures var s1 := ProcessLogEvent(s, Some(offLine)).state;
      && LiveOnlyHandle(s1.timers, s1.handle)
      && s1.now == s.now
      && s1.handle == Some(|s.timers|) && s1.timers[|s.timers|].Live()
      && forall i :: 0 <= i < |s1.timers| && s1.timers[i].Live() ==> s1.timers[i].deadline == s.now + OffDelayMs
  {
    OffLineStep(s, Some(offLine));
    var s1 := ProcessLogEvent(s, Some(offLine)).state;
    assert forall j :: 0 <= j < |s.timers| ==> s1.timers[j] == s.timers[j];
  }

  /** An "on" line cancels the handle's timer; when that is the only pending one,
      nothing is pending afterwards. */
  lemma OnSilences(s: State, onLine: string)
    requires LiveOnlyHandle(s.timers, s.handle) && TurnsOn(Some(onLine))
    ensures NoneLive(ProcessLogEvent(s, Some(onLine)).state.timers)
    ensures Offs(ProcessLogEvent(s, Some(onLine)).out) == 0
  {
    OnLineStep(s, Some(onLine));
    var s3 := ProcessLogEvent(s, Some(onLine)).state;
    forall i | 0 <= i < |s3.timers| ensures !s3.timers[i].Live() {
      if s.handle != Some(i) {
        assert s3.timers[i] == s.timers[i];
      }
    }
    assert Offs([Action(TurnOn, s.now)]) == 0 by { assert [Action(TurnOn, s.now)][..0] == []; }
  }

  /** After the "off" line: a quiet stretch shorter than the pending deadline, then an
      "on" line, then anything without an "off" line, issues no "turn off". */
  lemma {:induction false} QuietThenOn(s: State, mid: seq<Event>, onLine: string, rest: seq<Event>)
    requires LiveOnlyHandle(s.timers, s.handle) && NoArming(mid) && NoArming(rest) && TurnsOn(Some(onLine))
    requires forall i :: 0 <= i < |s.timers| && s.timers[i].Live() ==> s.now + Elapsed(mid) < s.timers[i].deadline
    ensures Offs(Run(s, mid + ([Line(Some(onLine))] + rest)).out) == 0
  {
    QuietRun(s, mid);
    var r1 := Run(s, mid);
    OnSilences(r1.state, onLine);
    OnLineStep(r1.state, Some(onLine));
    var t := Step(r1.state, Line(Some(onLine)));
    QuietRun(t.state, rest);
    var r3 := Run(t.state, rest);
    RunCons(r1.state, Line(Some(onLine)), rest);
    OffsAppend(t.out, r3.out);
    RunAppend(s, mid, [Line(Some(onLine))] + rest);
    OffsAppend(r1.out, t.out + r3.out);
  }

  /** Flap suppression: from a quiet state, an "off" line followed by an "on" line less
      than the delay later, with no other "off" line at any point, never turns the
      lights off. */
  lemma FlapSuppressed(s: State, offLine: string, mid: seq<Event>, onLine: string, rest: seq<Event>)
    requires NoneLive(s.timers)
    requires ArmsOff(Some(offLine)) && TurnsOn(Some(onLine))
    requires NoArming(mid) && NoArming(rest)
    requires Elapsed(mid) < OffDelayMs
    ensures Offs(Run(s, [Line(Some(offLine))] + mid + [Line(Some(onLine))] + rest).out) == 0
  {
    var tail := mid + ([Line(Some(onLine))] + rest);
    assert [Line(Some(offLine))] + mid + [Line(Some(onLine))] + rest == [Line(Some(offLine))] + tail;
    OffFromQuiet(s, offLine);
    OffLineStep(s, Some(offLine));
    var s1 := Step(s, Line(Some(offLine))).state;
    QuietThenOn(s1, mid, onLine, rest);
    RunCons(s, Line(Some(offLine)), tail);
    assert Offs([] + Run(s1, tail).out) == 0 by { assert [] + Run(s1, tail).out == Run(s1, tail).out; }
  }

  /** A second "off" line overwrites the handle without cancelling the pending timer,
      so a later "on" line cancels only the newer one and the older stays pending. */
  lemma OffOrphansPendingTimer(s: State, offLine: string, onLine: string, h: nat)
    requires h < |s.timers| && s.handle == Some(h) && s.timers[h].Live()
    requires ArmsOff(Some(offLine)) && TurnsOn(Some(onLine))
    ensures var s1 := ProcessLogEvent(s, Some(offLine)).state;
      && s1.handle != Some(h)
      && ProcessLogEvent(s1, Some(onLine)).state.timers[h].Live()
  {
  }

  /** Off, off, on at the same instant from a state with nothing pending, then the full
      delay: the lights go on, and then the orphaned first timer turns them off. */
  lemma OrphanedTimerTurnsLightsOff(s: State, offLine: string, onLine: string)
    requires NoneLive(s.timers) && ArmsOff(Some(offLine)) && TurnsOn(Some(onLine))
    ensures Run(s, [Line(Some(offLine)), Line(Some(offLine)), Line(Some(onLine)), Advance(OffDelayMs)]).out
            == [Action(TurnOn, s.now), Action(TurnOff, s.now + OffDelayMs)]
  {
    var t0 := Timer(s.now + OffDelayMs, false, None);
    var s3 := State(s.now, s.timers + [t0, t0.(cancelled := true)], None);
    var es := [Line(Some(offLine)), Line(Some(offLine)), Line(Some(onLine))];
    assert es + [Advance(OffDelayMs)]
        == [Line(Some(offLine)), Line(Some(offLine)), Line(Some(onLine)), Advance(OffDelayMs)];
    OrphanSetup(s, offLine, onLine);
    RunAppend(s, es, [Advance(OffDelayMs)]);
    RunOne(s3, Advance(OffDelayMs));
    OrphanFires(s, s3, t0);
  }

  /** Off, off, on: two timers armed, the handle's (second) one cancelled, the lights on. */
  lemma OrphanSetup(s: State, offLine: string, onLine: string)
    requires ArmsOff(Some(offLine)) && TurnsOn(Some(onLine))
    ensures var t0 := Timer(s.now + OffDelayMs, false, None);
      Run(s, [Line(Some(offLine)), Line(Some(offLine)), Line(Some(onLine))])
      == Transition(State(s.now, s.timers + [t0, t0.(cancelled := true)], None), [Action(TurnOn, s.now)])
  {
    var t0 := Timer(s.now + OffDelayMs, false, None);
    var n := |s.timers|;
    var s1 := State(s.now, s.timers + [t0], Some(n));
    var s2 := State(s.now, s.timers + [t0, t0], Some(n + 1));
    var s3 := State(s.now, s.timers + [t0, t0.(cancelled := true)], None);
    OffLineStep(s, Some(offLine));
    assert Step(s, Line(Some(offLine))) == Transition(s1, []);
    OffLineStep(s1, Some(offLine));
    assert s1.timers + [t0] == s2.timers;
    assert Step(s1, Line(Some(offLine))) == Transition(s2, []);
    OnLineStep(s2, Some(onLine));
    assert Cancel(s2.timers, s2.handle) == s3.timers;
    assert Step(s2, Line(Some(onLine))) == Transition(s3, [Action(TurnOn, s.now)]);
    RunOne(s2, Line(Some(onLine)));
    RunCons(s1, Line(Some(offLine)), [Line(Some(onLine))]);
    RunCons(s, Line(Some(offLine)), [Line(Some(offLine)), Line(Some(onLine))]);
  }

  /** The last step of the orphan scenario: only the uncancelled first timer runs. */
  lemma OrphanFires(s: State, s3: State, t0: Timer)
    requires NoneLive(s.timers)
    requires t0 == Timer(s.now + OffDelayMs, false, None)
    requires s3 == State(s.now, s.timers + [t0, t0.(cancelled := true)], None)
    ensures Step(s3, Advance(OffDelayMs)).out == [Action(TurnOff, s.now + OffDelayMs)]
  {
    var now := s.now + OffDelayMs;
    CountZero(s.timers, (x: Timer) => x.Due(now));
    DueCountSnoc(s.timers, t0, now);
    DueCountSnoc(s.timers + [t0], t0.(cancelled := true), now);
    assert s.timers + [t0] + [t0.(cancelled := true)] == s3.timers;
    AdvanceStep(s3, OffDelayMs);
  }

  /** A lone "off" line: nothing before the delay has passed, exactly one "turn off"
      once it has. */
  lemma LoneOffFiresOnce(offLine: string, dt: nat)
    requires ArmsOff(Some(offLine))
    ensures Run(Start, [Line(Some(offLine)), Advance(dt)]).out
            == if dt < OffDelayMs then [] else [Action(TurnOff, dt)]
  {
    var t0 := Timer(OffDelayMs, false, None);
    var s1 := State(0, [t0], Some(0));
    OffLineStep(Start, Some(offLine));
    assert Start.timers + [t0] == [t0];
    assert Step(Start, Line(Some(offLine))) == Transition(s1, []);
    LoneTimerFires(s1, t0, dt);
    RunOne(s1, Advance(dt));
    RunCons(Start, Line(Some(offLine)), [Advance(dt)]);
  }

  /** The last step of the lone-off scenario. */
  lemma LoneTimerFires(s1: State, t0: Timer, dt: nat)
    requires t0 == Timer(OffDelayMs, false, None)
    requires s1 == State(0, [t0], Some(0))
    ensures Step(s1, Advance(dt)).out == if dt < OffDelayMs then [] else [Action(TurnOff, dt)]
  {
    DueCountSnoc([], t0, dt);
    assert [] + [t0] == [t0];
    AdvanceStep(s1, dt);
  }

  /** A repeated "off" line does not move the first deadline: off at 0 and again at
      1000 turn the lights off at 3000 (from the first) and again at 4000 (from the
      second, which the source does not suppress). */
  lemma RepeatedOffKeepsFirstDeadline(offLine: string)
    requires ArmsOff(Some(offLine))
    ensures Run(Start, [Line(Some(offLine)), Advance(1000), Line(Some(offLine)), Advance(2000), Advance(1000)]).out
            == [Action(TurnOff, 3000), Action(TurnOff, 4000)]
  {
    var t0 := Timer(3000, false, None);
    var t1 := Timer(4000, false, None);
    var s3 := State(1000, [t0, t1], Some(1));
    var es := [Line(Some(offLine)), Advance(1000), Line(Some(offLine))];
    assert es + [Advance(2000), Advance(1000)]
        == [Line(Some(offLine)), Advance(1000), Line(Some(offLine)), Advance(2000), Advance(1000)];
    RepeatedOffSetup(offLine);
    RunAppend(Start, es, [Advance(2000), Advance(1000)]);
    BothTimersFire(s3, t0, t1);
  }

  /** Off at 0, one second, off again: two pending timers, due at 3000 and 4000. */
  lemma RepeatedOffSetup(offLine: string)
    requires ArmsOff(Some(offLine))
    ensures Run(Start, [Line(Some(offLine)), Advance(1000), Line(Some(offLine))])
            == Transition(State(1000, [Timer(3000, false, None), Timer(4000, false, None)], Some(1)), [])
  {
    var t0 := Timer(3000, false, None);
    var t1 := Timer(4000, false, None);
    var s1 := State(0, [t0], Some(0));
    var s2 := State(1000, [t0], Some(0));
    var s3 := State(1000, [t0, t1], Some(1));
    OffLineStep(Start, Some(offLine));
    assert Start.timers + [t0] == [t0];
    assert Step(Start, Line(Some(offLine))) == Transition(s1, []);
    assert DueCount(s1.timers, 1000) == 0 by {
      DueCountSnoc([], t0, 1000);
      assert [] + [t0] == [t0];
    }
    FireNoneDue(s1.timers, 1000);
    assert Step(s1, Advance(1000)) == Transition(s2, []);
    OffLineStep(s2, Some(offLine));
    assert [t0] + [t1] == [t0, t1];
    assert Step(s2, Line(Some(offLine))) == Transition(s3, []);
    RunOne(s2, Line(Some(offLine)));
    RunCons(s1, Advance(1000), [Line(Some(offLine))]);
    RunCons(Start, Line(Some(offLine)), [Advance(1000), Line(Some(offLine))]);
  }

  /** From two pending timers due at 3000 and 4000, advancing to each deadline runs
      exactly that timer. */
  lemma BothTimersFire(s3: State, t0: Timer, t1: Timer)
    requires t0 == Timer(3000, false, None) && t1 == Timer(4000, false, None)
    requires s3 == State(1000, [t0, t1], Some(1))
    ensures Run(s3, [Advance(2000), Advance(1000)]).out == [Action(TurnOff, 3000), Action(TurnOff, 4000)]
  {
    var f0 := t0.(firedAt := Some(3000));
    var s4 := State(3000, [f0, t1], Some(1));
    FirstTimerFires(s3, t0, t1);
    SecondTimerFires(s4, f0, t1);
    RunOne(s4, Advance(1000));
    RunCons(s3, Advance(2000), [Advance(1000)]);
  }

  lemma FirstTimerFires(s3: State, t0: Timer, t1: Timer)
    requires t0 == Timer(3000, false, None) && t1 == Timer(4000, false, None)
    requires s3 == State(1000, [t0, t1], Some(1))
    ensures Step(s3, Advance(2000)) == Transition(State(3000, [t0.(firedAt := Some(3000)), t1], Some(1)), [Action(TurnOff, 3000)])
  {
    assert DueCount(s3.timers, 3000) == 1 by {
      DueCountSnoc([], t0, 3000);
      assert [] + [t0] == [t0];
      DueCountSnoc([t0], t1, 3000);
      assert [t0] + [t1] == s3.timers;
    }
    assert FireDue(s3.timers, 3000) == [t0.(firedAt := Some(3000)), t1];
    assert Repeat(Action(TurnOff, 3000), 1) == [Action(TurnOff, 3000)];
  }

  lemma SecondTimerFires(s4: State, f0: Timer, t1: Timer)
    requires f0 == Timer(3000, false, Some(3000)) && t1 == Timer(4000, false, None)
    requires s4 == State(3000, [f0, t1], Some(1))
    ensures Step(s4, Advance(1000)).out == [Action(TurnOff, 4000)]
  {
    assert DueCount(s4.timers, 4000) == 1 by {
      DueCountSnoc([], f0, 4000);
      assert [] + [f0] == [f0];
      DueCountSnoc([f0], t1, 4000);
      assert [f0] + [t1] == s4.timers;
    }
    assert Repeat(Action(TurnOff, 4000), 1) == [Action(TurnOff, 4000)];
  }

  /** The start-up check on a snapshot decides exactly as the live handler would on the
      same text: "turn on" when the handler turns the lights on, "turn off" when it arms
      an off-timer, nothing when it ignores the text. */
  lemma InitialCheckAgreesWithLiveHandler(s: State, snapshot: string)
    ensures var t := ProcessLogEvent(s, Some(snapshot));
      && (CheckInitialCameraState(snapshot) == Some(TurnOn) <==> t.out != [])
      && (CheckInitialCameraState(snapshot) == Some(TurnOff) <==> |t.state.timers| == |s.timers| + 1)
      && (CheckInitialCameraState(snapshot) == None <==> t == Transition(s, []))
  {
    if IsBlank(snapshot) {
      BlankContainsNoMark(snapshot, OnMarker, 0);
      BlankContainsNoMark(snapshot, OffMarker, 0);
    }
  }
}
