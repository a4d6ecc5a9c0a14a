/** The cancellable off-confirmation timers both monitors use, on an explicit
    millisecond clock. A timer's id is its index in the (append-only) timer table;
    a monitor's "current handle" is an `Option` of such an id. */
module Timers {
  import opened Wrappers
  import opened Traces

  /** Hold-down, in milliseconds, between an observed "off" and the lights going off. */
  const OffDelayMs: int := 3000

  /** A delayed "turn off": its deadline, whether its token was cancelled, and when
      (if ever) its continuation ran. */
  datatype Timer = Timer(deadline: int, cancelled: bool, firedAt: Option<int>) {
    /** Still pending: neither cancelled nor run. */
    predicate Live() {
      !cancelled && firedAt.None?
    }

    /** Pending and due at clock reading `now`. */
    predicate Due(now: int) {
      Live() && deadline <= now
    }
  }

  predicate IsFired(t: Timer) {
    t.firedAt.Some?
  }

  predicate IsLive(t: Timer) {
    t.Live()
  }

  /** Starts a fresh off-timer at `now`; its id is the old table length. */
  function Arm(ts: seq<Timer>, now: int): seq<Timer>
  {
    ts + [Timer(now + OffDelayMs, false, None)]
  }

  /** Cancels the timer the handle names, if there is one; no handle changes nothing. */
  function Cancel(ts: seq<Timer>, handle: Option<nat>): seq<Timer>
  {
    if handle.Some? && handle.value < |ts| then
      ts[handle.value := ts[handle.value].(cancelled := true)]
    else
      ts
  }

  /** No timer of the table is pending. */
  predicate NoneLive(ts: seq<Timer>) {
    forall i :: 0 <= i < |ts| ==> !ts[i].Live()
  }

  /** Every pending timer of the table is the one the handle names. */
  predicate LiveOnlyHandle(ts: seq<Timer>, handle: Option<nat>) {
    forall i :: 0 <= i < |ts| && ts[i].Live() ==> handle == Some(i)
  }

  /** Runs `t`'s continuation at `now` if it is due. */
  function FireOne(t: Timer, now: int): Timer
  {
    if t.Due(now) then t.(firedAt := Some(now)) else t
  }

  /** Runs every timer that is due at `now`. */
  function FireDue(ts: seq<Timer>, now: int): (r: seq<Timer>)
    ensures |r| == |ts|
  {
    seq(|ts|, i requires 0 <= i < |ts| => FireOne(ts[i], now))
  }

  /** The number of timers in `ts` satisfying `p`. */
  function Count(ts: seq<Timer>, p: Timer -> bool): nat
    decreases |ts|
  {
    if |ts| == 0 then 0 else Count(ts[..|ts| - 1], p) + (if p(ts[|ts| - 1]) then 1 else 0)
  }

  lemma {:induction false} CountPointwise(ts: seq<Timer>, us: seq<Timer>, p: Timer -> bool, q: Timer -> bool)
    requires |ts| == |us|
    requires forall i :: 0 <= i < |ts| ==> (p(ts[i]) <==> q(us[i]))
    ensures Count(ts, p) == Count(us, q)
    decreases |ts|
  {
    if |ts| > 0 {
      CountPointwise(ts[..|ts| - 1], us[..|us| - 1], p, q);
    }
  }

  lemma {:induction false} CountZero(ts: seq<Timer>, p: Timer -> bool)
    ensures Count(ts, p) == 0 <==> forall i :: 0 <= i < |ts| ==> !p(ts[i])
    decreases |ts|
  {
    if |ts| > 0 {
      CountZero(ts[..|ts| - 1], p);
    }
  }

  /** A weaker property is satisfied by at least as many timers. */
  lemma {:induction false} CountMono(ts: seq<Timer>, p: Timer -> bool, q: Timer -> bool)
    requires forall i :: 0 <= i < |ts| && p(ts[i]) ==> q(ts[i])
    ensures Count(ts, p) <= Count(ts, q)
    decreases |ts|
  {
    if |ts| > 0 {
      CountMono(ts[..|ts| - 1], p, q);
    }
  }

  /** When every satisfying timer has the same id, at most one timer satisfies `p`. */
  lemma {:induction false} CountAtMostOne(ts: seq<Timer>, p: Timer -> bool, h: nat)
    requires forall i :: 0 <= i < |ts| && p(ts[i]) ==> i == h
    ensures Count(ts, p) <= 1
    decreases |ts|
  {
    if |ts| > 0 {
      var init := ts[..|ts| - 1];
      if p(ts[|ts| - 1]) {
        CountZero(init, p);
      } else {
        CountAtMostOne(init, p, h);
      }
    }
  }

  /** The number of timers due at `now`. */
  function DueCount(ts: seq<Timer>, now: int): nat
  {
    Count(ts, (t: Timer) => t.Due(now))
  }

  /** Appending a timer adds one to the due count exactly when it is due. */
  lemma DueCountSnoc(ts: seq<Timer>, t: Timer, now: int)
    ensures DueCount(ts + [t], now) == DueCount(ts, now) + (if t.Due(now) then 1 else 0)
  {
    assert (ts + [t])[..|ts|] == ts;
  }

  /** When nothing is due, firing changes nothing. */
  lemma FireNoneDue(ts: seq<Timer>, now: int)
    requires DueCount(ts, now) == 0
    ensures FireDue(ts, now) == ts
  {
    CountZero(ts, (t: Timer) => t.Due(now));
  }

  /** The timer table is consistent with clock reading `now`: pending timers are in the
      future, and a timer that ran did so no earlier than its deadline and not after now. */
  predicate Settled(ts: seq<Timer>, now: int) {
    && (forall i :: 0 <= i < |ts| && ts[i].Live() ==> now < ts[i].deadline)
    && (forall i :: 0 <= i < |ts| && ts[i].firedAt.Some? ==> ts[i].deadline <= ts[i].firedAt.value <= now)
  }

  /** Arming keeps the table settled, only appends, and runs nothing. */
  lemma ArmSettled(ts: seq<Timer>, now: int)
    requires Settled(ts, now)
    ensures Settled(Arm(ts, now), now) && Extends(ts, Arm(ts, now))
    ensures Count(Arm(ts, now), IsFired) == Count(ts, IsFired)
  {
    assert Arm(ts, now)[..|ts|] == ts;
  }

  /** Cancelling keeps the table settled and runs nothing. */
  lemma CancelSettled(ts: seq<Timer>, now: int, handle: Option<nat>)
    requires Settled(ts, now)
    ensures Settled(Cancel(ts, handle), now) && Extends(ts, Cancel(ts, handle))
    ensures Count(Cancel(ts, handle), IsFired) == Count(ts, IsFired)
  {
    CountPointwise(ts, Cancel(ts, handle), IsFired, IsFired);
  }

  /** Moving the clock forward and running what is due keeps the table settled, and
      runs exactly the due timers. */
  lemma FireDueSettled(ts: seq<Timer>, now: int, later: int)
    requires Settled(ts, now) && now <= later
    ensures Settled(FireDue(ts, later), later) && Extends(ts, FireDue(ts, later))
    ensures Count(FireDue(ts, later), IsFired) == Count(ts, IsFired) + DueCount(ts, later)
  {
    FireDueCount(ts, later);
  }

  /** Firing the due timers marks exactly those timers as run, and nothing else. */
  lemma {:induction false} FireDueCount(ts: seq<Timer>, now: int)
    ensures Count(FireDue(ts, now), IsFired) == Count(ts, IsFired) + DueCount(ts, now)
    decreases |ts|
  {
    if |ts| > 0 {
      var init := ts[..|ts| - 1];
      assert FireDue(ts, now)[..|ts| - 1] == FireDue(init, now);
      FireDueCount(init, now);
    }
  }

  /** `t2` is a later version of `t1`: same deadline, cancellation and firing are
      never undone, and a timer cancelled before it ran never runs. */
  predicate Succeeds(t1: Timer, t2: Timer) {
    && t2.deadline == t1.deadline
    && (t1.cancelled ==> t2.cancelled)
    && (t1.firedAt.Some? ==> t2.firedAt == t1.firedAt)
    && (t1.cancelled && t1.firedAt.None? ==> t2.firedAt.None?)
  }

  /** `ts2` is a later version of the table `ts1`: old timers succeeded, new ones appended. */
  predicate Extends(ts1: seq<Timer>, ts2: seq<Timer>) {
    |ts1| <= |ts2| && forall i :: 0 <= i < |ts1| ==> Succeeds(ts1[i], ts2[i])
  }

  lemma ExtendsTransitive(ts1: seq<Timer>, ts2: seq<Timer>, ts3: seq<Timer>)
    requires Extends(ts1, ts2) && Extends(ts2, ts3)
    ensures Extends(ts1, ts3)
  {
  }
}
