/**
  Timed calls of await. When the time runs out the call goes on to clear the latent bit all the same, and a signal that comes in
  between is gone though the process is told that its time ran out.
  (xen_shm.c:925-940)
 */
module AwaitTimeout {
  import opened Await
  import opened AwaitTheorems

  /** The process learns of a signal: the call returns 0 and time remains. */
  predicate Reports(c: Caller) { c.pc == Done(Signalled) && !c.timedOut }

  /** Caller i clears a latent bit that is set, with its time run out. */
  predicate Loses(s: State, ev: Event, i: nat) {
    i < |s.callers| && ev == Step(i) && Takes(s, ev, s.callers[i].end) && s.At(s.callers[i].end).latent && s.callers[i].timedOut
  }

  predicate NotCalled(schedule: seq<Event>, i: nat) {
    forall k :: 0 <= k < |schedule| ==> !(schedule[k].Call? && schedule[k].i == i)
  }

  // ----- after the taking -----

  /** Caller i has taken a signal; late is whether its time had run out, broken whether the pipe was broken then. */
  predicate HasTaken(s: State, i: nat, late: bool, broken: bool) {
    && i < |s.callers| && s.callers[i].timedOut == late && (broken ==> s.broken)
    && match s.callers[i].pc
       case Recheck => true
       case Leave(r) => (r == Signalled && !broken) || (r == Epipe && s.broken)
       case Done(r) => (r == Signalled && !broken) || (r == Epipe && s.broken)
       case _ => false
  }

  lemma TakenStep(s: State, ev: Event, i: nat, late: bool, broken: bool)
    requires HasTaken(s, i, late, broken) && !(ev.Call? && ev.i == i)
    ensures HasTaken(Do(s, ev), i, late, broken)
  {
    if ev.Step? && ev.i < |s.callers| { OneCaller(s, ev.i); }
  }

  lemma {:induction false} TakenRun(s: State, schedule: seq<Event>, i: nat, late: bool, broken: bool)
    requires HasTaken(s, i, late, broken) && NotCalled(schedule, i)
    ensures HasTaken(Run(s, schedule), i, late, broken)
    decreases |schedule|
  {
    if schedule != [] {
      TakenStep(s, schedule[0], i, late, broken);
      TakenRun(Do(s, schedule[0]), schedule[1..], i, late, broken);
    }
  }

  /**
    A taken latent signal, under any schedule up to the end of the call: it is reported if and only if the time had not run out when it was
    taken and the second look finds the pipe whole. The latter fails if the pipe was broken at the taking, and only if it is at the end.
   */
  lemma TakenReportedExactly(s: State, i: nat, schedule: seq<Event>)
    requires i < |s.callers| && s.callers[i].pc.ClearLatent? && s.callers[i].req.TakesSignals() && s.At(s.callers[i].end).latent
    requires NotCalled(schedule, i) && i < |Run(Do(s, Step(i)), schedule).callers| && Run(Do(s, Step(i)), schedule).callers[i].pc.Done?
    ensures !Do(s, Step(i)).At(s.callers[i].end).latent
    ensures var t := Run(Do(s, Step(i)), schedule); var c := t.callers[i];
      && (Reports(c) <==> !s.callers[i].timedOut && c.pc.r != Epipe)
      && (s.broken ==> c.pc.r == Epipe) && (c.pc.r == Epipe ==> t.broken)
  {
    OneCaller(s, i);
    LatentExactly(s, Step(i), s.callers[i].end);
    TakenRun(Do(s, Step(i)), schedule, i, s.callers[i].timedOut, s.broken);
  }

  // ----- before it -----

  /** No step of the schedule is one in which caller i loses a signal. */
  predicate LosesNone(s: State, schedule: seq<Event>, i: nat)
    decreases |schedule|
  {
    schedule == [] || (!Loses(s, schedule[0], i) && LosesNone(Do(s, schedule[0]), schedule[1..], i))
  }

  /** An untimed call's time does not run out. */
  lemma {:induction false} UntimedLosesNone(s: State, schedule: seq<Event>, i: nat)
    requires i < |s.callers| && !s.callers[i].req.timed && !s.callers[i].timedOut && NotCalled(schedule, i)
    ensures LosesNone(s, schedule, i)
    decreases |schedule|
  {
    if schedule != [] {
      var ev := schedule[0];
      if ev.Step? && ev.i < |s.callers| { OneCaller(s, ev.i); }
      UntimedLosesNone(Do(s, ev), schedule[1..], i);
    }
  }

  /** Caller i waits for signals, on a pipe that is whole and has shaken hands. */
  predicate WaitsForSignals(s: State, i: nat) {
    && i < |s.callers| && s.callers[i].pc.Waiting? && s.callers[i].req.TakesSignals() && !s.callers[i].timedOut
    && !s.broken && s.At(s.callers[i].end).initial && s.At(s.callers[i].end.Other()).up
  }

  /** The losing schedule: the time runs out, the peer signals, the handler runs, and the caller clears the bit. */
  function LossSchedule(s: State, i: nat): seq<Event>
    requires i < |s.callers|
  {
    [GiveUp(i, false), Ssig(s.callers[i].end.Other()), Handle(s.callers[i].end), Step(i)]
  }

  lemma TimedLoses(s: State, i: nat)
    requires WaitsForSignals(s, i) && s.callers[i].req.timed
    ensures NotCalled(LossSchedule(s, i), i) && !LosesNone(s, LossSchedule(s, i), i)
  {
    var e, schedule := s.callers[i].end, LossSchedule(s, i);
    var s1 := Do(s, GiveUp(i, false));
    var s2 := Do(s1, Ssig(e.Other()));
    var s3 := Do(s2, Handle(e));
    assert s1.callers[i].timedOut && s1.callers[i].pc.ClearLatent? && s2.callers == s1.callers && s2.At(e).inflight && s2.At(e).initial;
    assert s3.callers == s1.callers && s3.At(e).latent;
    assert Loses(s3, Step(i), i);
    assert schedule[1..][1..][1..] == [Step(i)];
    LosesLater(s2, schedule[2..], i);
    LosesLater(s1, schedule[1..], i);
    LosesLater(s, schedule, i);
  }

  lemma LosesLater(s: State, schedule: seq<Event>, i: nat)
    requires schedule != [] && !LosesNone(Do(s, schedule[0]), schedule[1..], i)
    ensures !LosesNone(s, schedule, i)
  {
  }

  ghost predicate SafeFromLoss(s: State, i: nat) {
    forall schedule: seq<Event> :: NotCalled(schedule, i) ==> LosesNone(s, schedule, i)
  }

  /** A waiting call is safe from losing a signal, under every schedule, if and only if it has no timeout. */
  lemma LossExactly(s: State, i: nat)
    requires WaitsForSignals(s, i)
    ensures SafeFromLoss(s, i) <==> !s.callers[i].req.timed
  {
    if s.callers[i].req.timed {
      TimedLoses(s, i);
    } else {
      forall schedule: seq<Event> | NotCalled(schedule, i) ensures LosesNone(s, schedule, i) { UntimedLosesNone(s, schedule, i); }
    }
  }

  // ----- from the start -----

  const TIMED := Request(false, false, false, true, true)

  /** One caller, on the offerer's end, hands shaken. */
  function One(signal: bool, c: Caller): State {
    State(1, false, Instance(true, false, true, signal, signal), Instance(true, true, false, false, false), [c])
  }

  lemma WaitBegun() returns (a: seq<Event>)
    ensures Run(Init([Offerer]), a) == One(false, Caller(Offerer, TIMED, Waiting, false))
  {
    a := [Open(Offerer), Open(Receiver), Handle(Offerer)] + [Call(0, TIMED), Step(0), Step(0)];
    var s := Init([Offerer]);
    RunAppend(s, a[..3], a[3..]);
    RunThree(s, a[..3]);
    assert Run(s, a[..3]) == One(false, IDLE);
    RunThree(One(false, IDLE), a[3..]);
  }

  /**
    From the start: a timed wait runs out, the receiver's signal is delivered, and the call ends without reporting it and with the
    latent bit clear, so that the next call will not find it either.
   */
  lemma SignalLostAtTimeout() returns (before: seq<Event>, after: seq<Event>)
    ensures var s := Run(Init([Offerer]), before);
      && |s.callers| == 1 && s.offerer.latent && s.callers[0].req.TakesSignals() && !s.callers[0].pc.Done?
      && var t := Run(s, after);
        |t.callers| == 1 && t.callers[0].pc == Done(Signalled) && !Reports(t.callers[0]) && !t.offerer.latent && !t.broken
  {
    var a := WaitBegun();
    var b := [GiveUp(0, false), Ssig(Receiver), Handle(Offerer)];
    before, after := a + b, [Step(0), Step(0), Step(0)];
    RunAppend(Init([Offerer]), a, b);
    RunThree(One(false, Caller(Offerer, TIMED, Waiting, false)), b);
    var s := Run(Init([Offerer]), before);
    assert s.callers == [Caller(Offerer, TIMED, ClearLatent, true)] && s.offerer.latent && !s.broken;
    RunThree(s, after);
  }
}
