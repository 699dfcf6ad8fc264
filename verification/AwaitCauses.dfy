/**
  Why a wait ends: for a signal of a kind that was asked for, and for nothing else but a broken pipe, the timeout or the operating
  system; and that it does end then.
  (xen_shm.c:913-945)
 */
module AwaitCauses {
  import opened Await
  import opened AwaitTheorems
  import opened AwaitTimeout

  /**
    Caller i's look at the bits finds what it asked for: a signal that was delivered since it armed, one that was latent, or the
    initial signal. `heard` is whether one was delivered since it armed.
   */
  predicate Finds(s: State, ev: Event, i: nat, heard: bool) {
    && i < |s.callers| && s.callers[i].pc.Waiting? && ev == Step(i)
    && var req, x := s.callers[i].req, s.At(s.callers[i].end);
      (req.user && x.user && heard) || (req.latentUser && x.latent) || (req.init && x.initial)
  }

  /** After the event: has a signal been delivered on its end since caller i armed? */
  predicate Hears(s: State, ev: Event, i: nat, heard: bool) {
    i < |s.callers| && s.callers[i].pc.Waiting? && (heard || Delivers(s, ev, s.callers[i].end))
  }

  /** Somewhere along the schedule caller i finds what it asked for. */
  predicate FindsSome(s: State, schedule: seq<Event>, i: nat, heard: bool)
    decreases |schedule|
  {
    schedule != [] && (Finds(s, schedule[0], i, heard) || FindsSome(Do(s, schedule[0]), schedule[1..], i, Hears(s, schedule[0], i, heard)))
  }

  // ----- a report has its cause -----

  /** Caller i has found nothing so far: if it has left its wait, then for another reason, and it will not report a signal. */
  predicate Unfound(s: State, i: nat, heard: bool) {
    && i < |s.callers|
    && match s.callers[i].pc
       case Waiting => s.At(s.callers[i].end).user ==> heard
       case ClearLatent => s.broken || s.callers[i].timedOut
       case Recheck => s.broken || s.callers[i].timedOut
       case Leave(r) => r != Signalled || s.callers[i].timedOut
       case Done(r) => r != Signalled || s.callers[i].timedOut
       case _ => true
  }

  lemma UnfoundOwn(s: State, i: nat, heard: bool)
    requires Unfound(s, i, heard) && !Finds(s, Step(i), i, heard)
    ensures Unfound(Do(s, Step(i)), i, Hears(s, Step(i), i, heard))
  {
    var ok := Unfound(Do(s, Step(i)), i, Hears(s, Step(i), i, heard));
    match s.callers[i].pc
    case Arm => assert ok;
    case Waiting => assert ok;
    case ClearLatent => assert ok;
    case Recheck => assert ok;
    case Leave(_) => assert ok;
    case _ => assert ok;
  }

  lemma UnfoundStays(s: State, ev: Event, i: nat, heard: bool)
    requires Unfound(s, i, heard) && ev != Step(i) && !(ev.Call? && ev.i == i)
    ensures Unfound(Do(s, ev), i, Hears(s, ev, i, heard))
  {
    UserExactly(s, ev, s.callers[i].end);
    if ev.Step? && ev.i < |s.callers| { OneCaller(s, ev.i); }
  }

  lemma {:induction false} UnfoundRun(s: State, schedule: seq<Event>, i: nat, heard: bool)
    requires Unfound(s, i, heard) && NotCalled(schedule, i) && !FindsSome(s, schedule, i, heard)
    ensures i < |Run(s, schedule).callers| && !Reports(Run(s, schedule).callers[i])
    decreases |schedule|
  {
    if schedule != [] {
      if schedule[0] == Step(i) { UnfoundOwn(s, i, heard); } else { UnfoundStays(s, schedule[0], i, heard); }
      UnfoundRun(Do(s, schedule[0]), schedule[1..], i, Hears(s, schedule[0], i, heard));
    }
  }

  /**
    A call that tells its process of a signal had one, of a kind it asked for: a delivery on its own end between its arming and the
    look that ended the wait, a latent signal at that look, or the initial signal. Under any schedule, for any request.
   */
  lemma ReportHasCause(s: State, schedule: seq<Event>, i: nat)
    requires i < |s.callers| && (s.callers[i].pc.Entry? || s.callers[i].pc.Gate? || s.callers[i].pc.Arm?) && NotCalled(schedule, i)
    requires i < |Run(s, schedule).callers| && Reports(Run(s, schedule).callers[i])
    ensures FindsSome(s, schedule, i, false)
  {
    if !FindsSome(s, schedule, i, false) { UnfoundRun(s, schedule, i, false); }
  }

  // ----- a wait ends exactly when the caller finds what it asked for -----

  predicate NotGivenUp(schedule: seq<Event>, i: nat) {
    forall k :: 0 <= k < |schedule| ==> !(schedule[k].GiveUp? && schedule[k].i == i)
  }

  predicate StillIn(s: State, i: nat, heard: bool) {
    i < |s.callers| && (s.callers[i].pc.Arm? || (s.callers[i].pc.Waiting? && (s.At(s.callers[i].end).user ==> heard)))
  }

  predicate WentOut(s: State, i: nat) {
    && i < |s.callers| && !s.callers[i].timedOut
    && match s.callers[i].pc
       case ClearLatent => true
       case Recheck => true
       case Leave(r) => r == Signalled
       case Done(r) => r == Signalled
       case _ => false
  }

  lemma BrokenForGood(s: State, ev: Event)
    requires s.broken
    ensures Do(s, ev).broken
  {
    if ev.Step? && ev.i < |s.callers| { OneCaller(s, ev.i); }
  }

  lemma {:induction false} BrokenRun(s: State, schedule: seq<Event>)
    requires s.broken
    ensures Run(s, schedule).broken
    decreases |schedule|
  {
    if schedule != [] {
      BrokenForGood(s, schedule[0]);
      BrokenRun(Do(s, schedule[0]), schedule[1..]);
    }
  }

  lemma InStep(s: State, ev: Event, i: nat, heard: bool)
    requires StillIn(s, i, heard) && !s.broken && !s.callers[i].timedOut
    requires !(ev.Call? && ev.i == i) && !(ev.GiveUp? && ev.i == i)
    ensures if Finds(s, ev, i, heard) then WentOut(Do(s, ev), i)
            else StillIn(Do(s, ev), i, Hears(s, ev, i, heard)) && !Do(s, ev).callers[i].timedOut
  {
    UserExactly(s, ev, s.callers[i].end);
    if ev.Step? && ev.i < |s.callers| { OneCaller(s, ev.i); }
  }

  lemma OutStep(s: State, ev: Event, i: nat)
    requires WentOut(s, i) && !s.broken && !(ev.Call? && ev.i == i)
    ensures WentOut(Do(s, ev), i)
  {
    if ev.Step? && ev.i < |s.callers| { OneCaller(s, ev.i); }
  }

  lemma {:induction false} OutRun(s: State, schedule: seq<Event>, i: nat)
    requires WentOut(s, i) && NotCalled(schedule, i) && !Run(s, schedule).broken
    ensures WentOut(Run(s, schedule), i)
    decreases |schedule|
  {
    if s.broken { BrokenRun(s, schedule); }
    if schedule != [] {
      OutStep(s, schedule[0], i);
      OutRun(Do(s, schedule[0]), schedule[1..], i);
    }
  }

  lemma {:induction false} InRun(s: State, schedule: seq<Event>, i: nat, heard: bool)
    requires StillIn(s, i, heard) && !s.callers[i].timedOut && NotCalled(schedule, i) && NotGivenUp(schedule, i) && !Run(s, schedule).broken
    ensures if FindsSome(s, schedule, i, heard) then WentOut(Run(s, schedule), i)
            else exists h :: StillIn(Run(s, schedule), i, h)
    decreases |schedule|
  {
    if s.broken { BrokenRun(s, schedule); }
    if schedule == [] {
      assert StillIn(Run(s, schedule), i, heard);
    } else {
      var ev := schedule[0];
      InStep(s, ev, i, heard);
      if Finds(s, ev, i, heard) {
        OutRun(Do(s, ev), schedule[1..], i);
      } else {
        InRun(Do(s, ev), schedule[1..], i, Hears(s, ev, i, heard));
      }
    }
  }

  /**
    On a pipe that stays whole a call that is neither interrupted nor out of time leaves its wait exactly when it finds what it asked
    for, whatever other signals come; once it has ended it reports it.
   */
  lemma WaitEndsExactly(s: State, schedule: seq<Event>, i: nat)
    requires i < |s.callers| && s.callers[i].pc.Arm? && !s.callers[i].timedOut
    requires NotCalled(schedule, i) && NotGivenUp(schedule, i) && !Run(s, schedule).broken
    ensures var t := Run(s, schedule);
      && i < |t.callers|
      && (t.callers[i].pc.Arm? || t.callers[i].pc.Waiting? <==> !FindsSome(s, schedule, i, false))
      && (t.callers[i].pc.Done? ==> Reports(t.callers[i]))
  {
    InRun(s, schedule, i, false);
  }

  // ----- and it finds what has come -----

  /** What caller i waits for has come, and none of the others can take it away. */
  predicate HasCome(s: State, i: nat)
    requires i < |s.callers|
  {
    var req, x := s.callers[i].req, s.At(s.callers[i].end);
    s.broken || (req.init && x.initial) || (req.latentUser && x.latent && OnlyTakerIs(s, i)) || (req.user && x.user && AloneOnItsEnd(s, i))
  }

  function ToEnd(pc: Pc): nat {
    match pc
    case Waiting => 4
    case ClearLatent => 3
    case Recheck => 2
    case Leave(_) => 1
    case _ => 0
  }

  predicate OnItsWayOut(s: State, i: nat) {
    && i < |s.callers| && !s.callers[i].timedOut
    && match s.callers[i].pc
       case Waiting => HasCome(s, i)
       case ClearLatent => true
       case Recheck => true
       case Leave(r) => r == Signalled || (r == Epipe && s.broken)
       case Done(r) => r == Signalled || (r == Epipe && s.broken)
       case _ => false
  }

  /** What others may do: no one takes the call's place, and other calls on its end ask for no signals. */
  predicate LetsBe(s: State, ev: Event, i: nat)
    requires i < |s.callers|
  {
    && !(ev.Call? && ev.i == i) && !(ev.GiveUp? && ev.i == i)
    && (ev.Call? && ev.i < |s.callers| && s.callers[ev.i].end == s.callers[i].end ==> !ev.req.user && !ev.req.latentUser)
  }

  lemma WayOutOwn(s: State, i: nat)
    requires OnItsWayOut(s, i)
    ensures var t := Do(s, Step(i)); OnItsWayOut(t, i) && (ToEnd(t.callers[i].pc) < ToEnd(s.callers[i].pc) || s.callers[i].pc.Done?)
  {
    var t := Do(s, Step(i));
    var ok := OnItsWayOut(t, i) && (ToEnd(t.callers[i].pc) < ToEnd(s.callers[i].pc) || s.callers[i].pc.Done?);
    match s.callers[i].pc
    case Waiting => assert ok;
    case ClearLatent => assert ok;
    case Recheck => assert ok;
    case Leave(_) => assert ok;
    case Done(_) => assert ok;
    case _ =>
  }

  lemma WayOutStays(s: State, ev: Event, i: nat)
    requires OnItsWayOut(s, i) && ev != Step(i) && LetsBe(s, ev, i)
    ensures OnItsWayOut(Do(s, ev), i) && Do(s, ev).callers[i].pc == s.callers[i].pc
  {
    var e := s.callers[i].end;
    UserExactly(s, ev, e);
    LatentExactly(s, ev, e);
    if s.broken { BrokenForGood(s, ev); }
    if ev.Step? && ev.i < |s.callers| { OneCaller(s, ev.i); }
  }

  lemma EndsStayPut(s: State, ev: Event)
    ensures |Do(s, ev).callers| == |s.callers| && forall k :: 0 <= k < |s.callers| ==> Do(s, ev).callers[k].end == s.callers[k].end
  {
    if ev.Step? && ev.i < |s.callers| { OneCaller(s, ev.i); }
  }

  /**
    What has come, and cannot be taken by others, ends the wait within four steps of the caller's own, with a report, or with
    EPIPE on a broken pipe.
   */
  lemma {:induction false} SignalEndsWait(s: State, schedule: seq<Event>, i: nat)
    requires OnItsWayOut(s, i) && StepsOf(schedule, i) >= ToEnd(s.callers[i].pc)
    requires forall k :: 0 <= k < |schedule| ==> LetsBe(s, schedule[k], i)
    ensures ToEnd(s.callers[i].pc) <= 4
    ensures var t := Run(s, schedule);
      i < |t.callers| && t.callers[i].pc.Done? && (Reports(t.callers[i]) || (t.callers[i].pc == Done(Epipe) && t.broken))
    decreases |schedule|
  {
    if schedule != [] {
      var ev := schedule[0];
      var t := Do(s, ev);
      assert LetsBe(s, ev, i);
      EndsStayPut(s, ev);
      if ev == Step(i) { WayOutOwn(s, i); } else { WayOutStays(s, ev, i); }
      forall k | 0 <= k < |schedule[1..]| ensures LetsBe(t, schedule[1..][k], i) { assert LetsBe(s, schedule[k + 1], i); }
      SignalEndsWait(t, schedule[1..], i);
    }
  }

  // ----- calls that do not get as far as a wait -----

  /** Caller i is in a call, or at its end; up0 and broken0 are how its instance and the pipe were when it began. */
  predicate Begun(s: State, i: nat, up0: bool, broken0: bool) {
    && i < |s.callers| && (up0 ==> s.At(s.callers[i].end).up) && (broken0 ==> s.broken)
    && match s.callers[i].pc
       case Outside => false
       case Entry => true
       case Leave(r) => BegunResult(r, s.At(s.callers[i].end).up, s.broken, up0, broken0)
       case Done(r) => BegunResult(r, s.At(s.callers[i].end).up, s.broken, up0, broken0)
       case _ => s.At(s.callers[i].end).up && !(up0 && broken0)
  }

  predicate BegunResult(r: Result, up: bool, broken: bool, up0: bool, broken0: bool) {
    if r == NotTty then !up0 else up && (up0 && broken0 ==> r == Epipe) && (r == Epipe ==> broken)
  }

  lemma BegunOwn(s: State, i: nat, up0: bool, broken0: bool)
    requires Begun(s, i, up0, broken0)
    ensures Begun(Do(s, Step(i)), i, up0, broken0)
  {
    var ok := Begun(Do(s, Step(i)), i, up0, broken0);
    match s.callers[i].pc
    case Entry => assert ok;
    case Gate => assert ok;
    case Arm => assert ok;
    case ClearLatent => assert ok;
    case Recheck => assert ok;
    case Leave(_) => assert ok;
    case Done(_) => assert ok;
    case BackOut => assert ok;
    case Waiting => assert ok;
    case Outside =>
  }

  lemma BegunStays(s: State, ev: Event, i: nat, up0: bool, broken0: bool)
    requires Begun(s, i, up0, broken0) && ev != Step(i) && !(ev.Call? && ev.i == i)
    ensures Begun(Do(s, ev), i, up0, broken0)
  {
    if s.broken { BrokenForGood(s, ev); }
    if s.At(s.callers[i].end).up { UpForGood(s, ev, s.callers[i].end); }
    if ev.Step? && ev.i < |s.callers| { OneCaller(s, ev.i); }
  }

  lemma {:induction false} BegunRun(s: State, schedule: seq<Event>, i: nat, up0: bool, broken0: bool)
    requires Begun(s, i, up0, broken0) && NotCalled(schedule, i)
    ensures Begun(Run(s, schedule), i, up0, broken0)
    decreases |schedule|
  {
    if schedule != [] {
      if schedule[0] == Step(i) { BegunOwn(s, i, up0, broken0); } else { BegunStays(s, schedule[0], i, up0, broken0); }
      BegunRun(Do(s, schedule[0]), schedule[1..], i, up0, broken0);
    }
  }

  /**
    ENOTTY comes back only if the instance was not up when the call began, and nothing else does if it is not up at the end. EPIPE comes back
    if it was up and the pipe broken at the beginning, and only if it is broken at the end. For any request, over any schedule.
   */
  lemma RefusedExactly(s: State, i: nat, req: Request, schedule: seq<Event>)
    requires i < |s.callers| && (s.callers[i].pc.Outside? || s.callers[i].pc.Done?) && NotCalled(schedule, i)
    requires var t := Run(Do(s, Call(i, req)), schedule); i < |t.callers| && t.callers[i].pc.Done?
    ensures var t := Run(Do(s, Call(i, req)), schedule);
      var e, r := t.callers[i].end, t.callers[i].pc.r;
      && (r == NotTty ==> !s.At(s.callers[i].end).up) && (!t.At(e).up ==> r == NotTty)
      && (s.At(s.callers[i].end).up && s.broken ==> r == Epipe) && (r == Epipe ==> t.broken)
  {
    BegunRun(Do(s, Call(i, req)), schedule, i, s.At(s.callers[i].end).up, s.broken);
  }
}
