/**
  The pipe's two uses of the await call. Its sleep is the sleep of the machine in Protocol, run for run, whatever other callers,
  the peer and the handler do; its probe tells a broken pipe.
  (xen_shm_pipe.c:302-329; xen_shm.c:232-252, 878-976)
 */
module AwaitRefinement {
  import opened Await
  import opened AwaitTheorems
  import P = Protocol

  /** __xen_shm_pipe_wait_signal */
  const SLEEP := Request(false, false, false, true, false)

  /** __xen_shm_pipe_prone_for_epipe */
  const PROBE := Request(false, true, false, false, true)

  // ----- sleep -----

  /** The call's place as the pipe's machine has it. */
  function PipePc(pc: Pc): P.Pc {
    match pc
    case Outside => P.Doze(P.SetSleeping)
    case Entry => P.Doze(P.AwaitEntry)
    case ClearLatent => P.Wake(P.ClearLatent)
    case Recheck => P.Wake(P.BrokenCheck)
    case Leave(r) => P.Wake(P.WakeUp(PipeResult(r)))
    case Done(r) => P.Wake(P.WakeUp(PipeResult(r)))
    case _ => P.Doze(P.Blocked)
  }

  function PipeResult(r: Result): P.Await {
    if r == Signalled then P.Signalled else if r == Epipe then P.Epipe else P.Interrupted
  }

  /** An end of the pipe's machine, and whether the pipe is broken. */
  datatype Sleeper = Sleeper(me: P.Side, broken: bool)

  /** It sees what caller i is doing, and the events and signals of i's instance. */
  predicate Tracks(p: Sleeper, s: State, i: nat)
    requires i < |s.callers|
  {
    var x := s.At(s.callers[i].end);
    p.me.pc == PipePc(s.callers[i].pc) && p.me.latent == x.latent && p.me.inflight == x.inflight && p.broken == s.broken
  }

  /** What a step of the ioctls, the handlers and the processes is for the pipe's machine. */
  datatype Move =
    | Stay
    | Own(c: P.Choice)     // a step of this end
    | PeerSignals          // the other end's effect SignalPeer
    | PeerBreaks           // the other end's effect BreakPipe

  function MoveOf(s: State, ev: Event, i: nat): Move
    requires i < |s.callers|
  {
    var c := s.callers[i];
    match ev
    case Step(k) =>
      if k == i && (c.pc.Entry? || c.pc.Waiting? || c.pc.ClearLatent? || c.pc.Recheck?) then Own(P.Go) else Stay
    case GiveUp(k, interrupted) => if k == i && c.pc.Waiting? && interrupted then Own(P.Interrupt) else Stay
    case Handle(e) => if e == c.end then Own(P.Deliver) else Stay
    case Ssig(e) => if e != c.end then PeerSignals else Stay
    case Close(e) => if e != c.end then PeerBreaks else Stay
    case _ => Stay
  }

  const UNSEEN := P.View(P.NO_FLAGS, false, false, false, 0, 0)

  function Makes(r: P.Role, p: Sleeper, m: Move): Sleeper {
    match m
    case Stay => p
    case Own(c) => p.(me := P.Next(r, c, p.me, UNSEEN.(broken := p.broken)))
    case PeerSignals => if p.broken then p else p.(me := p.me.(inflight := true))
    case PeerBreaks => Sleeper(p.me.(inflight := true), true)
  }

  /** The peer's two moves are the effects that Protocol gives them. */
  lemma MovesAreEffects(s: P.State, r: P.Role)
    requires s.d.n > 1 && |s.d.cells| == s.d.n
    ensures var t := P.Apply(s, r.Other(), P.SignalPeer); var p := Makes(r, Sleeper(s.Me(r), s.broken), PeerSignals);
      t.broken == p.broken && t.Me(r) == p.me.(mark := t.Me(r).mark)
    ensures var t := P.Apply(s, r.Other(), P.BreakPipe); Sleeper(t.Me(r), t.broken) == Makes(r, Sleeper(s.Me(r), s.broken), PeerBreaks)
  {
  }

  /** In these states of an end nothing but the broken pipe matters of what it sees. */
  lemma OnlyBrokenSeen(r: P.Role, c: P.Choice, me: P.Side, v: P.View)
    requires me.pc.Doze? || me.pc.Wake?
    ensures P.Next(r, c, me, v) == P.Next(r, c, me, UNSEEN.(broken := v.broken))
  {
  }

  /** Caller i sleeps for the pipe, after the handshake; no other caller on its end takes signals. */
  predicate Sleeps(s: State, i: nat) {
    && i < |s.callers| && s.callers[i].req == SLEEP && OnlyTakerIs(s, i)
    && !s.callers[i].pc.Outside? && !s.callers[i].pc.Gate? && !s.callers[i].pc.BackOut?
    && s.offerer.up && s.receiver.up && s.offerer.initial && s.receiver.initial
  }

  /** The call is not made anew, its own descriptor is not closed under it, and other calls on its end take no signals. */
  predicate Allowed(s: State, ev: Event, i: nat)
    requires i < |s.callers|
  {
    && (ev.Call? ==> ev.i != i) && ev != Close(s.callers[i].end)
    && (ev.Call? && ev.i < |s.callers| && s.callers[ev.i].end == s.callers[i].end ==> !ev.req.TakesSignals())
  }

  lemma OwnStepRefined(s: State, i: nat, r: P.Role, p: Sleeper)
    requires Sleeps(s, i) && Tracks(p, s, i)
    ensures var t := Do(s, Step(i)); i < |t.callers| && Tracks(Makes(r, p, MoveOf(s, Step(i), i)), t, i)
  {
    OneCaller(s, i);
    SleeperSteps(s, i);
    if MoveOf(s, Step(i), i).Own? { MachineSteps(s.callers[i].pc, r, p.me, p.broken); }
  }

  /** Where a step takes a caller that sleeps for the pipe. */
  function SleeperNext(pc: Pc, latent: bool, broken: bool): Pc {
    match pc
    case Entry => if broken then Done(Epipe) else Arm
    case Arm => Waiting
    case Waiting => if latent || broken then ClearLatent else Waiting
    case ClearLatent => Recheck
    case Recheck => Leave(if broken then Epipe else Signalled)
    case Leave(r) => Done(r)
    case _ => pc
  }

  lemma SleeperSteps(s: State, i: nat)
    requires Sleeps(s, i)
    ensures var t, c, x := Do(s, Step(i)), s.callers[i], s.At(s.callers[i].end);
      && i < |t.callers| && t.callers[i] == c.(pc := SleeperNext(c.pc, x.latent, s.broken)) && t.broken == s.broken
      && t.At(c.end).latent == (x.latent && !c.pc.ClearLatent?) && t.At(c.end).inflight == x.inflight
  {
  }

  lemma MachineSteps(pc: Pc, r: P.Role, me: P.Side, broken: bool)
    requires me.pc == PipePc(pc) && (pc.Entry? || pc.Waiting? || pc.ClearLatent? || pc.Recheck?)
    ensures var n := P.Next(r, P.Go, me, UNSEEN.(broken := broken));
      && n.pc == PipePc(SleeperNext(pc, me.latent, broken)) && n.latent == (me.latent && !pc.ClearLatent?)
      && n.inflight == me.inflight
  {
  }

  /** A step of another caller: the sleeper and its instance's latent bit are as they were. */
  lemma OthersStep(s: State, i: nat, k: nat)
    requires Sleeps(s, i) && k < |s.callers| && k != i
    ensures var t, e := Do(s, Step(k)), s.callers[i].end;
      i < |t.callers| && t.callers[i] == s.callers[i] && t.broken == s.broken
      && t.At(e).latent == s.At(e).latent && t.At(e).inflight == s.At(e).inflight
  {
    OneCaller(s, k);
    LatentExactly(s, Step(k), s.callers[i].end);
  }

  lemma EventRefined(s: State, ev: Event, i: nat, r: P.Role, p: Sleeper)
    requires Sleeps(s, i) && Tracks(p, s, i) && Allowed(s, ev, i)
    ensures var t := Do(s, ev); i < |t.callers| && Tracks(Makes(r, p, MoveOf(s, ev, i)), t, i)
  {
    match ev
    case Step(k) =>
      if k == i { OwnStepRefined(s, i, r, p); } else if k < |s.callers| { OthersStep(s, i, k); }
    case Handle(e) => HandlerRefined(s, e, i, r, p);
    case GiveUp(k, interrupted) => InterruptRefined(s, k, interrupted, i, r, p);
    case Call(k, req) =>
    case _ => PeerRefined(s, ev, i, r, p);
  }

  /** An interruption of the call is the machine's; the call has no timeout to run out. */
  lemma InterruptRefined(s: State, k: nat, interrupted: bool, i: nat, r: P.Role, p: Sleeper)
    requires Sleeps(s, i) && Tracks(p, s, i)
    ensures var ev := GiveUp(k, interrupted); var t := Do(s, ev);
      i < |t.callers| && Tracks(Makes(r, p, MoveOf(s, ev, i)), t, i)
  {
  }

  /** The signal ioctl, release and opening, on either end. */
  lemma PeerRefined(s: State, ev: Event, i: nat, r: P.Role, p: Sleeper)
    requires Sleeps(s, i) && Tracks(p, s, i) && Allowed(s, ev, i) && (ev.Ssig? || ev.Close? || ev.Open?)
    ensures var t := Do(s, ev); i < |t.callers| && Tracks(Makes(r, p, MoveOf(s, ev, i)), t, i)
  {
  }

  lemma HandlerRefined(s: State, e: End, i: nat, r: P.Role, p: Sleeper)
    requires Sleeps(s, i) && Tracks(p, s, i)
    ensures var t := Do(s, Handle(e)); i < |t.callers| && Tracks(Makes(r, p, MoveOf(s, Handle(e), i)), t, i)
  {
  }

  lemma SleepsOn(s: State, ev: Event, i: nat)
    requires Sleeps(s, i) && Allowed(s, ev, i)
    ensures var t := Do(s, ev);
      && Sleeps(t, i) && |t.callers| == |s.callers| && forall k :: 0 <= k < |s.callers| ==> t.callers[k].end == s.callers[k].end
  {
    HandsStay(s, ev);
    TakersStay(s, ev, i);
    if ev == Step(i) { SleeperSteps(s, i); } else if ev.Step? && ev.i < |s.callers| { OneCaller(s, ev.i); }
  }

  predicate HandsDone(s: State) {
    var whole := s.offerer.up && s.receiver.up && s.offerer.initial && s.receiver.initial;
    whole
  }

  lemma HandsStay(s: State, ev: Event)
    requires HandsDone(s)
    ensures HandsDone(Do(s, ev))
  {
    var done := HandsDone(Do(s, ev));
    match ev
    case Step(i) => if i < |s.callers| { HandsStayInStep(s, i); }
    case Handle(e) => assert done;
    case Close(e) => assert done;
    case Ssig(e) => assert done;
    case _ => assert done;
  }

  lemma HandsStayInStep(s: State, i: nat)
    requires HandsDone(s) && i < |s.callers|
    ensures HandsDone(Advance(s, i))
  {
    var done := HandsDone(Advance(s, i));
    match s.callers[i].pc
    case Arm => assert done;
    case ClearLatent => assert done;
    case _ => assert Advance(s, i).offerer == s.offerer && Advance(s, i).receiver == s.receiver;
  }

  lemma TakersStay(s: State, ev: Event, i: nat)
    requires i < |s.callers| && OnlyTakerIs(s, i) && Allowed(s, ev, i)
    ensures var t := Do(s, ev);
      && |t.callers| == |s.callers| && OnlyTakerIs(t, i) && forall k :: 0 <= k < |s.callers| ==> t.callers[k].end == s.callers[k].end
  {
    if ev.Step? && ev.i < |s.callers| { OneCaller(s, ev.i); }
  }

  /** The pipe's machine following a schedule of everything else. */
  function Follow(r: P.Role, p: Sleeper, s: State, schedule: seq<Event>, i: nat): Sleeper
    requires i < |s.callers|
    decreases |schedule|
  {
    if schedule == [] || i >= |Do(s, schedule[0]).callers| then p
    else Follow(r, Makes(r, p, MoveOf(s, schedule[0], i)), Do(s, schedule[0]), schedule[1..], i)
  }

  /**
    The pipe's sleeping call under any schedule, with any number of other callers: what the kernel does with it is at every moment what
    the pipe's machine does.
   */
  lemma {:induction false} SleepRefined(s: State, schedule: seq<Event>, i: nat, r: P.Role, p: Sleeper)
    requires Sleeps(s, i) && Tracks(p, s, i)
    requires forall k :: 0 <= k < |schedule| ==> Allowed(s, schedule[k], i)
    ensures i < |Run(s, schedule).callers| && Tracks(Follow(r, p, s, schedule, i), Run(s, schedule), i)
    decreases |schedule|
  {
    if schedule != [] {
      var ev := schedule[0];
      var t := Do(s, ev);
      assert Allowed(s, ev, i);
      EventRefined(s, ev, i, r, p);
      SleepsOn(s, ev, i);
      forall k | 0 <= k < |schedule[1..]| ensures Allowed(t, schedule[1..][k], i) { assert Allowed(s, schedule[k + 1], i); }
      SleepRefined(t, schedule[1..], i, r, Makes(r, p, MoveOf(s, ev, i)));
    }
  }

  // ----- probe -----

  /** Caller i is in a probe that began when the pipe was broken, or was not; what its result will rest on. */
  predicate Probes(s: State, i: nat, began: bool) {
    && i < |s.callers| && s.callers[i].req == PROBE && s.At(s.callers[i].end).up && s.At(s.callers[i].end).initial
    && (began ==> s.broken && (s.callers[i].pc.Entry? || s.callers[i].pc == Done(Epipe)))
    && match s.callers[i].pc
       case Outside => false
       case Gate => false
       case BackOut => false
       case Leave(r) => r == Signalled || r == Interrupted || (r == Epipe && s.broken)
       case Done(r) => r == Signalled || r == Interrupted || (r == Epipe && s.broken)
       case _ => true
  }

  function ToGo(pc: Pc): nat {
    match pc
    case Entry => 6
    case Arm => 5
    case Waiting => 4
    case ClearLatent => 3
    case Recheck => 2
    case Leave(_) => 1
    case _ => 0
  }

  lemma ProbeOwnStep(s: State, i: nat, began: bool)
    requires Probes(s, i, began)
    ensures var t := Do(s, Step(i));
      && Probes(t, i, began) && !Takes(s, Step(i), s.callers[i].end)
      && (ToGo(s.callers[i].pc) > 0 ==> ToGo(t.callers[i].pc) < ToGo(s.callers[i].pc))
      && ToGo(t.callers[i].pc) <= ToGo(s.callers[i].pc)
  {
  }

  lemma ProbeStays(s: State, ev: Event, i: nat, began: bool)
    requires Probes(s, i, began) && ev != Step(i) && !(ev.Call? && ev.i == i)
    ensures var t := Do(s, ev); Probes(t, i, began) && ToGo(t.callers[i].pc) <= ToGo(s.callers[i].pc)
  {
    if ev.Step? && ev.i < |s.callers| { OneCaller(s, ev.i); HandStays(s, ev.i, s.callers[i].end); }
  }

  lemma HandStays(s: State, k: nat, e: End)
    requires k < |s.callers|
    ensures Advance(s, k).At(e).up == s.At(e).up && Advance(s, k).At(e).initial == s.At(e).initial
  {
  }

  lemma ProbeStep(s: State, ev: Event, i: nat, began: bool)
    requires Probes(s, i, began) && !(ev.Call? && ev.i == i)
    ensures var t := Do(s, ev);
      && Probes(t, i, began) && !Takes(s, Step(i), s.callers[i].end)
      && ToGo(t.callers[i].pc) <= ToGo(s.callers[i].pc)
      && (StepOf(ev, i) && ToGo(s.callers[i].pc) > 0 ==> ToGo(t.callers[i].pc) < ToGo(s.callers[i].pc))
  {
    if ev == Step(i) { ProbeOwnStep(s, i, began); } else { ProbeStays(s, ev, i, began); }
  }

  lemma {:induction false} ProbeRun(s: State, schedule: seq<Event>, i: nat, began: bool)
    requires Probes(s, i, began) && StepsOf(schedule, i) >= ToGo(s.callers[i].pc)
    requires forall k :: 0 <= k < |schedule| ==> !(schedule[k].Call? && schedule[k].i == i)
    ensures var t := Run(s, schedule); Probes(t, i, began) && t.callers[i].pc.Done?
    decreases |schedule|
  {
    if schedule != [] {
      ProbeStep(s, schedule[0], i, began);
      ProbeRun(Do(s, schedule[0]), schedule[1..], i, began);
    }
  }

  /**
    After the handshake the probe ends within six steps of its own, under any schedule of everything else. It says EPIPE if the pipe was
    broken when it began, and only if it is broken when it has ended. It is never a taker of signals.
   */
  lemma ProbeIsExact(s: State, schedule: seq<Event>, i: nat)
    requires i < |s.callers| && (s.callers[i].pc.Done? || s.callers[i].pc.Outside?)
    requires s.At(s.callers[i].end).up && s.At(s.callers[i].end).initial && StepsOf(schedule, i) >= 6
    requires forall k :: 0 <= k < |schedule| ==> !(schedule[k].Call? && schedule[k].i == i)
    ensures var t := Run(Do(s, Call(i, PROBE)), schedule);
      && i < |t.callers| && t.callers[i].pc.Done? && t.callers[i].req == PROBE && !PROBE.TakesSignals()
      && (s.broken ==> t.callers[i].pc.r == Epipe) && (t.callers[i].pc.r == Epipe ==> t.broken)
  {
    ProbeRun(Do(s, Call(i, PROBE)), schedule, i, s.broken);
  }
}
