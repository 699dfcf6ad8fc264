/**
  Who is woken: a signal, once decided on, arrives for good; a flush and a transfer's looks at the peer's SLEEPING bit decide on one
  whenever the peer sleeps.
  (xen_shm_pipe.c:618-643, 771-794, 929-945)
 */
module ProtocolSignals {
  import opened Protocol
  import opened ProtocolInvariant
  import opened ProtocolTheorems

  /** The next step signals the peer. */
  predicate AboutToSignal(pc: Pc) { pc.FlushSignal? || pc == Check(FinalSignal) || pc == Check(MidSignal) || pc == Settle(WakePeer) }

  /** The peer has been signalled with p published, or the pipe is broken. */
  predicate Signalled(s: State, r: Role, p: int) { s.broken || s.Peer(r).mark >= p }

  lemma SignalledFoundNoSleeper(t: State, r: Role, p: int)
    requires Inv(t) && Signalled(t, r, p)
    ensures FastAsleep(t, r.Other()) ==> p <= UsedUp(t, r.Other())
  {
    if FastAsleep(t, r.Other()) { SleeperUsedItsMark(t, r.Other()); }
  }

  lemma {:induction false} BrokenForGood(s: State, schedule: seq<Event>)
    requires Inv(s) && s.broken
    ensures Run(s, schedule).broken
    decreases |schedule|
  {
    if schedule != [] {
      StepInv(s, schedule[0].r, schedule[0].c);
      DoSteps(s, schedule[0].r, schedule[0].c);
      BrokenForGood(Do(s, schedule[0].r, schedule[0].c), schedule[1..]);
    }
  }

  lemma SignalledForGood(s: State, r: Role, p: int, schedule: seq<Event>)
    requires Inv(s) && Signalled(s, r, p)
    ensures Inv(Run(s, schedule)) && Signalled(Run(s, schedule), r, p)
  {
    RunInv(s, schedule);
    if s.broken { BrokenForGood(s, schedule); } else { MarksGrow(s, schedule, r.Other()); }
  }

  lemma SignalStep(s: State, r: Role, e: Event)
    requires Inv(s) && AboutToSignal(s.Me(r).pc)
    ensures var t := Do(s, e.r, e.c);
      if OwnStep(e, r) then Signalled(t, r, s.Pub(r)) else AboutToSignal(t.Me(r).pc) && t.Pub(r) == s.Pub(r)
  {
    DoSteps(s, e.r, e.c);
    if OwnStep(e, r) && !e.c.Die? { SignalIsSent(s, r, e.c); }
  }

  lemma SignalIsSent(s: State, r: Role, c: Choice)
    requires Shape(s) && AboutToSignal(s.Me(r).pc) && !c.Deliver? && !c.Die?
    ensures Signalled(Do(s, r, c), r, s.Pub(r))
  {
  }

  /** What is about to be sent is sent with the end's next step, and leaves its mark for good. */
  lemma {:induction false} SignalArrives(s: State, r: Role, schedule: seq<Event>)
    requires Inv(s) && AboutToSignal(s.Me(r).pc) && OwnSteps(schedule, r) >= 1
    ensures Inv(Run(s, schedule)) && Signalled(Run(s, schedule), r, s.Pub(r))
    decreases |schedule|
  {
    var e := schedule[0];
    SignalStep(s, r, e);
    StepInv(s, e.r, e.c);
    if OwnStep(e, r) { SignalledForGood(Do(s, e.r, e.c), r, s.Pub(r), schedule[1..]); } else { SignalArrives(Do(s, e.r, e.c), r, schedule[1..]); }
  }

  // ----- flush -----

  lemma {:induction false} ClosedForGood(s: State, q: Role, schedule: seq<Event>)
    requires Inv(s) && s.Me(q).flags.closed
    ensures Inv(Run(s, schedule)) && Run(s, schedule).Me(q).flags.closed
    decreases |schedule|
  {
    if schedule != [] {
      StepInv(s, schedule[0].r, schedule[0].c);
      StepSummed(s, schedule[0].r, schedule[0].c);
      ClosedForGood(Do(s, schedule[0].r, schedule[0].c), q, schedule[1..]);
    }
  }

  /** A closed end is not in await. */
  lemma ClosedIsAwake(t: State, q: Role)
    requires Inv(t) && t.Me(q).flags.closed
    ensures !FastAsleep(t, q)
  {
    assert FlagsOk(t.Me(q));
  }

  /** What a flush does about its peer, with its first step. */
  lemma FlushDecides(s: State, r: Role, c: Choice)
    requires Inv(s) && s.Me(r).pc.FlushCheck? && !c.Deliver? && !c.Die?
    ensures var t := Do(s, r, c);
      && t.Pub(r) == s.Pub(r) && t.Peer(r) == s.Peer(r)
      && (if s.Peer(r).flags.closed then !AboutToSignal(t.Me(r).pc) else AboutToSignal(t.Me(r).pc))
  {
    StepAlone(s, r, c);
  }

  /** A step with no effect outside of its end. */
  lemma StepAlone(s: State, r: Role, c: Choice)
    requires Shape(s) && EffectOf(r, c, s.Me(r), s.Seen(r)).Nothing?
    ensures var t := Do(s, r, c);
      t.Me(r) == Next(r, c, s.Me(r), s.Seen(r)) && t.Peer(r) == s.Peer(r) && t.d == s.d && t.broken == s.broken
  {
  }

  lemma FlushWaits(s: State, r: Role, e: Event)
    requires Inv(s) && s.Me(r).pc.FlushCheck? && (!OwnStep(e, r) || e.c.Die?)
    ensures var t := Do(s, e.r, e.c); t.Pub(r) == s.Pub(r) && (if OwnStep(e, r) then t.broken else t.Me(r).pc.FlushCheck?)
  {
    DoSteps(s, e.r, e.c);
  }

  lemma {:induction false} FlushRun(s: State, r: Role, schedule: seq<Event>)
    requires Inv(s) && s.Me(r).pc.FlushCheck? && OwnSteps(schedule, r) >= 2
    ensures var t := Run(s, schedule); Inv(t) && (t.Peer(r).flags.closed || Signalled(t, r, s.Pub(r)))
    decreases |schedule|
  {
    var e := schedule[0];
    var t := Do(s, e.r, e.c);
    StepInv(s, e.r, e.c);
    if OwnStep(e, r) && !e.c.Die? { FlushDecides(s, r, e.c); } else { FlushWaits(s, r, e); }
    if !OwnStep(e, r) {
      FlushRun(t, r, schedule[1..]);
    } else if e.c.Die? {
      SignalledForGood(t, r, s.Pub(r), schedule[1..]);
    } else if s.Peer(r).flags.closed {
      ClosedForGood(t, r.Other(), schedule[1..]);
    } else {
      SignalArrives(t, r, schedule[1..]);
    }
  }

  lemma FlushBegins(s: State, r: Role)
    requires Inv(s) && s.Me(r).pc.Idle?
    ensures var t := Do(s, r, BeginFlush); Inv(t) && t.Me(r).pc.FlushCheck? && t.Pub(r) == s.Pub(r)
  {
    StepInv(s, r, BeginFlush);
  }

  /**
    Flush, the whole call: once r has taken its two steps, its peer is never found asleep for good, under any schedule, before it has
    used up everything that r had published when it called.
   */
  lemma FlushGuarantee(s: State, r: Role, schedule: seq<Event>)
    requires Reachable(s) && s.Me(r).pc.Idle? && OwnSteps(schedule, r) >= 2
    ensures var t := Run(Do(s, r, BeginFlush), schedule);
      FastAsleep(t, r.Other()) ==> s.Pub(r) <= UsedUp(t, r.Other())
  {
    ReachableInv(s);
    FlushBegins(s, r);
    FlushRun(Do(s, r, BeginFlush), r, schedule);
    var t := Run(Do(s, r, BeginFlush), schedule);
    if t.Peer(r).flags.closed { ClosedIsAwake(t, r.Other()); } else { SignalledFoundNoSleeper(t, r, s.Pub(r)); }
  }

  // ----- the looks of a transfer -----

  /** The next step looks at the peer's SLEEPING bit. */
  predicate LooksBack(pc: Pc) { pc == Check(FinalCheck) || pc == Check(MidCheck) }

  lemma LookSide(r: Role, c: Choice, me: Side, v: View)
    requires LooksBack(me.pc) && !c.Deliver? && !c.Die?
    ensures EffectOf(r, c, me, v).Nothing? && (AboutToSignal(Next(r, c, me, v).pc) <==> v.peerFlags.sleeping)
    ensures me.pc == Check(FinalCheck) ==> Next(r, c, me, v).saw == v.peerFlags.sleeping
  {
    assert Next(r, c, me, v) == NextCheck(me, v, me.pc.y);
  }

  lemma LookDecides(s: State, r: Role, c: Choice)
    requires Inv(s) && LooksBack(s.Me(r).pc) && !c.Deliver? && !c.Die?
    ensures var t := Do(s, r, c);
      && Inv(t) && t.Peer(r) == s.Peer(r) && t.Pub(r) == s.Pub(r) && t.broken == s.broken
      && (AboutToSignal(t.Me(r).pc) <==> s.Peer(r).flags.sleeping)
      && (s.Me(r).pc == Check(FinalCheck) ==> t.Me(r).saw == s.Peer(r).flags.sleeping)
  {
    StepInv(s, r, c);
    LookSide(r, c, s.Me(r), s.Seen(r));
    StepAlone(s, r, c);
  }

  /**
    A look that finds the peer's SLEEPING set is as good as a flush: once the end has taken its next step, the peer is never found
    asleep for good before it has used up what was published at the look. A look that finds it clear sends nothing. The history `saw` is what the last look
    of a transfer found.
   */
  lemma LookGuarantee(s: State, r: Role, schedule: seq<Event>)
    requires Reachable(s) && LooksBack(s.Me(r).pc) && OwnSteps(schedule, r) >= 1
    ensures AboutToSignal(Do(s, r, Go).Me(r).pc) <==> s.Peer(r).flags.sleeping
    ensures s.Me(r).pc == Check(FinalCheck) ==> Do(s, r, Go).Me(r).saw == s.Peer(r).flags.sleeping
    ensures var t := Run(Do(s, r, Go), schedule);
      s.Peer(r).flags.sleeping && FastAsleep(t, r.Other()) ==> s.Pub(r) <= UsedUp(t, r.Other())
  {
    ReachableInv(s);
    LookDecides(s, r, Go);
    if s.Peer(r).flags.sleeping {
      SignalArrives(Do(s, r, Go), r, schedule);
      SignalledFoundNoSleeper(Run(Do(s, r, Go), schedule), r, s.Pub(r));
    }
  }

  predicate InTransfer(pc: Pc) { pc.Copy? || pc.Check? }

  lemma TransferSide(r: Role, c: Choice, me: Side, v: View)
    requires InTransfer(me.pc) && me.pc != Check(FinalSignal) && v.peerFlags.sleeping && !c.Die?
    ensures InTransfer(Next(r, c, me, v).pc)
  {
    if !c.Deliver? {
      if me.pc.Copy? { CopyGoesOn(c, me, v); } else { CheckGoesOn(me, v); }
    }
  }

  lemma CopyGoesOn(c: Choice, me: Side, v: View)
    requires me.pc.Copy?
    ensures InTransfer(NextCopy(c, me, v, me.pc.x).pc)
  {
  }

  lemma CheckGoesOn(me: Side, v: View)
    requires me.pc.Check? && !me.pc.y.FinalSignal? && v.peerFlags.sleeping
    ensures InTransfer(NextCheck(me, v, me.pc.y).pc)
  {
  }

  lemma TransferGoesOn(s: State, r: Role, c: Choice)
    requires Inv(s) && InTransfer(s.Me(r).pc) && FastAsleep(s, r.Other()) && !c.Die?
    ensures var t := Do(s, r, c); Inv(t) && (InTransfer(t.Me(r).pc) || !FastAsleep(t, r.Other()))
  {
    StepInv(s, r, c);
    DoSteps(s, r, c);
    if s.Me(r).pc == Check(FinalSignal) {
      if !c.Deliver? { SignalWakes(s, r, c); }
    } else {
      TransferSide(r, c, s.Me(r), s.Seen(r));
    }
  }

  lemma SignalWakes(s: State, r: Role, c: Choice)
    requires Shape(s) && AboutToSignal(s.Me(r).pc) && !s.broken && !c.Deliver? && !c.Die?
    ensures Do(s, r, c).Peer(r).inflight
  {
  }

  /** A sleeper does not move, nor does anything it does move the end that transfers. */
  lemma SleeperStays(s: State, r: Role, e: Event)
    requires Inv(s) && InTransfer(s.Me(r).pc) && FastAsleep(s, r.Other()) && e.r != r && Undisturbed(e, r)
    ensures var t := Do(s, e.r, e.c); Inv(t) && InTransfer(t.Me(r).pc) && FastAsleep(t, r.Other())
  {
    StepInv(s, e.r, e.c);
    DoSteps(s, e.r, e.c);
  }

  /**
    An end that comes to the end of a transfer while its peer sleeps has signalled it: over any schedule that kills neither end and
    does not interrupt the sleeper, there is a moment before the return at which an event is on its way, or it has woken.
   */
  lemma {:induction false} TransferWakesSleeper(s: State, r: Role, schedule: seq<Event>) returns (k: nat)
    requires Inv(s) && InTransfer(s.Me(r).pc) && FastAsleep(s, r.Other()) && Calm(schedule, r)
    requires !InTransfer(Run(s, schedule).Me(r).pc)
    ensures k <= |schedule| && !FastAsleep(Run(s, schedule[..k]), r.Other())
    decreases |schedule|
  {
    var e := schedule[0];
    var t := Do(s, e.r, e.c);
    CalmTail(schedule, r);
    if e.r == r { TransferGoesOn(s, r, e.c); } else { SleeperStays(s, r, e); }
    var j := 0;
    if FastAsleep(t, r.Other()) { j := TransferWakesSleeper(t, r, schedule[1..]); } else { assert Run(t, schedule[1..][..0]) == t; }
    k := j + 1;
    RunFirst(s, schedule, k);
  }
}
