/**
  An end with nothing to do beside an idle peer, and what an interrupted sleep leaves behind.
  (xen_shm_pipe.c:331-494)
 */
module ProtocolSleep {
  import opened Protocol
  import opened ProtocolInvariant
  import opened ProtocolTheorems
  import opened ProtocolSignals
  import opened ProtocolCalls

  // ----- an interrupted sleep -----

  /** The way out after an interruption, and how far it goes at most. */
  function OutRank(pc: Pc): nat {
    match pc
    case Wake(k) => if k == WakeUp(Interrupted) then 3 else if k == DropWaiting(Interrupted) then 2 else 0
    case Return(o) => if o == AwaitFailed(Interrupted) then 1 else 0
    case _ => 0
  }

  lemma OutStep(s: State, r: Role, e: Event)
    requires Inv(s) && OutRank(s.Me(r).pc) > 1 && !(e.r == r && e.c.Die?)
    ensures var t := Do(s, e.r, e.c);
      && Inv(t) && 0 < OutRank(t.Me(r).pc) <= OutRank(s.Me(r).pc) && (OwnStep(e, r) ==> OutRank(t.Me(r).pc) < OutRank(s.Me(r).pc))
  {
    if OwnStep(e, r) {
      StepInv(s, e.r, e.c);
      DoSteps(s, e.r, e.c);
      OutSide(r, e.c, s.Me(r), s.Seen(r));
    } else {
      OthersStep(s, r, e);
    }
  }

  lemma OutSide(r: Role, c: Choice, me: Side, v: View)
    requires OutRank(me.pc) > 1 && !c.Deliver? && !c.Die?
    ensures 0 < OutRank(Next(r, c, me, v).pc) < OutRank(me.pc)
  {
    assert Next(r, c, me, v) == NextWake(r, me, v, me.pc.k);
  }

  /** A process interrupted in its sleep comes back with -1 at its second step, under any schedule that does not kill it. */
  lemma InterruptEndsCall(s: State, r: Role, schedule: seq<Event>) returns (k: nat)
    requires Inv(s) && s.Me(r).pc == Doze(Blocked) && NotKilled(schedule, r) && OwnSteps(schedule, r) >= 2
    ensures k <= |schedule| && Run(Do(s, r, Interrupt), schedule[..k]).Me(r).pc == Return(AwaitFailed(Interrupted))
  {
    StepInv(s, r, Interrupt);
    k := GetsOut(Do(s, r, Interrupt), r, schedule);
  }

  lemma {:induction false} GetsOut(s: State, r: Role, schedule: seq<Event>) returns (k: nat)
    requires Inv(s) && OutRank(s.Me(r).pc) > 0 && NotKilled(schedule, r) && OwnSteps(schedule, r) + 1 >= OutRank(s.Me(r).pc)
    ensures k <= |schedule| && Run(s, schedule[..k]).Me(r).pc == Return(AwaitFailed(Interrupted))
    decreases |schedule|
  {
    if OutRank(s.Me(r).pc) == 1 {
      k := 0;
    } else {
      OutStep(s, r, schedule[0]);
      k := GetsOut(Do(s, schedule[0].r, schedule[0].c), r, schedule[1..]);
      k := k + 1;
      RunFirst(s, schedule, k);
    }
  }

  /**
    An interrupted reader: alone, it comes back and is idle again with its own WAITING still set, and the writer's
    cleared, whatever the writer is doing.
   */
  lemma InterruptedReaderSwapsBits(s: State)
    requires Inv(s) && s.reader.pc == Doze(Blocked)
    ensures var t := Alone(Do(s, Reader, Interrupt), Reader, 3);
      && Inv(t) && t.reader.pc.Idle? && t.reader.flags.waiting && !t.reader.flags.active && !t.writer.flags.waiting
      && t.d == s.d && t.writer == s.writer.(flags := s.writer.flags.(waiting := false)) && t.broken == s.broken
  {
    var s1 := Do(s, Reader, Interrupt);
    var s2 := Do(s1, Reader, Go);
    WokenToLeave(s);
    var s3 := Do(s2, Reader, Go);
    BitsSwapped(s2);
    StepInv(s2, Reader, Go);
    StepAlone(s3, Reader, Go);
    StepInv(s3, Reader, Go);
    ThreeSteps(s1, Reader);
  }

  lemma WokenToLeave(s: State)
    requires Inv(s) && s.reader.pc == Doze(Blocked)
    ensures var t := Do(Do(s, Reader, Interrupt), Reader, Go);
      && Inv(t) && t.reader.pc == Wake(DropWaiting(Interrupted)) && t.reader.flags.waiting
      && t.d == s.d && t.writer == s.writer && t.broken == s.broken
  {
    assert s.reader.flags.waiting by { assert WaitingShown(s, Reader) && SnapOk(Reader, s.reader); }
    var s1 := Do(s, Reader, Interrupt);
    StepAlone(s, Reader, Interrupt);
    StepInv(s, Reader, Interrupt);
    assert s1.reader == s.reader.(pc := Wake(WakeUp(Interrupted)));
    StepAlone(s1, Reader, Go);
    StepInv(s1, Reader, Go);
  }

  lemma BitsSwapped(s: State)
    requires Shape(s) && s.reader.pc == Wake(DropWaiting(Interrupted))
    ensures var t := Do(s, Reader, Go);
      && t.reader == s.reader.(pc := Return(AwaitFailed(Interrupted)))
      && t.writer == s.writer.(flags := s.writer.flags.(waiting := false)) && t.d == s.d && t.broken == s.broken
  {
  }

  lemma ThreeSteps(s: State, r: Role)
    requires Shape(s)
    ensures Alone(s, r, 3) == Do(Do(Do(s, r, Go), r, Go), r, Go)
  {
    assert Alone(s, r, 3) == Alone(Do(s, r, Go), r, 2);
    assert Alone(Do(s, r, Go), r, 2) == Alone(Do(Do(s, r, Go), r, Go), r, 1);
    assert Alone(Do(Do(s, r, Go), r, Go), r, 1) == Alone(Do(Do(Do(s, r, Go), r, Go), r, Go), r, 0);
  }

  // ----- nothing to do, beside an idle peer -----

  /** The peer is in no call and the pipe whole; there is nothing to read, or no room. */
  ghost predicate NothingToDo(s: State, r: Role) {
    Inv(s) && s.Peer(r).pc.Idle? && !s.broken && s.Avail(r) == 0
  }

  /** The peer stays idle; no one is killed or interrupted. */
  predicate Quiet(e: Event, r: Role) { if e.r == r then !e.c.Die? && !e.c.Interrupt? else e.c.Deliver? }

  predicate AllQuiet(schedule: seq<Event>, r: Role) {
    forall k :: 0 <= k < |schedule| ==> Quiet(schedule[k], r)
  }

  /** What an end with nothing to do sees of an idle peer. */
  predicate SeesIdle(v: View) {
    v.stuck && !v.broken && !v.peerFlags.closed && !v.peerFlags.sleeping && !v.peerFlags.active
  }

  lemma IdleSeen(s: State, r: Role)
    requires NothingToDo(s, r)
    ensures SeesIdle(s.Seen(r)) && !s.Me(r).sawEpipe && (s.Me(r).pc.Stage() > 0 ==> !s.Me(r).snap.closed)
  {
    StuckMeansNothingAvailable(s, r);
    assert FlagsOk(s.Peer(r)) && BitsOk(r.Other(), s.Peer(r)) && BrokenOk(s, r) && ClosedSeen(s, r);
  }

  /** A wait stays beside the idle peer as long as it lasts. */
  lemma StillNothing(s: State, r: Role, e: Event)
    requires NothingToDo(s, r) && BeforeTransfer(s.Me(r).pc) && Quiet(e, r) && !(s.Me(r).pc.Wake? && s.Me(r).pc.k.DropWaiting?)
    ensures NothingToDo(Do(s, e.r, e.c), r) && Do(s, e.r, e.c).Peer(r).flags.waiting == s.Peer(r).flags.waiting
    ensures OwnStep(e, r) ==> Do(s, e.r, e.c).Me(r) == Next(r, e.c, s.Me(r), s.Seen(r))
    ensures !OwnStep(e, r) ==> Left(s.Me(r), Do(s, e.r, e.c).Me(r))
  {
    StepInv(s, e.r, e.c);
    DoSteps(s, e.r, e.c);
    if !OwnStep(e, r) { OthersStep(s, r, e); }
  }

  /** The snapshot shows a peer that is not in the way of sleep. */
  predicate ShowsIdle(snap: Flags) { !snap.closed && !snap.sleeping && !snap.waiting && !snap.active }

  /** On the way to sleep, perhaps after one round with an older snapshot, and how far it goes at most. */
  function SleepRank(me: Side): (rank: nat)
    ensures rank <= 20
  {
    match me.pc
    case SetActive => 20
    case EntryCheck => 19
    case Look(l) => LookToSleep(l, if ShowsIdle(me.snap) then 0 else 10)
    case Settle(q) => SettleToSleep(q, if ShowsIdle(me.snap) then 0 else 10)
    case Doze(z) => if z.SetSleeping? then 3 else if z.AwaitEntry? then 2 else 1
    case Wake(k) => if k.ClearLatent? then 13 else if k.BrokenCheck? then 12 else if k == WakeUp(Signalled) then 11 else 0
    case _ => 0
  }

  function LookToSleep(l: LookPc, late: nat): (rank: nat)
    requires late <= 10
    ensures rank <= 20
  {
    match l
    case Head => 10
    case Snap => 9
    case SetWaiting => 8 + late
    case Recheck => 7 + late
    case Leave => 0
  }

  function SettleToSleep(q: SettlePc, late: nat): (rank: nat)
    requires late <= 10
    ensures rank <= 20
  {
    match q
    case Closed => 6 + late
    case Probe => 5 + late
    case Choose => 4 + late
    case WakePeer => 13
  }

  lemma LooksToSleep(me: Side, v: View)
    requires me.pc.Look? && SleepRank(me) > 0 && SeesIdle(v) && !v.peerFlags.waiting
    ensures 0 < SleepRank(NextLook(me, v, me.pc.l)) < SleepRank(me)
  {
    var rank := SleepRank(NextLook(me, v, me.pc.l));
    match me.pc.l
    case Head => assert rank == 9;
    case Snap => assert rank == 8;
    case SetWaiting => assert rank == SleepRank(me) - 1;
    case Recheck => assert rank == SleepRank(me) - 1;
    case Leave =>
  }

  lemma SettlesToSleep(r: Role, me: Side, v: View)
    requires me.pc.Settle? && SleepRank(me) > 0 && SeesIdle(v) && !me.sawEpipe && !me.snap.closed
    ensures 0 < SleepRank(NextSettle(r, me, v, me.pc.q)) < SleepRank(me)
  {
    var rank := SleepRank(NextSettle(r, me, v, me.pc.q));
    match me.pc.q
    case Closed => assert 0 < rank < SleepRank(me);
    case Probe => assert rank == SleepRank(me) - 1;
    case Choose => assert 0 < rank < SleepRank(me);
    case WakePeer => assert rank == 10;
  }

  lemma CallsToSleep(r: Role, c: Choice, me: Side, v: View)
    requires (me.pc.SetActive? || me.pc.EntryCheck?) && SeesIdle(v)
    ensures 0 < SleepRank(NextCall(r, c, me, v)) < SleepRank(me)
  {
  }

  lemma DozesToSleep(c: Choice, me: Side, v: View)
    requires me.pc.Doze? && !me.pc.z.Blocked? && SeesIdle(v)
    ensures 0 < SleepRank(NextDoze(c, me, v, me.pc.z)) < SleepRank(me)
  {
  }

  lemma WakesToSleep(r: Role, me: Side, v: View)
    requires me.pc.Wake? && SleepRank(me) > 0 && SeesIdle(v)
    ensures 0 < SleepRank(NextWake(r, me, v, me.pc.k)) < SleepRank(me)
  {
  }

  lemma SleepSide(r: Role, c: Choice, me: Side, v: View)
    requires SleepRank(me) > 1 && SeesIdle(v) && !v.peerFlags.waiting && !me.sawEpipe && (me.pc.Stage() > 0 ==> !me.snap.closed)
    requires !c.Deliver? && !c.Die? && !c.Interrupt?
    ensures 0 < SleepRank(Next(r, c, me, v)) < SleepRank(me)
  {
    match me.pc
    case Look(_) => LooksToSleep(me, v);
    case Settle(_) => if me.pc.q.WakePeer? { assert Next(r, c, me, v) == me.(pc := Look(Head)); } else { SettlesToSleep(r, me, v); }
    case Doze(_) => DozesToSleep(c, me, v);
    case Wake(_) => WakesToSleep(r, me, v);
    case _ => CallsToSleep(r, c, me, v);
  }

  lemma SleepStep(s: State, r: Role, e: Event)
    requires NothingToDo(s, r) && SleepRank(s.Me(r)) > 1 && !s.Peer(r).flags.waiting && Quiet(e, r)
    ensures var t := Do(s, e.r, e.c);
      && NothingToDo(t, r) && !t.Peer(r).flags.waiting && SleepRank(t.Me(r)) > 0
      && SleepRank(t.Me(r)) + (if OwnStep(e, r) then 1 else 0) <= SleepRank(s.Me(r))
  {
    IdleSeen(s, r);
    StillNothing(s, r, e);
    if OwnStep(e, r) { SleepSide(r, e.c, s.Me(r), s.Seen(r)); }
  }

  lemma {:induction false} FallsAsleep(s: State, r: Role, schedule: seq<Event>) returns (k: nat)
    requires NothingToDo(s, r) && SleepRank(s.Me(r)) > 0 && !s.Peer(r).flags.waiting
    requires AllQuiet(schedule, r) && OwnSteps(schedule, r) + 1 >= SleepRank(s.Me(r))
    ensures k <= |schedule| && Run(s, schedule[..k]).Me(r).pc == Doze(Blocked)
    decreases |schedule|
  {
    if SleepRank(s.Me(r)) == 1 {
      k := 0;
    } else {
      SleepStep(s, r, schedule[0]);
      k := FallsAsleep(Do(s, schedule[0].r, schedule[0].c), r, schedule[1..]);
      k := k + 1;
      RunFirst(s, schedule, k);
    }
  }

  /** Spinning: every round's snapshot shows the idle peer's WAITING. */
  predicate Spins(me: Side) {
    match me.pc
    case SetActive => true
    case EntryCheck => true
    case Look(l) => !l.Leave? && (l.Head? || l.Snap? || (me.snap.waiting && !me.snap.sleeping))
    case Settle(q) => !q.WakePeer? && me.snap.waiting && !me.snap.sleeping
    case _ => false
  }

  lemma SpinLook(me: Side, v: View)
    requires me.pc.Look? && Spins(me) && SeesIdle(v) && v.peerFlags.waiting
    ensures Spins(NextLook(me, v, me.pc.l))
  {
  }

  lemma SpinSettle(r: Role, me: Side, v: View)
    requires me.pc.Settle? && Spins(me) && SeesIdle(v) && !me.sawEpipe && !me.snap.closed
    ensures Spins(NextSettle(r, me, v, me.pc.q))
  {
  }

  lemma SpinSide(r: Role, c: Choice, me: Side, v: View)
    requires Spins(me) && SeesIdle(v) && v.peerFlags.waiting && !me.sawEpipe && (me.pc.Stage() > 0 ==> !me.snap.closed)
    requires !c.Deliver? && !c.Die? && !c.Interrupt?
    ensures Spins(Next(r, c, me, v))
  {
    if me.pc.Look? {
      SpinLook(me, v);
    } else if me.pc.Settle? {
      SpinSettle(r, me, v);
    } else {
      assert Next(r, c, me, v) == NextCall(r, c, me, v);
    }
  }

  lemma {:induction false} SpinsOn(s: State, r: Role, schedule: seq<Event>)
    requires NothingToDo(s, r) && Spins(s.Me(r)) && s.Peer(r).flags.waiting && AllQuiet(schedule, r)
    ensures Spins(Run(s, schedule).Me(r))
    decreases |schedule|
  {
    if schedule != [] {
      var e := schedule[0];
      assert Quiet(e, r);
      IdleSeen(s, r);
      StillNothing(s, r, e);
      if OwnStep(e, r) { SpinSide(r, e.c, s.Me(r), s.Seen(r)); }
      SpinsOn(Do(s, e.r, e.c), r, schedule[1..]);
    }
  }

  /** At some moment of the schedule the end is asleep in await. */
  ghost predicate Sleeps(s: State, r: Role, schedule: seq<Event>)
    requires Shape(s)
  {
    exists k :: 0 <= k <= |schedule| && Run(s, schedule[..k]).Me(r).pc == Doze(Blocked)
  }

  /**
    A call with nothing to do, beside a peer in no call, goes to sleep within twenty steps of its own exactly when the peer's WAITING is
    clear. Otherwise, as after the peer was interrupted in a read, it never sleeps, however long it runs: it spins on.
   */
  lemma SleepsExactly(s: State, r: Role, schedule: seq<Event>)
    requires NothingToDo(s, r) && s.Me(r).pc.SetActive? && AllQuiet(schedule, r) && OwnSteps(schedule, r) >= 20
    ensures Sleeps(s, r, schedule) <==> !s.Peer(r).flags.waiting
  {
    if s.Peer(r).flags.waiting {
      forall k | 0 <= k <= |schedule| ensures Run(s, schedule[..k]).Me(r).pc != Doze(Blocked) { SpinsOn(s, r, schedule[..k]); }
    } else {
      var k := FallsAsleep(s, r, schedule);
    }
  }
}
