/** What the pipe promises its users, over every schedule. */
module ProtocolTheorems {
  import opened Protocol
  import opened ProtocolInvariant
  import Fifo

  /** Some schedule leads from the fresh pipe of n cells to s. */
  ghost predicate Reachable(s: State) {
    var whole := Shape(s) && exists n: nat, cells: seq<byte>, schedule: seq<Event> ::
      n > 1 && |cells| == n && Run(Init(n, cells), schedule) == s;
    whole
  }

  lemma ReachableInv(s: State)
    requires Reachable(s)
    ensures Inv(s)
  {
    var n: nat, cells: seq<byte>, schedule: seq<Event> :|
      n > 1 && |cells| == n && Run(Init(n, cells), schedule) == s;
    InitInv(n, cells);
    RunInv(Init(n, cells), schedule);
  }

  lemma {:induction false} RunOn(s: State, schedule: seq<Event>, e: Event)
    requires Shape(s)
    ensures Run(s, schedule + [e]) == Do(Run(s, schedule), e.r, e.c)
    decreases |schedule|
  {
    if schedule == [] {
      assert [e][1..] == [];
    } else {
      assert (schedule + [e])[1..] == schedule[1..] + [e];
      RunOn(Do(s, schedule[0].r, schedule[0].c), schedule[1..], e);
    }
  }

  lemma ReachableStep(s: State, r: Role, c: Choice)
    requires Reachable(s)
    ensures Reachable(Do(s, r, c))
  {
    var n: nat, cells: seq<byte>, schedule: seq<Event> :|
      n > 1 && |cells| == n && Run(Init(n, cells), schedule) == s;
    RunOn(Init(n, cells), schedule, Event(r, c));
    assert Run(Init(n, cells), schedule + [Event(r, c)]) == Do(s, r, c);
  }

  lemma ReachableInit(n: nat, cells: seq<byte>)
    requires n > 1 && |cells| == n
    ensures Reachable(Init(n, cells))
  {
    assert Run(Init(n, cells), []) == Init(n, cells);
  }

  // ----- no deadlock -----

  /** Two ends that have both taken their second look: one of them saw the other's WAITING. */
  lemma OneSawTheOtherWait(s: State)
    requires Reachable(s) && s.reader.pc.Stage() >= 3 && s.writer.pc.Stage() >= 3
    ensures s.reader.snap.waiting || s.writer.snap.waiting
  {
    ReachableInv(s);
    StuckMeansNothingAvailable(s, Reader);
  }

  /** The two ends are never both between the decision to sleep and the return of the await. */
  lemma NeverBothCommitted(s: State)
    requires Reachable(s)
    ensures !(s.reader.pc.Committed() && s.writer.pc.Committed())
  {
    ReachableInv(s);
    InvNeverBothCommitted(s);
  }

  lemma InvNeverBothCommitted(s: State)
    requires Inv(s)
    ensures !(s.reader.pc.Committed() && s.writer.pc.Committed())
  {
    StuckMeansNothingAvailable(s, Reader);
  }

  /** In await, with nothing that would end it. */
  predicate FastAsleep(s: State, q: Role) {
    s.Me(q).pc.Doze? && s.Me(q).pc.z.Blocked? && !s.Me(q).inflight && !s.Me(q).latent && !s.broken
  }

  /** k steps of one end on its own. */
  function Alone(s: State, r: Role, k: nat): (t: State)
    requires s.d.n > 1 && |s.d.cells| == s.d.n
    ensures t.d.n == s.d.n == |t.d.cells|
    decreases k
  {
    if k == 0 then s else Alone(Do(s, r, Go), r, k - 1)
  }

  /** In a round of the wait, awake. */
  predicate Rounds(pc: Pc) { pc.Settle? || (pc.Look? && !pc.l.Leave?) }

  /** How many steps a waiting end needs at most to wake a sleeping peer: one round, or the rest of a stale one first. */
  function StepsToWake(me: Side): (k: nat)
    ensures k <= 14
  {
    var stale := if me.snap.sleeping then 0 else 8;
    match me.pc
    case Look(Head) => 8
    case Look(Snap) => 7
    case Look(SetWaiting) => 6 + stale
    case Look(Recheck) => 5 + stale
    case Settle(Closed) => 4 + stale
    case Settle(Probe) => 3 + stale
    case Settle(Choose) => 2 + stale
    case _ => 1
  }

  lemma LookCloser(me: Side, v: View)
    requires me.pc.Look? && !me.pc.l.Leave? && v.peerFlags.sleeping
    ensures var n := NextLook(me, v, me.pc.l);
      (n.pc.Look? && n.pc.l.Leave?) || (Rounds(n.pc) && StepsToWake(n) < StepsToWake(me))
  {
    var n := NextLook(me, v, me.pc.l);
    match me.pc.l
    case Head => assert (n.pc.Look? && n.pc.l.Leave?) || StepsToWake(n) == 7;
    case Snap => assert StepsToWake(n) == 6;
    case SetWaiting => assert Rounds(n.pc);
    case Recheck => assert Rounds(n.pc) || n.pc.l.Leave?;
    case Leave => assert false;
  }

  lemma SettleCloser(r: Role, me: Side, v: View)
    requires me.pc.Settle? && !me.pc.q.WakePeer? && LocalOk(r, me)
    requires !me.snap.closed && !v.broken && !me.sawEpipe && !NextSettle(r, me, v, me.pc.q).pc.Doze?
    ensures var n := NextSettle(r, me, v, me.pc.q); Rounds(n.pc) && StepsToWake(n) < StepsToWake(me)
  {
    var n := NextSettle(r, me, v, me.pc.q);
    match me.pc.q
    case Closed => assert Rounds(n.pc);
    case Probe => assert Rounds(n.pc);
    case Choose => assert Rounds(n.pc);
    case WakePeer => assert false;
  }

  /** The peer is being signalled, or this end leaves its wait with something to do. */
  predicate Served(t: State, r: Role) {
    var whole :=
      t.Peer(r).inflight || (t.Me(r).pc.Look? && t.Me(r).pc.l.Leave? && t.Avail(r) > 0);
    whole
  }

  predicate RoundGoesOn(t: State, r: Role) { FastAsleep(t, r.Other()) && Rounds(t.Me(r).pc) }

  lemma RoundCloser(s: State, r: Role, c: Choice)
    requires Inv(s) && RoundGoesOn(s, r) && !c.Deliver? && !c.Die?
    ensures var t := Do(s, r, c);
      Inv(t) && (Served(t, r) || (RoundGoesOn(t, r) && StepsToWake(t.Me(r)) < StepsToWake(s.Me(r))))
  {
    var me, v, t := s.Me(r), s.Seen(r), Do(s, r, c);
    StepInv(s, r, c);
    InvNeverBothCommitted(t);
    DoSteps(s, r, c);
    RoundEffect(s, r, c);
    if me.pc.Look? {
      LookCloser(me, v);
    } else if !me.pc.q.WakePeer? {
      SettleCloser(r, me, v);
    }
  }

  lemma RoundEffect(s: State, r: Role, c: Choice)
    requires Shape(s) && Rounds(s.Me(r).pc) && !s.broken && !c.Deliver? && !c.Die?
    ensures var t := Do(s, r, c);
      if s.Me(r).pc.Settle? && s.Me(r).pc.q.WakePeer? then t.Peer(r).inflight
      else t.Peer(r) == s.Peer(r) && t.broken == s.broken
  {
  }

  /** No one is killed, and the sleeper's process gets no signal of the operating system's. */
  predicate Undisturbed(e: Event, r: Role) { !e.c.Die? && !(e.r != r && e.c.Interrupt?) }

  predicate Calm(schedule: seq<Event>, r: Role) {
    var whole := forall i :: 0 <= i < |schedule| ==> Undisturbed(schedule[i], r);
    whole
  }

  lemma CalmTail(schedule: seq<Event>, r: Role)
    requires Calm(schedule, r) && schedule != []
    ensures Undisturbed(schedule[0], r) && Calm(schedule[1..], r)
  {
  }

  predicate OwnStep(e: Event, r: Role) { e.r == r && !e.c.Deliver? }

  function OwnSteps(schedule: seq<Event>, r: Role): nat {
    if schedule == [] then 0 else (if OwnStep(schedule[0], r) then 1 else 0) + OwnSteps(schedule[1..], r)
  }

  /** The other steps leave a round where it is: the sleeper cannot move, and a late event only sets the latent bit. */
  lemma RoundRests(s: State, r: Role, e: Event)
    requires Inv(s) && RoundGoesOn(s, r) && Undisturbed(e, r) && !OwnStep(e, r)
    ensures var t := Do(s, e.r, e.c);
      Inv(t) && RoundGoesOn(t, r) && StepsToWake(t.Me(r)) == StepsToWake(s.Me(r))
  {
    StepInv(s, e.r, e.c);
  }

  lemma RunFirst(s: State, schedule: seq<Event>, k: nat)
    requires Shape(s) && 0 < k <= |schedule|
    ensures Run(s, schedule[..k]) == Run(Do(s, schedule[0].r, schedule[0].c), schedule[1..][..k - 1])
  {
    assert schedule[..k][1..] == schedule[1..][..k - 1];
  }

  lemma RoundStep(s: State, r: Role, e: Event)
    requires Inv(s) && RoundGoesOn(s, r) && Undisturbed(e, r)
    ensures var t := Do(s, e.r, e.c);
      Inv(t) && (Served(t, r) || (RoundGoesOn(t, r) && StepsToWake(t.Me(r)) + (if OwnStep(e, r) then 1 else 0) <= StepsToWake(s.Me(r))))
  {
    if OwnStep(e, r) { RoundCloser(s, r, e.c); } else { RoundRests(s, r, e); }
  }

  /** The first step of a schedule, and the rest of it. */
  lemma RoundTurns(s: State, r: Role, schedule: seq<Event>) returns (t: State)
    requires Inv(s) && RoundGoesOn(s, r) && Calm(schedule, r) && schedule != []
    ensures Inv(t) && Calm(schedule[1..], r)
    ensures Served(t, r) || (RoundGoesOn(t, r) && StepsToWake(t.Me(r)) + (if OwnStep(schedule[0], r) then 1 else 0) <= StepsToWake(s.Me(r)))
    ensures forall k: nat {:trigger schedule[1..][..k]} :: k < |schedule| ==> Run(s, schedule[..k + 1]) == Run(t, schedule[1..][..k])
  {
    CalmTail(schedule, r);
    RoundStep(s, r, schedule[0]);
    t := Do(s, schedule[0].r, schedule[0].c);
    forall k: nat | k < |schedule| ensures Run(s, schedule[..k + 1]) == Run(t, schedule[1..][..k]) { RunFirst(s, schedule, k + 1); }
  }

  /**
    An end in its wait loop does not leave its peer asleep: under every schedule that leaves the two alone, by the time it has
    taken 14 steps of its own it has sent a signal or got work.
   */
  lemma {:induction false} WaitingEndWakesSleeper(s: State, r: Role, schedule: seq<Event>) returns (k: nat)
    requires Inv(s) && RoundGoesOn(s, r)
    requires Calm(schedule, r) && OwnSteps(schedule, r) >= StepsToWake(s.Me(r))
    ensures k <= |schedule| && StepsToWake(s.Me(r)) <= 14
    ensures Served(Run(s, schedule[..k]), r)
    decreases |schedule|
  {
    var t := RoundTurns(s, r, schedule);
    k := 0;
    if !Served(t, r) { k := WaitingEndWakesSleeper(t, r, schedule[1..]); }
    assert Run(s, schedule[..k + 1]) == Run(t, schedule[1..][..k]);
    k := k + 1;
  }

  // ----- signals and flush -----

  /** What the end q has used up of what its peer published: bytes read, or room written. */
  function UsedUp(s: State, q: Role): int { s.Pub(q.Other()) - s.Avail(q) }

  /** A signal leaves its mark, and no later step lowers a mark or takes back what is used up. */
  lemma {:induction false} MarksGrow(s: State, schedule: seq<Event>, q: Role)
    requires Inv(s)
    ensures s.Me(q).mark <= Run(s, schedule).Me(q).mark
    decreases |schedule|
  {
    if schedule != [] {
      var e := schedule[0];
      StepInv(s, e.r, e.c);
      StepSummed(s, e.r, e.c);
      MarksGrow(Do(s, e.r, e.c), schedule[1..], q);
    }
  }

  lemma SleeperUsedItsMark(t: State, q: Role)
    requires SignalsOk(t, q) && FastAsleep(t, q)
    ensures t.Me(q).mark <= UsedUp(t, q)
  {
  }

  /**
    An end asleep for good with work available: then the peer's last look at the end of a transfer did not see it sleeping,
    or the peer is just about to signal for having seen it.
   */
  lemma AsleepWithWorkOnlyAfterRace(s: State, q: Role)
    requires Reachable(s) && FastAsleep(s, q) && s.Avail(q) > 0 && s.Peer(q).saw
    ensures s.Peer(q).pc == Check(FinalSignal)
  {
    ReachableInv(s);
    SawMeansSignalled(s, q.Other());
    SleeperUsedItsMark(s, q);
  }

  lemma SawMeansSignalled(s: State, r: Role)
    requires SignalsOk(s, r)
    ensures s.Me(r).saw && s.Me(r).pc != Check(FinalSignal) ==> s.Peer(r).mark == s.Pub(r) || s.broken
  {
  }

  // ----- results -----

  /** The value 0 comes back at end of file or for a request of zero bytes, and in no other case. */
  lemma ZeroMeans(s: State, r: Role)
    requires Reachable(s) && s.Me(r).pc.Return?
    ensures s.Me(r).pc.outcome.Value() == 0 <==>
      s.Me(r).pc.outcome.EndOfFile? || (s.Me(r).pc.outcome.Moved? && s.Me(r).nbytes == 0)
  {
    ReachableInv(s);
  }

  /** "0 means end of file" fails for a request of zero bytes, whatever there is to read. */
  lemma ZeroByteReadReturnsZero(s: State) returns (t: State, k: nat)
    requires Inv(s) && s.reader.pc.Idle? && s.Avail(Reader) > 0
    ensures t == Alone(Do(s, Reader, BeginCall(0)), Reader, k)
    ensures t.reader.pc == Return(Moved(0)) && t.Avail(Reader) == s.Avail(Reader)
  {
    StuckMeansNothingAvailable(s, Reader);
    var s0 := Do(s, Reader, BeginCall(0));
    assert s0.reader.pc.SetActive? && s0.reader.nbytes == 0 && s0.Taken(Reader) == 0;
    k := ZeroBytesReturned(s, s0);
    t := Alone(s0, Reader, k);
  }

  lemma {:induction false} ZeroBytesReturned(s: State, t: State) returns (k: nat)
    requires Shape(s) && !s.Stuck(Reader) && Shape(t) && MovesNothing(s, t)
    ensures var u := Alone(t, Reader, k); u.reader.pc == Return(Moved(0)) && MovesNothing(s, u)
    decreases ToReturn(t.reader.pc)
  {
    if t.reader.pc.Return? {
      k := 0;
    } else {
      ZeroByteStep(s, t);
      var j := ZeroBytesReturned(s, Do(t, Reader, Go));
      k := j + 1;
    }
  }

  /** The way of a read of zero bytes. */
  function ToReturn(pc: Pc): nat {
    match pc
    case SetActive => 8
    case Look(Head) => 7
    case Look(Leave) => 6
    case Copy(Load) => 5
    case Copy(Loop) => 4
    case Check(FinalCheck) => 3
    case Check(FinalSignal) => 2
    case Return(_) => 1
    case _ => 0
  }

  /** On the way, with no byte moved and none to move. */
  predicate MovesNothing(s: State, t: State) {
    && t.d == s.d.(wSnap := t.d.wSnap) && t.reader.nbytes == 0 && t.Taken(Reader) == 0
    && ToReturn(t.reader.pc) > 0 && (t.reader.pc.Return? ==> t.reader.pc == Return(Moved(0)))
  }

  lemma ZeroByteSide(me: Side, v: View)
    requires ToReturn(me.pc) > 1 && !v.stuck && !v.canCopy && v.loc == me.start
    ensures ReturnsCloser(me, Next(Reader, Go, me, v))
  {
    var ok := ReturnsCloser(me, Next(Reader, Go, me, v));
    match me.pc
    case SetActive => assert ok;
    case Look(_) => assert ok;
    case Copy(x) => ZeroByteTransfer(me, v);
    case Check(y) => ZeroByteTransfer(me, v);
    case _ =>
  }

  lemma ZeroByteTransfer(me: Side, v: View)
    requires ToReturn(me.pc) > 1 && !v.canCopy && v.loc == me.start
    ensures me.pc.Copy? ==> ReturnsCloser(me, NextCopy(Go, me, v, me.pc.x))
    ensures me.pc.Check? ==> ReturnsCloser(me, NextCheck(me, v, me.pc.y))
  {
  }

  predicate ReturnsCloser(me: Side, n: Side) {
    var whole :=
      && n.nbytes == me.nbytes && n.start == me.start && 0 < ToReturn(n.pc) < ToReturn(me.pc)
      && (n.pc.Return? ==> n.pc == Return(Moved(0)));
    whole
  }

  lemma ZeroByteData(t: State)
    requires Shape(t) && ToReturn(t.reader.pc) > 1
    ensures var u := Do(t, Reader, Go); u.reader == Next(Reader, Go, t.reader, t.Seen(Reader)) && u.d == t.d.(wSnap := u.d.wSnap)
  {
    var e := EffectOf(Reader, Go, t.reader, t.Seen(Reader));
    assert e.Nothing? || e.LoadCursor? || e.SignalPeer?;
  }

  lemma ZeroByteStep(s: State, t: State)
    requires Shape(s) && Shape(t) && MovesNothing(s, t) && !s.Stuck(Reader) && !t.reader.pc.Return?
    ensures MovesNothing(s, Do(t, Reader, Go)) && ToReturn(Do(t, Reader, Go).reader.pc) < ToReturn(t.reader.pc)
  {
    ZeroByteSide(t.reader, t.Seen(Reader));
    ZeroByteData(t);
  }

  /** A transfer moves at least one byte when asked for any, at most what was asked for, and counts them right. */
  lemma TransferCounts(s: State, r: Role)
    requires Reachable(s) && s.Me(r).pc.Return? && s.Me(r).pc.outcome.Moved?
    ensures var count := s.Me(r).pc.outcome.count;
      (s.Me(r).nbytes > 0 ==> count > 0) && 0 <= count <= s.Me(r).nbytes && s.Loc(r) == s.Pub(r) == s.Me(r).start + count
  {
    ReachableInv(s);
  }

  /** The wait has failed its second look in this call, or the call has come back without a transfer. */
  predicate FoundNothing(pc: Pc) {
    pc.Settle? || pc.Doze? || pc.Wake? || (pc.Return? && !pc.outcome.Moved? && !pc.outcome.PeerClosed?)
  }

  predicate BeforeTransfer(pc: Pc) { pc.SetActive? || pc.EntryCheck? || pc.Waits() }

  /** From s0, where r began a call, to s. */
  ghost predicate InThisCall(s0: State, s: State, r: Role) {
    && s.d.n == s0.d.n && s0.Pub(r.Other()) <= s.Pub(r.Other())
    && (BeforeTransfer(s.Me(r).pc) ==> s.Pub(r) == s0.Pub(r))
    && (FoundNothing(s.Me(r).pc) ==> s0.Avail(r) == 0)
  }

  /** Where a step of a call can lead. */
  predicate CallOn(pc: Pc, next: Pc, stuck: bool) {
    var whole :=
      && (FoundNothing(next) ==> FoundNothing(pc) || (pc == Look(Recheck) && stuck))
      && (BeforeTransfer(next) ==> BeforeTransfer(pc));
    whole
  }

  lemma CallLooks(me: Side, v: View)
    requires me.pc.Look?
    ensures CallOn(me.pc, NextLook(me, v, me.pc.l).pc, v.stuck)
  {
    var ok := CallOn(me.pc, NextLook(me, v, me.pc.l).pc, v.stuck);
    match me.pc.l
    case Head => assert ok;
    case Snap => assert ok;
    case SetWaiting => assert ok;
    case Recheck => assert ok;
    case Leave => assert ok;
  }

  lemma CallSettles(r: Role, me: Side, v: View)
    ensures me.pc.Settle? ==> CallOn(me.pc, NextSettle(r, me, v, me.pc.q).pc, v.stuck)
  {
  }

  lemma CallSleeps(r: Role, c: Choice, me: Side, v: View)
    ensures me.pc.Doze? ==> CallOn(me.pc, NextDoze(c, me, v, me.pc.z).pc, v.stuck)
    ensures me.pc.Wake? ==> CallOn(me.pc, NextWake(r, me, v, me.pc.k).pc, v.stuck)
  {
  }

  lemma CallCopies(c: Choice, me: Side, v: View)
    ensures me.pc.Copy? ==> CallOn(me.pc, NextCopy(c, me, v, me.pc.x).pc, v.stuck)
  {
  }

  lemma CallChecks(me: Side, v: View)
    ensures me.pc.Check? ==> CallOn(me.pc, NextCheck(me, v, me.pc.y).pc, v.stuck)
  {
  }

  lemma CallEnds(r: Role, c: Choice, me: Side, v: View)
    requires !c.BeginCall? && me.pc.CallBoundary()
    ensures CallOn(me.pc, NextCall(r, c, me, v).pc, v.stuck)
  {
    var ok := CallOn(me.pc, NextCall(r, c, me, v).pc, v.stuck);
    match me.pc
    case Idle => assert ok;
    case SetActive => assert ok;
    case EntryCheck => assert ok;
    case Return(_) => assert ok;
    case _ =>
  }

  lemma CallFinishes(me: Side, v: View)
    requires me.pc.Finishing()
    ensures CallOn(me.pc, NextFinish(me, v).pc, v.stuck)
  {
  }

  lemma CallSide(r: Role, c: Choice, me: Side, v: View)
    requires !c.BeginCall?
    ensures CallOn(me.pc, Next(r, c, me, v).pc, v.stuck)
  {
    if !c.Deliver? && !c.Die? {
      match me.pc
      case Look(_) => CallLooks(me, v);
      case Settle(_) => CallSettles(r, me, v);
      case Doze(_) => CallSleeps(r, c, me, v);
      case Wake(_) => CallSleeps(r, c, me, v);
      case Copy(_) => CallCopies(c, me, v);
      case Check(_) => CallChecks(me, v);
      case _ => if me.pc.CallBoundary() { CallEnds(r, c, me, v); } else { CallFinishes(me, v); }
    }
  }

  lemma CallStep(s0: State, s: State, r: Role, e: Event)
    requires Inv(s0) && Inv(s) && InThisCall(s0, s, r) && !(e.r == r && e.c.BeginCall?)
    ensures InThisCall(s0, Do(s, e.r, e.c), r)
  {
    DoSteps(s, e.r, e.c);
    StuckMeansNothingAvailable(s, r);
    StuckMeansNothingAvailable(s0, r);
    if e.r == r { CallSide(r, e.c, s.Me(r), s.Seen(r)); }
  }

  lemma {:induction false} CallRun(s0: State, s: State, r: Role, schedule: seq<Event>)
    requires Inv(s0) && Inv(s) && InThisCall(s0, s, r)
    requires forall k :: 0 <= k < |schedule| ==> !(schedule[k].r == r && schedule[k].c.BeginCall?)
    ensures InThisCall(s0, Run(s, schedule), r)
    decreases |schedule|
  {
    if schedule != [] {
      CallStep(s0, s, r, schedule[0]);
      StepInv(s, schedule[0].r, schedule[0].c);
      CallRun(s0, Do(s, schedule[0].r, schedule[0].c), r, schedule[1..]);
    }
  }

  /**
    A call that comes back without a transfer, other than one that finds its peer closed, had nothing to do when it began: there
    was no byte to read, or no room to write.
   */
  lemma FailedCallHadNothing(s0: State, r: Role, nbytes: nat, schedule: seq<Event>)
    requires Inv(s0) && s0.Me(r).pc.Idle?
    requires forall k :: 0 <= k < |schedule| ==> !(schedule[k].r == r && schedule[k].c.BeginCall?)
    requires var pc := Run(Do(s0, r, BeginCall(nbytes)), schedule).Me(r).pc;
      pc.Return? && !pc.outcome.Moved? && !pc.outcome.PeerClosed?
    ensures s0.Avail(r) == 0
  {
    CallBegins(s0, r, nbytes);
    CallRun(s0, Do(s0, r, BeginCall(nbytes)), r, schedule);
  }

  lemma CallBegins(s: State, r: Role, nbytes: nat)
    requires Inv(s) && s.Me(r).pc.Idle?
    ensures Inv(Do(s, r, BeginCall(nbytes))) && InThisCall(s, Do(s, r, BeginCall(nbytes)), r)
  {
    StepInv(s, r, BeginCall(nbytes));
    assert Do(s, r, BeginCall(nbytes)).Me(r).pc == SetActive && Do(s, r, BeginCall(nbytes)).d == s.d;
  }

  // ----- the end of the stream -----

  lemma ClosedStep(s: State, r: Role, c: Choice)
    requires Inv(s) && s.writer.flags.closed
    ensures Do(s, r, c).writer.flags.closed && Do(s, r, c).d.sent == s.d.sent
  {
    var e := EffectOf(r, c, s.Me(r), s.Seen(r));
    StepSummed(s, r, c);
    EffectsOfSteps(r, c, s.Me(r), s.Seen(r));
    assert r == Writer ==> !s.Me(r).pc.Copying();
    SentByCopyOnly(s.Put(r, Next(r, c, s.Me(r), s.Seen(r))), r, e);
  }

  lemma SentByCopyOnly(s: State, r: Role, e: Effect)
    requires Shape(s) && (r == Reader || !e.CopyOne?)
    ensures Apply(s, r, e).d.sent == s.d.sent
  {
  }

  /** After free has set CLOSED nothing more goes in, under any schedule. */
  lemma {:induction false} ClosedIsFinal(s: State, schedule: seq<Event>)
    requires Inv(s) && s.writer.flags.closed
    ensures Run(s, schedule).writer.flags.closed && Run(s, schedule).d.sent == s.d.sent
    decreases |schedule|
  {
    if schedule != [] {
      ClosedStep(s, schedule[0].r, schedule[0].c);
      StepInv(s, schedule[0].r, schedule[0].c);
      ClosedIsFinal(Do(s, schedule[0].r, schedule[0].c), schedule[1..]);
    }
  }

  /** End of file is exact: the writer has closed, the reader has every byte it ever accepted, and there will be no more. */
  lemma EndOfFileIsExact(s: State, schedule: seq<Event>)
    requires Shape(s) && Reachable(s) && s.Me(Reader).pc == Return(EndOfFile)
    ensures s.writer.flags.closed && s.d.delivered == s.d.sent == Run(s, schedule).d.sent
  {
    ReachableInv(s);
    ClosedIsFinal(s, schedule);
  }

  /** After a failed sleep, EPIPE is reported only for a writer that was killed, and only once all it published is read. */
  lemma EarlierEpipeIsExact(s: State)
    requires Reachable(s) && s.reader.pc == Return(EarlierEpipe)
    ensures s.broken && s.writer.pc.Dead? && !s.writer.flags.closed
    ensures s.d.rPub == s.d.wPub <= |s.d.sent| && s.d.delivered == s.d.sent[..s.d.wPub]
  {
    ReachableInv(s);
  }

  /** The probe's EPIPE means a broken pipe. */
  lemma ProbeEpipeMeansBroken(s: State, r: Role)
    requires Reachable(s) && s.Me(r).pc == Return(ProbeSawEpipe)
    ensures s.broken
  {
    ReachableInv(s);
  }

  /** Where a read on a closed and drained pipe can be, and how many steps it has to go, and one more. */
  function EndRank(me: Side): nat {
    match me.pc
    case SetActive => 7
    case Look(l) =>
      if l.Head? then 6 else if l.Snap? then 5 else if l.Leave? || !me.snap.closed then 0 else if l.SetWaiting? then 4 else 3
    case Settle(q) => if q.Closed? && me.snap.closed then 2 else 0
    case Return(o) => if o.EndOfFile? then 1 else 0
    case _ => 0
  }

  lemma EndLook(me: Side, v: View)
    requires me.pc.Look? && EndRank(me) > 1 && v.stuck && v.peerFlags.closed
    ensures 0 < EndRank(NextLook(me, v, me.pc.l)) < EndRank(me)
  {
    var rank := EndRank(NextLook(me, v, me.pc.l));
    match me.pc.l
    case Head => assert rank == 5;
    case Snap => assert rank == 4;
    case SetWaiting => assert rank == 3;
    case Recheck => assert rank == 2;
    case Leave =>
  }

  lemma EndSide(c: Choice, me: Side, v: View)
    requires EndRank(me) > 1 && v.stuck && v.peerFlags.closed && !c.Deliver? && !c.Die?
    ensures 0 < EndRank(Next(Reader, c, me, v)) < EndRank(me)
  {
    if me.pc.Look? { EndLook(me, v); }
  }

  ghost predicate Ending(s: State) {
    Inv(s) && s.writer.flags.closed && s.Avail(Reader) == 0 && EndRank(s.reader) > 0
  }

  lemma EndingStep(s: State, e: Event)
    requires Ending(s) && EndRank(s.reader) > 1 && !(e.r == Reader && e.c.Die?)
    ensures var t := Do(s, e.r, e.c);
      Ending(t) && EndRank(t.reader) + (if OwnStep(e, Reader) then 1 else 0) <= EndRank(s.reader)
  {
    StepInv(s, e.r, e.c);
    StepSummed(s, e.r, e.c);
    StuckMeansNothingAvailable(s, Reader);
    if e.r == Reader && !e.c.Deliver? { EndSide(e.c, s.reader, s.Seen(Reader)); }
  }

  /**
    And conversely: once the writer has closed and the reader has everything, a read says end of file by its sixth step,
    under any schedule that does not kill it.
   */
  lemma {:induction false} ClosedAndDrainedReadsEndOfFile(s: State, nbytes: nat, schedule: seq<Event>) returns (k: nat)
    requires Inv(s) && s.reader.pc.Idle? && s.writer.flags.closed && s.Avail(Reader) == 0
    requires (forall i :: 0 <= i < |schedule| ==> !(schedule[i].r == Reader && schedule[i].c.Die?)) && OwnSteps(schedule, Reader) >= 6
    ensures k <= |schedule| && Run(Do(s, Reader, BeginCall(nbytes)), schedule[..k]).reader.pc == Return(EndOfFile)
  {
    StepInv(s, Reader, BeginCall(nbytes));
    k := EndReached(Do(s, Reader, BeginCall(nbytes)), schedule);
  }

  lemma {:induction false} EndReached(s: State, schedule: seq<Event>) returns (k: nat)
    requires Ending(s) && OwnSteps(schedule, Reader) + 1 >= EndRank(s.reader)
    requires forall i :: 0 <= i < |schedule| ==> !(schedule[i].r == Reader && schedule[i].c.Die?)
    ensures k <= |schedule| && Run(s, schedule[..k]).reader.pc == Return(EndOfFile)
    decreases |schedule|
  {
    if EndRank(s.reader) == 1 {
      k := 0;
    } else {
      EndingStep(s, schedule[0]);
      k := EndReached(Do(s, schedule[0].r, schedule[0].c), schedule[1..]);
      k := k + 1;
      RunFirst(s, schedule, k);
    }
  }

  // ----- the stream -----

  /** First in, first out, for the two ends as a whole: every schedule, stale snapshots, interrupted sleeps, kills and all. */
  lemma StreamIntact(s: State)
    requires Reachable(s)
    ensures s.d.delivered <= s.d.sent && |s.d.delivered| <= s.d.wPub
    ensures |s.d.sent| - s.d.rPub < s.d.n
  {
    ReachableInv(s);
  }

  lemma LoopCountStaysInRange(s: State, r: Role)
    requires Reachable(s) && s.Me(r).pc.Waits()
    ensures 0 <= s.Me(r).loops <= LOOP_LIMIT
  {
    ReachableInv(s);
  }
}
