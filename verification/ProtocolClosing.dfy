/**
  Closing an end, and what its peer's wait comes to: free shows CLOSED and breaks the pipe, and on a broken pipe with nothing left a wait
  comes back.
  (xen_shm_pipe.c:279-292, 331-494)
 */
module ProtocolClosing {
  import opened Protocol
  import opened ProtocolInvariant
  import opened ProtocolTheorems
  import opened ProtocolSignals
  import opened ProtocolCalls

  // ----- free -----

  /** The steps of free, and how many are left. */
  function ToGone(pc: Pc): nat {
    match pc
    case SetClosed => 2
    case Release => 1
    case _ => 0
  }

  ghost predicate Frees(s: State, r: Role) {
    var whole :=
      && Inv(s) && (s.Me(r).pc.SetClosed? || s.Me(r).pc.Release? || s.Me(r).pc.Gone?)
      && (!s.Me(r).pc.SetClosed? ==> s.Me(r).flags.closed) && (s.Me(r).pc.Gone? ==> s.broken);
    whole
  }

  lemma FreeStep(s: State, r: Role, e: Event)
    requires Frees(s, r) && !(e.r == r && e.c.Die?)
    ensures var t := Do(s, e.r, e.c);
      Frees(t, r) && ToGone(t.Me(r).pc) <= ToGone(s.Me(r).pc) && (OwnStep(e, r) && ToGone(s.Me(r).pc) > 0 ==> ToGone(t.Me(r).pc) < ToGone(s.Me(r).pc))
  {
    StepInv(s, e.r, e.c);
    DoSteps(s, e.r, e.c);
    if OwnStep(e, r) { FreeSide(r, e.c, s.Me(r), s.Seen(r)); } else { OthersStep(s, r, e); }
  }

  lemma FreeSide(r: Role, c: Choice, me: Side, v: View)
    requires (me.pc.SetClosed? || me.pc.Release? || me.pc.Gone?) && !c.Deliver? && !c.Die?
    ensures var n := Next(r, c, me, v);
      && n.pc == (if me.pc.SetClosed? then Release else Gone) && n.flags.closed == (me.flags.closed || me.pc.SetClosed?)
  {
    assert Next(r, c, me, v) == NextFinish(me, v);
  }

  lemma {:induction false} FreeRun(s: State, r: Role, schedule: seq<Event>)
    requires Frees(s, r) && NotKilled(schedule, r) && OwnSteps(schedule, r) >= ToGone(s.Me(r).pc)
    ensures Frees(Run(s, schedule), r) && Run(s, schedule).Me(r).pc.Gone?
    decreases |schedule|
  {
    if schedule != [] {
      FreeStep(s, r, schedule[0]);
      FreeRun(Do(s, schedule[0].r, schedule[0].c), r, schedule[1..]);
    }
  }

  /** Free, the whole call: within two steps of its own the end is gone, its CLOSED set and the pipe broken, under any schedule that does not kill it. */
  lemma FreeCloses(s: State, r: Role, schedule: seq<Event>)
    requires Inv(s) && s.Me(r).pc.Idle? && NotKilled(schedule, r) && OwnSteps(schedule, r) >= 2
    ensures var t := Run(Do(s, r, BeginClose), schedule);
      Inv(t) && t.Me(r).pc.Gone? && t.Me(r).flags.closed && t.broken && t.Loc(r) == t.Pub(r)
  {
    StepInv(s, r, BeginClose);
    StepAlone(s, r, BeginClose);
    FreeRun(Do(s, r, BeginClose), r, schedule);
    assert DataOk(Run(Do(s, r, BeginClose), schedule), r);
  }

  // ----- the peer's wait -----

  /**
    On a pipe the peer has broken: where a wait can be that comes back soon, and how far it goes at most. It has seen CLOSED or an EPIPE,
    or is asleep, or will see CLOSED, perhaps after one round with an older snapshot.
   */
  function BackRank(me: Side, closed: bool): (rank: nat)
    ensures rank <= 30
  {
    match me.pc
    case SetActive => if closed then 30 else 0
    case EntryCheck => if closed then 29 else 0
    case Look(l) => LookBackRank(l, if l.Head? || l.Snap? then me.sawEpipe else Told(me), closed)
    case Settle(q) => SettleBackRank(q, Told(me), closed)
    case Doze(z) => if z.SetSleeping? then 21 else if z.AwaitEntry? then 20 else 19
    case Wake(k) => WakeBackRank(k, closed)
    case Return(o) => if o.Moved? then 0 else 1
    case _ => 0
  }

  /** The snapshot shows CLOSED, or an earlier sleep ended with EPIPE. */
  predicate Told(me: Side) { me.snap.closed || me.sawEpipe }

  function LookBackRank(l: LookPc, told: bool, closed: bool): (rank: nat)
    ensures rank <= 30
  {
    match l
    case Head => if told || closed then 8 else 0
    case Snap => if told || closed then 7 else 0
    case SetWaiting => if told then 6 else if closed then 26 else 0
    case Recheck => if told then 5 else if closed then 25 else 0
    case Leave => 0
  }

  function SettleBackRank(q: SettlePc, told: bool, closed: bool): (rank: nat)
    ensures rank <= 30
  {
    match q
    case Closed => if told then 4 else if closed then 24 else 0
    case Probe => if told then 3 else if closed then 23 else 0
    case Choose => if told then 2 else if closed then 22 else 0
    case WakePeer => if closed then 20 else 0
  }

  function WakeBackRank(k: WakePc, closed: bool): (rank: nat)
    ensures rank <= 30
  {
    match k
    case ClearLatent => 18
    case BrokenCheck => 17
    case WakeUp(how) => if how == Epipe || (how == Signalled && closed) then 16 else 0
    case DropWaiting(why) => if why == Epipe then 2 else 0
  }

  /** It has an older snapshot without CLOSED, and goes on from there to the probe. */
  predicate GoesToProbe(me: Side) {
    && !Told(me)
    && (me.pc == Settle(Probe) || (me.loops == 0 && (me.pc == Look(SetWaiting) || me.pc == Look(Recheck) || me.pc == Settle(Closed))))
  }

  /** What the call will return. */
  function Verdict(r: Role, me: Side, closed: bool): int {
    if me.pc.Return? then me.pc.outcome.Value()
    else if r == Reader && closed && !GoesToProbe(me) then 0
    else -1
  }

  /** What holds of the end and what it sees. */
  ghost predicate BackFacts(r: Role, me: Side, v: View) {
    && v.broken && (v.stuck || (r == Writer && (me.pc.SetActive? || me.pc.EntryCheck?)))
    && (me.pc.Stage() > 0 ==> (me.snap.closed ==> v.peerFlags.closed) && (me.sawEpipe ==> me.snap.closed == v.peerFlags.closed))
    && (me.pc.EntryCheck? ==> r == Writer) && SnapOk(r, me)
  }

  /** A step on the way back. */
  ghost predicate Nearer(r: Role, me: Side, n: Side, v: View) {
    var whole :=
      && 0 < BackRank(n, v.peerFlags.closed) < BackRank(me, v.peerFlags.closed) && Verdict(r, n, v.peerFlags.closed) == Verdict(r, me, v.peerFlags.closed)
      && (n.pc.EntryCheck? ==> r == Writer) && (v.stuck || (r == Writer && (n.pc.SetActive? || n.pc.EntryCheck? || n.pc.Return?)));
    whole
  }

  lemma LooksBackFirst(r: Role, me: Side, v: View)
    requires (me.pc == Look(Head) || me.pc == Look(Snap)) && BackRank(me, v.peerFlags.closed) > 1 && BackFacts(r, me, v)
    ensures Nearer(r, me, NextLook(me, v, me.pc.l), v)
  {
  }

  lemma LooksBackThen(r: Role, me: Side, v: View)
    requires (me.pc == Look(SetWaiting) || me.pc == Look(Recheck)) && BackRank(me, v.peerFlags.closed) > 1 && BackFacts(r, me, v)
    ensures Nearer(r, me, NextLook(me, v, me.pc.l), v)
  {
  }

  lemma SettlesBackClosed(r: Role, me: Side, v: View)
    requires me.pc == Settle(Closed) && BackRank(me, v.peerFlags.closed) > 1 && BackFacts(r, me, v)
    ensures Nearer(r, me, NextSettle(r, me, v, Closed), v)
  {
  }

  lemma SettlesBackProbe(r: Role, me: Side, v: View)
    requires me.pc == Settle(Probe) && BackRank(me, v.peerFlags.closed) > 1 && BackFacts(r, me, v)
    ensures Nearer(r, me, NextSettle(r, me, v, Probe), v)
  {
  }

  lemma SettlesBackChoose(r: Role, me: Side, v: View)
    requires me.pc == Settle(Choose) && BackRank(me, v.peerFlags.closed) > 1 && BackFacts(r, me, v)
    ensures Nearer(r, me, NextSettle(r, me, v, Choose), v)
  {
  }

  lemma SettlesBackWake(r: Role, me: Side, v: View)
    requires me.pc == Settle(WakePeer) && BackRank(me, v.peerFlags.closed) > 1 && BackFacts(r, me, v)
    ensures Nearer(r, me, NextSettle(r, me, v, WakePeer), v)
  {
  }

  lemma DozesBack(r: Role, c: Choice, me: Side, v: View)
    requires me.pc.Doze? && BackFacts(r, me, v) && !c.Interrupt?
    ensures Nearer(r, me, NextDoze(c, me, v, me.pc.z), v)
  {
  }

  lemma WakesBackIn(r: Role, me: Side, v: View)
    requires (me.pc == Wake(ClearLatent) || me.pc == Wake(BrokenCheck)) && BackFacts(r, me, v)
    ensures Nearer(r, me, NextWake(r, me, v, me.pc.k), v)
  {
  }

  lemma WakesBackOut(r: Role, me: Side, v: View)
    requires me.pc.Wake? && !me.pc.k.ClearLatent? && !me.pc.k.BrokenCheck?
    requires BackRank(me, v.peerFlags.closed) > 1 && BackFacts(r, me, v)
    ensures Nearer(r, me, NextWake(r, me, v, me.pc.k), v)
  {
  }

  lemma WakesBack(r: Role, me: Side, v: View)
    requires me.pc.Wake? && BackRank(me, v.peerFlags.closed) > 1 && BackFacts(r, me, v)
    ensures Nearer(r, me, NextWake(r, me, v, me.pc.k), v)
  {
    if me.pc.k.ClearLatent? || me.pc.k.BrokenCheck? { WakesBackIn(r, me, v); } else { WakesBackOut(r, me, v); }
  }

  lemma CallsBack(r: Role, c: Choice, me: Side, v: View)
    requires (me.pc.SetActive? || me.pc.EntryCheck?) && BackRank(me, v.peerFlags.closed) > 1 && BackFacts(r, me, v)
    ensures Nearer(r, me, NextCall(r, c, me, v), v)
  {
  }

  lemma BackSide(r: Role, c: Choice, me: Side, v: View)
    requires BackRank(me, v.peerFlags.closed) > 1 && BackFacts(r, me, v) && !c.Deliver? && !c.Die? && !c.Interrupt?
    ensures Nearer(r, me, Next(r, c, me, v), v)
  {
    match me.pc
    case Look(l) => if l.Head? || l.Snap? { LooksBackFirst(r, me, v); } else { LooksBackThen(r, me, v); }
    case Settle(q) => SettlesBack(r, me, v);
    case Doze(_) => DozesBack(r, c, me, v);
    case Wake(_) => WakesBack(r, me, v);
    case _ => CallsBack(r, c, me, v);
  }

  lemma SettlesBack(r: Role, me: Side, v: View)
    requires me.pc.Settle? && BackRank(me, v.peerFlags.closed) > 1 && BackFacts(r, me, v)
    ensures Nearer(r, me, NextSettle(r, me, v, me.pc.q), v)
  {
    match me.pc.q
    case Closed => SettlesBackClosed(r, me, v);
    case Probe => SettlesBackProbe(r, me, v);
    case Choose => SettlesBackChoose(r, me, v);
    case WakePeer => SettlesBackWake(r, me, v);
  }

  /** The peer is gone or dead, and there is nothing left to read, or no room; or the call is a write that has not looked yet. */
  ghost predicate ComesBack(s: State, r: Role) {
    var whole :=
      && Inv(s) && s.broken && s.Peer(r).pc.Over() && BackRank(s.Me(r), s.Peer(r).flags.closed) > 0
      && (s.Me(r).pc.EntryCheck? ==> r == Writer)
      && (s.Avail(r) == 0 || (r == Writer && (s.Me(r).pc.SetActive? || s.Me(r).pc.EntryCheck? || s.Me(r).pc.Return?)));
    whole
  }

  lemma BackFactsHold(s: State, r: Role)
    requires ComesBack(s, r) && !s.Me(r).pc.Return?
    ensures BackFacts(r, s.Me(r), s.Seen(r)) && (s.Seen(r).stuck <==> s.Avail(r) == 0)
  {
    StuckMeansNothingAvailable(s, r);
    assert ClosedSeen(s, r);
  }

  lemma BackStep(s: State, r: Role, c: Choice)
    requires ComesBack(s, r) && BackRank(s.Me(r), s.Peer(r).flags.closed) > 1 && !c.Deliver? && !c.Die? && !c.Interrupt?
    ensures var t := Do(s, r, c);
      && ComesBack(t, r) && t.Peer(r).flags.closed == s.Peer(r).flags.closed
      && BackRank(t.Me(r), t.Peer(r).flags.closed) < BackRank(s.Me(r), s.Peer(r).flags.closed)
      && Verdict(r, t.Me(r), t.Peer(r).flags.closed) == Verdict(r, s.Me(r), s.Peer(r).flags.closed)
  {
    BackFactsHold(s, r);
    BackSide(r, c, s.Me(r), s.Seen(r));
    StepInv(s, r, c);
    QuietMoved(s, r, c);
    BackGoesOn(s, Do(s, r, c), r);
  }

  lemma BackGoesOn(s: State, t: State, r: Role)
    requires ComesBack(s, r) && Inv(t) && Nearer(r, s.Me(r), t.Me(r), s.Seen(r)) && (s.Seen(r).stuck <==> s.Avail(r) == 0)
    requires t.d == s.d && t.broken == s.broken && t.Peer(r).flags.closed == s.Peer(r).flags.closed && t.Peer(r).pc == s.Peer(r).pc
    ensures ComesBack(t, r) && BackRank(t.Me(r), t.Peer(r).flags.closed) < BackRank(s.Me(r), s.Peer(r).flags.closed)
    ensures Verdict(r, t.Me(r), t.Peer(r).flags.closed) == Verdict(r, s.Me(r), s.Peer(r).flags.closed)
  {
  }

  lemma BackRests(s: State, r: Role, e: Event)
    requires ComesBack(s, r) && !OwnStep(e, r)
    ensures var t := Do(s, e.r, e.c);
      && ComesBack(t, r) && t.Peer(r).flags.closed == s.Peer(r).flags.closed
      && BackRank(t.Me(r), t.Peer(r).flags.closed) == BackRank(s.Me(r), s.Peer(r).flags.closed)
      && Verdict(r, t.Me(r), t.Peer(r).flags.closed) == Verdict(r, s.Me(r), s.Peer(r).flags.closed)
  {
    OthersStep(s, r, e);
    if e.r == r { DeliveryRests(s, r); } else { OverRests(s, e.r, e.c); }
  }

  lemma DeliveryRests(s: State, r: Role)
    requires Shape(s)
    ensures Do(s, r, Deliver).d == s.d && Do(s, r, Deliver).Peer(r) == s.Peer(r) && Do(s, r, Deliver).broken == s.broken
  {
  }

  lemma OverRests(s: State, q: Role, c: Choice)
    requires Shape(s) && s.Me(q).pc.Over()
    ensures var t := Do(s, q, c);
      t.d == s.d && t.broken == s.broken && t.Peer(q) == s.Peer(q) && t.Me(q) == s.Me(q).(inflight := t.Me(q).inflight, latent := t.Me(q).latent)
  {
  }

  /**
    On a pipe that the peer has broken, with nothing left to read or no room, a wait that has the means to know comes back within thirty steps
    of its own, under any schedule that neither kills nor interrupts it: if the peer had closed, from anywhere in a wait or from the call's
    beginning, and if it was killed, from any sleep. A write comes back -1, and a read 0 exactly when the writer had closed; but
    for a read whose round is already past its snapshot, with the last of its loops, so that it goes to the probe.
   */
  lemma {:induction false} BrokenEndsWait(s: State, r: Role, schedule: seq<Event>) returns (k: nat)
    requires ComesBack(s, r) && OwnSteps(schedule, r) >= 30
    requires NotKilled(schedule, r) && NotInterrupted(schedule, r)
    ensures k <= |schedule|
    ensures var t := Run(s, schedule[..k]); t.Me(r).pc.Return? && t.Me(r).pc.outcome.Value() == Verdict(r, s.Me(r), s.Peer(r).flags.closed)
  {
    k := GetsBack(s, r, schedule);
  }

  lemma {:induction false} GetsBack(s: State, r: Role, schedule: seq<Event>) returns (k: nat)
    requires ComesBack(s, r) && OwnSteps(schedule, r) + 1 >= BackRank(s.Me(r), s.Peer(r).flags.closed)
    requires NotKilled(schedule, r) && NotInterrupted(schedule, r)
    ensures k <= |schedule|
    ensures var t := Run(s, schedule[..k]); t.Me(r).pc.Return? && t.Me(r).pc.outcome.Value() == Verdict(r, s.Me(r), s.Peer(r).flags.closed)
    decreases |schedule|
  {
    if s.Me(r).pc.Return? {
      k := 0;
    } else {
      var t := BackTurns(s, r, schedule);
      k := GetsBack(t, r, schedule[1..]);
      assert Run(s, schedule[..k + 1]) == Run(t, schedule[1..][..k]);
      k := k + 1;
    }
  }

  /** The first step of a schedule, and the rest of it. */
  lemma BackTurns(s: State, r: Role, schedule: seq<Event>) returns (t: State)
    requires ComesBack(s, r) && !s.Me(r).pc.Return? && OwnSteps(schedule, r) + 1 >= BackRank(s.Me(r), s.Peer(r).flags.closed)
    requires NotKilled(schedule, r) && NotInterrupted(schedule, r)
    ensures schedule != [] && ComesBack(t, r) && OwnSteps(schedule[1..], r) + 1 >= BackRank(t.Me(r), t.Peer(r).flags.closed)
    ensures Verdict(r, t.Me(r), t.Peer(r).flags.closed) == Verdict(r, s.Me(r), s.Peer(r).flags.closed)
    ensures forall k: nat {:trigger schedule[1..][..k]} :: k < |schedule| ==> Run(s, schedule[..k + 1]) == Run(t, schedule[1..][..k])
  {
    assert BackRank(s.Me(r), s.Peer(r).flags.closed) > 1;
    var e := schedule[0];
    t := Do(s, e.r, e.c);
    if OwnStep(e, r) { BackStep(s, r, e.c); } else { BackRests(s, r, e); }
    forall k: nat | k < |schedule| ensures Run(s, schedule[..k + 1]) == Run(t, schedule[1..][..k]) { RunFirst(s, schedule, k + 1); }
  }

  // ----- closing while the peer sleeps -----

  /** r is in free, its peer asleep for good with nothing to do. */
  ghost predicate ClosesOnSleeper(s: State, r: Role) {
    var whole := Frees(s, r) && ToGone(s.Me(r).pc) > 0 && FastAsleep(s, r.Other()) && s.Avail(r.Other()) == 0;
    whole
  }

  lemma ClosingStep(s: State, r: Role, e: Event)
    requires ClosesOnSleeper(s, r) && Undisturbed(e, r)
    ensures var t := Do(s, e.r, e.c);
      if ToGone(t.Me(r).pc) == 0 then ComesBack(t, r.Other()) && t.Peer(r).pc == Doze(Blocked) && t.Me(r).flags.closed
      else ClosesOnSleeper(t, r) && ToGone(t.Me(r).pc) + (if OwnStep(e, r) then 1 else 0) <= ToGone(s.Me(r).pc)
  {
    FreeStep(s, r, e);
    if e.r == r { FreerMoves(s, r, e.c); } else { SleeperSleeps(s, r, e.c); }
  }

  lemma FreerMoves(s: State, r: Role, c: Choice)
    requires ClosesOnSleeper(s, r) && !c.Die?
    ensures var t := Do(s, r, c);
      t.Peer(r).pc == Doze(Blocked) && t.d == s.d && (!t.Me(r).pc.Gone? ==> FastAsleep(t, r.Other()))
  {
    DoSteps(s, r, c);
    DataAtRest(s, r, c);
    if s.Me(r).pc.SetClosed? { StepAlone(s, r, c); }
  }

  lemma SleeperSleeps(s: State, r: Role, c: Choice)
    requires ClosesOnSleeper(s, r) && !c.Die? && !c.Interrupt?
    ensures Do(s, r.Other(), c) == s
  {
  }

  lemma {:induction false} OwnStepsAdd(a: seq<Event>, b: seq<Event>, q: Role)
    ensures OwnSteps(a + b, q) == OwnSteps(a, q) + OwnSteps(b, q)
    decreases |a|
  {
    if a == [] {
      assert a + b == b;
    } else {
      assert (a + b)[1..] == a[1..] + b;
      OwnStepsAdd(a[1..], b, q);
    }
  }

  lemma {:induction false} SleeperGetsBack(s: State, r: Role, a: seq<Event>, b: seq<Event>) returns (k: nat)
    requires ClosesOnSleeper(s, r) && Calm(a + b, r) && OwnSteps(a, r) >= ToGone(s.Me(r).pc) && OwnSteps(b, r.Other()) >= 30
    ensures k <= |a + b| && BackFromSleep(Run(s, (a + b)[..k]), r)
    decreases |a|
  {
    var t := ClosingTurns(s, r, a, b);
    if ToGone(t.Me(r).pc) == 0 {
      k := ToldGetsBack(t, r, a[1..] + b);
    } else {
      k := SleeperGetsBack(t, r, a[1..], b);
    }
    assert Run(s, (a + b)[..k + 1]) == Run(t, (a[1..] + b)[..k]);
    k := k + 1;
  }

  lemma ToldGetsBack(s: State, r: Role, schedule: seq<Event>) returns (k: nat)
    requires ComesBack(s, r.Other()) && s.Peer(r).pc == Doze(Blocked) && s.Me(r).flags.closed
    requires NotKilled(schedule, r.Other()) && NotInterrupted(schedule, r.Other()) && OwnSteps(schedule, r.Other()) >= 30
    ensures k <= |schedule| && BackFromSleep(Run(s, schedule[..k]), r)
  {
    k := BrokenEndsWait(s, r.Other(), schedule);
  }

  /** The peer of r has come back from its sleep. */
  predicate BackFromSleep(t: State, r: Role) {
    t.Peer(r).pc.Return? && t.Peer(r).pc.outcome.Value() == if r == Reader then -1 else 0
  }

  /** The first step of the two schedules, and the rest of them. */
  lemma ClosingTurns(s: State, r: Role, a: seq<Event>, b: seq<Event>) returns (t: State)
    requires ClosesOnSleeper(s, r) && Calm(a + b, r) && OwnSteps(a, r) >= ToGone(s.Me(r).pc) && OwnSteps(b, r.Other()) >= 30
    ensures a != [] && Calm(a[1..] + b, r) && NotKilled(a[1..] + b, r.Other()) && NotInterrupted(a[1..] + b, r.Other())
    ensures OwnSteps(a[1..] + b, r.Other()) >= 30
    ensures if ToGone(t.Me(r).pc) == 0 then ComesBack(t, r.Other()) && t.Peer(r).pc == Doze(Blocked) && t.Me(r).flags.closed
            else ClosesOnSleeper(t, r) && OwnSteps(a[1..], r) >= ToGone(t.Me(r).pc)
    ensures forall k: nat {:trigger (a[1..] + b)[..k]} :: k < |a + b| ==> Run(s, (a + b)[..k + 1]) == Run(t, (a[1..] + b)[..k])
  {
    var e, rest := a[0], a[1..] + b;
    assert (a + b)[0] == e && (a + b)[1..] == rest;
    CalmTail(a + b, r);
    ClosingStep(s, r, e);
    t := Do(s, e.r, e.c);
    OwnStepsAdd(a[1..], b, r.Other());
    CalmOther(rest, r);
    forall k: nat | k < |a + b| ensures Run(s, (a + b)[..k + 1]) == Run(t, rest[..k]) { RunFirst(s, a + b, k + 1); }
  }

  lemma CalmOther(schedule: seq<Event>, r: Role)
    requires Calm(schedule, r)
    ensures NotKilled(schedule, r.Other()) && NotInterrupted(schedule, r.Other())
  {
    forall k | 0 <= k < |schedule|
      ensures !(schedule[k].r == r.Other() && (schedule[k].c.Die? || schedule[k].c.Interrupt?))
    {
      assert Undisturbed(schedule[k], r);
    }
  }

  /**
    An end asleep for good with nothing to do when its peer is freed comes back: a write on a full ring fails, and a read on an empty one
    says end of file. For this free needs its two steps, and the sleeper thirty after that.
   */
  lemma CloseEndsSleep(s: State, r: Role, a: seq<Event>, b: seq<Event>) returns (k: nat)
    requires Inv(s) && s.Me(r).pc.Idle? && FastAsleep(s, r.Other()) && s.Avail(r.Other()) == 0
    requires Calm(a + b, r) && OwnSteps(a, r) >= 2 && OwnSteps(b, r.Other()) >= 30
    ensures k <= |a + b| && BackFromSleep(Run(Do(s, r, BeginClose), (a + b)[..k]), r)
  {
    StepInv(s, r, BeginClose);
    StepAlone(s, r, BeginClose);
    k := SleeperGetsBack(Do(s, r, BeginClose), r, a, b);
  }
}