/**
  How calls end: a call with something to move moves it, a sleep that fails fails the call and nothing else makes it fail, and an
  end with nothing to do goes to sleep beside an idle peer, or never does.
  (xen_shm_pipe.c:331-494, 500-886)
 */
module ProtocolCalls {
  import opened Protocol
  import opened ProtocolInvariant
  import opened ProtocolTheorems
  import opened ProtocolSignals
  import Fifo

  /** What a step of the peer, or a delivery, can change of an end. */
  predicate Left(me: Side, n: Side) {
    n == me.(inflight := n.inflight, latent := n.latent, mark := n.mark, flags := me.flags.(waiting := n.flags.waiting))
  }

  /** From s to t without a step of r. */
  ghost predicate LeftAlone(s: State, t: State, r: Role) {
    var me, n := s.Me(r), t.Me(r);
    var whole :=
      && Left(me, n) && (me.latent ==> n.latent) && (me.inflight ==> n.inflight || n.latent) && (s.broken ==> t.broken)
      && t.Pub(r) == s.Pub(r) && t.Loc(r) == s.Loc(r) && t.Avail(r) >= s.Avail(r) && Snapped(t, r) == Snapped(s, r) && Reach(t, r) >= Reach(s, r);
    whole
  }

  /** Any event but the end's own steps. */
  lemma OthersStep(s: State, r: Role, e: Event)
    requires Inv(s) && !OwnStep(e, r)
    ensures Inv(Do(s, e.r, e.c)) && LeftAlone(s, Do(s, e.r, e.c), r)
  {
    StepInv(s, e.r, e.c);
    DoSteps(s, e.r, e.c);
    if e.r == r { DeliveryLeaves(s, r); } else { PeerLeaves(s, Do(s, e.r, e.c), r, e.c); }
  }

  lemma DeliveryLeaves(s: State, r: Role)
    requires Shape(s)
    ensures LeftAlone(s, Do(s, r, Deliver), r)
  {
  }

  lemma PeerLeaves(s: State, t: State, r: Role, c: Choice)
    requires Stepped(s, t, r.Other(), c)
    ensures LeftAlone(s, t, r)
  {
  }

  /** What the snapshot of the peer's cursor leaves for the present call, counted from where it began. */
  function Snapped(s: State, r: Role): int {
    if r == Reader then s.d.wSnap - s.reader.start else s.d.rSnap + s.d.n - 1 - s.writer.start
  }

  /** What the peer has published for the present call, counted from where it began. */
  function Reach(s: State, r: Role): int {
    if r == Reader then s.d.wPub - s.reader.start else s.d.rPub + s.d.n - 1 - s.writer.start
  }

  // ----- a sleep that fails -----

  /** The end is not on the way out after an interruption; what else fails a sleep is a broken pipe, for the writer. */
  predicate Excused(s: State, r: Role) { ExcusedPc(s.Me(r).pc, r, s.broken) }

  predicate ExcusedPc(pc: Pc, r: Role, broken: bool) {
    match pc
    case Wake(k) => (k.WakeUp? ==> k.how != Interrupted && (k.how == Epipe ==> broken)) && (k.DropWaiting? ==> k.why == Epipe && broken && r == Writer)
    case Return(o) => o.AwaitFailed? ==> o.how == Epipe && broken && r == Writer
    case _ => true
  }

  lemma ExcusedSide(r: Role, c: Choice, me: Side, v: View)
    requires ExcusedPc(me.pc, r, v.broken) && !c.Deliver? && !c.Interrupt?
    ensures ExcusedPc(Next(r, c, me, v).pc, r, v.broken)
  {
    if !c.Die? {
      match me.pc
      case Wake(_) => ExcusedWake(r, me, v);
      case Doze(_) => ExcusedDoze(c, me, v);
      case _ => ExcusedRest(r, c, me, v);
    }
  }

  lemma ExcusedWake(r: Role, me: Side, v: View)
    requires me.pc.Wake? && ExcusedPc(me.pc, r, v.broken)
    ensures ExcusedPc(NextWake(r, me, v, me.pc.k).pc, r, v.broken)
  {
  }

  lemma ExcusedDoze(c: Choice, me: Side, v: View)
    requires me.pc.Doze? && !c.Interrupt?
    ensures var pc := NextDoze(c, me, v, me.pc.z).pc; pc.Doze? || pc == Wake(ClearLatent) || (pc == Wake(WakeUp(Epipe)) && v.broken)
  {
  }

  /** A step of the other kinds neither leaves a sleep nor fails for one. */
  predicate NoSleepFails(me: Pc, pc: Pc) { !pc.Wake? && (pc.Return? && pc.outcome.AwaitFailed? ==> pc == me) }

  lemma ExcusedRest(r: Role, c: Choice, me: Side, v: View)
    requires !c.Deliver? && !c.Die? && !me.pc.Doze? && !me.pc.Wake?
    ensures NoSleepFails(me.pc, Next(r, c, me, v).pc)
  {
    match me.pc
    case Look(_) => ExcusedLook(me, v);
    case Settle(_) => ExcusedSettle(r, me, v);
    case Copy(_) => ExcusedCopy(c, me, v);
    case Check(_) => ExcusedCheck(me, v);
    case _ => if me.pc.CallBoundary() { ExcusedCall(r, c, me, v); } else { FinishPc(me, v); }
  }

  lemma ExcusedLook(me: Side, v: View)
    requires me.pc.Look?
    ensures NoSleepFails(me.pc, NextLook(me, v, me.pc.l).pc)
  {
  }

  lemma ExcusedCopy(c: Choice, me: Side, v: View)
    requires me.pc.Copy?
    ensures NoSleepFails(me.pc, NextCopy(c, me, v, me.pc.x).pc)
  {
  }

  lemma ExcusedCheck(me: Side, v: View)
    requires me.pc.Check?
    ensures NoSleepFails(me.pc, NextCheck(me, v, me.pc.y).pc)
  {
  }

  lemma ExcusedSettle(r: Role, me: Side, v: View)
    requires me.pc.Settle?
    ensures NoSleepFails(me.pc, NextSettle(r, me, v, me.pc.q).pc)
  {
  }

  lemma ExcusedCall(r: Role, c: Choice, me: Side, v: View)
    requires me.pc.CallBoundary()
    ensures NoSleepFails(me.pc, NextCall(r, c, me, v).pc)
  {
  }

  lemma ExcusedStep(s: State, r: Role, e: Event)
    requires Inv(s) && Excused(s, r) && !(e.r == r && e.c.Interrupt?)
    ensures var t := Do(s, e.r, e.c); Inv(t) && Excused(t, r)
  {
    StepInv(s, e.r, e.c);
    DoSteps(s, e.r, e.c);
    if OwnStep(e, r) {
      ExcusedSide(r, e.c, s.Me(r), s.Seen(r));
    } else {
      OthersStep(s, r, e);
    }
  }

  predicate NotInterrupted(schedule: seq<Event>, r: Role) {
    forall k :: 0 <= k < |schedule| ==> !(schedule[k].r == r && schedule[k].c.Interrupt?)
  }

  lemma {:induction false} ExcusedRun(s: State, r: Role, schedule: seq<Event>)
    requires Inv(s) && Excused(s, r) && NotInterrupted(schedule, r)
    ensures Inv(Run(s, schedule)) && Excused(Run(s, schedule), r)
    decreases |schedule|
  {
    if schedule != [] {
      ExcusedStep(s, r, schedule[0]);
      ExcusedRun(Do(s, schedule[0].r, schedule[0].c), r, schedule[1..]);
    }
  }

  /**
    A call comes back for a failed sleep only if its process was interrupted during the call, or, for the writer, the pipe is broken:
    over any schedule without such an interruption no reader's call fails so, and no writer's but with EPIPE on a broken pipe.
   */
  lemma SleepFailsOnlyFor(s: State, r: Role, nbytes: nat, schedule: seq<Event>)
    requires Inv(s) && s.Me(r).pc.Idle?
    requires var pc := Run(Do(s, r, BeginCall(nbytes)), schedule).Me(r).pc; pc.Return? && pc.outcome.AwaitFailed?
    ensures NotInterrupted(schedule, r) ==>
      var t := Run(Do(s, r, BeginCall(nbytes)), schedule); r == Writer && t.broken && t.Me(r).pc.outcome.how == Epipe
  {
    if NotInterrupted(schedule, r) {
      StepInv(s, r, BeginCall(nbytes));
      ExcusedRun(Do(s, r, BeginCall(nbytes)), r, schedule);
    }
  }

  // ----- work is done -----

  /** How far a call with work has still to go, but for the bytes: six more steps for each that may be published on its own. */
  function WorkRank(pc: Pc, ahead: bool): (rank: nat)
    ensures rank <= 15
  {
    match pc
    case SetActive => 13
    case EntryCheck => 12
    case Look(l) => LookRank(l)
    case Doze(z) => if z.Blocked? then 15 else 0
    case Wake(k) => WakeRank(k)
    case Copy(x) => CopyRank(x, ahead)
    case Check(y) => CheckRank(y)
    case Return(_) => 1
    case _ => 0
  }

  function LookRank(l: LookPc): (rank: nat)
    ensures rank <= 15
  {
    match l
    case Head => 11
    case Snap => 10
    case SetWaiting => 9
    case Recheck => 8
    case Leave => 7
  }

  function WakeRank(k: WakePc): (rank: nat)
    ensures rank <= 15
  {
    match k
    case ClearLatent => 14
    case BrokenCheck => 13
    case WakeUp(how) => if how == Interrupted then 0 else 12
    case DropWaiting(why) => if why == Interrupted then 0 else 2
  }

  function CopyRank(x: CopyPc, ahead: bool): (rank: nat)
    ensures rank <= 15
  {
    match x
    case Load => 6
    case Loop => 5
    case Chunk => if ahead then 10 else 4
    case Refresh => 7
    case Publish => 6
  }

  function CheckRank(y: CheckPc): (rank: nat)
    ensures rank <= 15
  {
    match y
    case MidCheck => 9
    case MidSignal => 8
    case FinalCheck => 4
    case FinalSignal => 3
  }

  /** Bytes the call may still move. */
  function Wanting(s: State, r: Role): int { s.Me(r).nbytes - s.Taken(r) }

  function WorkLeft(s: State, r: Role): int { 7 * Wanting(s, r) + WorkRank(s.Me(r).pc, s.Pub(r) < s.Loc(r)) }

  /** The call has moved what there was, or as much as was asked for; or it is the writer's, and the pipe is broken or the reader has closed. */
  predicate ReturnsWell(r: Role, outcome: Outcome, broken: bool, peerClosed: bool, least: int) {
    match outcome
    case Moved(count) => count >= least
    case AwaitFailed(how) => how == Epipe && r == Writer && broken
    case PeerClosed => r == Writer && peerClosed
    case _ => false
  }

  /** How many bytes the peer has published for the call, or how much room, counted from where the call began; and how many are asked for. */
  datatype Task = Task(there: int, wanted: nat) {
    function Least(): int { if wanted < there then wanted else there }
  }

  /** What an end in a call knows of the data: what the peer has published, what is in its snapshot, and what is moved; and whether it has copied ahead. */
  datatype Data = Data(reach: int, snapped: int, taken: int, ahead: bool)

  function DataOf(s: State, r: Role): Data { Data(Reach(s, r), Snapped(s, r), s.Taken(r), s.Pub(r) < s.Loc(r)) }

  predicate WakesWell(k: WakePc, broken: bool) {
    match k
    case WakeUp(how) => how != Interrupted && (how == Epipe ==> broken)
    case DropWaiting(why) => why == Epipe && broken
    case _ => true
  }

  /** In a call that began to look with the task before it, with nothing in its way. */
  predicate AtWork(r: Role, me: Side, d: Data, broken: bool, peerClosed: bool, task: Task) {
    match me.pc
    case SetActive => d.reach >= task.there
    case EntryCheck => r == Writer && d.reach >= task.there
    case Look(_) => d.reach >= task.there
    case Doze(z) => z.Blocked? && d.reach >= task.there && (me.inflight || me.latent || broken)
    case Wake(k) => d.reach >= task.there && WakesWell(k, broken)
    case Copy(x) => if x.Loop? || x.Publish? then d.snapped >= task.there else d.reach >= task.there
    case Check(y) => if y.FinalCheck? || y.FinalSignal? then d.taken >= task.Least() else d.reach >= task.there
    case Return(outcome) => ReturnsWell(r, outcome, broken, peerClosed, task.Least())
    case _ => false
  }

  ghost predicate Works(s: State, r: Role, task: Task) {
    var whole :=
      && Inv(s) && task.there > 0 && s.Me(r).nbytes == task.wanted
      && AtWork(r, s.Me(r), DataOf(s, r), s.broken, s.Peer(r).flags.closed, task);
    whole
  }

  /** A step of the end's own that does something: it copies a byte or ends its chunk, and it is not asleep with no event delivered. */
  predicate Advances(s: State, e: Event, r: Role)
    requires Shape(s)
  {
    && OwnStep(e, r) && !e.c.Die? && !e.c.Interrupt?
    && (s.Me(r).pc == Copy(Chunk) ==> if e.c.CopyByte? then s.CanCopy(r) else e.c.EndChunk? && s.Pub(r) < s.Loc(r))
    && (s.Me(r).pc == Doze(Blocked) ==> s.Me(r).latent || s.broken)
  }

  /** From me to n: still at work, and closer, with the same request. */
  predicate Closer(r: Role, me: Side, n: Side, d: Data, v: View, task: Task) {
    var whole :=
      && AtWork(r, n, d, v.broken, v.peerFlags.closed, task)
      && n.nbytes == me.nbytes && n.start == me.start && WorkRank(n.pc, d.ahead) < WorkRank(me.pc, d.ahead);
    whole
  }

  lemma WorkLookFirst(r: Role, me: Side, d: Data, v: View, task: Task)
    requires me.pc.Look? && AtWork(r, me, d, v.broken, v.peerFlags.closed, task) && !v.stuck && (me.pc.l.Head? || me.pc.l.Snap?)
    ensures Closer(r, me, NextLook(me, v, me.pc.l), d, v, task)
  {
  }

  lemma WorkLookSecond(r: Role, me: Side, d: Data, v: View, task: Task)
    requires me.pc.Look? && AtWork(r, me, d, v.broken, v.peerFlags.closed, task) && !v.stuck && (me.pc.l.SetWaiting? || me.pc.l.Recheck?)
    ensures Closer(r, me, NextLook(me, v, me.pc.l), d, v, task)
  {
  }

  lemma WorkLookOver(r: Role, me: Side, d: Data, v: View, task: Task)
    requires me.pc.Look? && AtWork(r, me, d, v.broken, v.peerFlags.closed, task) && !v.stuck && me.pc.l.Leave?
    ensures Closer(r, me, NextLook(me, v, me.pc.l), d, v, task)
  {
  }

  lemma WorkLook(r: Role, me: Side, d: Data, v: View, task: Task)
    requires me.pc.Look? && AtWork(r, me, d, v.broken, v.peerFlags.closed, task) && !v.stuck
    ensures Closer(r, me, NextLook(me, v, me.pc.l), d, v, task)
  {
    if (me.pc.l.Head? || me.pc.l.Snap?) {
      WorkLookFirst(r, me, d, v, task);
    } else if (me.pc.l.SetWaiting? || me.pc.l.Recheck?) {
      WorkLookSecond(r, me, d, v, task);
    } else {
      WorkLookOver(r, me, d, v, task);
    }
  }

  lemma WorkSleep(r: Role, c: Choice, me: Side, d: Data, v: View, task: Task)
    requires me.pc.Doze? && AtWork(r, me, d, v.broken, v.peerFlags.closed, task) && !c.Interrupt? && (me.latent || v.broken)
    ensures var n := NextDoze(c, me, v, me.pc.z); Closer(r, me, n, d, v, task)
  {
    assert NextDoze(c, me, v, me.pc.z) == me.(pc := Wake(ClearLatent));
  }

  lemma WorkWakeInAwait(r: Role, me: Side, d: Data, v: View, task: Task)
    requires me.pc.Wake? && AtWork(r, me, d, v.broken, v.peerFlags.closed, task) && SnapOk(r, me) && (me.pc.k.ClearLatent? || me.pc.k.BrokenCheck?)
    ensures Closer(r, me, NextWake(r, me, v, me.pc.k), d, v, task)
  {
  }

  lemma WorkWakeUp(r: Role, me: Side, d: Data, v: View, task: Task)
    requires me.pc.Wake? && AtWork(r, me, d, v.broken, v.peerFlags.closed, task) && SnapOk(r, me) && me.pc.k.WakeUp?
    ensures Closer(r, me, NextWake(r, me, v, me.pc.k), d, v, task)
  {
  }

  lemma WorkWakeOut(r: Role, me: Side, d: Data, v: View, task: Task)
    requires me.pc.Wake? && AtWork(r, me, d, v.broken, v.peerFlags.closed, task) && SnapOk(r, me) && me.pc.k.DropWaiting?
    ensures Closer(r, me, NextWake(r, me, v, me.pc.k), d, v, task)
  {
  }

  lemma WorkWake(r: Role, me: Side, d: Data, v: View, task: Task)
    requires me.pc.Wake? && AtWork(r, me, d, v.broken, v.peerFlags.closed, task) && SnapOk(r, me)
    ensures Closer(r, me, NextWake(r, me, v, me.pc.k), d, v, task)
  {
    if (me.pc.k.ClearLatent? || me.pc.k.BrokenCheck?) {
      WorkWakeInAwait(r, me, d, v, task);
    } else if me.pc.k.WakeUp? {
      WorkWakeUp(r, me, d, v, task);
    } else {
      WorkWakeOut(r, me, d, v, task);
    }
  }

  lemma WorkCheckMidway(r: Role, me: Side, d: Data, v: View, task: Task)
    requires me.pc.Check? && AtWork(r, me, d, v.broken, v.peerFlags.closed, task) && d.taken == v.loc - me.start && (me.pc.y.MidCheck? || me.pc.y.MidSignal?)
    ensures Closer(r, me, NextCheck(me, v, me.pc.y), d, v, task)
  {
  }

  lemma WorkCheckLast(r: Role, me: Side, d: Data, v: View, task: Task)
    requires me.pc.Check? && AtWork(r, me, d, v.broken, v.peerFlags.closed, task) && d.taken == v.loc - me.start && (me.pc.y.FinalCheck? || me.pc.y.FinalSignal?)
    ensures Closer(r, me, NextCheck(me, v, me.pc.y), d, v, task)
  {
  }

  lemma WorkCheck(r: Role, me: Side, d: Data, v: View, task: Task)
    requires me.pc.Check? && AtWork(r, me, d, v.broken, v.peerFlags.closed, task) && d.taken == v.loc - me.start
    ensures Closer(r, me, NextCheck(me, v, me.pc.y), d, v, task)
  {
    if (me.pc.y.MidCheck? || me.pc.y.MidSignal?) {
      WorkCheckMidway(r, me, d, v, task);
    } else {
      WorkCheckLast(r, me, d, v, task);
    }
  }

  lemma WorkCall(r: Role, c: Choice, me: Side, d: Data, v: View, task: Task)
    requires (me.pc.SetActive? || me.pc.EntryCheck?) && AtWork(r, me, d, v.broken, v.peerFlags.closed, task)
    ensures var n := NextCall(r, c, me, v); Closer(r, me, n, d, v, task)
  {
  }

  lemma WorkSide(r: Role, c: Choice, me: Side, d: Data, v: View, task: Task)
    requires AtWork(r, me, d, v.broken, v.peerFlags.closed, task) && SnapOk(r, me) && !me.pc.Copy? && !me.pc.Return?
    requires !c.Deliver? && !c.Die? && !c.Interrupt? && (me.pc.Doze? ==> me.latent || v.broken)
    requires (me.pc.Look? ==> !v.stuck) && d.taken == v.loc - me.start
    ensures var n := Next(r, c, me, v); Closer(r, me, n, d, v, task)
  {
    match me.pc
    case Look(_) => WorkLook(r, me, d, v, task);
    case Doze(_) => WorkSleep(r, c, me, d, v, task);
    case Wake(_) => WorkWake(r, me, d, v, task);
    case Check(_) => WorkCheck(r, me, d, v, task);
    case _ => WorkCall(r, c, me, d, v, task);
  }

  /** Before the transfer all the peer has published is there to move. */
  lemma ReachIsAvail(s: State, r: Role)
    requires Inv(s) && (BeforeTransfer(s.Me(r).pc) || s.Me(r).pc == Copy(Load))
    ensures Reach(s, r) == s.Avail(r) && s.Taken(r) == 0 && s.Loc(r) == s.Pub(r)
  {
    assert DataOk(s, r);
  }

  lemma WorkQuiet(s: State, r: Role, e: Event, task: Task)
    requires Works(s, r, task) && Advances(s, e, r) && !s.Me(r).pc.Copy? && !s.Me(r).pc.Return?
    ensures var t := Do(s, e.r, e.c); Works(t, r, task) && WorkLeft(t, r) < WorkLeft(s, r)
  {
    StuckMeansNothingAvailable(s, r);
    if BeforeTransfer(s.Me(r).pc) { ReachIsAvail(s, r); }
    WorkSide(r, e.c, s.Me(r), DataOf(s, r), s.Seen(r), task);
    StepInv(s, r, e.c);
    QuietMoved(s, r, e.c);
    WorkGoesOn(s, Do(s, e.r, e.c), r, task);
  }

  /** A step that neither copies nor closes. */
  lemma QuietMoved(s: State, r: Role, c: Choice)
    requires Inv(s) && !s.Me(r).pc.Copy? && !s.Me(r).pc.Release? && !c.Deliver? && !c.Die?
    ensures var t := Do(s, r, c);
      && t.Me(r) == Next(r, c, s.Me(r), s.Seen(r)) && t.d == s.d && t.broken == s.broken
      && t.Peer(r).flags.closed == s.Peer(r).flags.closed && t.Peer(r).pc == s.Peer(r).pc
  {
    DataAtRest(s, r, c);
    DoSteps(s, r, c);
    EffectsOfSteps(r, c, s.Me(r), s.Seen(r));
  }

  lemma WorkGoesOn(s: State, t: State, r: Role, task: Task)
    requires Works(s, r, task) && Inv(t) && Closer(r, s.Me(r), t.Me(r), DataOf(s, r), s.Seen(r), task)
    requires t.d == s.d && t.broken == s.broken && t.Peer(r).flags.closed == s.Peer(r).flags.closed
    ensures Works(t, r, task) && WorkLeft(t, r) < WorkLeft(s, r)
  {
  }

  /** A step of the copy loop, by what it does to the data. */
  predicate CopyMove(me: Side, d: Data, n: Side, e: Data) {
    && n == me.(pc := n.pc) && me.pc.Copy? && e.reach == d.reach
    && match me.pc.x
       case Load => n.pc == Copy(Loop) && e.snapped >= d.reach && e.taken == d.taken
       case Loop =>
         && e == d && !d.ahead && d.snapped <= d.reach
         && (n.pc == Copy(Chunk) || (n.pc == Check(FinalCheck) && (d.taken >= me.nbytes || d.taken >= d.snapped)))
       case Chunk =>
         || (n.pc == Copy(Chunk) && e.taken == d.taken + 1 && e.ahead)
         || ((n.pc == Copy(Refresh) || n.pc == Check(MidCheck)) && d.ahead && e == d)
       case Refresh => n.pc == Copy(Publish) && e.snapped >= d.reach && e.taken == d.taken
       case Publish => n.pc == Copy(Loop) && e.snapped == d.snapped && e.taken == d.taken
  }

  /** From s to t in the copy loop. */
  ghost predicate CopyMoved(s: State, t: State, r: Role) {
    var whole := CopyMove(s.Me(r), DataOf(s, r), t.Me(r), DataOf(t, r)) && t.broken == s.broken && t.Peer(r) == s.Peer(r);
    whole
  }

  lemma LoadMoved(s: State, r: Role, c: Choice)
    requires Inv(s) && s.Me(r).pc == Copy(Load) && !c.Deliver? && !c.Die?
    ensures CopyMoved(s, Do(s, r, c), r)
  {
    ReachIsAvail(s, r);
    var u := s.Put(r, s.Me(r).(pc := Copy(Loop)));
    LoadShows(u, r);
    assert Do(s, r, c) == Apply(u, r, LoadCursor);
  }

  lemma LoadShows(s: State, r: Role)
    requires Shape(s)
    ensures var t := Apply(s, r, LoadCursor);
      && t.Me(r) == s.Me(r) && t.Peer(r) == s.Peer(r) && t.broken == s.broken
      && Snapped(t, r) == Reach(t, r) == Reach(s, r) && t.Taken(r) == s.Taken(r) && t.Pub(r) == s.Pub(r) && t.Loc(r) == s.Loc(r)
  {
  }

  lemma LoopMoved(s: State, r: Role, c: Choice)
    requires Inv(s) && s.Me(r).pc == Copy(Loop) && !c.Deliver? && !c.Die?
    ensures CopyMoved(s, Do(s, r, c), r)
  {
    StepAlone(s, r, c);
    assert DataOk(s, r);
  }

  lemma ByteMoved(s: State, r: Role, b: byte)
    requires Inv(s) && s.Me(r).pc == Copy(Chunk) && s.CanCopy(r)
    ensures CopyMoved(s, Do(s, r, CopyByte(b)), r)
  {
    assert s.Put(r, s.Me(r)) == s && Do(s, r, CopyByte(b)) == Apply(s, r, CopyOne(b));
    ByteCopied(s, r, b);
    ByteKeeps(s, r, b);
  }

  lemma ByteKeeps(s: State, r: Role, b: byte)
    requires Shape(s)
    ensures var t := Apply(s, r, CopyOne(b)); t.Peer(r) == s.Peer(r) && t.broken == s.broken && Reach(t, r) == Reach(s, r)
  {
  }

  lemma ChunkMoved(s: State, r: Role, check: bool)
    requires Inv(s) && s.Me(r).pc == Copy(Chunk) && s.Pub(r) < s.Loc(r)
    ensures CopyMoved(s, Do(s, r, EndChunk(check)), r)
  {
    StepAlone(s, r, EndChunk(check));
  }

  lemma RefreshMoved(s: State, r: Role, c: Choice)
    requires Inv(s) && s.Me(r).pc == Copy(Refresh) && !c.Deliver? && !c.Die?
    ensures CopyMoved(s, Do(s, r, c), r)
  {
    assert Do(s, r, c).Me(r) == s.Me(r).(pc := Copy(Publish));
  }

  lemma PublishMoved(s: State, r: Role, c: Choice)
    requires Inv(s) && s.Me(r).pc == Copy(Publish) && !c.Deliver? && !c.Die?
    ensures CopyMoved(s, Do(s, r, c), r)
  {
    CursorStored(s.Put(r, NextCopy(c, s.Me(r), s.Seen(r), Publish)), r);
  }

  lemma CopySteps(s: State, r: Role, e: Event)
    requires Inv(s) && s.Me(r).pc.Copy? && Advances(s, e, r)
    ensures CopyMoved(s, Do(s, e.r, e.c), r)
  {
    match s.Me(r).pc.x
    case Load => LoadMoved(s, r, e.c);
    case Loop => LoopMoved(s, r, e.c);
    case Chunk => if e.c.CopyByte? { ByteMoved(s, r, e.c.b); } else { ChunkMoved(s, r, e.c.check); }
    case Refresh => RefreshMoved(s, r, e.c);
    case Publish => PublishMoved(s, r, e.c);
  }

  lemma CopyWorks(r: Role, me: Side, d: Data, n: Side, e: Data, broken: bool, closed: bool, task: Task)
    requires AtWork(r, me, d, broken, closed, task) && me.nbytes == task.wanted && CopyMove(me, d, n, e)
    requires me.pc == Copy(Publish) ==> !e.ahead
    ensures AtWork(r, n, e, broken, closed, task)
    ensures 7 * (n.nbytes - e.taken) + WorkRank(n.pc, e.ahead) < 7 * (me.nbytes - d.taken) + WorkRank(me.pc, d.ahead)
  {
    match me.pc.x
    case Load => assert WorkRank(n.pc, e.ahead) == 5;
    case Loop => assert WorkRank(n.pc, e.ahead) == 4;
    case Chunk => assert WorkRank(n.pc, e.ahead) <= 10;
    case Refresh => assert WorkRank(n.pc, e.ahead) == 6;
    case Publish => assert WorkRank(n.pc, e.ahead) == 5;
  }

  lemma WorkCopy(s: State, t: State, r: Role, task: Task)
    requires Works(s, r, task) && s.Me(r).pc.Copy? && CopyMoved(s, t, r) && Inv(t)
    ensures Works(t, r, task) && WorkLeft(t, r) < WorkLeft(s, r)
  {
    CopyWorks(r, s.Me(r), DataOf(s, r), t.Me(r), DataOf(t, r), s.broken, s.Peer(r).flags.closed, task);
  }

  lemma WorkStep(s: State, r: Role, e: Event, task: Task)
    requires Works(s, r, task) && Advances(s, e, r) && !s.Me(r).pc.Return?
    ensures var t := Do(s, e.r, e.c); Works(t, r, task) && WorkLeft(t, r) < WorkLeft(s, r)
  {
    if s.Me(r).pc.Copy? {
      StepInv(s, e.r, e.c);
      CopySteps(s, r, e);
      WorkCopy(s, Do(s, e.r, e.c), r, task);
    } else {
      WorkQuiet(s, r, e, task);
    }
  }

  /** Any other step that does not kill the end or interrupt it. */
  lemma WorkRests(s: State, r: Role, e: Event, task: Task)
    requires Works(s, r, task) && !s.Me(r).pc.Return? && !Advances(s, e, r) && !(e.r == r && (e.c.Die? || e.c.Interrupt?))
    ensures var t := Do(s, e.r, e.c); Works(t, r, task) && WorkLeft(t, r) == WorkLeft(s, r)
  {
    if OwnStep(e, r) {
      WorkIdles(s, r, e.c);
    } else {
      OthersStep(s, r, e);
      PeerClosedStays(s, r, e);
      WorkLeftAlone(s, Do(s, e.r, e.c), r, task);
    }
  }

  lemma WorkLeftAlone(s: State, t: State, r: Role, task: Task)
    requires Works(s, r, task) && Inv(t) && LeftAlone(s, t, r) && (s.Peer(r).flags.closed ==> t.Peer(r).flags.closed)
    ensures Works(t, r, task) && WorkLeft(t, r) == WorkLeft(s, r)
  {
    LeftAtWork(r, s.Me(r), t.Me(r), DataOf(s, r), DataOf(t, r), s.broken, t.broken, s.Peer(r).flags.closed, t.Peer(r).flags.closed, task);
  }

  /** The end waits for its event, or to be told what to copy. */
  lemma WorkIdles(s: State, r: Role, c: Choice)
    requires Shape(s) && OwnStep(Event(r, c), r) && !Advances(s, Event(r, c), r) && !c.Die? && !c.Interrupt?
    ensures Do(s, r, c) == s
  {
  }

  lemma LeftAtWork(r: Role, me: Side, n: Side, d: Data, e: Data, broken: bool, broken': bool, closed: bool, closed': bool, task: Task)
    requires AtWork(r, me, d, broken, closed, task) && Left(me, n) && (broken ==> broken') && (closed ==> closed')
    requires e == d.(reach := e.reach) && e.reach >= d.reach && (me.inflight || me.latent ==> n.inflight || n.latent)
    ensures AtWork(r, n, e, broken', closed', task)
  {
  }

  lemma PeerClosedStays(s: State, r: Role, e: Event)
    requires Inv(s)
    ensures s.Peer(r).flags.closed ==> Do(s, e.r, e.c).Peer(r).flags.closed
  {
    StepSummed(s, e.r, e.c);
  }

  /** How many steps of the end's own along the schedule do something. */
  function Efforts(s: State, schedule: seq<Event>, r: Role): nat
    requires Shape(s)
    decreases |schedule|
  {
    if schedule == [] then 0
    else (if Advances(s, schedule[0], r) then 1 else 0) + Efforts(Do(s, schedule[0].r, schedule[0].c), schedule[1..], r)
  }

  predicate NotKilled(schedule: seq<Event>, r: Role) {
    forall k :: 0 <= k < |schedule| ==> !(schedule[k].r == r && schedule[k].c.Die?)
  }

  /** There is always a step that does something, unless an event is still on its way to a sleeper. */
  lemma SomethingToDo(s: State, r: Role, task: Task) returns (c: Choice)
    requires Works(s, r, task) && !s.Me(r).pc.Return?
    ensures Advances(s, Event(r, c), r) || (s.Me(r).pc == Doze(Blocked) && s.Me(r).inflight && Advances(Do(s, r, Deliver), Event(r, c), r))
  {
    c := if s.Me(r).pc == Copy(Chunk) then (if s.CanCopy(r) then CopyByte(0) else EndChunk(false)) else Go;
  }

  /**
    A call with work does it. From the beginning of the call, from any look of its wait, from await with an event on its way, or from
    the transfer: under any schedule that neither kills nor interrupts it, the end comes back within its bound of steps that do something,
    having moved all that had been published, before its last look at the peer's cursor, or all it was asked for; but that a writer fails
    on a broken pipe or a closed one.
   */
  lemma {:induction false} WorkIsDone(s: State, r: Role, task: Task, schedule: seq<Event>) returns (k: nat)
    requires Works(s, r, task) && Efforts(s, schedule, r) >= WorkLeft(s, r)
    requires NotKilled(schedule, r) && NotInterrupted(schedule, r)
    ensures k <= |schedule| && WorkLeft(s, r) <= 7 * Wanting(s, r) + 15
    ensures var t := Run(s, schedule[..k]);
      && t.Me(r).pc.Return?
      && ReturnsWell(r, t.Me(r).pc.outcome, t.broken, t.Peer(r).flags.closed, task.Least())
    decreases |schedule|
  {
    WorkEnds(s, r, task);
    if s.Me(r).pc.Return? {
      k := 0;
    } else {
      var t := WorkTurns(s, r, task, schedule);
      k := WorkIsDone(t, r, task, schedule[1..]);
      assert Run(s, schedule[..k + 1]) == Run(t, schedule[1..][..k]);
      k := k + 1;
    }
  }

  /** The first step of a schedule, and the rest of it. */
  lemma WorkTurns(s: State, r: Role, task: Task, schedule: seq<Event>) returns (t: State)
    requires Works(s, r, task) && !s.Me(r).pc.Return? && Efforts(s, schedule, r) >= WorkLeft(s, r)
    requires NotKilled(schedule, r) && NotInterrupted(schedule, r)
    ensures schedule != [] && Works(t, r, task) && Efforts(t, schedule[1..], r) >= WorkLeft(t, r)
    ensures forall k: nat {:trigger schedule[1..][..k]} :: k < |schedule| ==> Run(s, schedule[..k + 1]) == Run(t, schedule[1..][..k])
  {
    WantsNoLess(s, r, task);
    var e := schedule[0];
    t := Do(s, e.r, e.c);
    if Advances(s, e, r) { WorkStep(s, r, e, task); } else { WorkRests(s, r, e, task); }
    forall k: nat | k < |schedule| ensures Run(s, schedule[..k + 1]) == Run(t, schedule[1..][..k]) { RunFirst(s, schedule, k + 1); }
  }

  /** The task when the call returns. */
  lemma WorkEnds(s: State, r: Role, task: Task)
    requires Works(s, r, task)
    ensures WorkLeft(s, r) <= 7 * Wanting(s, r) + 15
    ensures s.Me(r).pc.Return? ==> ReturnsWell(r, s.Me(r).pc.outcome, s.broken, s.Peer(r).flags.closed, task.Least())
  {
  }

  lemma WantsNoLess(s: State, r: Role, task: Task)
    requires Works(s, r, task) && !s.Me(r).pc.Return?
    ensures Wanting(s, r) >= 0 && WorkLeft(s, r) > 0
  {
    assert DataOk(s, r);
  }

  lemma WorkBegins(s: State, r: Role, nbytes: nat)
    requires Inv(s) && s.Me(r).pc.Idle? && s.Avail(r) > 0
    ensures Works(Do(s, r, BeginCall(nbytes)), r, Task(s.Avail(r), nbytes))
  {
    StepInv(s, r, BeginCall(nbytes));
    StepAlone(s, r, BeginCall(nbytes));
  }

  /**
    An end asleep with work and a signal on its way, or just woken by one, moves bytes: all there were when it slept, or all
    it was asked for; but that a writer fails on a broken pipe.
   */
  lemma WokenEndMoves(s: State, r: Role, schedule: seq<Event>) returns (k: nat)
    requires Inv(s) && s.Avail(r) > 0 && s.Me(r).nbytes > 0
    requires (s.Me(r).pc == Doze(Blocked) && (s.Me(r).inflight || s.Me(r).latent)) || s.Me(r).pc == Wake(WakeUp(Signalled))
    requires NotKilled(schedule, r) && NotInterrupted(schedule, r) && Efforts(s, schedule, r) >= 7 * s.Me(r).nbytes + 15
    ensures k <= |schedule|
    ensures var t := Run(s, schedule[..k]);
      && t.Me(r).pc.Return?
      && ReturnsWell(r, t.Me(r).pc.outcome, t.broken, t.Peer(r).flags.closed, Task(s.Avail(r), s.Me(r).nbytes).Least())
      && (r == Reader || (!t.broken && !t.Peer(r).flags.closed) ==> t.Me(r).pc.outcome.Value() > 0)
  {
    var task := Task(s.Avail(r), s.Me(r).nbytes);
    assert Works(s, r, task);
    assert DataOk(s, r);
    k := WorkIsDone(s, r, task, schedule);
  }

  // ----- WAITING is taken back -----

  /** In a call that began with WAITING clear: it is set only by the wait, and clear again from the end of the wait on. */
  predicate Tidy(me: Side) {
    if me.pc.Waits() then me.flags.waiting ==> me.unsetWait
    else if me.pc.Return? then me.pc.outcome.Moved? ==> !me.flags.waiting
    else me.pc.Idle? || me.pc.Dead? || (!me.flags.waiting && (me.pc.SetActive? || me.pc.EntryCheck? || me.pc.Copy? || me.pc.Check?))
  }

  lemma TidyLook(me: Side, v: View)
    requires me.pc.Look? && Tidy(me)
    ensures Tidy(NextLook(me, v, me.pc.l))
  {
    if me.pc.l.Head? || me.pc.l.Snap? { TidyLookFirst(me, v); } else { TidyLookThen(me, v); }
  }

  lemma TidyLookFirst(me: Side, v: View)
    requires (me.pc == Look(Head) || me.pc == Look(Snap)) && Tidy(me)
    ensures Tidy(NextLook(me, v, me.pc.l))
  {
  }

  lemma TidyLookThen(me: Side, v: View)
    requires me.pc.Look? && !me.pc.l.Head? && !me.pc.l.Snap? && Tidy(me)
    ensures Tidy(NextLook(me, v, me.pc.l))
  {
    if me.pc.l.Leave? { TidyLeave(me, v); }
  }

  lemma TidyLeave(me: Side, v: View)
    requires me.pc == Look(Leave) && Tidy(me)
    ensures Tidy(NextLook(me, v, Leave))
  {
  }

  lemma TidySettle(r: Role, me: Side, v: View)
    requires me.pc.Settle? && Tidy(me)
    ensures Tidy(NextSettle(r, me, v, me.pc.q))
  {
    var n := NextSettle(r, me, v, me.pc.q);
    assert n.flags == me.flags && n.unsetWait == me.unsetWait;
    assert n.pc.Settle? || n.pc.Look? || n.pc.Doze? || (n.pc.Return? && !n.pc.outcome.Moved?);
  }

  lemma TidyDoze(c: Choice, me: Side, v: View)
    requires me.pc.Doze? && Tidy(me)
    ensures Tidy(NextDoze(c, me, v, me.pc.z))
  {
    if me.pc.z.Blocked? { TidyBlocked(c, me, v); }
  }

  lemma TidyBlocked(c: Choice, me: Side, v: View)
    requires me.pc == Doze(Blocked) && Tidy(me)
    ensures Tidy(NextDoze(c, me, v, Blocked))
  {
  }

  lemma TidyWake(r: Role, me: Side, v: View)
    requires me.pc.Wake? && Tidy(me)
    ensures Tidy(NextWake(r, me, v, me.pc.k))
  {
    if me.pc.k.WakeUp? { TidyUp(r, me, v); } else { TidyInAwait(r, me, v); }
  }

  lemma TidyUp(r: Role, me: Side, v: View)
    requires me.pc.Wake? && me.pc.k.WakeUp? && Tidy(me)
    ensures Tidy(NextWake(r, me, v, me.pc.k))
  {
  }

  lemma TidyInAwait(r: Role, me: Side, v: View)
    requires me.pc.Wake? && !me.pc.k.WakeUp? && Tidy(me)
    ensures Tidy(NextWake(r, me, v, me.pc.k))
  {
  }

  lemma TidyCopy(c: Choice, me: Side, v: View)
    requires me.pc.Copy? && Tidy(me)
    ensures Tidy(NextCopy(c, me, v, me.pc.x))
  {
    var n := NextCopy(c, me, v, me.pc.x);
    assert n == me.(pc := n.pc) && (n.pc.Copy? || n.pc.Check?);
  }

  lemma TidyCheck(me: Side, v: View)
    requires me.pc.Check? && Tidy(me)
    ensures Tidy(NextCheck(me, v, me.pc.y))
  {
  }

  lemma TidyCall(r: Role, c: Choice, me: Side, v: View)
    requires me.pc.CallBoundary() && Tidy(me) && !c.BeginCall? && !c.BeginFlush? && !c.BeginClose?
    ensures Tidy(NextCall(r, c, me, v))
  {
  }

  lemma TidySide(r: Role, c: Choice, me: Side, v: View)
    requires Tidy(me) && !c.BeginCall? && !c.BeginFlush? && !c.BeginClose? && !c.Deliver?
    ensures Tidy(Next(r, c, me, v))
  {
    if !c.Die? {
      match me.pc
      case Look(_) => TidyLook(me, v);
      case Settle(_) => TidySettle(r, me, v);
      case Doze(_) => TidyDoze(c, me, v);
      case Wake(_) => TidyWake(r, me, v);
      case Copy(_) => TidyCopy(c, me, v);
      case Check(_) => TidyCheck(me, v);
      case _ => if me.pc.CallBoundary() { TidyCall(r, c, me, v); }
    }
  }

  predicate BeginsNothing(schedule: seq<Event>, r: Role) {
    forall k :: 0 <= k < |schedule| ==> !(schedule[k].r == r && (schedule[k].c.BeginCall? || schedule[k].c.BeginFlush? || schedule[k].c.BeginClose?))
  }

  lemma TidyStep(s: State, r: Role, e: Event)
    requires Inv(s) && Tidy(s.Me(r)) && !(e.r == r && (e.c.BeginCall? || e.c.BeginFlush? || e.c.BeginClose?))
    ensures var t := Do(s, e.r, e.c); Inv(t) && Tidy(t.Me(r))
  {
    StepInv(s, e.r, e.c);
    DoSteps(s, e.r, e.c);
    if OwnStep(e, r) { TidySide(r, e.c, s.Me(r), s.Seen(r)); }
  }

  lemma {:induction false} TidyRun(s: State, r: Role, schedule: seq<Event>)
    requires Inv(s) && Tidy(s.Me(r)) && BeginsNothing(schedule, r)
    ensures Tidy(Run(s, schedule).Me(r))
    decreases |schedule|
  {
    if schedule != [] {
      TidyStep(s, r, schedule[0]);
      TidyRun(Do(s, schedule[0].r, schedule[0].c), r, schedule[1..]);
    }
  }

  /** A call that finds its WAITING clear and moves bytes leaves it clear, however long it waited: the peer is not made to spin for an end that waits no more. */
  lemma WaitingTakenBack(s: State, r: Role, nbytes: nat, schedule: seq<Event>)
    requires Inv(s) && s.Me(r).pc.Idle? && !s.Me(r).flags.waiting && BeginsNothing(schedule, r)
    ensures var me := Run(Do(s, r, BeginCall(nbytes)), schedule).Me(r);
      me.pc.Copy? || me.pc.Check? || (me.pc.Return? && me.pc.outcome.Moved?) ==> !me.flags.waiting
  {
    StepInv(s, r, BeginCall(nbytes));
    StepAlone(s, r, BeginCall(nbytes));
    TidyRun(Do(s, r, BeginCall(nbytes)), r, schedule);
  }
}
