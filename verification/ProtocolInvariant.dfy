/** What every schedule of the two ends keeps. */
module ProtocolInvariant {
  import opened Slots
  import opened Protocol
  import Fifo

  ghost predicate Shape(s: State) { s.d.n > 1 && |s.d.cells| == s.d.n }

  // ----- facts about one end alone -----

  ghost predicate LocalOk(r: Role, me: Side) {
    var whole :=
      LoopsOk(me) && FlagsOk(me) && BitsOk(r, me) && SnapOk(r, me) && (me.pc.InCall() ==> !me.saw);
    whole
  }

  /** ACTIVE is set in a call and nowhere else; WAITING is cleared by a wait that ends well, and by a writer's that fails. */
  ghost predicate BitsOk(r: Role, me: Side) {
    var whole :=
      && (!me.pc.Dead? ==> (me.flags.active <==> me.pc.Acts()))
      && (me.pc.Copy? || me.pc.Check? || (me.pc.Return? && me.pc.outcome.Moved?) ==> me.flags.waiting ==> !me.unsetWait)
      && (me.pc.Return? && me.pc.outcome.AwaitFailed? && r == Writer ==> !me.flags.waiting);
    whole
  }

  /** loop_count never runs below zero. */
  ghost predicate LoopsOk(me: Side) {
    && me.loops <= LOOP_LIMIT
    && (me.pc.Waits() ==> me.loops >= 0)
    && (me.pc.EntryCheck? || (me.pc.Look? && (me.pc.l.Head? || me.pc.l.Snap?)) ==> me.loops >= 1)
    && ((me.pc.Settle? && (me.pc.q.Choose? || me.pc.q.WakePeer?)) || me.pc.Committed() ==> me.loops >= 1)
  }

  ghost predicate FlagsOk(me: Side) {
    && (!me.pc.Dead? ==> (me.flags.sleeping <==> me.pc.Asleep()))
    && (!me.pc.Dead? ==> (me.flags.closed <==> me.pc.Release? || me.pc.Gone?))
    && (me.flags.closed ==> me.pc.Release? || me.pc.Over())
  }

  ghost predicate SnapOk(r: Role, me: Side) {
    && (me.pc.Committed() ==> !me.snap.waiting && !me.snap.sleeping)
    && (me.pc.Stage() >= 3 && !(me.pc.Settle? && me.pc.q.Closed?) ==> !me.snap.closed)
    && (me.pc.Wake? && me.pc.k.DropWaiting? ==> me.pc.k.why != Signalled && (r == Reader ==> me.pc.k.why == Interrupted))
    && (r == Writer ==> !me.sawEpipe)
  }

  // ----- facts about an end and the data path -----

  ghost predicate DataOk(s: State, r: Role) {
    DataFacts(s.Me(r), s.Pub(r), s.Loc(r), s.Avail(r) > 0, s.CanCopy(r))
  }

  ghost predicate DataFacts(me: Side, pub: nat, loc: nat, available: bool, canCopy: bool) {
    var pc, taken, more := me.pc, loc - me.start, me.nbytes > 0;
    var whole :=
      && (!pc.Copying() && !pc.Dead? ==> loc == pub)
      && (pc.SetActive? || pc.EntryCheck? || pc.Waits() ==> taken == 0)
      && ((pc.Look? && pc.l.Leave?) || (pc.Copy? && pc.x.Load?) ==> taken == 0 && available)
      && (pc.Transfers() ==> 0 <= taken <= me.nbytes && me.start <= pub)
      && (pc.Copy? && pc.x.Loop? && more ==> taken > 0 || canCopy)
      && (pc.Copy? && pc.x.Chunk? ==> pub < loc || canCopy)
      && (pc.Copying() && !(pc.Copy? && pc.x.Chunk?) ==> taken > 0)
      && (pc.Check? && more ==> taken > 0)
      && (pc.Return? && pc.outcome.Moved? ==> pc.outcome.count == taken && 0 <= taken <= me.nbytes && (more ==> taken > 0));
    whole
  }

  // ----- facts about both ends -----

  ghost predicate ClosingOk(s: State, r: Role) {
    BrokenOk(s, r) && ClosedSeen(s, r) && ReturnsOk(s, r)
  }

  ghost predicate BrokenOk(s: State, r: Role) {
    var me := s.Me(r);
    && (me.pc.Over() ==> s.broken)
    && (s.broken ==> me.pc.Over() || s.Peer(r).pc.Over())
    && (me.sawEpipe || me.pc.WakingWith(Epipe) ==> s.broken)
    && (me.flags.closed ==> s.Loc(r) == s.Pub(r))
  }

  ghost predicate ClosedSeen(s: State, r: Role) {
    var me, peer := s.Me(r), s.Peer(r);
    && (me.pc.Stage() > 0 && me.snap.closed ==> peer.flags.closed)
    && (me.pc.Stage() > 0 && me.sawEpipe ==> me.snap.closed == peer.flags.closed)
    && (me.pc.Stage() >= 3 && (me.snap.closed || me.sawEpipe) ==> s.Avail(r) == 0)
  }

  ghost predicate ReturnsOk(s: State, r: Role) {
    s.Me(r).pc.Return? ==>
      match s.Me(r).pc.outcome
      case EndOfFile => r == Reader && s.Peer(r).flags.closed && s.Avail(r) == 0
      case PeerClosed => s.Peer(r).flags.closed
      case ProbeSawEpipe => s.broken
      case EarlierEpipe => s.broken && !s.Peer(r).flags.closed && s.Avail(r) == 0
      case _ => true
  }

  /** WAITING is visible, or this round will not end in sleep. */
  ghost predicate WaitingShown(s: State, r: Role) {
    var me := s.Me(r);
    && (me.pc.Stage() >= 3 ==> me.flags.waiting || me.snap.waiting)
    && (me.pc.Look? && me.pc.l.Recheck? ==> me.flags.waiting || me.snap.waiting || s.Avail(r) > 0)
  }

  /** An end past its second look: nothing has changed for it, or one of the two has seen the other wait. */
  ghost predicate Noticed(s: State, r: Role) {
    s.Me(r).pc.Stage() >= 3 && s.Peer(r).pc.Stage() > 0 ==>
      s.Avail(r) == 0 || s.Peer(r).snap.waiting || s.Me(r).snap.waiting
  }

  ghost predicate SignalsOk(s: State, r: Role) {
    s.Me(r).mark <= s.Pub(r.Other()) && MarkUsed(s, r) && SawOk(s, r)
  }

  /** An end past its second look has used what its peer had published at its last signal, or has a signal coming. */
  ghost predicate MarkUsed(s: State, r: Role) {
    var me := s.Me(r);
    me.pc.Stage() == 3 ==> me.mark <= s.Pub(r.Other()) - s.Avail(r) || me.inflight || me.latent
  }

  /** A last look that saw the peer sleeping has been followed by a signal. */
  ghost predicate SawOk(s: State, r: Role) {
    s.Me(r).saw && !(s.Me(r).pc.Check? && s.Me(r).pc.y.FinalSignal?) ==> s.Peer(r).mark == s.Pub(r) || s.broken
  }

  ghost predicate SideOk(s: State, r: Role) {
    && LocalOk(r, s.Me(r)) && DataOk(s, r) && ClosingOk(s, r)
    && WaitingShown(s, r) && Noticed(s, r) && SignalsOk(s, r)
  }

  ghost predicate Inv(s: State) {
    var whole := s.d.n > 1 && Fifo.Inv(s.d) && SideOk(s, Reader) && SideOk(s, Writer);
    whole
  }

  // ----- one step -----

  /** The tests on cursors say what they mean to say. */
  lemma StuckMeansNothingAvailable(s: State, r: Role)
    requires s.d.n > 1 && Fifo.Cursors(s.d)
    ensures s.Stuck(r) <==> s.Avail(r) == 0
    ensures 0 <= s.Avail(r) < s.d.n && s.Avail(r) + s.Avail(r.Other()) == s.d.n - 1
  {
    EmptyTest(s.d.rPub, s.d.wPub, s.d.n);
    FullTest(s.d.rPub, s.d.wPub, s.d.n);
  }

  lemma FifoKept(s: State, r: Role, c: Choice)
    requires Shape(s) && Fifo.Inv(s.d)
    ensures Fifo.Inv(Do(s, r, c).d)
  {
    EffectKeepsFifo(s.Put(r, Next(r, c, s.Me(r), s.Seen(r))), r, EffectOf(r, c, s.Me(r), s.Seen(r)));
  }

  lemma EffectKeepsFifo(s: State, r: Role, e: Effect)
    requires Shape(s) && Fifo.Inv(s.d)
    ensures Fifo.Inv(Apply(s, r, e).d)
  {
    match e
    case LoadCursor => Fifo.StepInv(s.d, if r == Reader then Fifo.ReaderSnap else Fifo.WriterSnap);
    case StoreCursor => Fifo.StepInv(s.d, if r == Reader then Fifo.ReaderPublish else Fifo.WriterPublish);
    case CopyOne(b) =>
      var a := if r == Reader then Fifo.ReaderCopy else Fifo.WriterCopy(b);
      if Fifo.Enabled(s.d, a) { Fifo.StepInv(s.d, a); }
    case _ =>
  }

  /** What a step of r can do to the other end: set its inflight and mark, or clear its WAITING. */
  ghost predicate Touched(s: State, t: State, r: Role) {
    var peer, peer' := s.Peer(r), t.Peer(r);
    && peer' == peer.(inflight := peer'.inflight, mark := peer'.mark, flags := peer.flags.(waiting := peer'.flags.waiting))
    && (peer.inflight ==> peer'.inflight)
    && (peer'.mark == peer.mark || (peer'.mark == s.Pub(r) && peer'.inflight))
    && (peer'.flags.waiting == peer.flags.waiting ||
          (r == Reader && s.Me(r).pc.Wake? && s.Me(r).pc.k.DropWaiting? && !peer'.flags.waiting))
  }

  ghost predicate Moved(s: State, t: State, r: Role) {
    && t.d.n == s.d.n && Fifo.Cursors(s.d) && Fifo.Cursors(t.d) && Shape(t)
    && t.Pub(r.Other()) == s.Pub(r.Other()) && t.Loc(r.Other()) == s.Loc(r.Other())
    && s.Pub(r) <= t.Pub(r) && s.Loc(r) <= t.Loc(r)
    && (if r == Reader then t.d.rSnap == s.d.rSnap else t.d.wSnap == s.d.wSnap)
    && (s.Me(r).pc.Copying() || (t.Pub(r) == s.Pub(r) && t.Loc(r) == s.Loc(r)))
  }

  ghost predicate Stepped(s: State, t: State, r: Role, c: Choice) {
    && Shape(s) && Touched(s, t, r) && Moved(s, t, r)
    && t.Me(r) == Next(r, c, s.Me(r), s.Seen(r))
    && (s.broken ==> t.broken)
    && (t.broken && !s.broken ==> t.Me(r).pc.Over())
    && (t.Me(r).pc.Over() ==> t.broken || s.Me(r).pc.Over())
  }

  /** When a step has which effect. */
  lemma EffectsOfSteps(r: Role, c: Choice, me: Side, v: View)
    ensures var e := EffectOf(r, c, me, v);
      && (e.CopyOne? || e.StoreCursor? ==> me.pc.Copying())
      && (e.ClearWriterWaiting? ==> r == Reader && me.pc.Wake? && me.pc.k.DropWaiting?)
      && (e.BreakPipe? <==> !c.Deliver? && if c.Die? then !me.pc.Over() else me.pc.Release?)
  {
  }

  lemma OverByBreaking(r: Role, c: Choice, me: Side, v: View)
    ensures var next := Next(r, c, me, v).pc;
      if !c.Deliver? && (if c.Die? then !me.pc.Over() else me.pc.Release?) then next.Over()
      else next.Over() ==> me.pc.Over()
  {
    if !c.Deliver? && !c.Die? {
      if me.pc.CallBoundary() {
        assert !NextCall(r, c, me, v).pc.Over();
      } else if me.pc.Finishing() {
        OverByFinishing(me, v);
      }
    }
  }

  lemma OverByFinishing(me: Side, v: View)
    requires me.pc.Finishing()
    ensures NextFinish(me, v).pc.Over() <==> me.pc.Release? || me.pc.Over()
  {
  }

  /** What an effect does to the other end. */
  lemma SignalTouches(s: State, r: Role, me: Side)
    requires Shape(s)
    ensures var t := Apply(s.Put(r, me), r, SignalPeer); Touched(s, t, r) && t.Me(r) == me && t.broken == s.broken && t.d == s.d
  {
  }

  lemma ClearTouches(s: State, me: Side)
    requires Shape(s) && s.reader.pc.Wake? && s.reader.pc.k.DropWaiting?
    ensures var t := Apply(s.Put(Reader, me), Reader, ClearWriterWaiting);
      Touched(s, t, Reader) && t.Me(Reader) == me && t.broken == s.broken && t.d == s.d
  {
  }

  lemma BreakTouches(s: State, r: Role, me: Side)
    requires Shape(s)
    ensures var t := Apply(s.Put(r, me), r, BreakPipe); Touched(s, t, r) && t.Me(r) == me && t.broken && t.d == s.d
  {
  }

  lemma EffectOnPeer(s: State, r: Role, me: Side, e: Effect)
    requires Shape(s)
    requires e.ClearWriterWaiting? ==> r == Reader && s.Me(r).pc.Wake? && s.Me(r).pc.k.DropWaiting?
    ensures var t := Apply(s.Put(r, me), r, e);
      Touched(s, t, r) && t.Me(r) == me && (t.broken <==> s.broken || e.BreakPipe?) && (!e.OnData() ==> t.d == s.d)
  {
    match e
    case SignalPeer => SignalTouches(s, r, me);
    case ClearWriterWaiting => ClearTouches(s, me);
    case BreakPipe => BreakTouches(s, r, me);
    case _ => EffectOnNoPeer(s, r, me, e);
  }

  lemma EffectOnNoPeer(s: State, r: Role, me: Side, e: Effect)
    requires Shape(s) && (e.Nothing? || e.OnData())
    ensures var t := Apply(s.Put(r, me), r, e); t.Peer(r) == s.Peer(r) && t.Me(r) == me && t.broken == s.broken && (e.Nothing? ==> t.d == s.d)
  {
  }

  /** What an effect does to the data path. */
  lemma LoadMoves(s: State, r: Role, me: Side)
    requires Shape(s) && Fifo.Inv(s.d)
    ensures Moved(s, Apply(s.Put(r, me), r, LoadCursor), r)
  {
    EffectKeepsFifo(s.Put(r, me), r, LoadCursor);
  }

  lemma CopyMoves(s: State, r: Role, me: Side, b: byte)
    requires Shape(s) && Fifo.Inv(s.d) && s.Me(r).pc.Copying()
    ensures Moved(s, Apply(s.Put(r, me), r, CopyOne(b)), r)
  {
    EffectKeepsFifo(s.Put(r, me), r, CopyOne(b));
  }

  lemma StoreMoves(s: State, r: Role, me: Side)
    requires Shape(s) && Fifo.Inv(s.d) && s.Me(r).pc.Copying()
    ensures Moved(s, Apply(s.Put(r, me), r, StoreCursor), r)
  {
    EffectKeepsFifo(s.Put(r, me), r, StoreCursor);
  }

  lemma RestMoves(s: State, t: State, r: Role)
    requires Shape(s) && Fifo.Inv(s.d) && t.d == s.d
    ensures Moved(s, t, r)
  {
  }

  lemma EffectsTouch(s: State, r: Role, me: Side, e: Effect)
    requires Shape(s) && Fifo.Inv(s.d)
    requires e.CopyOne? || e.StoreCursor? ==> s.Me(r).pc.Copying()
    requires e.ClearWriterWaiting? ==> r == Reader && s.Me(r).pc.Wake? && s.Me(r).pc.k.DropWaiting?
    ensures var t := Apply(s.Put(r, me), r, e);
      && Touched(s, t, r) && Moved(s, t, r) && t.Me(r) == me
      && (t.broken <==> s.broken || e.BreakPipe?)
  {
    EffectOnPeer(s, r, me, e);
    match e
    case LoadCursor => LoadMoves(s, r, me);
    case CopyOne(b) => CopyMoves(s, r, me, b);
    case StoreCursor => StoreMoves(s, r, me);
    case _ => RestMoves(s, Apply(s.Put(r, me), r, e), r);
  }

  lemma DoSteps(s: State, r: Role, c: Choice)
    requires Shape(s) && Fifo.Inv(s.d)
    ensures Stepped(s, Do(s, r, c), r, c)
  {
    var me, v := s.Me(r), s.Seen(r);
    EffectsOfSteps(r, c, me, v);
    OverByBreaking(r, c, me, v);
    EffectsTouch(s, r, Next(r, c, me, v), EffectOf(r, c, me, v));
  }

  // ----- what a step does to its own end -----

  lemma LocalLook(r: Role, me: Side, v: View)
    requires LocalOk(r, me) && me.pc.Look?
    ensures LocalOk(r, NextLook(me, v, me.pc.l))
  {
    var next := NextLook(me, v, me.pc.l);
    var ok := LocalOk(r, next);
    match me.pc.l
    case Head => assert ok;
    case Snap => assert ok;
    case SetWaiting => assert ok;
    case Recheck => assert ok;
    case Leave => assert ok;
  }

  lemma LocalSettle(r: Role, me: Side, v: View)
    requires LocalOk(r, me) && me.pc.Settle?
    ensures LocalOk(r, NextSettle(r, me, v, me.pc.q))
  {
    var next := NextSettle(r, me, v, me.pc.q);
    var ok := LocalOk(r, next);
    match me.pc.q
    case Closed => assert ok;
    case Probe => assert ok;
    case Choose => assert ok;
    case WakePeer => assert ok;
  }

  lemma LocalDoze(r: Role, c: Choice, me: Side, v: View)
    requires LocalOk(r, me) && me.pc.Doze?
    ensures LocalOk(r, NextDoze(c, me, v, me.pc.z))
  {
    var next := NextDoze(c, me, v, me.pc.z);
    var ok := LocalOk(r, next);
    match me.pc.z
    case SetSleeping => assert ok;
    case AwaitEntry => assert ok;
    case Blocked => assert ok;
  }

  lemma LocalWake(r: Role, me: Side, v: View)
    requires LocalOk(r, me) && me.pc.Wake?
    ensures LocalOk(r, NextWake(r, me, v, me.pc.k))
  {
    var next := NextWake(r, me, v, me.pc.k);
    var ok := LocalOk(r, next);
    match me.pc.k
    case ClearLatent => assert ok;
    case BrokenCheck => assert ok;
    case WakeUp(_) => assert ok;
    case DropWaiting(_) => assert ok;
  }

  lemma LocalCopy(r: Role, c: Choice, me: Side, v: View)
    requires LocalOk(r, me) && me.pc.Copy?
    ensures LocalOk(r, NextCopy(c, me, v, me.pc.x))
  {
    var next := NextCopy(c, me, v, me.pc.x);
    var ok := LocalOk(r, next);
    match me.pc.x
    case Load => assert ok;
    case Loop => assert ok;
    case Chunk => assert ok;
    case Refresh => assert ok;
    case Publish => assert ok;
  }

  lemma LocalCheck(r: Role, me: Side, v: View)
    requires LocalOk(r, me) && me.pc.Check?
    ensures LocalOk(r, NextCheck(me, v, me.pc.y))
  {
    var next := NextCheck(me, v, me.pc.y);
    var ok := LocalOk(r, next);
    match me.pc.y
    case MidCheck => assert ok;
    case MidSignal => assert ok;
    case FinalCheck => assert ok;
    case FinalSignal => assert ok;
  }

  lemma LocalCall(r: Role, c: Choice, me: Side, v: View)
    requires LocalOk(r, me) && me.pc.CallBoundary()
    ensures LocalOk(r, NextCall(r, c, me, v))
  {
    var next := NextCall(r, c, me, v);
    var ok := LocalOk(r, next);
    match me.pc
    case Idle => assert ok;
    case SetActive => assert ok;
    case EntryCheck => assert ok;
    case Return(_) => assert ok;
    case _ =>
  }

  predicate Finishes(me: Side, n: Side) {
    var whole :=
      && n == me.(pc := n.pc, flags := n.flags) && n.flags == me.flags.(closed := me.flags.closed || me.pc.SetClosed?)
      && !n.pc.Waits() && !n.pc.InCall() && n.pc.Stage() == 0
      && (n.pc.Dead? <==> me.pc.Dead?) && (n.pc.Release? <==> me.pc.SetClosed?) && (n.pc.Gone? <==> me.pc.Release? || me.pc.Gone?);
    whole
  }

  lemma FinishPc(me: Side, v: View)
    requires me.pc.Finishing()
    ensures var pc, next := me.pc, NextFinish(me, v).pc;
      && (next.Idle? || next.Finishing()) && (next.Dead? <==> pc.Dead?)
      && (next.Release? <==> pc.SetClosed?) && (next.Gone? <==> pc.Release? || pc.Gone?)
  {
  }

  lemma FinishFlags(me: Side, v: View)
    requires me.pc.Finishing()
    ensures var n := NextFinish(me, v);
      n == me.(pc := n.pc, flags := n.flags) && n.flags == me.flags.(closed := me.flags.closed || me.pc.SetClosed?)
  {
  }

  lemma OutOfCall(pc: Pc)
    requires pc.Idle? || pc.Finishing()
    ensures !pc.Waits() && !pc.InCall() && pc.Stage() == 0
  {
  }

  lemma FinishQuiet(me: Side, v: View)
    requires me.pc.Finishing()
    ensures Finishes(me, NextFinish(me, v))
  {
    FinishPc(me, v);
    FinishFlags(me, v);
    OutOfCall(NextFinish(me, v).pc);
  }

  lemma LocalFinish(r: Role, me: Side, v: View)
    requires LocalOk(r, me) && me.pc.Finishing()
    ensures LocalOk(r, NextFinish(me, v))
  {
    FinishQuiet(me, v);
  }

  /** The facts about one end alone are kept by its own steps. */
  lemma Local(r: Role, c: Choice, me: Side, v: View)
    requires LocalOk(r, me)
    ensures LocalOk(r, Next(r, c, me, v))
  {
    if c.Deliver? {
    } else if c.Die? {
    } else {
      match me.pc
      case Look(_) => LocalLook(r, me, v);
      case Settle(_) => LocalSettle(r, me, v);
      case Doze(_) => LocalDoze(r, c, me, v);
      case Wake(_) => LocalWake(r, me, v);
      case Copy(_) => LocalCopy(r, c, me, v);
      case Check(_) => LocalCheck(r, me, v);
      case _ => if me.pc.CallBoundary() { LocalCall(r, c, me, v); } else { LocalFinish(r, me, v); }
    }
  }

  /** Where a step may lead, and what it carries over; everything the two-sided facts depend on. */
  ghost predicate Summary(r: Role, me: Side, n: Side, v: View) {
    StagesOk(me, n, v) && EndsOk(r, me, n, v)
  }

  /** The stages of a round come in order; each keeps the snapshot. */
  ghost predicate StagesOk(me: Side, n: Side, v: View) {
    var was, now := me.pc.Stage(), n.pc.Stage();
    var whole :=
      && (now == 0 || was == now || (now == 1 && me.pc.Look? && me.pc.l.Snap?) || (now == 2 && was == 1)
          || (now == 3 && was == 2 && v.stuck) || (now == 4 && was == 3))
      && (now > 0 ==> n.sawEpipe == me.sawEpipe && n.snap == if now == 1 && was == 0 then v.peerFlags else me.snap)
      && (now >= 2 ==> n.flags.waiting == (me.flags.waiting || was == 1))
      && (now == 3 && (me.inflight || me.latent) ==> n.inflight || n.latent);
    whole
  }

  /** Closing, the ends of calls, and history. */
  ghost predicate EndsOk(r: Role, me: Side, n: Side, v: View) {
    var whole :=
      && (n.flags.closed <==> me.flags.closed || (me.pc.SetClosed? && n.pc.Release?))
      && (me.pc.Over() ==> n.pc.Over())
      && (n.sawEpipe ==> me.sawEpipe || me.pc.WakingWith(Epipe))
      && (n.pc.WakingWith(Epipe) ==> v.broken || me.pc.WakingWith(Epipe))
      && (n.pc.Return? ==> n.pc == me.pc || ReturnOk(r, me, n.pc.outcome, v))
      && n.mark == me.mark && (n.saw ==> me.saw || (n.pc.Check? && n.pc.y.FinalSignal?));
    whole
  }

  ghost predicate ReturnOk(r: Role, me: Side, o: Outcome, v: View) {
    match o
    case EndOfFile => r == Reader && me.pc.Settle? && me.pc.q.Closed? && me.snap.closed
    case PeerClosed => (me.pc.Settle? && me.pc.q.Closed? && me.snap.closed) || v.peerFlags.closed
    case EarlierEpipe => me.pc.Settle? && me.pc.q.Choose? && me.sawEpipe
    case ProbeSawEpipe => v.broken
    case _ => true
  }

  lemma StagesLook(me: Side, v: View)
    requires me.pc.Look?
    ensures StagesOk(me, NextLook(me, v, me.pc.l), v)
  {
    var next := NextLook(me, v, me.pc.l);
    var ok := StagesOk(me, next, v);
    match me.pc.l
    case Head => assert ok;
    case Snap => assert ok;
    case SetWaiting => assert ok;
    case Recheck => assert ok;
    case Leave => assert ok;
  }

  lemma EndsLook(r: Role, me: Side, v: View)
    requires me.pc.Look?
    ensures EndsOk(r, me, NextLook(me, v, me.pc.l), v)
  {
    var next := NextLook(me, v, me.pc.l);
    var ok := EndsOk(r, me, next, v);
    match me.pc.l
    case Head => assert ok;
    case Snap => assert ok;
    case SetWaiting => assert ok;
    case Recheck => assert ok;
    case Leave => assert ok;
  }

  lemma SumLook(r: Role, me: Side, v: View)
    requires me.pc.Look?
    ensures Summary(r, me, NextLook(me, v, me.pc.l), v)
  {
    StagesLook(me, v);
    EndsLook(r, me, v);
  }

  lemma StagesSettle(r: Role, me: Side, v: View)
    requires me.pc.Settle?
    ensures StagesOk(me, NextSettle(r, me, v, me.pc.q), v)
  {
    var ok := StagesOk(me, NextSettle(r, me, v, me.pc.q), v);
    match me.pc.q
    case Closed => assert ok;
    case Probe => assert ok;
    case Choose => StagesChoose(r, me, v);
    case WakePeer => assert ok;
  }

  lemma StagesChoose(r: Role, me: Side, v: View)
    requires me.pc == Settle(Choose)
    ensures StagesOk(me, NextSettle(r, me, v, Choose), v)
  {
    var n := NextSettle(r, me, v, Choose);
    assert n.pc.Stage() == 0 || n.pc.Stage() == 3;
    assert n == me.(pc := n.pc, actives := n.actives);
  }

  lemma EndsSettle(r: Role, me: Side, v: View)
    requires me.pc.Settle?
    ensures EndsOk(r, me, NextSettle(r, me, v, me.pc.q), v)
  {
    var next := NextSettle(r, me, v, me.pc.q);
    var ok := EndsOk(r, me, next, v);
    match me.pc.q
    case Closed => assert ok;
    case Probe => assert ok;
    case Choose => assert ok;
    case WakePeer => assert ok;
  }

  lemma SumSettle(r: Role, me: Side, v: View)
    requires me.pc.Settle?
    ensures Summary(r, me, NextSettle(r, me, v, me.pc.q), v)
  {
    StagesSettle(r, me, v);
    EndsSettle(r, me, v);
  }

  lemma StagesDoze(c: Choice, me: Side, v: View)
    requires me.pc.Doze?
    ensures StagesOk(me, NextDoze(c, me, v, me.pc.z), v)
  {
    var next := NextDoze(c, me, v, me.pc.z);
    var ok := StagesOk(me, next, v);
    match me.pc.z
    case SetSleeping => assert ok;
    case AwaitEntry => assert ok;
    case Blocked => assert ok;
  }

  lemma EndsDoze(r: Role, c: Choice, me: Side, v: View)
    requires me.pc.Doze?
    ensures EndsOk(r, me, NextDoze(c, me, v, me.pc.z), v)
  {
    var next := NextDoze(c, me, v, me.pc.z);
    var ok := EndsOk(r, me, next, v);
    match me.pc.z
    case SetSleeping => assert ok;
    case AwaitEntry => assert ok;
    case Blocked => assert ok;
  }

  lemma SumDoze(r: Role, c: Choice, me: Side, v: View)
    requires me.pc.Doze?
    ensures Summary(r, me, NextDoze(c, me, v, me.pc.z), v)
  {
    StagesDoze(c, me, v);
    EndsDoze(r, c, me, v);
  }

  lemma StagesWake(r: Role, me: Side, v: View)
    requires me.pc.Wake?
    ensures StagesOk(me, NextWake(r, me, v, me.pc.k), v)
  {
    var next := NextWake(r, me, v, me.pc.k);
    var ok := StagesOk(me, next, v);
    match me.pc.k
    case ClearLatent => assert ok;
    case BrokenCheck => assert ok;
    case WakeUp(_) => assert ok;
    case DropWaiting(_) => assert ok;
  }

  lemma EndsWake(r: Role, me: Side, v: View)
    requires me.pc.Wake?
    ensures EndsOk(r, me, NextWake(r, me, v, me.pc.k), v)
  {
    var next := NextWake(r, me, v, me.pc.k);
    var ok := EndsOk(r, me, next, v);
    match me.pc.k
    case ClearLatent => assert ok;
    case BrokenCheck => assert ok;
    case WakeUp(_) => assert ok;
    case DropWaiting(_) => assert ok;
  }

  lemma SumWake(r: Role, me: Side, v: View)
    requires me.pc.Wake?
    ensures Summary(r, me, NextWake(r, me, v, me.pc.k), v)
  {
    StagesWake(r, me, v);
    EndsWake(r, me, v);
  }

  lemma StagesCopy(c: Choice, me: Side, v: View)
    requires me.pc.Copy?
    ensures StagesOk(me, NextCopy(c, me, v, me.pc.x), v)
  {
    var next := NextCopy(c, me, v, me.pc.x);
    var ok := StagesOk(me, next, v);
    match me.pc.x
    case Load => assert ok;
    case Loop => assert ok;
    case Chunk => assert ok;
    case Refresh => assert ok;
    case Publish => assert ok;
  }

  lemma EndsCopy(r: Role, c: Choice, me: Side, v: View)
    requires me.pc.Copy?
    ensures EndsOk(r, me, NextCopy(c, me, v, me.pc.x), v)
  {
    var next := NextCopy(c, me, v, me.pc.x);
    var ok := EndsOk(r, me, next, v);
    match me.pc.x
    case Load => assert ok;
    case Loop => assert ok;
    case Chunk => assert ok;
    case Refresh => assert ok;
    case Publish => assert ok;
  }

  lemma SumCopy(r: Role, c: Choice, me: Side, v: View)
    requires me.pc.Copy?
    ensures Summary(r, me, NextCopy(c, me, v, me.pc.x), v)
  {
    StagesCopy(c, me, v);
    EndsCopy(r, c, me, v);
  }

  lemma StagesCheck(me: Side, v: View)
    requires me.pc.Check?
    ensures StagesOk(me, NextCheck(me, v, me.pc.y), v)
  {
    var next := NextCheck(me, v, me.pc.y);
    var ok := StagesOk(me, next, v);
    match me.pc.y
    case MidCheck => assert ok;
    case MidSignal => assert ok;
    case FinalCheck => assert ok;
    case FinalSignal => assert ok;
  }

  lemma EndsCheck(r: Role, me: Side, v: View)
    requires me.pc.Check?
    ensures EndsOk(r, me, NextCheck(me, v, me.pc.y), v)
  {
    var next := NextCheck(me, v, me.pc.y);
    var ok := EndsOk(r, me, next, v);
    match me.pc.y
    case MidCheck => assert ok;
    case MidSignal => assert ok;
    case FinalCheck => assert ok;
    case FinalSignal => assert ok;
  }

  lemma SumCheck(r: Role, me: Side, v: View)
    requires me.pc.Check?
    ensures Summary(r, me, NextCheck(me, v, me.pc.y), v)
  {
    StagesCheck(me, v);
    EndsCheck(r, me, v);
  }

  lemma StagesCall(r: Role, c: Choice, me: Side, v: View)
    requires me.pc.CallBoundary()
    ensures StagesOk(me, NextCall(r, c, me, v), v)
  {
    var next := NextCall(r, c, me, v);
    var ok := StagesOk(me, next, v);
    match me.pc
    case Idle => assert ok;
    case SetActive => assert ok;
    case EntryCheck => assert ok;
    case Return(_) => assert ok;
    case _ =>
  }

  lemma EndsCall(r: Role, c: Choice, me: Side, v: View)
    requires me.pc.CallBoundary()
    ensures EndsOk(r, me, NextCall(r, c, me, v), v)
  {
    var next := NextCall(r, c, me, v);
    var ok := EndsOk(r, me, next, v);
    match me.pc
    case Idle => assert ok;
    case SetActive => assert ok;
    case EntryCheck => assert ok;
    case Return(_) => assert ok;
    case _ =>
  }

  lemma SumCall(r: Role, c: Choice, me: Side, v: View)
    requires me.pc.CallBoundary()
    ensures Summary(r, me, NextCall(r, c, me, v), v)
  {
    StagesCall(r, c, me, v);
    EndsCall(r, c, me, v);
  }

  lemma StagesFinish(me: Side, v: View)
    requires me.pc.Finishing()
    ensures StagesOk(me, NextFinish(me, v), v)
  {
    var next := NextFinish(me, v);
    var ok := StagesOk(me, next, v);
    match me.pc
    case FlushCheck => assert ok;
    case FlushSignal => assert ok;
    case SetClosed => assert ok;
    case Release => assert ok;
    case _ =>
  }

  lemma EndsFinish(r: Role, me: Side, v: View)
    requires me.pc.Finishing()
    ensures EndsOk(r, me, NextFinish(me, v), v)
  {
    var next := NextFinish(me, v);
    var ok := EndsOk(r, me, next, v);
    match me.pc
    case FlushCheck => assert ok;
    case FlushSignal => assert ok;
    case SetClosed => assert ok;
    case Release => assert ok;
    case _ =>
  }

  lemma SumFinish(r: Role, me: Side, v: View)
    requires me.pc.Finishing()
    ensures Summary(r, me, NextFinish(me, v), v)
  {
    StagesFinish(me, v);
    EndsFinish(r, me, v);
  }

  /** Every step fits the summary. */
  lemma Summarized(r: Role, c: Choice, me: Side, v: View)
    ensures Summary(r, me, Next(r, c, me, v), v)
  {
    if c.Deliver? {
    } else if c.Die? {
    } else {
      match me.pc
      case Look(_) => SumLook(r, me, v);
      case Settle(_) => SumSettle(r, me, v);
      case Doze(_) => SumDoze(r, c, me, v);
      case Wake(_) => SumWake(r, me, v);
      case Copy(_) => SumCopy(r, c, me, v);
      case Check(_) => SumCheck(r, me, v);
      case _ => if me.pc.CallBoundary() { SumCall(r, c, me, v); } else { SumFinish(r, me, v); }
    }
  }

  // ----- the two-sided facts, for the end that moves and for the other -----

  /** A step of r from s to t, by all that the facts about both ends need to know of it. */
  ghost predicate Summed(s: State, t: State, r: Role, c: Choice) {
    Stepped(s, t, r, c) && Summary(r, s.Me(r), t.Me(r), s.Seen(r))
  }

  lemma WaitingShownKept(s: State, t: State, r: Role, q: Role)
    requires Touched(s, t, r) && Moved(s, t, r) && Shape(s)
    requires Summary(r, s.Me(r), t.Me(r), s.Seen(r))
    requires LocalOk(Reader, s.reader)
    requires WaitingShown(s, q) && Noticed(s, Reader) && Noticed(s, Writer)
    ensures WaitingShown(t, q)
  {
    if q == r { OwnWaitingShown(s, t, r); } else { PeersWaitingShown(s, t, r); }
  }

  lemma OwnWaitingShown(s: State, t: State, r: Role)
    requires Touched(s, t, r) && Moved(s, t, r) && Shape(s) && StagesOk(s.Me(r), t.Me(r), s.Seen(r))
    requires WaitingShown(s, r)
    ensures WaitingShown(t, r)
  {
    StuckMeansNothingAvailable(s, r);
    StuckMeansNothingAvailable(t, r);
  }

  lemma PeersWaitingShown(s: State, t: State, r: Role)
    requires Touched(s, t, r) && Moved(s, t, r) && Shape(s)
    requires LocalOk(Reader, s.reader)
    requires WaitingShown(s, r.Other()) && Noticed(s, r) && Noticed(s, r.Other())
    ensures WaitingShown(t, r.Other())
  {
    StuckMeansNothingAvailable(s, r.Other());
    StuckMeansNothingAvailable(t, r.Other());
  }

  lemma NoticedKept(s: State, t: State, r: Role, q: Role)
    requires Touched(s, t, r) && Moved(s, t, r) && Shape(s)
    requires Summary(r, s.Me(r), t.Me(r), s.Seen(r))
    requires WaitingShown(s, q) && Noticed(s, q)
    ensures Noticed(t, q)
  {
    StuckMeansNothingAvailable(s, q);
  }

  lemma BrokenKept(s: State, t: State, r: Role, c: Choice, q: Role)
    requires Summed(s, t, r, c) && FlagsOk(t.Me(q)) && FlagsOk(s.Me(q))
    requires BrokenOk(s, q) && DataOk(s, q)
    ensures BrokenOk(t, q)
  {
  }

  lemma ClosedSeenKept(s: State, t: State, r: Role, c: Choice, q: Role)
    requires Summed(s, t, r, c)
    requires FlagsOk(s.Me(q)) && FlagsOk(s.Peer(q)) && FlagsOk(t.Peer(q)) && SnapOk(q, s.Me(q))
    requires BrokenOk(s, q) && BrokenOk(s, q.Other()) && ClosedSeen(s, q)
    ensures ClosedSeen(t, q)
  {
    StuckMeansNothingAvailable(s, q);
    StuckMeansNothingAvailable(t, q);
  }

  lemma ReturnsKept(s: State, t: State, r: Role, c: Choice, q: Role)
    requires Summed(s, t, r, c)
    requires FlagsOk(s.Peer(q)) && FlagsOk(t.Peer(q)) && SnapOk(q, s.Me(q))
    requires BrokenOk(s, q) && BrokenOk(s, q.Other()) && ClosedSeen(s, q) && ReturnsOk(s, q)
    ensures ReturnsOk(t, q)
  {
    StuckMeansNothingAvailable(s, q);
    StuckMeansNothingAvailable(t, q);
  }

  lemma ClosingKept(s: State, t: State, r: Role, c: Choice, q: Role)
    requires Summed(s, t, r, c)
    requires FlagsOk(s.Me(q)) && FlagsOk(t.Me(q)) && FlagsOk(s.Peer(q)) && FlagsOk(t.Peer(q)) && SnapOk(q, s.Me(q)) && SnapOk(q, t.Me(q))
    requires ClosingOk(s, q) && ClosingOk(s, q.Other()) && DataOk(s, q) && DataOk(s, q.Other())
    ensures ClosingOk(t, q)
  {
    BrokenKept(s, t, r, c, q);
    ClosedSeenKept(s, t, r, c, q);
    ReturnsKept(s, t, r, c, q);
  }

  lemma MarkUsedKept(s: State, t: State, r: Role, q: Role)
    requires Touched(s, t, r) && Moved(s, t, r) && Shape(s)
    requires Summary(r, s.Me(r), t.Me(r), s.Seen(r))
    requires s.Me(q).mark <= s.Pub(q.Other()) && MarkUsed(s, q)
    ensures MarkUsed(t, q)
  {
    StuckMeansNothingAvailable(s, q);
  }

  lemma SawKept(s: State, t: State, r: Role, q: Role)
    requires Touched(s, t, r) && Moved(s, t, r) && Shape(s)
    requires Summary(r, s.Me(r), t.Me(r), s.Seen(r)) && (s.broken ==> t.broken) && FinalSignalSent(s, t, r)
    requires LocalOk(r, s.Me(r)) && SawOk(s, q)
    ensures SawOk(t, q)
  {
  }

  lemma SignalsKept(s: State, t: State, r: Role, q: Role)
    requires Touched(s, t, r) && Moved(s, t, r) && Shape(s)
    requires Summary(r, s.Me(r), t.Me(r), s.Seen(r))
    requires s.broken ==> t.broken
    requires FinalSignalSent(s, t, r)
    requires LocalOk(r, s.Me(r)) && SignalsOk(s, q)
    ensures SignalsOk(t, q)
  {
    MarkUsedKept(s, t, r, q);
    SawKept(s, t, r, q);
  }

  /** The last act of a transfer that saw its peer asleep. */
  ghost predicate FinalSignalSent(s: State, t: State, r: Role) {
    s.Me(r).pc.Check? && s.Me(r).pc.y.FinalSignal? && !(t.Me(r).pc.Check? && t.Me(r).pc.y.FinalSignal?) ==>
      t.Peer(r).mark == s.Pub(r) || t.broken
  }

  lemma FinalSignalIsSent(s: State, r: Role, c: Choice)
    requires Shape(s)
    ensures FinalSignalSent(s, Do(s, r, c), r)
  {
  }

  lemma DataKeptForOther(s: State, t: State, r: Role)
    requires Touched(s, t, r) && Moved(s, t, r) && Shape(s)
    requires DataOk(s, r.Other())
    ensures DataOk(t, r.Other())
  {
  }

  lemma DataLook(me: Side, v: View, canCopy: bool)
    requires DataFacts(me, v.pub, v.loc, !v.stuck, v.canCopy) && me.pc.Look?
    ensures DataFacts(NextLook(me, v, me.pc.l), v.pub, v.loc, !v.stuck, canCopy)
  {
    var next := NextLook(me, v, me.pc.l);
    var ok := DataFacts(next, v.pub, v.loc, !v.stuck, canCopy);
    match me.pc.l
    case Head => assert ok;
    case Snap => assert ok;
    case SetWaiting => assert ok;
    case Recheck => assert ok;
    case Leave => assert ok;
  }

  lemma DataSettle(r: Role, me: Side, v: View, canCopy: bool)
    requires DataFacts(me, v.pub, v.loc, !v.stuck, v.canCopy) && me.pc.Settle?
    ensures DataFacts(NextSettle(r, me, v, me.pc.q), v.pub, v.loc, !v.stuck, canCopy)
  {
    var next := NextSettle(r, me, v, me.pc.q);
    var ok := DataFacts(next, v.pub, v.loc, !v.stuck, canCopy);
    match me.pc.q
    case Closed => assert ok;
    case Probe => assert ok;
    case Choose => assert ok;
    case WakePeer => assert ok;
  }

  lemma DataDoze(c: Choice, me: Side, v: View, canCopy: bool)
    requires DataFacts(me, v.pub, v.loc, !v.stuck, v.canCopy) && me.pc.Doze?
    ensures DataFacts(NextDoze(c, me, v, me.pc.z), v.pub, v.loc, !v.stuck, canCopy)
  {
    var next := NextDoze(c, me, v, me.pc.z);
    var ok := DataFacts(next, v.pub, v.loc, !v.stuck, canCopy);
    match me.pc.z
    case SetSleeping => assert ok;
    case AwaitEntry => assert ok;
    case Blocked => assert ok;
  }

  lemma DataWake(r: Role, me: Side, v: View, canCopy: bool)
    requires DataFacts(me, v.pub, v.loc, !v.stuck, v.canCopy) && me.pc.Wake?
    ensures DataFacts(NextWake(r, me, v, me.pc.k), v.pub, v.loc, !v.stuck, canCopy)
  {
    var next := NextWake(r, me, v, me.pc.k);
    var ok := DataFacts(next, v.pub, v.loc, !v.stuck, canCopy);
    match me.pc.k
    case ClearLatent => assert ok;
    case BrokenCheck => assert ok;
    case WakeUp(_) => assert ok;
    case DropWaiting(_) => assert ok;
  }

  lemma DataCheck(me: Side, v: View, canCopy: bool)
    requires DataFacts(me, v.pub, v.loc, !v.stuck, v.canCopy) && me.pc.Check?
    ensures DataFacts(NextCheck(me, v, me.pc.y), v.pub, v.loc, !v.stuck, canCopy)
  {
    var next := NextCheck(me, v, me.pc.y);
    var ok := DataFacts(next, v.pub, v.loc, !v.stuck, canCopy);
    match me.pc.y
    case MidCheck => assert ok;
    case MidSignal => assert ok;
    case FinalCheck => assert ok;
    case FinalSignal => assert ok;
  }

  lemma DataCall(r: Role, c: Choice, me: Side, v: View, canCopy: bool)
    requires DataFacts(me, v.pub, v.loc, !v.stuck, v.canCopy) && me.pc.CallBoundary()
    ensures DataFacts(NextCall(r, c, me, v), v.pub, v.loc, !v.stuck, canCopy)
  {
    var next := NextCall(r, c, me, v);
    var ok := DataFacts(next, v.pub, v.loc, !v.stuck, canCopy);
    match me.pc
    case Idle => assert ok;
    case SetActive => assert ok;
    case EntryCheck => assert ok;
    case Return(_) => assert ok;
    case _ =>
  }

  lemma DataFinish(me: Side, v: View, canCopy: bool)
    requires DataFacts(me, v.pub, v.loc, !v.stuck, v.canCopy) && me.pc.Finishing()
    ensures DataFacts(NextFinish(me, v), v.pub, v.loc, !v.stuck, canCopy)
  {
    var next := NextFinish(me, v);
    var ok := DataFacts(next, v.pub, v.loc, !v.stuck, canCopy);
    match me.pc
    case FlushCheck => assert ok;
    case FlushSignal => assert ok;
    case SetClosed => assert ok;
    case Release => assert ok;
    case _ =>
  }

  /** What the three effects on the data path do to the end's own cursors. */
  lemma CursorLoaded(s: State, r: Role)
    requires Shape(s) && Fifo.Cursors(s.d) && s.Loc(r) == s.Pub(r)
    ensures var t := Apply(s, r, LoadCursor);
      && t.Me(r) == s.Me(r) && t.Pub(r) == t.Loc(r) == s.Loc(r) && t.Avail(r) == s.Avail(r)
      && (t.CanCopy(r) <==> s.Taken(r) < s.Me(r).nbytes && s.Avail(r) > 0)
  {
  }

  lemma ByteCopied(s: State, r: Role, b: byte)
    requires Shape(s) && Fifo.Cursors(s.d) && s.CanCopy(r)
    ensures var t := Apply(s, r, CopyOne(b));
      t.Me(r) == s.Me(r) && t.Pub(r) == s.Pub(r) && t.Loc(r) == s.Loc(r) + 1
  {
  }

  lemma CursorStored(s: State, r: Role)
    requires Shape(s)
    ensures var t := Apply(s, r, StoreCursor);
      t.Me(r) == s.Me(r) && t.Pub(r) == t.Loc(r) == s.Loc(r)
  {
  }

  lemma DataLoad(s: State, r: Role, c: Choice)
    requires Shape(s) && Fifo.Cursors(s.d) && DataOk(s, r) && s.Me(r).pc == Copy(Load) && !c.Deliver? && !c.Die?
    ensures DataOk(Do(s, r, c), r)
  {
    CursorLoaded(s.Put(r, NextCopy(c, s.Me(r), s.Seen(r), Load)), r);
  }

  lemma DataLoop(s: State, r: Role, c: Choice)
    requires Shape(s) && Fifo.Cursors(s.d) && DataOk(s, r) && s.Me(r).pc == Copy(Loop) && !c.Deliver? && !c.Die?
    ensures DataOk(Do(s, r, c), r)
  {
  }

  lemma DataChunk(s: State, r: Role, c: Choice)
    requires Shape(s) && Fifo.Cursors(s.d) && DataOk(s, r) && s.Me(r).pc == Copy(Chunk) && !c.Deliver? && !c.Die?
    ensures DataOk(Do(s, r, c), r)
  {
    if c.CopyByte? && s.CanCopy(r) { DataByte(s, r, c.b); } else { DataNoByte(s, r, c); }
  }

  lemma DataByte(s: State, r: Role, b: byte)
    requires Shape(s) && Fifo.Cursors(s.d) && DataOk(s, r) && s.Me(r).pc == Copy(Chunk) && s.CanCopy(r)
    ensures DataOk(Do(s, r, CopyByte(b)), r)
  {
    ByteCopied(s.Put(r, s.Me(r)), r, b);
  }

  lemma DataNoByte(s: State, r: Role, c: Choice)
    requires Shape(s) && DataOk(s, r) && s.Me(r).pc == Copy(Chunk) && !c.Deliver? && !c.Die? && !(c.CopyByte? && s.CanCopy(r))
    ensures DataOk(Do(s, r, c), r)
  {
    var n := NextCopy(c, s.Me(r), s.Seen(r), Chunk);
    assert Do(s, r, c) == s.Put(r, n) && n == s.Me(r).(pc := n.pc);
    assert n.pc == Copy(Chunk) || (s.Pub(r) < s.Loc(r) && (n.pc == Copy(Refresh) || n.pc == Check(MidCheck)));
  }

  lemma DataRefresh(s: State, r: Role, c: Choice)
    requires Shape(s) && Fifo.Cursors(s.d) && DataOk(s, r) && s.Me(r).pc == Copy(Refresh) && !c.Deliver? && !c.Die?
    ensures DataOk(Do(s, r, c), r)
  {
    var t := Do(s, r, c);
    assert t.Me(r) == s.Me(r).(pc := Copy(Publish)) && t.Pub(r) == s.Pub(r) && t.Loc(r) == s.Loc(r);
  }

  lemma DataPublish(s: State, r: Role, c: Choice)
    requires Shape(s) && Fifo.Cursors(s.d) && DataOk(s, r) && s.Me(r).pc == Copy(Publish) && !c.Deliver? && !c.Die?
    ensures DataOk(Do(s, r, c), r)
  {
    CursorStored(s.Put(r, NextCopy(c, s.Me(r), s.Seen(r), Publish)), r);
  }

  lemma DataCopy(s: State, r: Role, c: Choice)
    requires Shape(s) && Fifo.Cursors(s.d) && DataOk(s, r) && s.Me(r).pc.Copy? && !c.Deliver? && !c.Die?
    ensures DataOk(Do(s, r, c), r)
  {
    match s.Me(r).pc.x
    case Load => DataLoad(s, r, c);
    case Loop => DataLoop(s, r, c);
    case Chunk => DataChunk(s, r, c);
    case Refresh => DataRefresh(s, r, c);
    case Publish => DataPublish(s, r, c);
  }

  lemma DataAtRest(s: State, r: Role, c: Choice)
    requires Shape(s) && (c.Deliver? || c.Die? || !s.Me(r).pc.Copy?)
    ensures Do(s, r, c).d == s.d
  {
  }

  lemma DataFactsKept(r: Role, c: Choice, me: Side, v: View, canCopy: bool)
    requires DataFacts(me, v.pub, v.loc, !v.stuck, v.canCopy) && !me.pc.Copy?
    ensures DataFacts(Next(r, c, me, v), v.pub, v.loc, !v.stuck, canCopy) || c.Deliver?
  {
    if !c.Deliver? && !c.Die? {
      match me.pc
      case Look(_) => DataLook(me, v, canCopy);
      case Settle(_) => DataSettle(r, me, v, canCopy);
      case Doze(_) => DataDoze(c, me, v, canCopy);
      case Wake(_) => DataWake(r, me, v, canCopy);
      case Check(_) => DataCheck(me, v, canCopy);
      case _ => if me.pc.CallBoundary() { DataCall(r, c, me, v, canCopy); } else { DataFinish(me, v, canCopy); }
    }
  }

  lemma DataRests(s: State, r: Role, c: Choice)
    requires Shape(s) && Fifo.Inv(s.d) && DataOk(s, r) && (c.Deliver? || c.Die? || !s.Me(r).pc.Copy?)
    ensures DataOk(Do(s, r, c), r)
  {
    StuckMeansNothingAvailable(s, r);
    DataAtRest(s, r, c);
    DoSteps(s, r, c);
    if !c.Deliver? && !c.Die? {
      DataFactsKept(r, c, s.Me(r), s.Seen(r), Do(s, r, c).CanCopy(r));
    }
  }

  lemma DataKept(s: State, r: Role, c: Choice)
    requires Shape(s) && Fifo.Inv(s.d) && DataOk(s, r)
    ensures DataOk(Do(s, r, c), r)
  {
    if c.Deliver? || c.Die? || !s.Me(r).pc.Copy? { DataRests(s, r, c); } else { DataCopy(s, r, c); }
  }

  lemma LocalKeptForOther(s: State, t: State, r: Role)
    requires Touched(s, t, r) && LocalOk(r.Other(), s.Peer(r))
    ensures LocalOk(r.Other(), t.Peer(r))
  {
  }

  // ----- the invariant -----

  lemma InitInv(n: nat, cells: seq<byte>)
    requires n > 1 && |cells| == n
    ensures Inv(Init(n, cells))
  {
  }

  lemma StepSummed(s: State, r: Role, c: Choice)
    requires Inv(s)
    ensures Summed(s, Do(s, r, c), r, c)
    ensures LocalOk(r, Do(s, r, c).Me(r)) && LocalOk(r.Other(), Do(s, r, c).Peer(r))
  {
    DoSteps(s, r, c);
    Summarized(r, c, s.Me(r), s.Seen(r));
    Local(r, c, s.Me(r), s.Seen(r));
    LocalKeptForOther(s, Do(s, r, c), r);
  }

  lemma SideKept(s: State, t: State, r: Role, c: Choice, q: Role)
    requires Inv(s) && Summed(s, t, r, c) && FinalSignalSent(s, t, r) && DataOk(t, q)
    requires LocalOk(q, t.Me(q)) && LocalOk(q.Other(), t.Peer(q))
    ensures SideOk(t, q)
  {
    ClosingKept(s, t, r, c, q);
    WaitingShownKept(s, t, r, q);
    NoticedKept(s, t, r, q);
    SignalsKept(s, t, r, q);
  }

  lemma StepInv(s: State, r: Role, c: Choice)
    requires Inv(s)
    ensures Inv(Do(s, r, c))
  {
    var t := Do(s, r, c);
    StepSummed(s, r, c);
    FifoKept(s, r, c);
    FinalSignalIsSent(s, r, c);
    DataKept(s, r, c);
    DataKeptForOther(s, t, r);
    SideKept(s, t, r, c, r);
    SideKept(s, t, r, c, r.Other());
  }

  /** Every state that any schedule reaches. */
  lemma {:induction false} RunInv(s: State, schedule: seq<Event>)
    requires Inv(s)
    ensures Inv(Run(s, schedule))
    decreases |schedule|
  {
    if schedule != [] {
      StepInv(s, schedule[0].r, schedule[0].c);
      RunInv(Do(s, schedule[0].r, schedule[0].c), schedule[1..]);
    }
  }
}
