/**
  Both ends of the pipe as program counters over the shared area and the kernel's
  signals. A step is one access to shared state by one end (a flag word's |= or &= is
  one access), one decision of the kernel's await, or the delivery of an event; any
  interleaving of steps is a schedule. The two ends run nearly the same code, so one
  transition function takes the end as a parameter; where they differ it says so.
  Both initial signals have been received.
  (xen_shm_pipe.c:279-513, 800-945; xen_shm.c:232-252, 878-976)
 */
module Protocol {
  import opened Slots
  import Fifo

  type byte = Fifo.byte

  const LOOP_LIMIT := 10000   // XEN_SHM_PIPE_WAIT_LOOP_LIMIT
  const ACTIVE_MAX := 10000   // XEN_SHM_PIPE_WAIT_LOOP_ACTIVE_MAX

  datatype Role = Reader | Writer {
    function Other(): Role { if this == Reader then Writer else Reader }
  }

  /** The bits of reader_flags and writer_flags that anything depends on. */
  datatype Flags = Flags(closed: bool, waiting: bool, sleeping: bool, active: bool)

  /** What the await ioctl returned. */
  datatype Await = Signalled | Epipe | Interrupted

  /** Why a read or write returned. */
  datatype Outcome =
    | EndOfFile              // reader: 0, the writer closed and nothing is left
    | PeerClosed             // writer: the reader closed
    | ProbeSawEpipe          // the probe after many rounds found the pipe broken
    | EarlierEpipe           // reader: saw_epipe
    | AwaitFailed(how: Await)
    | Moved(count: int)
  {
    function Value(): int {
      match this
      case EndOfFile => 0
      case Moved(count) => count
      case _ => -1
    }
  }

  /** __xen_shm_pipe_wait_reader and _writer: a round up to the second look at the peer's cursor, and the way out. */
  datatype LookPc = Head | Snap | SetWaiting | Recheck | Leave

  /** The rest of a round. */
  datatype SettlePc = Closed | Probe | Choose | WakePeer

  /** Going to sleep, and asleep in __xen_shm_ioctl_await with the latent flag. */
  datatype DozePc = SetSleeping | AwaitEntry | Blocked

  /** Leaving the await, and what follows it. */
  datatype WakePc = ClearLatent | BrokenCheck | WakeUp(how: Await) | DropWaiting(why: Await)

  /** __xen_shm_pipe_read_avail and _write_avail: cursors and bytes. */
  datatype CopyPc = Load | Loop | Chunk | Refresh | Publish

  /** The same functions' looks at the peer's SLEEPING bit. */
  datatype CheckPc = MidCheck | MidSignal | FinalCheck | FinalSignal

  datatype Pc =
    | Idle
    // xen_shm_pipe_read and _write
    | SetActive | EntryCheck
    | Look(l: LookPc) | Settle(q: SettlePc) | Doze(z: DozePc) | Wake(k: WakePc)
    | Copy(x: CopyPc) | Check(y: CheckPc)
    | Return(outcome: Outcome)
    // xen_shm_pipe_flush
    | FlushCheck | FlushSignal
    // xen_shm_pipe_free
    | SetClosed | Release | Gone
    // the process was killed and the kernel released its descriptor
    | Dead
  {
    predicate Waits() { Look? || Settle? || Doze? || Wake? }

    predicate CallBoundary() { Idle? || SetActive? || EntryCheck? || Return? }

    predicate Finishing() { FlushCheck? || FlushSignal? || SetClosed? || Release? || Gone? || Dead? }

    predicate WakingWith(a: Await) { Wake? && k.WakeUp? && k.how == a }

    /**
      How far a round of the wait has got: 0 outside; 1 and 2 after the snapshot of the peer's flags;
      3 past the second look at the peer's cursor, no signal taken since; 4 a signal or an error taken.
     */
    function Stage(): nat {
      match this
      case Look(l) => if l.SetWaiting? then 1 else if l.Recheck? then 2 else 0
      case Settle(_) => 3
      case Doze(_) => 3
      case Wake(_) => 4
      case _ => 0
    }

    /** Between the decision to sleep and the return of the await. */
    predicate Committed() { Doze? || Wake? }

    /** Between setting and clearing SLEEPING. */
    predicate Asleep() { (Doze? && !z.SetSleeping?) || (Wake? && !k.DropWaiting?) }

    /** Private cursor ahead of the published one, or about to be. */
    predicate Copying() {
      (Copy? && (x.Chunk? || x.Refresh? || x.Publish?)) || (Check? && (y.MidCheck? || y.MidSignal?))
    }

    /** In the transfer, past its first load. */
    predicate Transfers() { Check? || (Copy? && !x.Load?) }

    /** Inside a read or write, up to the last look at the peer's flags. */
    predicate InCall() { SetActive? || EntryCheck? || Waits() || Copy? || (Check? && !y.FinalSignal?) }

    /** Between setting and clearing ACTIVE. */
    predicate Acts() { EntryCheck? || Waits() || Copy? || Check? || Return? }

    predicate Over() { Gone? || Dead? }
  }

  datatype Side = Side(
    pc: Pc,
    flags: Flags,        // in the shared area
    inflight: bool,      // an event is on its way to this end
    latent: bool,        // latent_user_signal
    snap: Flags,         // the peer's flags as last loaded
    unsetWait: bool,
    loops: int,          // loop_count
    actives: int,        // active_count
    sawEpipe: bool,
    nbytes: nat,         // the call's argument
    start: nat,          // position at which the call began
    // history, read by no step
    mark: nat,           // what the peer had published when it last signalled
    saw: bool            // the final check of the last call saw the peer's SLEEPING
  )

  /** broken: one of the meta page's states is CLOSED. */
  datatype State = State(d: Fifo.State, reader: Side, writer: Side, broken: bool) {
    function Me(r: Role): Side { if r == Reader then reader else writer }
    function Peer(r: Role): Side { Me(r.Other()) }
    function Put(r: Role, me: Side): State {
      if r == Reader then this.(reader := me) else this.(writer := me)
    }

    function Pub(r: Role): nat { if r == Reader then d.rPub else d.wPub }
    function Loc(r: Role): nat { if r == Reader then d.rLoc else d.wLoc }

    /** Bytes to read, or room to write. */
    function Avail(r: Role): int {
      if r == Reader then d.wPub - d.rPub else d.rPub + d.n - 1 - d.wPub
    }

    /** The wait loop's test on the cursors in the shared area. */
    predicate Stuck(r: Role)
      requires d.n > 1
    {
      if r == Reader then Slot(d.rPub, d.n) == Slot(d.wPub, d.n)
      else (if Slot(d.wPub, d.n) + 1 == d.n then 0 else Slot(d.wPub, d.n) + 1) == Slot(d.rPub, d.n)
    }

    /** Bytes the current call has moved. */
    function Taken(r: Role): int { Loc(r) - Me(r).start }

    /** The copy loop goes on: its snapshot leaves something to do, and the user wants more. */
    predicate CanCopy(r: Role) {
      && Taken(r) < Me(r).nbytes
      && if r == Reader then d.rLoc < d.wSnap else d.wLoc + 1 < d.rSnap + d.n
    }

    function Seen(r: Role): View
      requires d.n > 1
    {
      View(Peer(r).flags, broken, Stuck(r), CanCopy(r), Pub(r), Loc(r))
    }
  }

  /** What a step leaves open. */
  datatype Choice =
    | Go
    | BeginCall(nbytes: nat) | BeginFlush | BeginClose
    | CopyByte(b: byte) | EndChunk(check: bool)
    | Interrupt
    | Deliver                 // the event handler runs
    | Die

  datatype Event = Event(r: Role, c: Choice)

  /** What an end's step can depend on outside of the end. */
  datatype View = View(peerFlags: Flags, broken: bool, stuck: bool, canCopy: bool, pub: nat, loc: nat)

  /** What an end's step does outside of the end. */
  datatype Effect =
    | Nothing
    | LoadCursor               // the snapshot of the peer's cursor
    | CopyOne(b: byte)         // one byte between the user's buffer and the shared one
    | StoreCursor              // the own cursor is published
    | SignalPeer               // the notification ioctl
    | ClearWriterWaiting       // the reader writes writer_flags
    | BreakPipe                // the descriptor is closed: the meta page says so, the peer gets an event
  {
    predicate OnData() { LoadCursor? || CopyOne? || StoreCursor? }
  }

  /** A round of the wait up to its second look. */
  function NextLook(me: Side, v: View, l: LookPc): (n: Side)
    ensures !n.pc.Over()
  {
    match l
    case Head => me.(pc := Look(if v.stuck then Snap else Leave))
    case Snap => me.(pc := Look(SetWaiting), snap := v.peerFlags, loops := me.loops - 1)
    case SetWaiting => me.(pc := Look(Recheck), flags := me.flags.(waiting := true), unsetWait := true)
    case Recheck => me.(pc := if v.stuck then Settle(Closed) else Look(Leave))
    case Leave => me.(pc := Copy(Load), flags := me.flags.(waiting := me.flags.waiting && !me.unsetWait))
  }

  /** The rest of the round. */
  function NextSettle(r: Role, me: Side, v: View, q: SettlePc): (n: Side)
    ensures !n.pc.Over()
  {
    match q
    case Closed =>
      me.(pc := if me.snap.closed then Return(if r == Reader then EndOfFile else PeerClosed)
                else Settle(if me.loops == 0 then Probe else Choose))
    case Probe =>
      me.(pc := if v.broken then Return(ProbeSawEpipe) else Settle(Choose), loops := if v.broken then me.loops else LOOP_LIMIT)
    case Choose => me.(pc := Chosen(r, me), actives := if SpinsForActive(r, me) then me.actives - 1 else me.actives)
    case WakePeer => me.(pc := Look(Head))
  }

  /** The choice at the end of a round. */
  function Chosen(r: Role, me: Side): Pc {
    if r == Reader && me.sawEpipe then Return(EarlierEpipe)
    else if me.snap.sleeping then Settle(WakePeer)
    else if me.snap.waiting || (me.snap.active && me.actives > 0) then Look(Head)
    else Doze(SetSleeping)
  }

  predicate SpinsForActive(r: Role, me: Side) {
    !(r == Reader && me.sawEpipe) && !me.snap.sleeping && !me.snap.waiting && me.snap.active && me.actives > 0
  }

  function NextDoze(c: Choice, me: Side, v: View, z: DozePc): (n: Side)
    ensures !n.pc.Over()
  {
    match z
    case SetSleeping => me.(pc := Doze(AwaitEntry), flags := me.flags.(sleeping := true))
    case AwaitEntry => me.(pc := if v.broken then Wake(WakeUp(Epipe)) else Doze(Blocked))
    case Blocked =>
      me.(pc := if c.Interrupt? then Wake(WakeUp(Interrupted))
                else if me.latent || v.broken then Wake(ClearLatent) else Doze(Blocked))
  }

  function NextWake(r: Role, me: Side, v: View, k: WakePc): (n: Side)
    ensures !n.pc.Over()
  {
    match k
    case ClearLatent => me.(pc := Wake(BrokenCheck), latent := false)
    case BrokenCheck => me.(pc := Wake(WakeUp(if v.broken then Epipe else Signalled)))
    case WakeUp(how) =>
      me.(pc := if how == Signalled || (r == Reader && how == Epipe) then Look(Head) else Wake(DropWaiting(how)),
          flags := me.flags.(sleeping := false), sawEpipe := me.sawEpipe || (r == Reader && how == Epipe))
    case DropWaiting(why) =>
      // the reader's own bit stays set: the source clears the one in writer_flags instead
      me.(pc := Return(AwaitFailed(why)), flags := me.flags.(waiting := me.flags.waiting && r == Reader))
  }

  function NextCopy(c: Choice, me: Side, v: View, x: CopyPc): (n: Side)
    ensures !n.pc.Over()
  {
    match x
    case Load => me.(pc := Copy(Loop))
    case Loop => me.(pc := if v.canCopy then Copy(Chunk) else Check(FinalCheck))
    case Chunk =>
      me.(pc := if c.EndChunk? && v.pub < v.loc then (if c.check then Check(MidCheck) else Copy(Refresh)) else Copy(Chunk))
    case Refresh => me.(pc := Copy(Publish))
    case Publish => me.(pc := Copy(Loop))
  }

  function NextCheck(me: Side, v: View, y: CheckPc): (n: Side)
    ensures !n.pc.Over()
  {
    match y
    case MidCheck => me.(pc := if v.peerFlags.sleeping then Check(MidSignal) else Copy(Refresh))
    case MidSignal => me.(pc := Copy(Refresh))
    case FinalCheck =>
      me.(saw := v.peerFlags.sleeping,
          pc := if v.peerFlags.sleeping then Check(FinalSignal) else Return(Moved(v.loc - me.start)))
    case FinalSignal => me.(pc := Return(Moved(v.loc - me.start)))
  }

  /** Beginnings and ends of reads and writes. */
  function NextCall(r: Role, c: Choice, me: Side, v: View): (n: Side)
    ensures me.pc.CallBoundary() ==> !n.pc.Over()
  {
    match me.pc
    case Idle =>
      var begin := c.BeginCall?;
      me.(pc := if begin then SetActive else if c.BeginFlush? then FlushCheck else if c.BeginClose? then SetClosed else Idle,
          nbytes := if begin then c.nbytes else me.nbytes, start := if begin then v.loc else me.start,
          saw := !begin && me.saw)
    case SetActive =>
      me.(pc := if r == Reader then Look(Head) else EntryCheck, flags := me.flags.(active := true),
          unsetWait := false, loops := LOOP_LIMIT, actives := ACTIVE_MAX)
    case EntryCheck => me.(pc := if v.peerFlags.closed then Return(PeerClosed) else Look(Head))
    case Return(_) => me.(pc := Idle, flags := me.flags.(active := false))
    case _ => me
  }

  /** Flush and free. */
  function NextFinish(me: Side, v: View): Side {
    match me.pc
    case FlushCheck => me.(pc := if v.peerFlags.closed then Idle else FlushSignal)
    case FlushSignal => me.(pc := Idle)
    case SetClosed => me.(pc := Release, flags := me.flags.(closed := true))
    case Release => me.(pc := Gone)
    case _ => me
  }

  /** One step of one end, as far as it changes the end itself. */
  function Next(r: Role, c: Choice, me: Side, v: View): Side {
    if c.Deliver? then (if me.inflight then me.(inflight := false, latent := true) else me)
    else if c.Die? then (if me.pc.Over() then me else me.(pc := Dead))
    else
      match me.pc
      case Look(l) => NextLook(me, v, l)
      case Settle(q) => NextSettle(r, me, v, q)
      case Doze(z) => NextDoze(c, me, v, z)
      case Wake(k) => NextWake(r, me, v, k)
      case Copy(x) => NextCopy(c, me, v, x)
      case Check(y) => NextCheck(me, v, y)
      case _ => if me.pc.CallBoundary() then NextCall(r, c, me, v) else NextFinish(me, v)
  }

  function EffectOf(r: Role, c: Choice, me: Side, v: View): Effect {
    if c.Deliver? then Nothing
    else if c.Die? then (if me.pc.Over() then Nothing else BreakPipe)
    else
      match me.pc
      case Settle(WakePeer) => SignalPeer
      case Check(MidSignal) => SignalPeer
      case Check(FinalSignal) => SignalPeer
      case FlushSignal => SignalPeer
      case Wake(DropWaiting(_)) => if r == Reader then ClearWriterWaiting else Nothing
      case Copy(Load) => LoadCursor
      case Copy(Refresh) => LoadCursor
      case Copy(Chunk) => if c.CopyByte? && v.canCopy then CopyOne(c.b) else Nothing
      case Copy(Publish) => StoreCursor
      case Release => BreakPipe
      case _ => Nothing
  }

  function Apply(s: State, r: Role, e: Effect): (t: State)
    requires s.d.n > 1 && |s.d.cells| == s.d.n
    ensures t.d.n == s.d.n == |t.d.cells|
  {
    match e
    case Nothing => s
    case LoadCursor => s.(d := Fifo.Do(s.d, if r == Reader then Fifo.ReaderSnap else Fifo.WriterSnap))
    case CopyOne(b) =>
      var a := if r == Reader then Fifo.ReaderCopy else Fifo.WriterCopy(b);
      if Fifo.Enabled(s.d, a) then s.(d := Fifo.Do(s.d, a)) else s
    case StoreCursor => s.(d := Fifo.Do(s.d, if r == Reader then Fifo.ReaderPublish else Fifo.WriterPublish))
    case SignalPeer =>
      if s.broken then s else s.Put(r.Other(), s.Peer(r).(inflight := true, mark := s.Pub(r)))
    case ClearWriterWaiting => s.Put(Writer, s.writer.(flags := s.writer.flags.(waiting := false)))
    case BreakPipe => s.(broken := true).Put(r.Other(), s.Peer(r).(inflight := true))
  }

  function Do(s: State, r: Role, c: Choice): (t: State)
    requires s.d.n > 1 && |s.d.cells| == s.d.n
    ensures t.d.n == s.d.n == |t.d.cells|
  {
    var me, v := s.Me(r), s.Seen(r);
    Apply(s.Put(r, Next(r, c, me, v)), r, EffectOf(r, c, me, v))
  }

  /** A schedule: any steps of either end in any order. */
  function Run(s: State, schedule: seq<Event>): (t: State)
    requires s.d.n > 1 && |s.d.cells| == s.d.n
    ensures t.d.n == s.d.n == |t.d.cells|
    decreases |schedule|
  {
    if schedule == [] then s else Run(Do(s, schedule[0].r, schedule[0].c), schedule[1..])
  }

  const NO_FLAGS := Flags(false, false, false, false)
  const FRESH := Side(Idle, NO_FLAGS, false, false, NO_FLAGS, false, 0, 0, false, 0, 0, 0, false)

  function Init(n: nat, cells: seq<byte>): State {
    State(Fifo.Init(n, cells), FRESH, FRESH, false)
  }
}
