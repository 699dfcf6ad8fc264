/**
  The error of the EPIPE probe, and what a reader that gets it can do: when it is right, and inputs where it is not.
  (xen_shm_pipe.c:312-329, 366-370)
 */
module ProtocolProbe {
  import opened Protocol
  import opened ProtocolInvariant
  import opened ProtocolTheorems
  import Fifo

  // ----- the next read, with the reader on its own -----

  /** What the reader does next when it copies all it can; the byte of a copy is the writer's affair. */
  function Greedy(s: State): Choice
    requires s.d.n > 1
  {
    if s.reader.pc == Copy(Chunk) then (if s.CanCopy(Reader) then CopyByte(0) else EndChunk(false)) else Go
  }

  /** k steps of the reader on its own, or fewer if its call returns. */
  function Solo(s: State, k: nat): (t: State)
    requires Shape(s)
    ensures Shape(t)
    decreases k
  {
    if k == 0 || s.reader.pc.Return? then s else Solo(Do(s, Reader, Greedy(s)), k - 1)
  }

  /** The reader's call has returned, and it calls read again. */
  function ReadAgain(s: State, nbytes: nat): (t: State)
    requires Shape(s)
    ensures Shape(t)
  {
    Do(Do(s, Reader, Go), Reader, BeginCall(nbytes))
  }

  /** The writer is gone, and the reader inside a call. */
  ghost predicate LeftAlone(s: State) {
    Inv(s) && s.broken && s.writer.pc.Over() && !s.reader.pc.Over()
  }

  /** From s the reader has got to t; the writer and what it published are as they were. */
  ghost predicate Onward(s: State, t: State) {
    LeftAlone(t) && t.writer == s.writer && t.d.wPub == s.d.wPub && t.d.n == s.d.n
  }

  /** A greedy step of the reader before its return. */
  lemma SoloStep(s: State)
    requires LeftAlone(s) && !s.reader.pc.Idle? && !s.reader.pc.Finishing()
    requires s.reader.pc.Wake? ==> s.reader.pc.k == WakeUp(Epipe)
    ensures Onward(s, Do(s, Reader, Greedy(s)))
  {
    var c := Greedy(s);
    StepInv(s, Reader, c);
    DoSteps(s, Reader, c);
    SoloEffect(Reader, c, s.reader, s.Seen(Reader));
    OverByBreaking(Reader, c, s.reader, s.Seen(Reader));
  }

  lemma SoloEffect(r: Role, c: Choice, me: Side, v: View)
    requires !c.Die? && !c.Deliver? && !me.pc.Release? && !(me.pc.Wake? && me.pc.k.DropWaiting?)
    ensures var e := EffectOf(r, c, me, v); !e.ClearWriterWaiting? && !e.BreakPipe?
  {
  }

  /** How the read will go: there are bytes; there are none and the writer closed; there are none and it did not. */
  datatype Way = HasBytes | AtEnd | WriterKilled

  function WayOf(s: State): Way {
    if s.Avail(Reader) > 0 then HasBytes else if s.writer.flags.closed then AtEnd else WriterKilled
  }

  /** Where the reader can be on a way, and how far it has at most to go. */
  function Rank(w: Way, me: Side, canCopy: bool): nat {
    match w
    case HasBytes => BytesRank(me.pc, canCopy)
    case AtEnd => EndRank(me)
    case WriterKilled =>
      if me.pc == SetActive then 20 * LOOP_LIMIT + 20
      else if me.loops < 0 || KilledRank(me) == 0 then 0 else 20 * me.loops + KilledRank(me)
  }

  function BytesRank(pc: Pc, canCopy: bool): (rank: nat)
    ensures rank <= 12
  {
    match pc
    case SetActive => 12
    case Look(l) => if l.Head? then 11 else if l.Leave? then 10 else 0
    case Copy(x) => CopyRank(x, canCopy)
    case Check(y) => if y.FinalCheck? then 3 else if y.FinalSignal? then 2 else 0
    case Return(o) => if o.Moved? then 1 else 0
    case _ => 0
  }

  function CopyRank(x: CopyPc, canCopy: bool): (rank: nat)
    ensures rank <= 12
  {
    match x
    case Load => 9
    case Loop => if canCopy then 8 else 4
    case Chunk => 7
    case Refresh => 6
    case Publish => 5
  }

  function KilledRank(me: Side): nat {
    match me.pc
    case Look(l) =>
      if l.Head? then 4 else if l.Snap? then 3 else if l.Leave? || me.snap.closed then 0 else if l.SetWaiting? then 19 else 18
    case Settle(q) =>
      if q.Closed? then (if me.snap.closed then 0 else 17) else if q.Probe? then 16 else if q.Choose? then 15 else 14
    case Doze(z) => if z.SetSleeping? then 13 else if z.AwaitEntry? then 12 else 0
    case Wake(k) => if k == WakeUp(Epipe) then 11 else 0
    case Return(o) => if o.ProbeSawEpipe? || o.EarlierEpipe? then 1 else 0
    case _ => 0
  }

  /** The reader has this way before it or behind it. */
  ghost predicate OnWay(w: Way, s: State) {
    var whole :=
      && LeftAlone(s) && Rank(w, s.reader, s.CanCopy(Reader)) > 0
      && match w
         case HasBytes =>
           && s.reader.nbytes > 0 && (s.reader.pc.SetActive? || s.reader.pc.Look? ==> s.Avail(Reader) > 0)
           && (s.reader.pc.Transfers() ==> s.d.wSnap == s.d.wPub)
           && (s.reader.pc == Copy(Refresh) || s.reader.pc == Copy(Publish) ==> !s.CanCopy(Reader))
         case AtEnd => s.Avail(Reader) == 0 && s.writer.flags.closed
         case WriterKilled => s.Avail(Reader) == 0 && !s.writer.flags.closed;
    whole
  }

  // ----- one step on each way -----

  lemma KilledLook(me: Side, v: View)
    requires (me.pc == Look(Head) || me.pc == Look(Snap)) && me.loops >= 1 && v.stuck && !v.peerFlags.closed
    ensures var n := NextLook(me, v, me.pc.l);
      0 < KilledRank(n) && n.loops >= 0 && 20 * n.loops + KilledRank(n) < 20 * me.loops + KilledRank(me)
  {
  }

  lemma KilledLateLook(me: Side, v: View)
    requires me.pc.Look? && KilledRank(me) > 0 && !me.pc.l.Head? && !me.pc.l.Snap? && v.stuck
    ensures var n := NextLook(me, v, me.pc.l); n.loops == me.loops && 0 < KilledRank(n) < KilledRank(me)
  {
  }

  lemma KilledSettle(me: Side, v: View)
    requires me.pc.Settle? && KilledRank(me) > 0 && v.broken
    ensures var n := NextSettle(Reader, me, v, me.pc.q); n.loops == me.loops && 0 < KilledRank(n) < KilledRank(me)
  {
    var n := NextSettle(Reader, me, v, me.pc.q);
    var ok := n.loops == me.loops && 0 < KilledRank(n) < KilledRank(me);
    match me.pc.q
    case Closed => assert ok;
    case Probe => assert ok;
    case Choose => assert ok;
    case WakePeer => assert ok;
  }

  lemma KilledSleep(me: Side, v: View)
    requires (me.pc.Doze? || me.pc.Wake?) && KilledRank(me) > 0 && v.broken
    ensures var n := Next(Reader, Go, me, v); n.loops == me.loops && 0 < KilledRank(n) < KilledRank(me)
  {
  }

  lemma KilledSide(me: Side, v: View)
    requires Rank(WriterKilled, me, v.canCopy) > 0 && !me.pc.Return? && LocalOk(Reader, me)
    requires v.stuck && v.broken && !v.peerFlags.closed
    ensures var n := Next(Reader, Go, me, v); 0 < Rank(WriterKilled, n, false) < Rank(WriterKilled, me, false)
  {
    match me.pc
    case SetActive =>
    case Look(l) => if l.Head? || l.Snap? { KilledLook(me, v); } else { KilledLateLook(me, v); }
    case Settle(_) => KilledSettle(me, v);
    case Doze(_) => KilledSleep(me, v);
    case Wake(_) => KilledSleep(me, v);
    case _ =>
  }

  /** A step that leaves the data alone. */
  lemma QuietStep(s: State)
    requires LeftAlone(s) && !s.reader.pc.Idle? && !s.reader.pc.Finishing() && !s.reader.pc.Copy?
    requires s.reader.pc.Wake? ==> s.reader.pc.k == WakeUp(Epipe)
    ensures var t := Do(s, Reader, Go); t.d == s.d && t.reader == Next(Reader, Go, s.reader, s.Seen(Reader))
  {
    DataAtRest(s, Reader, Go);
    DoSteps(s, Reader, Go);
  }

  /** The bytes still wanted. */
  function Wanted(s: State): int { s.reader.nbytes - s.Taken(Reader) }

  /** Closer on a way with bytes: fewer bytes to go, or as many and a lower rank. */
  predicate BytesCloser(s: State, t: State) {
    Wanted(t) < Wanted(s) || (Wanted(t) == Wanted(s) && BytesRank(t.reader.pc, t.CanCopy(Reader)) < BytesRank(s.reader.pc, s.CanCopy(Reader)))
  }

  lemma BytesLook(me: Side, v: View)
    requires me.pc.Look? && BytesRank(me.pc, false) > 0 && !v.stuck
    ensures var n := NextLook(me, v, me.pc.l);
      && 0 < BytesRank(n.pc, false) < BytesRank(me.pc, false) && n.nbytes == me.nbytes && n.start == me.start
      && (n.pc.Look? || n.pc == Copy(Load))
  {
  }

  lemma BytesLookBack(me: Side, v: View)
    requires me.pc.Check? && BytesRank(me.pc, false) > 0
    ensures var n := NextCheck(me, v, me.pc.y);
      && 0 < BytesRank(n.pc, false) < BytesRank(me.pc, false) && n.nbytes == me.nbytes && n.start == me.start
      && (n.pc.Check? || n.pc.Return?)
  {
  }

  lemma BytesSide(me: Side, v: View)
    requires BytesRank(me.pc, v.canCopy) > 0 && (me.pc.SetActive? || (me.pc.Look? && !v.stuck) || me.pc.Check?)
    ensures var n := Next(Reader, Go, me, v);
      && 0 < BytesRank(n.pc, false) < BytesRank(me.pc, false) && n.nbytes == me.nbytes && n.start == me.start
    ensures var pc := Next(Reader, Go, me, v).pc;
      if me.pc.SetActive? then pc == Look(Head) else if me.pc.Check? then pc.Check? || pc.Return? else pc.Look? || pc == Copy(Load)
  {
    if me.pc.Look? { BytesLook(me, v); }
    if me.pc.Check? { BytesLookBack(me, v); }
  }

  lemma BytesQuiet(s: State)
    requires OnWay(HasBytes, s) && (s.reader.pc.SetActive? || s.reader.pc.Look? || s.reader.pc.Check?)
    ensures var t := Do(s, Reader, Go); OnWay(HasBytes, t) && BytesCloser(s, t)
  {
    SoloStep(s);
    QuietStep(s);
    StuckMeansNothingAvailable(s, Reader);
    BytesSide(s.reader, s.Seen(Reader));
    RankAfterBytes(Do(s, Reader, Go).reader.pc, Do(s, Reader, Go).CanCopy(Reader));
    RankAfterBytes(s.reader.pc, s.CanCopy(Reader));
  }

  lemma RankAfterBytes(pc: Pc, canCopy: bool)
    requires !pc.Copy? || pc == Copy(Load)
    ensures BytesRank(pc, canCopy) == BytesRank(pc, false)
  {
  }

  lemma BytesLoad(s: State)
    requires OnWay(HasBytes, s) && s.reader.pc == Copy(Load)
    ensures var t := Do(s, Reader, Go); OnWay(HasBytes, t) && BytesCloser(s, t)
  {
    SoloStep(s);
    CursorLoaded(s.Put(Reader, NextCopy(Go, s.reader, s.Seen(Reader), Load)), Reader);
  }

  lemma BytesLoop(s: State)
    requires OnWay(HasBytes, s) && s.reader.pc == Copy(Loop)
    ensures var t := Do(s, Reader, Go); OnWay(HasBytes, t) && BytesCloser(s, t)
  {
    SoloStep(s);
  }

  lemma BytesChunk(s: State)
    requires OnWay(HasBytes, s) && s.reader.pc == Copy(Chunk)
    ensures var t := Do(s, Reader, Greedy(s)); OnWay(HasBytes, t) && BytesCloser(s, t)
  {
    if s.CanCopy(Reader) { ByteTaken(s); } else { ChunkOver(s); }
  }

  lemma ByteTaken(s: State)
    requires OnWay(HasBytes, s) && s.reader.pc == Copy(Chunk) && s.CanCopy(Reader)
    ensures var t := Do(s, Reader, CopyByte(0)); OnWay(HasBytes, t) && Wanted(t) < Wanted(s)
  {
    SoloStep(s);
    ByteCopied(s.Put(Reader, s.reader), Reader, 0);
  }

  lemma ChunkOver(s: State)
    requires OnWay(HasBytes, s) && s.reader.pc == Copy(Chunk) && !s.CanCopy(Reader)
    ensures var t := Do(s, Reader, EndChunk(false)); OnWay(HasBytes, t) && BytesCloser(s, t)
  {
    SoloStep(s);
    var t := Do(s, Reader, EndChunk(false));
    assert t == s.(reader := s.reader.(pc := Copy(Refresh)));
  }

  lemma BytesRefresh(s: State)
    requires OnWay(HasBytes, s) && s.reader.pc == Copy(Refresh)
    ensures var t := Do(s, Reader, Go); OnWay(HasBytes, t) && BytesCloser(s, t)
  {
    SoloStep(s);
  }

  lemma BytesPublish(s: State)
    requires OnWay(HasBytes, s) && s.reader.pc == Copy(Publish)
    ensures var t := Do(s, Reader, Go); OnWay(HasBytes, t) && BytesCloser(s, t)
  {
    SoloStep(s);
    CursorStored(s.Put(Reader, NextCopy(Go, s.reader, s.Seen(Reader), Publish)), Reader);
  }

  lemma BytesStep(s: State)
    requires OnWay(HasBytes, s) && !s.reader.pc.Return?
    ensures var t := Do(s, Reader, Greedy(s)); OnWay(HasBytes, t) && BytesCloser(s, t)
  {
    match s.reader.pc
    case Copy(Load) => BytesLoad(s);
    case Copy(Loop) => BytesLoop(s);
    case Copy(Chunk) => BytesChunk(s);
    case Copy(Refresh) => BytesRefresh(s);
    case Copy(Publish) => BytesPublish(s);
    case _ => BytesQuiet(s);
  }

  lemma QuietWayStep(w: Way, s: State)
    requires w != HasBytes && OnWay(w, s) && !s.reader.pc.Return?
    ensures var t := Do(s, Reader, Greedy(s)); OnWay(w, t) && Rank(w, t.reader, false) < Rank(w, s.reader, false)
  {
    StuckMeansNothingAvailable(s, Reader);
    SoloStep(s);
    QuietStep(s);
    if w == AtEnd { EndSide(Go, s.reader, s.Seen(Reader)); } else { KilledSide(s.reader, s.Seen(Reader)); }
  }

  /** How far a way still goes at most. */
  function Far(w: Way, s: State): nat {
    if w == HasBytes then Count(Wanted(s), BytesRank(s.reader.pc, s.CanCopy(Reader))) else Rank(w, s.reader, false)
  }

  function Count(wanted: int, rank: nat): nat { if wanted > 0 then 20 * wanted + rank else rank }

  lemma CountFalls(wanted: int, rank: nat, wanted': int, rank': nat)
    requires rank' <= 12 && wanted >= 0 && wanted' >= 0 && (wanted' < wanted || (wanted' == wanted && rank' < rank))
    ensures Count(wanted', rank') < Count(wanted, rank)
  {
  }

  lemma WantsSome(s: State)
    requires DataOk(s, Reader) && BytesRank(s.reader.pc, false) > 0
    ensures Wanted(s) >= 0
  {
  }

  lemma WayStep(w: Way, s: State)
    requires OnWay(w, s) && !s.reader.pc.Return?
    ensures OnWay(w, Do(s, Reader, Greedy(s)))
    ensures Far(w, Do(s, Reader, Greedy(s))) < Far(w, s)
  {
    if w == HasBytes {
      var t := Do(s, Reader, Greedy(s));
      BytesStep(s);
      WantsSome(s);
      WantsSome(t);
      CountFalls(Wanted(s), BytesRank(s.reader.pc, s.CanCopy(Reader)), Wanted(t), BytesRank(t.reader.pc, t.CanCopy(Reader)));
    } else {
      QuietWayStep(w, s);
    }
  }

  /** One step on a way, and the rest of it: what k steps from there come to, k + 1 come to from here. */
  lemma WayTurns(w: Way, s: State) returns (t: State)
    requires OnWay(w, s) && !s.reader.pc.Return?
    ensures OnWay(w, t) && Far(w, t) < Far(w, s)
    ensures forall u, k: nat :: GoesTo(t, k, u) ==> GoesTo(s, k + 1, u)
  {
    WayStep(w, s);
    t := Do(s, Reader, Greedy(s));
  }

  /** k steps of the reader on its own lead from s to u. */
  ghost predicate GoesTo(s: State, k: nat, u: State) { Shape(s) && Solo(s, k) == u }

  /** Every way comes to its end. */
  lemma {:induction false} Arrives(w: Way, s: State) returns (k: nat, u: State)
    requires OnWay(w, s)
    ensures GoesTo(s, k, u) && OnWay(w, u) && u.reader.pc.Return?
    decreases Far(w, s)
  {
    if s.reader.pc.Return? {
      k, u := 0, s;
    } else {
      var t := WayTurns(w, s);
      k, u := Arrives(w, t);
      assert GoesTo(t, k, u);
      k := k + 1;
    }
  }

  lemma ReadAgainBegins(s: State, nbytes: nat)
    requires Inv(s) && s.reader.pc.Return? && s.broken && nbytes > 0
    ensures var t := ReadAgain(s, nbytes); t.reader.pc == SetActive && t.d == s.d && t.writer == s.writer && t.reader.nbytes == nbytes
    ensures OnWay(WayOf(s), ReadAgain(s, nbytes))
  {
    var s1 := Do(s, Reader, Go);
    StepInv(s, Reader, Go);
    StepInv(s1, Reader, BeginCall(nbytes));
    assert s1.reader.pc.Idle? && s1.d == s.d && s1.writer == s.writer && s1.broken;
    StuckMeansNothingAvailable(s, Reader);
  }

  /** What a read says, by what there is. */
  predicate Truthful(s: State, outcome: Outcome) {
    var whole :=
      && (outcome.Value() > 0 <==> s.Avail(Reader) > 0)
      && (outcome.Value() == 0 <==> s.Avail(Reader) == 0 && s.writer.flags.closed)
      && (outcome.Value() == -1 <==> s.Avail(Reader) == 0 && !s.writer.flags.closed);
    whole
  }

  /** At the end of a way. */
  lemma WayEnds(w: Way, t: State)
    requires OnWay(w, t) && t.reader.pc.Return?
    ensures if w == HasBytes then t.reader.pc.outcome.Value() > 0
            else t.reader.pc.outcome.Value() == if w == AtEnd then 0 else -1
  {
  }

  /**
    A read on a pipe that is broken, on its own, after any return of an earlier one: it moves bytes exactly when there are any, it says
    end of file exactly when there are none and the writer had closed, and it fails exactly when there are none and it had not.
   */
  lemma NextReadExactly(s: State, nbytes: nat) returns (k: nat)
    requires Reachable(s) && s.reader.pc.Return? && s.broken && nbytes > 0
    ensures var t := Solo(ReadAgain(s, nbytes), k); t.reader.pc.Return? && Truthful(s, t.reader.pc.outcome)
  {
    ReachableInv(s);
    ReadAgainBegins(s, nbytes);
    var t;
    k, t := Arrives(WayOf(s), ReadAgain(s, nbytes));
    WayEnds(WayOf(s), t);
    StuckMeansNothingAvailable(s, Reader);
  }

  /**
    The probe's error is right, there being nothing more to read and no end of file, if and only if the next read on its own fails
    as well. Otherwise the next read gives the bytes, or the end of file, that the error hid.
   */
  lemma ProbeErrorExactly(s: State, nbytes: nat) returns (k: nat)
    requires Reachable(s) && s.reader.pc == Return(ProbeSawEpipe) && nbytes > 0
    ensures s.broken
    ensures var t := Solo(ReadAgain(s, nbytes), k); t.reader.pc.Return? && Truthful(s, t.reader.pc.outcome)
  {
    ProbeEpipeMeansBroken(s, Reader);
    k := NextReadExactly(s, nbytes);
  }

  // ----- two inputs where the probe's error is wrong -----

  /** A writer in its first call, up to its look at the reader's CLOSED. */
  function Entering(nbytes: nat): Side {
    FRESH.(pc := EntryCheck, flags := NO_FLAGS.(active := true), nbytes := nbytes, loops := LOOP_LIMIT, actives := ACTIVE_MAX)
  }

  /** A writer in its call of write, active and asleep for no one, and a reader that has spun j rounds on the empty ring. */
  predicate Spinning(s: State, j: nat, n: nat, cells: seq<byte>, nbytes: nat) {
    && s.d == Fifo.Init(n, cells) && !s.broken
    && s.writer == Entering(nbytes)
    && s.reader.pc == Look(Head) && s.reader.loops == LOOP_LIMIT - j && s.reader.actives == ACTIVE_MAX - j
    && !s.reader.sawEpipe && !s.reader.flags.sleeping && !s.reader.flags.closed
  }

  /** A look or a choice of the reader is its own affair. */
  lemma LookOnly(s: State)
    requires Reachable(s) && (s.reader.pc.Look? || (s.reader.pc.Settle? && !s.reader.pc.q.WakePeer?))
    ensures Reachable(Do(s, Reader, Go)) && Do(s, Reader, Go) == s.(reader := Next(Reader, Go, s.reader, s.Seen(Reader)))
  {
    ReachableStep(s, Reader, Go);
  }

  /** Four steps of a round, up to the look at the writer's CLOSED bit in the snapshot. */
  lemma HalfRound(s: State, n: nat, cells: seq<byte>) returns (t: State)
    requires Reachable(s) && s.d == Fifo.Init(n, cells) && n > 1 && s.reader.pc == Look(Head) && !s.writer.flags.closed
    ensures Reachable(t)
    ensures t == s.(reader := s.reader.(pc := Settle(Closed), loops := s.reader.loops - 1, snap := s.writer.flags,
                                        flags := s.reader.flags.(waiting := true), unsetWait := true))
  {
    var s2 := s.(reader := s.reader.(pc := Look(SetWaiting), snap := s.writer.flags, loops := s.reader.loops - 1));
    QuarterRound(s, s2, n, cells);
    var s3 := s.(reader := s2.reader.(pc := Look(Recheck), flags := s.reader.flags.(waiting := true), unsetWait := true));
    LookStep(s2, s3, n, cells);
    t := s.(reader := s3.reader.(pc := Settle(Closed)));
    LookStep(s3, t, n, cells);
  }

  lemma QuarterRound(s: State, t: State, n: nat, cells: seq<byte>)
    requires Reachable(s) && s.d == Fifo.Init(n, cells) && n > 1 && s.reader.pc == Look(Head)
    requires t == s.(reader := s.reader.(pc := Look(SetWaiting), snap := s.writer.flags, loops := s.reader.loops - 1))
    ensures Reachable(t)
  {
    var s1 := s.(reader := s.reader.(pc := Look(Snap)));
    LookStep(s, s1, n, cells);
    LookStep(s1, t, n, cells);
  }

  lemma LookStep(s: State, t: State, n: nat, cells: seq<byte>)
    requires Reachable(s) && s.d == Fifo.Init(n, cells) && n > 1 && s.reader.pc.Look?
    requires t == s.(reader := NextLook(s.reader, View(s.writer.flags, false, true, false, 0, 0), s.reader.pc.l))
    ensures Reachable(t) && t == Do(s, Reader, Go)
  {
    ReachableInv(s);
    StuckMeansNothingAvailable(s, Reader);
    LookOnly(s);
  }

  /** A round with neither sleep nor probe. */
  lemma SpinOnce(s: State, j: nat, n: nat, cells: seq<byte>, nbytes: nat) returns (t: State)
    requires Reachable(s) && n > 1 && Spinning(s, j, n, cells, nbytes) && j + 1 < LOOP_LIMIT
    ensures Reachable(t) && Spinning(t, j + 1, n, cells, nbytes)
  {
    var s1 := HalfRound(s, n, cells);
    LookOnly(s1);
    var s2 := Do(s1, Reader, Go);
    assert s2.reader == s1.reader.(pc := Settle(Choose));
    LookOnly(s2);
    t := Do(s2, Reader, Go);
  }

  lemma {:induction false} Spin(s: State, j: nat, n: nat, cells: seq<byte>, nbytes: nat) returns (t: State)
    requires Reachable(s) && n > 1 && Spinning(s, j, n, cells, nbytes) && j < LOOP_LIMIT
    ensures Reachable(t) && Spinning(t, LOOP_LIMIT - 1, n, cells, nbytes)
    decreases LOOP_LIMIT - j
  {
    t := s;
    if j + 1 < LOOP_LIMIT {
      t := SpinOnce(s, j, n, cells, nbytes);
      t := Spin(t, j + 1, n, cells, nbytes);
    }
  }

  lemma BothBegin(n: nat, cells: seq<byte>, nbytes: nat) returns (t: State)
    requires n > 1 && |cells| == n
    ensures Reachable(t) && Spinning(t, 0, n, cells, nbytes)
  {
    var s0 := Init(n, cells);
    ReachableInit(n, cells);
    ReachableStep(s0, Writer, BeginCall(nbytes));
    var s1 := Do(s0, Writer, BeginCall(nbytes));
    ReachableStep(s1, Writer, Go);
    var s2 := Do(s1, Writer, Go);
    assert s2.writer == Entering(nbytes);
    ReachableStep(s2, Reader, BeginCall(1));
    var s3 := Do(s2, Reader, BeginCall(1));
    ReachableStep(s3, Reader, Go);
    t := Do(s3, Reader, Go);
  }

  /** After ten thousand rounds of spinning the reader is about to probe. */
  lemma ProbeReached(n: nat, cells: seq<byte>, nbytes: nat) returns (t: State)
    requires n > 1 && |cells| == n
    ensures Reachable(t) && t.reader.pc == Settle(Probe) && t.d == Fifo.Init(n, cells) && !t.broken
    ensures t.writer == Entering(nbytes)
    ensures !t.reader.flags.sleeping && !t.reader.flags.closed
  {
    t := BothBegin(n, cells, nbytes);
    t := Spin(t, 0, n, cells, nbytes);
    t := HalfRound(t, n, cells);
    LookOnly(t);
    t := Do(t, Reader, Go);
  }

  /** The writer inside its transfer of nbytes, the reader as it was. */
  predicate Writes(s: State, t: State, pc: Pc, nbytes: nat, loc: nat, pub: nat) {
    var whole :=
      && t.reader == s.reader && !t.broken && t.d.n == s.d.n && t.d.rPub == t.d.rLoc == t.d.rSnap == 0 && t.d.wLoc == loc && t.d.wPub == pub
      && t.writer.pc == pc && t.writer.nbytes == nbytes && t.writer.start == 0 && !t.writer.flags.closed;
    whole
  }

  /** The writer's steps, one by one. */
  lemma WriteEnters(s: State, t: State, nbytes: nat)
    requires Shape(t) && Fifo.Inv(t.d) && Writes(s, t, EntryCheck, nbytes, 0, 0) && !s.reader.flags.closed
    ensures var u := Do(t, Writer, Go); Writes(s, u, Look(Head), nbytes, 0, 0) && Fifo.Inv(u.d)
  {
  }

  lemma WriteLooks(s: State, t: State, nbytes: nat)
    requires Shape(t) && Fifo.Inv(t.d) && Writes(s, t, Look(Head), nbytes, 0, 0)
    ensures var u := Do(t, Writer, Go); Writes(s, u, Look(Leave), nbytes, 0, 0) && Fifo.Inv(u.d)
  {
    StuckMeansNothingAvailable(t, Writer);
  }

  lemma WriteLeaves(s: State, t: State, nbytes: nat)
    requires Shape(t) && Fifo.Inv(t.d) && Writes(s, t, Look(Leave), nbytes, 0, 0)
    ensures var u := Do(t, Writer, Go); Writes(s, u, Copy(Load), nbytes, 0, 0) && Fifo.Inv(u.d)
  {
  }

  lemma WriteLoads(s: State, t: State, nbytes: nat)
    requires Shape(t) && Fifo.Inv(t.d) && Writes(s, t, Copy(Load), nbytes, 0, 0)
    ensures var u := Do(t, Writer, Go); Writes(s, u, Copy(Loop), nbytes, 0, 0) && Fifo.Inv(u.d)
  {
    FifoKept(t, Writer, Go);
  }

  lemma ByteWanted(s: State, t: State)
    requires Shape(t) && Fifo.Inv(t.d) && Writes(s, t, Copy(Loop), 1, 0, 0)
    ensures var u := Do(t, Writer, Go); Writes(s, u, Copy(Chunk), 1, 0, 0) && Fifo.Inv(u.d)
  {
  }

  lemma ByteStored(s: State, t: State)
    requires Shape(t) && Fifo.Inv(t.d) && Writes(s, t, Copy(Chunk), 1, 0, 0)
    ensures var u := Do(t, Writer, CopyByte(0)); Writes(s, u, Copy(Chunk), 1, 1, 0) && Fifo.Inv(u.d)
  {
    FifoKept(t, Writer, CopyByte(0));
  }

  lemma ChunkEnds(s: State, t: State)
    requires Shape(t) && Fifo.Inv(t.d) && Writes(s, t, Copy(Chunk), 1, 1, 0)
    ensures var u := Do(t, Writer, EndChunk(false)); Writes(s, u, Copy(Refresh), 1, 1, 0) && Fifo.Inv(u.d)
  {
  }

  lemma CursorReloaded(s: State, t: State)
    requires Shape(t) && Fifo.Inv(t.d) && Writes(s, t, Copy(Refresh), 1, 1, 0)
    ensures var u := Do(t, Writer, Go); Writes(s, u, Copy(Publish), 1, 1, 0) && Fifo.Inv(u.d)
  {
    FifoKept(t, Writer, Go);
  }

  lemma BytePublished(s: State, t: State)
    requires Shape(t) && Fifo.Inv(t.d) && Writes(s, t, Copy(Publish), 1, 1, 0)
    ensures var u := Do(t, Writer, Go); Writes(s, u, Copy(Loop), 1, 1, 1) && Fifo.Inv(u.d)
  {
    FifoKept(t, Writer, Go);
  }

  lemma WriteDone(s: State, t: State, nbytes: nat)
    requires Shape(t) && Fifo.Inv(t.d) && Writes(s, t, Copy(Loop), nbytes, nbytes, nbytes)
    ensures var u := Do(t, Writer, Go); Writes(s, u, Check(FinalCheck), nbytes, nbytes, nbytes) && Fifo.Inv(u.d)
  {
  }

  lemma WriteLooksBack(s: State, t: State, nbytes: nat)
    requires Shape(t) && Fifo.Inv(t.d) && Writes(s, t, Check(FinalCheck), nbytes, nbytes, nbytes) && !s.reader.flags.sleeping
    ensures var u := Do(t, Writer, Go); Writes(s, u, Return(Moved(nbytes)), nbytes, nbytes, nbytes) && Fifo.Inv(u.d)
  {
  }

  lemma WriteReturns(s: State, t: State, nbytes: nat)
    requires Shape(t) && Fifo.Inv(t.d) && Writes(s, t, Return(Moved(nbytes)), nbytes, nbytes, nbytes)
    ensures var u := Do(t, Writer, Go); Writes(s, u, Idle, nbytes, nbytes, nbytes) && Fifo.Inv(u.d)
  {
  }

  lemma ClosingBegins(s: State, t: State, nbytes: nat)
    requires Shape(t) && Fifo.Inv(t.d) && Writes(s, t, Idle, nbytes, nbytes, nbytes)
    ensures var u := Do(t, Writer, BeginClose); Writes(s, u, SetClosed, nbytes, nbytes, nbytes) && Fifo.Inv(u.d)
  {
  }

  lemma ClosedAndReleased(t: State, nbytes: nat)
    requires Shape(t) && t.writer.pc.SetClosed? && t.Avail(Reader) == nbytes
    ensures var u := Do(Do(t, Writer, Go), Writer, Go);
      u.broken && u.writer.pc.Gone? && u.writer.flags.closed && u.reader.pc == t.reader.pc && u.Avail(Reader) == nbytes
  {
    var t1 := Do(t, Writer, Go);
    assert t1.writer.pc.Release? && t1.writer.flags.closed && t1.reader == t.reader && t1.d == t.d;
  }

  lemma WriteBegins(s: State, t: State, nbytes: nat) returns (u: State)
    requires Reachable(t) && Fifo.Inv(t.d) && Writes(s, t, EntryCheck, nbytes, 0, 0) && !s.reader.flags.closed
    ensures Reachable(u) && Fifo.Inv(u.d) && Writes(s, u, Copy(Loop), nbytes, 0, 0)
  {
    WriteEnters(s, t, nbytes);
    ReachableStep(t, Writer, Go);
    var t1 := Do(t, Writer, Go);
    WriteLooks(s, t1, nbytes);
    ReachableStep(t1, Writer, Go);
    var t2 := Do(t1, Writer, Go);
    WriteLeaves(s, t2, nbytes);
    ReachableStep(t2, Writer, Go);
    var t3 := Do(t2, Writer, Go);
    WriteLoads(s, t3, nbytes);
    ReachableStep(t3, Writer, Go);
    u := Do(t3, Writer, Go);
  }

  lemma OneByteWritten(s: State, t: State) returns (u: State)
    requires Reachable(t) && Fifo.Inv(t.d) && Writes(s, t, Copy(Loop), 1, 0, 0)
    ensures Reachable(u) && Fifo.Inv(u.d) && Writes(s, u, Copy(Loop), 1, 1, 1)
  {
    ByteWanted(s, t);
    ReachableStep(t, Writer, Go);
    var t1 := Do(t, Writer, Go);
    ByteStored(s, t1);
    ReachableStep(t1, Writer, CopyByte(0));
    var t2 := Do(t1, Writer, CopyByte(0));
    ChunkEnds(s, t2);
    ReachableStep(t2, Writer, EndChunk(false));
    var t3 := Do(t2, Writer, EndChunk(false));
    u := BytePublishes(s, t3);
  }

  lemma AllWritten(s: State, t: State, nbytes: nat) returns (u: State)
    requires Reachable(t) && Fifo.Inv(t.d) && Writes(s, t, Copy(Loop), nbytes, 0, 0) && nbytes <= 1
    ensures Reachable(u) && Fifo.Inv(u.d) && Writes(s, u, Copy(Loop), nbytes, nbytes, nbytes)
  {
    if nbytes == 0 {
      u := t;
    } else {
      u := OneByteWritten(s, t);
    }
  }

  lemma BytePublishes(s: State, t: State) returns (u: State)
    requires Reachable(t) && Fifo.Inv(t.d) && Writes(s, t, Copy(Refresh), 1, 1, 0)
    ensures Reachable(u) && Fifo.Inv(u.d) && Writes(s, u, Copy(Loop), 1, 1, 1)
  {
    CursorReloaded(s, t);
    ReachableStep(t, Writer, Go);
    var t1 := Do(t, Writer, Go);
    BytePublished(s, t1);
    ReachableStep(t1, Writer, Go);
    u := Do(t1, Writer, Go);
  }

  /** The write returns, and the writer closes in good order. */
  lemma WriteEnds(s: State, t: State, nbytes: nat) returns (u: State)
    requires Reachable(t) && Fifo.Inv(t.d) && Writes(s, t, Copy(Loop), nbytes, nbytes, nbytes) && !s.reader.flags.sleeping
    ensures Reachable(u) && Fifo.Inv(u.d) && Writes(s, u, SetClosed, nbytes, nbytes, nbytes)
  {
    WriteDone(s, t, nbytes);
    ReachableStep(t, Writer, Go);
    var t1 := Do(t, Writer, Go);
    WriteLooksBack(s, t1, nbytes);
    ReachableStep(t1, Writer, Go);
    var t2 := Do(t1, Writer, Go);
    WriteReturns(s, t2, nbytes);
    ReachableStep(t2, Writer, Go);
    var t3 := Do(t2, Writer, Go);
    ClosingBegins(s, t3, nbytes);
    ReachableStep(t3, Writer, BeginClose);
    u := Do(t3, Writer, BeginClose);
  }

  /**
    From the start, for a ring of any size: the reader spins ten thousand rounds while a writer is slow inside its call, which then
    writes nothing or one byte, returns, and closes in good order just before the probe. The read fails, with the end of file,
    or the byte, not yet reported.
   */
  lemma ProbeReportsGracefulCloseAsError(n: nat, cells: seq<byte>, nbytes: nat) returns (t: State)
    requires n > 1 && |cells| == n && nbytes <= 1
    ensures Reachable(t) && t.reader.pc == Return(ProbeSawEpipe)
    ensures t.writer.pc.Gone? && t.writer.flags.closed && t.Avail(Reader) == nbytes
  {
    var s := ProbeReached(n, cells, nbytes);
    t := WritesAndCloses(s, n, cells, nbytes);
    t := ClosesAndProbes(t, nbytes);
  }

  lemma AtEntry(s: State, n: nat, cells: seq<byte>, nbytes: nat)
    requires Shape(s) && s.d == Fifo.Init(n, cells) && !s.broken
    requires s.writer == Entering(nbytes)
    ensures Writes(s, s, EntryCheck, nbytes, 0, 0) && Fifo.Inv(s.d)
  {
    Fifo.InitInv(n, cells);
  }

  lemma WritesAndCloses(s: State, n: nat, cells: seq<byte>, nbytes: nat) returns (t: State)
    requires Reachable(s) && s.reader.pc == Settle(Probe) && s.d == Fifo.Init(n, cells) && n > 1 && !s.broken && nbytes <= 1
    requires s.writer == Entering(nbytes)
    requires !s.reader.flags.sleeping && !s.reader.flags.closed
    ensures Reachable(t) && t.writer.pc.SetClosed? && t.reader.pc == Settle(Probe) && t.Avail(Reader) == nbytes
  {
    AtEntry(s, n, cells, nbytes);
    t := WriteBegins(s, s, nbytes);
    t := AllWritten(s, t, nbytes);
    t := WriteEnds(s, t, nbytes);
  }

  lemma ClosesAndProbes(s: State, nbytes: nat) returns (t: State)
    requires Reachable(s) && s.writer.pc.SetClosed? && s.reader.pc == Settle(Probe) && s.Avail(Reader) == nbytes
    ensures Reachable(t) && t.reader.pc == Return(ProbeSawEpipe)
    ensures t.writer.pc.Gone? && t.writer.flags.closed && t.Avail(Reader) == nbytes
  {
    ReachableStep(s, Writer, Go);
    var s1 := Do(s, Writer, Go);
    ReachableStep(s1, Writer, Go);
    var s2 := Do(s1, Writer, Go);
    ClosedAndReleased(s, nbytes);
    ReachableStep(s2, Reader, Go);
    QuietProbe(s2);
    t := Do(s2, Reader, Go);
  }

  lemma QuietProbe(s: State)
    requires Shape(s) && s.broken && s.reader.pc == Settle(Probe)
    ensures var t := Do(s, Reader, Go); t.reader.pc == Return(ProbeSawEpipe) && t.d == s.d && t.writer == s.writer
  {
  }
}
