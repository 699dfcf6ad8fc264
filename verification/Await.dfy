/**
  The await ioctl, for any number of callers in both domains: the counter in the meta page
  that lets one caller with the mutex flag wait, and the signal bits of each instance. A step
  is one access to shared state, one decision of the wait queue, or one run of the handler.
  (xen_shm.c:232-252, 878-976)
 */
module Await {

  datatype End = Offerer | Receiver {
    function Other(): End { if this == Offerer then Receiver else Offerer }
  }

  datatype Request = Request(user: bool, init: bool, mutex: bool, latentUser: bool, timed: bool) {
    predicate TakesSignals() { user || latentUser }
  }

  datatype Result = Signalled | Epipe | Deadlock | Interrupted | NotTty

  /** up: the instance has left OPENED; inflight: an event is pending on its channel. */
  datatype Instance = Instance(up: bool, inflight: bool, initial: bool, user: bool, latent: bool)

  datatype Pc =
    | Outside
    | Entry          // state and broken pipe checks
    | Gate           // atomic_dec_and_test
    | BackOut        // atomic_inc after a refusal
    | Arm            // user_signal = 0
    | Waiting        // in wait_event_interruptible
    | ClearLatent
    | Recheck        // second broken pipe check
    | Leave(r: Result)
    | Done(r: Result)

  /** timedOut: its time ran out in the wait; the process sees this as no time remaining. */
  datatype Caller = Caller(end: End, req: Request, pc: Pc, timedOut: bool)

  datatype State = State(count: int, broken: bool, offerer: Instance, receiver: Instance, callers: seq<Caller>) {
    function At(e: End): Instance { if e == Offerer then offerer else receiver }
    function With(e: End, x: Instance): State {
      if e == Offerer then this.(offerer := x) else this.(receiver := x)
    }
    function Notify(e: End): State { With(e, At(e).(inflight := true)) }
    function Goes(i: nat, pc: Pc): State
      requires i < |callers|
    {
      this.(callers := callers[i := callers[i].(pc := pc)])
    }
  }

  datatype Event =
    | Call(i: nat, req: Request)
    | Step(i: nat)
    | GiveUp(i: nat, interrupted: bool)   // the process is signalled, or the timeout ends the wait
    | Handle(e: End)                      // the event handler
    | Ssig(e: End)
    | Open(e: End)                        // init_offerer and init_receiver, past their last failure
    | Close(e: End)                       // release

  /** What wait_event_interruptible waits for. */
  predicate Condition(req: Request, x: Instance, broken: bool) {
    (req.user && x.user) || (req.init && x.initial) || (req.latentUser && x.latent) || broken
  }

  /** One step of caller i. */
  function Advance(s: State, i: nat): State
    requires i < |s.callers|
  {
    var c := s.callers[i];
    var x := s.At(c.end);
    match c.pc
    case Outside => s
    case Entry =>
      s.Goes(i, if !x.up then Done(NotTty) else if s.broken then Done(Epipe) else if c.req.mutex then Gate else Arm)
    case Gate => s.(count := s.count - 1).Goes(i, if s.count - 1 == 0 then Arm else BackOut)
    case BackOut => s.(count := s.count + 1).Goes(i, Done(Deadlock))
    case Arm => s.With(c.end, x.(user := false)).Goes(i, Waiting)
    case Waiting => if Condition(c.req, x, s.broken) then s.Goes(i, ClearLatent) else s
    case ClearLatent =>
      s.With(c.end, x.(latent := x.latent && !c.req.TakesSignals())).Goes(i, Recheck)
    case Recheck => s.Goes(i, Leave(if s.broken then Epipe else Signalled))
    case Leave(r) => s.(count := if c.req.mutex then s.count + 1 else s.count).Goes(i, Done(r))
    case Done(_) => s
  }

  /** The handler: the first event is the initial signal, which the offerer answers. */
  function Handled(s: State, e: End): State {
    var x := s.At(e).(inflight := false);
    if !x.initial then
      var t := s.With(e, x.(initial := true));
      if e == Offerer && x.up then t.Notify(Receiver) else t
    else s.With(e, x.(user := true, latent := true))
  }

  function Do(s: State, ev: Event): State {
    match ev
    case Call(i, req) =>
      if i < |s.callers| && (s.callers[i].pc.Outside? || s.callers[i].pc.Done?)
      then s.(callers := s.callers[i := Caller(s.callers[i].end, req, Entry, false)]) else s
    case Step(i) => if i < |s.callers| then Advance(s, i) else s
    case GiveUp(i, interrupted) =>
      if i < |s.callers| && s.callers[i].pc.Waiting? && (interrupted || s.callers[i].req.timed)
      then
        if interrupted then s.Goes(i, Leave(Interrupted))
        else s.(callers := s.callers[i := s.callers[i].(pc := ClearLatent, timedOut := true)])
      else s
    case Handle(e) => if s.At(e).inflight then Handled(s, e) else s
    case Ssig(e) => if s.At(e).up && !s.broken then s.Notify(e.Other()) else s
    case Open(e) =>
      if s.At(e).up || (e == Receiver && !s.offerer.up) then s
      else
        var t := s.With(e, s.At(e).(up := true));
        if e == Receiver then t.Notify(Offerer) else t
    case Close(e) => if s.At(e).up then s.(broken := true).Notify(e.Other()) else s
  }

  function Run(s: State, schedule: seq<Event>): State
    decreases |schedule|
  {
    if schedule == [] then s else Run(Do(s, schedule[0]), schedule[1..])
  }

  const FRESH := Instance(false, false, false, false, false)

  /** Any number of processes, each with a descriptor of one of the two instances. */
  function Init(ends: seq<End>): State {
    State(1, false, FRESH, FRESH, seq(|ends|, i requires 0 <= i < |ends| => Caller(ends[i], Request(false, false, false, false, false), Outside, false)))
  }

  // ----- the mutex -----

  /** Past the gate: holds the mutex. */
  predicate Holds(c: Caller) {
    c.req.mutex && (c.pc.Arm? || c.pc.Waiting? || c.pc.ClearLatent? || c.pc.Recheck? || c.pc.Leave?)
  }

  /** Refused, and has not yet undone its decrement. */
  predicate BacksOut(c: Caller) { c.pc.BackOut? }

  function Bit(b: bool): nat { if b then 1 else 0 }

  function Holders(cs: seq<Caller>): nat {
    if cs == [] then 0 else Bit(Holds(cs[0])) + Holders(cs[1..])
  }

  function Refused(cs: seq<Caller>): nat {
    if cs == [] then 0 else Bit(BacksOut(cs[0])) + Refused(cs[1..])
  }

  lemma {:induction false} Replaced(cs: seq<Caller>, i: nat, c: Caller)
    requires i < |cs|
    ensures Holders(cs[i := c]) == Holders(cs) - Bit(Holds(cs[i])) + Bit(Holds(c))
    ensures Refused(cs[i := c]) == Refused(cs) - Bit(BacksOut(cs[i])) + Bit(BacksOut(c))
  {
    var ds := cs[i := c];
    if i == 0 {
      assert ds[1..] == cs[1..];
    } else {
      assert ds[1..] == cs[1..][i - 1 := c];
      Replaced(cs[1..], i - 1, c);
    }
  }

  lemma {:induction false} NoneCounted(cs: seq<Caller>)
    requires forall i :: 0 <= i < |cs| ==> !Holds(cs[i]) && !BacksOut(cs[i])
    ensures Holders(cs) == Refused(cs) == 0
  {
    if cs != [] { NoneCounted(cs[1..]); }
  }

  lemma {:induction false} SomeCounted(cs: seq<Caller>, i: nat)
    requires i < |cs|
    ensures Holds(cs[i]) ==> Holders(cs) >= 1
    ensures BacksOut(cs[i]) ==> Refused(cs) >= 1
  {
    if i > 0 { SomeCounted(cs[1..], i - 1); }
  }

  // ----- what every step keeps -----

  /** What the results of a call rest on. */
  predicate CallerOk(c: Caller, broken: bool) {
    && (c.pc.Gate? || c.pc.BackOut? ==> c.req.mutex)
    && (c.pc.Leave? ==> !c.pc.r.Deadlock? && !c.pc.r.NotTty?)
    && ((c.pc.Leave? || c.pc.Done?) && c.pc.r.Epipe? ==> broken)
    && (c.pc.Done? && c.pc.r.Deadlock? ==> c.req.mutex)
    && (c.timedOut ==> c.req.timed && (c.pc.ClearLatent? || c.pc.Recheck? || c.pc.Leave? || c.pc.Done?))
  }

  /** No initial signal is lost, though a later signal may be taken for it. */
  predicate HandshakeOk(s: State) {
    && (s.receiver.up ==> s.offerer.up && (s.offerer.initial || s.offerer.inflight))
    && (s.offerer.initial || s.offerer.inflight || s.receiver.up ==> s.offerer.up)
    && (s.offerer.initial ==> s.receiver.initial || s.receiver.inflight)
  }

  /** Of 1, each holder and each refused caller that has not left the gate has taken 1. */
  ghost predicate Inv(s: State) {
    && s.count == 1 - Holders(s.callers) - Refused(s.callers)
    && Holders(s.callers) <= 1
    && (forall i :: 0 <= i < |s.callers| ==> CallerOk(s.callers[i], s.broken))
  }

  lemma InitInv(ends: seq<End>)
    ensures Inv(Init(ends)) && HandshakeOk(Init(ends))
  {
    NoneCounted(Init(ends).callers);
  }

  /** A caller's step changes that caller's place, the counter, and its own instance's signals. */
  lemma OneCaller(s: State, i: nat)
    requires i < |s.callers|
    ensures Goer(s, Advance(s, i), i)
  {
    var ok := Goer(s, Advance(s, i), i);
    match s.callers[i].pc
    case Entry => assert ok;
    case Gate => assert ok;
    case BackOut => assert ok;
    case Arm => assert ok;
    case Waiting => assert ok;
    case ClearLatent => assert ok;
    case Recheck => assert ok;
    case Leave(_) => assert ok;
    case _ => assert ok;
  }

  predicate Goer(s: State, t: State, i: nat)
    requires i < |s.callers|
  {
    var whole :=
      && |t.callers| == |s.callers| && t.callers == s.callers[i := t.callers[i]]
      && t.callers[i] == s.callers[i].(pc := t.callers[i].pc)
      && t.broken == s.broken && t.At(s.callers[i].end.Other()) == s.At(s.callers[i].end.Other());
    whole
  }

  /** One caller's step, by what it does to the count. */
  lemma Counted(s: State, i: nat)
    requires i < |s.callers| && CallerOk(s.callers[i], s.broken)
    ensures CountedFor(s.callers[i], Advance(s, i).callers[i], s, Advance(s, i))
  {
    var ok := CountedFor(s.callers[i], Advance(s, i).callers[i], s, Advance(s, i));
    match s.callers[i].pc
    case Entry => assert ok;
    case Gate => assert ok;
    case BackOut => assert ok;
    case Waiting => assert ok;
    case Leave(_) => assert ok;
    case _ => assert ok;
  }

  /** From c in s to d in t: what the caller has taken of the counter is what the counter has lost. */
  predicate CountedFor(c: Caller, d: Caller, s: State, t: State) {
    var whole :=
      && CallerOk(d, s.broken)
      && t.count == s.count + Bit(Holds(c)) + Bit(BacksOut(c)) - Bit(Holds(d)) - Bit(BacksOut(d))
      && (Holds(d) && !Holds(c) ==> s.count == 1);
    whole
  }

  lemma CallersKept(s: State, i: nat)
    requires Inv(s) && i < |s.callers|
    ensures Inv(Advance(s, i))
  {
    var t := Advance(s, i);
    OneCaller(s, i);
    Replaced(s.callers, i, t.callers[i]);
    Counted(s, i);
  }

  /** A call begins, or a wait is given up: the caller neither takes nor gives back. */
  lemma CallKept(s: State, i: nat, req: Request)
    requires Inv(s)
    ensures Inv(Do(s, Call(i, req)))
  {
    if i < |s.callers| { Replaced(s.callers, i, Do(s, Call(i, req)).callers[i]); }
  }

  lemma GiveUpKept(s: State, i: nat, interrupted: bool)
    requires Inv(s)
    ensures Inv(Do(s, GiveUp(i, interrupted)))
  {
    if i < |s.callers| { Replaced(s.callers, i, Do(s, GiveUp(i, interrupted)).callers[i]); }
  }

  lemma RestKept(s: State, ev: Event)
    requires Inv(s) && (ev.Handle? || ev.Ssig? || ev.Open? || ev.Close?)
    ensures Inv(Do(s, ev))
  {
    var t := Do(s, ev);
    assert t.callers == s.callers && t.count == s.count && (s.broken ==> t.broken);
  }

  lemma StepInv(s: State, ev: Event)
    requires Inv(s)
    ensures Inv(Do(s, ev))
  {
    match ev
    case Step(i) => if i < |s.callers| { CallersKept(s, i); }
    case Call(i, req) => CallKept(s, i, req);
    case GiveUp(i, interrupted) => GiveUpKept(s, i, interrupted);
    case _ => RestKept(s, ev);
  }

  lemma HandshakeStep(s: State, ev: Event)
    requires HandshakeOk(s)
    ensures HandshakeOk(Do(s, ev))
  {
    if ev.Step? && ev.i < |s.callers| { OneCaller(s, ev.i); }
  }

  lemma {:induction false} RunInv(s: State, schedule: seq<Event>)
    requires Inv(s) && HandshakeOk(s)
    ensures Inv(Run(s, schedule)) && HandshakeOk(Run(s, schedule))
    decreases |schedule|
  {
    if schedule != [] {
      StepInv(s, schedule[0]);
      HandshakeStep(s, schedule[0]);
      RunInv(Do(s, schedule[0]), schedule[1..]);
    }
  }
}
