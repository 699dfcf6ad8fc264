/** What the await ioctl gives its callers, over every schedule. */
module AwaitTheorems {
  import opened Await

  predicate StepOf(ev: Event, i: nat) { ev == Step(i) }

  function StepsOf(schedule: seq<Event>, i: nat): nat {
    if schedule == [] then 0 else (if StepOf(schedule[0], i) then 1 else 0) + StepsOf(schedule[1..], i)
  }

  // ----- the mutex -----

  lemma {:induction false} TwoCounted(cs: seq<Caller>, i: nat, j: nat)
    requires i < j < |cs| && Holds(cs[i]) && Holds(cs[j])
    ensures Holders(cs) >= 2
  {
    if i > 0 {
      TwoCounted(cs[1..], i - 1, j - 1);
    } else {
      SomeCounted(cs[1..], j - 1);
    }
  }

  /** Among all callers in both domains, at most one is past the gate. */
  lemma AtMostOneHolds(ends: seq<End>, schedule: seq<Event>, i: nat, j: nat)
    requires var cs := Run(Init(ends), schedule).callers; i < |cs| && j < |cs| && Holds(cs[i]) && Holds(cs[j])
    ensures i == j
  {
    InitInv(ends);
    RunInv(Init(ends), schedule);
    OnlyHolder(Run(Init(ends), schedule), i, j);
  }

  lemma OnlyHolder(s: State, i: nat, j: nat)
    requires Inv(s) && i < |s.callers| && j < |s.callers| && Holds(s.callers[i]) && Holds(s.callers[j])
    ensures i == j
  {
    if i < j { TwoCounted(s.callers, i, j); }
    if j < i { TwoCounted(s.callers, j, i); }
  }

  ghost predicate SomeoneInside(s: State) {
    exists k: nat :: k < |s.callers| && (Holds(s.callers[k]) || BacksOut(s.callers[k]))
  }

  /** The counter is back at 1 exactly when no caller is inside: every way out restores what was taken. */
  lemma CounterRestored(s: State)
    requires Inv(s)
    ensures s.count <= 1 && (s.count == 1 <==> !SomeoneInside(s))
  {
    if SomeoneInside(s) {
      var k: nat :| k < |s.callers| && (Holds(s.callers[k]) || BacksOut(s.callers[k]));
      SomeCounted(s.callers, k);
    } else {
      NoneCounted(s.callers);
    }
  }

  /** The gate refuses exactly when some caller holds, or was refused itself and has not yet backed out. */
  lemma GateRefusesExactly(s: State, i: nat)
    requires Inv(s) && i < |s.callers| && s.callers[i].pc.Gate?
    ensures Do(s, Step(i)).callers[i].pc == BackOut <==> SomeoneInside(s)
    ensures Holds(Do(s, Step(i)).callers[i]) <==> !SomeoneInside(s)
  {
    CounterRestored(s);
  }

  const MUTEX := Request(true, false, true, false, false)
  const NO_MUTEX := Request(true, false, false, false, false)

  /** Three callers on the offerer's end. */
  function Three(count: int, a: Pc, b: Pc, c: Pc): State {
    var rest := Request(false, false, false, false, false);
    State(count, false, FRESH.(up := true), FRESH,
          [Caller(Offerer, MUTEX, a, false), Caller(Offerer, MUTEX, b, false), Caller(Offerer, if c.Outside? then rest else MUTEX, c, false)])
  }

  lemma FirstHolds() returns (a: seq<Event>)
    ensures Run(Init([Offerer, Offerer, Offerer]), a) == Three(0, Arm, Entry, Outside)
  {
    a := [Open(Offerer), Call(0, MUTEX), Step(0), Step(0)] + [Call(1, MUTEX)];
    var s := Init([Offerer, Offerer, Offerer]);
    RunAppend(s, a[..4], a[4..]);
    RunFour(s, a[..4]);
    RunOne(Run(s, a[..4]), a[4..]);
    var t := Run(s, a);
    assert t.callers == Three(0, Arm, Entry, Outside).callers;
  }

  lemma HolderLeaves() returns (b: seq<Event>)
    ensures Run(Three(0, Arm, Entry, Outside), b) == Three(0, Done(Interrupted), BackOut, Outside)
  {
    b := [Step(1), Step(1)] + [Step(0), GiveUp(0, true), Step(0)];
    var s := Three(0, Arm, Entry, Outside);
    RunAppend(s, b[..2], b[2..]);
    RunTwo(s, b[..2]);
    assert Run(s, b[..2]) == Three(-1, Arm, BackOut, Outside);
    RunThree(Three(-1, Arm, BackOut, Outside), b[2..]);
  }

  /** xen_shm.h:103 has EDEADLK mean that another process is waiting. It can also come when none is: here the holder left while a refused caller was backing out. */
  lemma RefusedThoughNobodyHolds() returns (schedule: seq<Event>)
    ensures var s := Run(Init([Offerer, Offerer, Offerer]), schedule);
      && |s.callers| == 3 && Holders(s.callers) == 0 && s.callers[2].pc.Gate?
      && Do(Do(s, Step(2)), Step(2)).callers[2].pc == Done(Deadlock)
  {
    var s0 := Init([Offerer, Offerer, Offerer]);
    var a := FirstHolds();
    var b := HolderLeaves();
    var c := [Call(2, MUTEX), Step(2)];
    var s := Three(0, Done(Interrupted), BackOut, Outside);
    schedule := a + b + c;
    RunAppend(s0, a + b, c);
    RunAppend(s0, a, b);
    RunTwo(s, c);
    assert Run(s, c) == Three(0, Done(Interrupted), BackOut, Gate);
    NoHolder(Three(0, Done(Interrupted), BackOut, Gate).callers);
  }

  lemma {:induction false} NoHolder(cs: seq<Caller>)
    requires forall i :: 0 <= i < |cs| ==> !Holds(cs[i])
    ensures Holders(cs) == 0
  {
    if cs != [] { NoHolder(cs[1..]); }
  }

  lemma {:induction false} RunAppend(s: State, a: seq<Event>, b: seq<Event>)
    ensures Run(s, a + b) == Run(Run(s, a), b)
    decreases |a|
  {
    if a == [] {
      assert a + b == b;
    } else {
      assert (a + b)[1..] == a[1..] + b;
      RunAppend(Do(s, a[0]), a[1..], b);
    }
  }

  lemma RunOne(s: State, a: seq<Event>)
    requires |a| == 1
    ensures Run(s, a) == Do(s, a[0])
  {
    assert a[1..] == [];
  }

  lemma RunTwo(s: State, a: seq<Event>)
    requires |a| == 2
    ensures Run(s, a) == Do(Do(s, a[0]), a[1])
  {
    RunOne(Do(s, a[0]), a[1..]);
  }

  lemma RunThree(s: State, a: seq<Event>)
    requires |a| == 3
    ensures Run(s, a) == Do(Do(Do(s, a[0]), a[1]), a[2])
  {
    RunTwo(Do(s, a[0]), a[1..]);
  }

  lemma RunFour(s: State, a: seq<Event>)
    requires |a| == 4
    ensures Run(s, a) == Do(Do(Do(Do(s, a[0]), a[1]), a[2]), a[3])
  {
    RunThree(Do(s, a[0]), a[1..]);
  }

  // ----- the latent signal -----

  /** A caller with one of the two signal flags has been woken, or timed out, and clears the latent bit. */
  predicate Takes(s: State, ev: Event, e: End) {
    && ev.Step? && ev.i < |s.callers|
    && s.callers[ev.i].end == e && s.callers[ev.i].pc.ClearLatent? && (s.callers[ev.i].req.user || s.callers[ev.i].req.latentUser)
  }

  predicate Delivers(s: State, ev: Event, e: End) {
    ev == Handle(e) && s.At(e).inflight && s.At(e).initial
  }

  /** The latent bit changes in these two ways and in no other. */
  lemma LatentExactly(s: State, ev: Event, e: End)
    ensures Do(s, ev).At(e).latent <==> Delivers(s, ev, e) || (s.At(e).latent && !Takes(s, ev, e))
  {
    if ev.Step? && ev.i < |s.callers| { LatentInStep(s, ev.i, e); }
  }

  lemma LatentInStep(s: State, i: nat, e: End)
    requires i < |s.callers|
    ensures Advance(s, i).At(e).latent <==> s.At(e).latent && !Takes(s, Step(i), e)
  {
  }

  /** Calls of the other callers on the end of i are for the pipe's probe, or for others that take no signal. */
  predicate OnlyTakerIs(s: State, i: nat)
    requires i < |s.callers|
  {
    forall k :: 0 <= k < |s.callers| && k != i && s.callers[k].end == s.callers[i].end ==>
      !s.callers[k].req.TakesSignals()
  }

  predicate Others(s: State, schedule: seq<Event>, i: nat)
    requires i < |s.callers|
  {
    forall k :: 0 <= k < |schedule| ==> Other(s, schedule[k], i)
  }

  predicate Other(s: State, ev: Event, i: nat)
    requires i < |s.callers|
  {
    && (ev.Step? || ev.GiveUp? || ev.Call? ==> ev.i != i)
    && (ev.Call? && ev.i < |s.callers| && s.callers[ev.i].end == s.callers[i].end ==> !ev.req.TakesSignals())
  }

  /**
    A delivered signal wakes its waiter, however late it gets to look: as long as it is the only taker
    on its end nothing that anyone else does can put it back to sleep.
   */
  lemma {:induction false} WakeUpKept(s: State, schedule: seq<Event>, i: nat)
    requires i < |s.callers| && s.callers[i].pc.Waiting? && s.callers[i].req.latentUser
    requires s.At(s.callers[i].end).latent && OnlyTakerIs(s, i) && Others(s, schedule, i)
    ensures var t := Run(s, schedule);
      && i < |t.callers| && t.callers[i] == s.callers[i]
      && Condition(t.callers[i].req, t.At(t.callers[i].end), t.broken)
    decreases |schedule|
  {
    if schedule != [] {
      var ev := schedule[0];
      var t := Do(s, ev);
      assert Other(s, ev, i);
      OtherStep(s, ev, i);
      LatentExactly(s, ev, s.callers[i].end);
      forall k | 0 <= k < |schedule[1..]| ensures Other(t, schedule[1..][k], i) {
        assert Other(s, schedule[k + 1], i);
      }
      WakeUpKept(t, schedule[1..], i);
    }
  }

  lemma OtherStep(s: State, ev: Event, i: nat)
    requires i < |s.callers| && Other(s, ev, i) && OnlyTakerIs(s, i)
    ensures var t := Do(s, ev);
      && |t.callers| == |s.callers| && t.callers[i] == s.callers[i] && OnlyTakerIs(t, i)
      && forall k :: 0 <= k < |s.callers| ==> t.callers[k].end == s.callers[k].end
  {
    if ev.Step? && ev.i < |s.callers| { OneCaller(s, ev.i); }
  }

  // ----- the user signal, and what the mutex is for -----

  /** A caller with its two checks behind it clears the user bit, before it waits. */
  predicate Arms(s: State, ev: Event, e: End) {
    ev.Step? && ev.i < |s.callers| && s.callers[ev.i].end == e && s.callers[ev.i].pc.Arm?
  }

  /** The user bit changes in these two ways and in no other. */
  lemma UserExactly(s: State, ev: Event, e: End)
    ensures Do(s, ev).At(e).user <==> Delivers(s, ev, e) || (s.At(e).user && !Arms(s, ev, e))
  {
  }

  predicate NoArming(s: State, schedule: seq<Event>, e: End)
    decreases |schedule|
  {
    schedule == [] || (!Arms(s, schedule[0], e) && NoArming(Do(s, schedule[0]), schedule[1..], e))
  }

  /** Along a schedule a user bit stays set all the way if and only if no caller arms on that end. */
  lemma {:induction false} UserKeptExactly(s: State, schedule: seq<Event>, e: End)
    requires s.At(e).user
    ensures (forall k :: 0 <= k <= |schedule| ==> Run(s, schedule[..k]).At(e).user) <==> NoArming(s, schedule, e)
    decreases |schedule|
  {
    if schedule == [] {
      assert Run(s, []) == s;
    } else {
      var t := Do(s, schedule[0]);
      UserExactly(s, schedule[0], e);
      RunPrefix(s, schedule, 1);
      if t.At(e).user {
        UserKeptExactly(t, schedule[1..], e);
        forall k | 0 <= k <= |schedule[1..]| ensures Run(s, schedule[..k + 1]) == Run(t, schedule[1..][..k]) {
          RunPrefix(s, schedule, k + 1);
        }
        if NoArming(t, schedule[1..], e) {
          forall k | 0 <= k <= |schedule| ensures Run(s, schedule[..k]).At(e).user {
            if k > 0 { assert Run(s, schedule[..k]) == Run(t, schedule[1..][..k - 1]); }
          }
        }
      }
    }
  }

  lemma RunPrefix(s: State, schedule: seq<Event>, k: nat)
    requires 0 < k <= |schedule|
    ensures Run(s, schedule[..k]) == Run(Do(s, schedule[0]), schedule[1..][..k - 1])
  {
    assert schedule[..k][1..] == schedule[1..][..k - 1];
  }

  /** Caller i waits for a user signal and nothing else, and one has come. */
  predicate SignalCame(s: State, i: nat) {
    && i < |s.callers| && s.callers[i].pc.Waiting? && s.At(s.callers[i].end).user && s.At(s.callers[i].end).up
    && s.callers[i].req.user && !s.callers[i].req.init && !s.callers[i].req.latentUser
  }

  /** It is still waiting, and what it waits for still holds. */
  predicate SignalThere(s: State, i: nat) {
    && i < |s.callers| && s.callers[i].pc.Waiting?
    && Condition(s.callers[i].req, s.At(s.callers[i].end), s.broken)
  }

  /** A step that is not caller i's. */
  predicate NotOf(ev: Event, i: nat) { ev.Step? || ev.GiveUp? || ev.Call? ==> ev.i != i }

  predicate OthersOnly(schedule: seq<Event>, i: nat) {
    forall k :: 0 <= k < |schedule| ==> NotOf(schedule[k], i)
  }

  /** New calls on the end of i use the mutex. */
  predicate CallsWithMutex(s: State, ev: Event, i: nat)
    requires i < |s.callers|
  {
    ev.Call? && ev.i < |s.callers| && s.callers[ev.i].end == s.callers[i].end ==> ev.req.mutex
  }

  predicate WithMutex(s: State, schedule: seq<Event>, i: nat)
    requires i < |s.callers|
  {
    forall k :: 0 <= k < |schedule| ==> NotOf(schedule[k], i) && CallsWithMutex(s, schedule[k], i)
  }

  /** No other caller on the end of i is in a call without the mutex that has not yet armed. */
  predicate NoneToArm(s: State, i: nat)
    requires i < |s.callers|
  {
    forall k :: 0 <= k < |s.callers| && k != i && s.callers[k].end == s.callers[i].end ==>
      s.callers[k].req.mutex || !(s.callers[k].pc.Entry? || s.callers[k].pc.Arm?)
  }

  lemma MutexStep(s: State, ev: Event, i: nat)
    requires Inv(s) && i < |s.callers| && Holds(s.callers[i]) && NoneToArm(s, i) && NotOf(ev, i) && CallsWithMutex(s, ev, i)
    ensures var t := Do(s, ev);
      && |t.callers| == |s.callers| && t.callers[i] == s.callers[i] && NoneToArm(t, i)
      && (forall k :: 0 <= k < |s.callers| ==> t.callers[k].end == s.callers[k].end)
      && (s.At(s.callers[i].end).user ==> t.At(s.callers[i].end).user) && (s.broken ==> t.broken)
  {
    NoneToArmKept(s, ev, i);
    UserExactly(s, ev, s.callers[i].end);
    if ev.Step? && ev.i < |s.callers| {
      assert CallerOk(s.callers[ev.i], s.broken);
      if Holds(s.callers[ev.i]) { OnlyHolder(s, i, ev.i); }
    }
  }

  lemma NoneToArmKept(s: State, ev: Event, i: nat)
    requires i < |s.callers| && NoneToArm(s, i) && NotOf(ev, i) && CallsWithMutex(s, ev, i)
    requires forall k :: 0 <= k < |s.callers| ==> CallerOk(s.callers[k], s.broken)
    ensures var t := Do(s, ev);
      && |t.callers| == |s.callers| && t.callers[i] == s.callers[i] && NoneToArm(t, i) && (s.broken ==> t.broken)
      && forall k :: 0 <= k < |s.callers| ==> t.callers[k].end == s.callers[k].end
  {
    if ev.Step? && ev.i < |s.callers| {
      OneCaller(s, ev.i);
      assert CallerOk(s.callers[ev.i], s.broken);
    }
  }

  /** Under the mutex a user signal that came is still there when its holder looks. */
  lemma {:induction false} UserSignalKept(s: State, schedule: seq<Event>, i: nat)
    requires Inv(s) && SignalCame(s, i) && s.callers[i].req.mutex && NoneToArm(s, i) && WithMutex(s, schedule, i)
    ensures SignalThere(Run(s, schedule), i)
    decreases |schedule|
  {
    if schedule != [] {
      var ev := schedule[0];
      var t := Do(s, ev);
      assert NotOf(ev, i) && CallsWithMutex(s, ev, i);
      MutexStep(s, ev, i);
      StepInv(s, ev);
      UpForGood(s, ev, s.callers[i].end);
      forall k | 0 <= k < |schedule[1..]| ensures NotOf(schedule[1..][k], i) && CallsWithMutex(t, schedule[1..][k], i) {
        assert NotOf(schedule[k + 1], i) && CallsWithMutex(s, schedule[k + 1], i);
      }
      UserSignalKept(t, schedule[1..], i);
    }
  }

  lemma UpForGood(s: State, ev: Event, e: End)
    requires s.At(e).up
    ensures Do(s, ev).At(e).up
  {
  }

  /** A broken pipe wakes every waiter, and stays broken. */
  lemma {:induction false} BrokenWakes(s: State, schedule: seq<Event>, i: nat)
    requires s.broken && i < |s.callers| && s.callers[i].pc.Waiting? && OthersOnly(schedule, i)
    ensures SignalThere(Run(s, schedule), i)
    decreases |schedule|
  {
    if schedule != [] {
      var ev := schedule[0];
      assert NotOf(ev, i);
      if ev.Step? && ev.i < |s.callers| { OneCaller(s, ev.i); }
      BrokenWakes(Do(s, ev), schedule[1..], i);
    }
  }

  ghost predicate KeptUnderMutex(s: State, i: nat)
    requires i < |s.callers|
  {
    forall schedule: seq<Event> :: WithMutex(s, schedule, i) ==> SignalThere(Run(s, schedule), i)
  }

  /**
    Where all new calls on an end use the mutex: a user signal that came for its holder is kept by every schedule of the others if and
    only if the pipe is broken, or no other caller there is about to arm without the mutex.
   */
  lemma UserSignalKeptExactly(s: State, i: nat)
    requires Inv(s) && SignalCame(s, i) && s.callers[i].req.mutex
    ensures KeptUnderMutex(s, i) <==> s.broken || NoneToArm(s, i)
  {
    if s.broken {
      forall schedule: seq<Event> | WithMutex(s, schedule, i) ensures SignalThere(Run(s, schedule), i) {
        BrokenWakes(s, schedule, i);
      }
    } else if NoneToArm(s, i) {
      forall schedule: seq<Event> | WithMutex(s, schedule, i) ensures SignalThere(Run(s, schedule), i) {
        UserSignalKept(s, schedule, i);
      }
    } else {
      var k: nat :| k < |s.callers| && k != i && s.callers[k].end == s.callers[i].end && !s.callers[k].req.mutex
        && (s.callers[k].pc.Entry? || s.callers[k].pc.Arm?);
      var schedule := if s.callers[k].pc.Arm? then [Step(k)] else [Step(k), Step(k)];
      if s.callers[k].pc.Arm? {
        RunOne(s, schedule);
        ArmedAway(s, i, k);
      } else {
        RunTwo(s, schedule);
        OneCaller(s, k);
        ArmedAway(Do(s, Step(k)), i, k);
      }
      assert WithMutex(s, schedule, i);
    }
  }

  /** Caller k arms, and the signal is gone; caller i sleeps on. */
  lemma ArmedAway(s: State, i: nat, k: nat)
    requires SignalCame(s, i) && !s.broken && k < |s.callers| && k != i
    requires s.callers[k].end == s.callers[i].end && s.callers[k].pc.Arm?
    ensures var t := Do(s, Step(k));
      i < |t.callers| && t.callers[i] == s.callers[i] && !SignalThere(t, i)
  {
    OneCaller(s, k);
    UserExactly(s, Step(k), s.callers[i].end);
  }

  predicate AloneOnItsEnd(s: State, i: nat)
    requires i < |s.callers|
  {
    forall k :: 0 <= k < |s.callers| && k != i ==> s.callers[k].end != s.callers[i].end
  }

  lemma {:induction false} AloneKeeps(s: State, schedule: seq<Event>, i: nat)
    requires SignalCame(s, i) && AloneOnItsEnd(s, i) && OthersOnly(schedule, i)
    ensures SignalThere(Run(s, schedule), i)
    decreases |schedule|
  {
    if schedule != [] {
      var ev := schedule[0];
      assert NotOf(ev, i);
      UserExactly(s, ev, s.callers[i].end);
      UpForGood(s, ev, s.callers[i].end);
      if ev.Step? && ev.i < |s.callers| { OneCaller(s, ev.i); }
      AloneKeeps(Do(s, ev), schedule[1..], i);
    }
  }

  /** How many steps a caller is from arming or from the end of its call, when the operating system interrupts its wait. */
  function ToDone(pc: Pc): nat {
    match pc
    case Entry => 5
    case Gate => 4
    case Waiting => 4
    case ClearLatent => 3
    case Recheck => 2
    case Leave(_) => 1
    case BackOut => 1
    case _ => 0
  }

  /** Any other caller on the end can come to arm: it leaves its call, calls without the mutex, and passes the two checks. */
  lemma {:induction false} CanArm(s: State, i: nat, k: nat) returns (schedule: seq<Event>)
    requires SignalCame(s, i) && !s.broken && k < |s.callers| && k != i && s.callers[k].end == s.callers[i].end
    ensures OthersOnly(schedule, i) && !SignalThere(Run(s, schedule), i)
    decreases ToDone(s.callers[k].pc)
  {
    var pc := s.callers[k].pc;
    if pc.Arm? {
      schedule := [Step(k)];
      RunOne(s, schedule);
      ArmedAway(s, i, k);
    } else if pc.Outside? || pc.Done? {
      schedule := [Call(k, NO_MUTEX), Step(k), Step(k)];
      RunThree(s, schedule);
      var s1 := Do(s, Call(k, NO_MUTEX));
      OneCaller(s1, k);
      ArmedAway(Do(s1, Step(k)), i, k);
    } else {
      var ev := if pc.Waiting? then GiveUp(k, true) else Step(k);
      LeavingStep(s, i, k);
      var rest := CanArm(Do(s, ev), i, k);
      schedule := [ev] + rest;
      assert schedule[1..] == rest;
    }
  }

  lemma LeavingStep(s: State, i: nat, k: nat)
    requires SignalCame(s, i) && !s.broken && k < |s.callers| && k != i && s.callers[k].end == s.callers[i].end
    requires ToDone(s.callers[k].pc) > 0
    ensures var t := Do(s, if s.callers[k].pc.Waiting? then GiveUp(k, true) else Step(k));
      && SignalCame(t, i) && !t.broken && k < |t.callers| && t.callers[k].end == t.callers[i].end
      && ToDone(t.callers[k].pc) < ToDone(s.callers[k].pc)
  {
    if !s.callers[k].pc.Waiting? {
      OneCaller(s, k);
      UserExactly(s, Step(k), s.callers[i].end);
      UpForGood(s, Step(k), s.callers[i].end);
    }
  }

  ghost predicate KeptFromAll(s: State, i: nat) {
    forall schedule: seq<Event> :: OthersOnly(schedule, i) ==> SignalThere(Run(s, schedule), i)
  }

  /**
    Where calls are free to use the mutex or not: a user signal that came is kept by every schedule of the others if and only if the pipe
    is broken, or the waiter is the only caller on its end.
   */
  lemma UserSignalSafeExactly(s: State, i: nat)
    requires SignalCame(s, i)
    ensures KeptFromAll(s, i) <==> s.broken || AloneOnItsEnd(s, i)
  {
    if s.broken {
      forall schedule: seq<Event> | OthersOnly(schedule, i) ensures SignalThere(Run(s, schedule), i) {
        BrokenWakes(s, schedule, i);
      }
    } else if AloneOnItsEnd(s, i) {
      forall schedule: seq<Event> | OthersOnly(schedule, i) ensures SignalThere(Run(s, schedule), i) {
        AloneKeeps(s, schedule, i);
      }
    } else {
      var k: nat :| k < |s.callers| && k != i && s.callers[k].end == s.callers[i].end;
      var schedule := CanArm(s, i, k);
    }
  }

  // ----- a signal stolen, from the start -----

  /** Both ends up and shaken hands; two callers on the offerer's end. */
  function TwoCallers(inflight: bool, user: bool, a: Caller, b: Caller): State {
    State(1, false, Instance(true, inflight, true, user, user), Instance(true, true, false, false, false), [a, b])
  }

  lemma HandsShaken() returns (a: seq<Event>)
    ensures Run(Init([Offerer, Offerer]), a) == TwoCallers(false, false, IDLE, IDLE)
  {
    a := [Open(Offerer), Open(Receiver), Handle(Offerer)];
    RunThree(Init([Offerer, Offerer]), a);
    assert Run(Init([Offerer, Offerer]), a).callers == [IDLE, IDLE];
  }

  const IDLE := Caller(Offerer, Request(false, false, false, false, false), Outside, false)

  function At(pc: Pc): Caller { Caller(Offerer, NO_MUTEX, pc, false) }

  lemma BothCall() returns (b: seq<Event>)
    ensures Run(TwoCallers(false, false, IDLE, IDLE), b) == TwoCallers(false, false, At(Waiting), At(Arm))
  {
    b := [Call(0, NO_MUTEX), Step(0), Step(0)] + [Call(1, NO_MUTEX), Step(1)];
    var s := TwoCallers(false, false, IDLE, IDLE);
    RunAppend(s, b[..3], b[3..]);
    RunThree(s, b[..3]);
    assert Run(s, b[..3]) == TwoCallers(false, false, At(Waiting), IDLE);
    RunTwo(TwoCallers(false, false, At(Waiting), IDLE), b[3..]);
  }

  /**
    From the start: two callers wait for user signals without the mutex, the receiver sends one, and it wakes neither. It is delivered
    while the first waits, and the second, arming, clears it.
   */
  lemma UserSignalStolen() returns (before: seq<Event>)
    ensures var s := Run(Init([Offerer, Offerer]), before);
      && SignalCame(s, 0) && SignalThere(s, 0)
      && var t := Do(s, Step(1)); !SignalThere(t, 0) && |t.callers| == 2 && t.callers[0].pc.Waiting? && t.callers[1].pc.Waiting? && !t.broken
  {
    var s0 := Init([Offerer, Offerer]);
    var a := HandsShaken();
    var b := BothCall();
    var c := [Ssig(Receiver), Handle(Offerer)];
    before := a + b + c;
    RunAppend(s0, a + b, c);
    RunAppend(s0, a, b);
    RunTwo(TwoCallers(false, false, At(Waiting), At(Arm)), c);
    assert Run(s0, before) == TwoCallers(false, true, At(Waiting), At(Arm));
  }

  // ----- the handshake -----

  /** When the receiver has come up and no event is left in flight, both ends have had their initial signal. */
  lemma HandshakeCompletes(ends: seq<End>, schedule: seq<Event>)
    requires var s := Run(Init(ends), schedule); s.receiver.up && !s.offerer.inflight && !s.receiver.inflight
    ensures var s := Run(Init(ends), schedule); s.offerer.initial && s.receiver.initial
  {
    InitInv(ends);
    RunInv(Init(ends), schedule);
  }
}
