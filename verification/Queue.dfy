/**
  The queue of instances whose free failed, linked through the instances themselves, and the
  release of a descriptor.
  (xen_shm.c:468-478, 555-584, 1324-1385)
 */
module DelayedQueue {
  import opened KernelInstance

  function Next(list: seq<Instance>, i: nat, tail: Instance?): Instance? {
    if i + 1 < |list| then list[i + 1] else tail
  }

  /** From head along nextDelayed through the instances of list to tail. */
  ghost predicate Chain(head: Instance?, list: seq<Instance>, tail: Instance?)
    reads (set x | x in list)`nextDelayed
  {
    var whole :=
      && head == (if list == [] then tail else list[0])
      && forall i :: 0 <= i < |list| ==> list[i].nextDelayed == Next(list, i, tail);
    whole
  }

  /** Instances that share nothing. */
  ghost predicate Apart(list: seq<Instance>) {
    var whole :=
      && (forall i, j :: 0 <= i < j < |list| ==> list[i] != list[j] && list[i].handles != list[j].handles)
      && (forall i, j :: 0 <= i < |list| && 0 <= j < |list| ==> list[i].handles as object != list[j].grantRefs as object);
    whole
  }

  ghost predicate Separate(data: Instance, list: seq<Instance>) {
    forall x :: x in list ==>
      && data != x && data.handles != x.handles
      && data.handles as object != x.grantRefs as object && x.handles as object != data.grantRefs as object
  }

  ghost predicate AllValid(list: seq<Instance>)
    reads set x | x in list, set x | x in list :: x.grantRefs, set x | x in list :: x.handles
  {
    forall i :: 0 <= i < |list| ==> list[i].Valid()
  }

  predicate Distinct(list: seq<Instance>) { forall i, j :: 0 <= i < j < |list| ==> list[i] != list[j] }

  lemma DistinctParts(a: seq<Instance>, b: seq<Instance>)
    requires Distinct(a + b) && b != []
    ensures Distinct(a) && Distinct(b) && Distinct(a + b[1..]) && forall x :: x in a ==> x !in b
  {
    assert forall i :: 0 <= i < |a| ==> a[i] == (a + b)[i];
    assert forall j :: 0 <= j < |b| ==> b[j] == (a + b)[|a| + j];
    assert forall k :: |a| <= k < |a + b[1..]| ==> (a + b[1..])[k] == (a + b)[k + 1];
  }

  ghost function Refusals(list: seq<Instance>): (r: seq<nat>)
    reads (set x | x in list)`refusals
    ensures |r| == |list|
  {
    if list == [] then [] else Refusals(list[..|list| - 1]) + [list[|list| - 1].refusals]
  }

  lemma {:induction false} RefusalsAt(list: seq<Instance>, k: nat)
    requires k < |list|
    ensures Refusals(list)[k] == list[k].refusals
  {
    if k < |list| - 1 { RefusalsAt(list[..|list| - 1], k); }
  }

  /** Of the first i of the list, each has been tried once: those not freed were refused something one time more than before. */
  ghost predicate TriedOnce(list: seq<Instance>, before: seq<nat>, i: nat, freed: set<Instance>)
    reads (set x | x in list)`refusals
    requires |before| == |list|
  {
    forall k :: 0 <= k < |list| ==> list[k].refusals == before[k] + if k < i && list[k] !in freed then 1 else 0
  }

  /** The first i have been tried, with these freed; all are consistent. */
  ghost predicate Outcomes(list: seq<Instance>, before: seq<nat>, i: nat, freed: set<Instance>)
    reads set x | x in list, set x | x in list :: x.grantRefs, set x | x in list :: x.handles
    requires |before| == |list|
  {
    var whole :=
      AllValid(list) && (forall x :: x in list ==> (x in freed <==> x.retired)) && TriedOnce(list, before, i, freed);
    whole
  }

  lemma NoneTried(list: seq<Instance>)
    requires AllValid(list) && forall x :: x in list ==> !x.retired
    ensures Outcomes(list, Refusals(list), 0, {})
  {
    forall k | 0 <= k < |list| ensures Refusals(list)[k] == list[k].refusals { RefusalsAt(list, k); }
  }

  /** What is left of a list when some of its instances go. */
  function Without(list: seq<Instance>, gone: set<Instance>): seq<Instance> {
    if list == [] then []
    else
      var init, last := list[..|list| - 1], list[|list| - 1];
      Without(init, gone) + if last in gone then [] else [last]
  }

  lemma {:induction false} WithoutMore(list: seq<Instance>, gone: set<Instance>, x: Instance)
    requires x !in list
    ensures Without(list, gone + {x}) == Without(list, gone)
  {
    if list != [] { WithoutMore(list[..|list| - 1], gone, x); }
  }

  lemma {:induction false} WithoutIn(list: seq<Instance>, gone: set<Instance>, x: Instance)
    ensures x in Without(list, gone) <==> x in list && x !in gone
  {
    if list != [] {
      WithoutIn(list[..|list| - 1], gone, x);
      assert list == list[..|list| - 1] + [list[|list| - 1]];
    }
  }

  lemma WithoutNext(list: seq<Instance>, i: nat, gone: set<Instance>)
    requires i < |list| && list[i] !in list[..i]
    ensures Without(list[..i + 1], gone + {list[i]}) == Without(list[..i], gone)
    ensures list[i] !in gone ==> Without(list[..i + 1], gone) == Without(list[..i], gone) + [list[i]]
    ensures forall x :: x in list[..i + 1] <==> x in list[..i] || x == list[i]
  {
    assert list[..i + 1] == list[..i] + [list[i]] && list[..i + 1][..i] == list[..i];
    WithoutMore(list[..i], gone, list[i]);
  }

  /** The first i of the list are told apart: those that were kept, in order, and those that were freed. */
  ghost predicate Parted(list: seq<Instance>, i: nat, kept: seq<Instance>, freed: set<Instance>)
    requires i <= |list|
  {
    var whole :=
      && kept == Without(list[..i], freed)
      && (forall x :: x in freed ==> x in list[..i]) && (forall x :: x in kept ==> x in list);
    whole
  }

  lemma PartedNext(list: seq<Instance>, i: nat, kept: seq<Instance>, freed: set<Instance>)
    requires i < |list| && Apart(list) && Parted(list, i, kept, freed)
    ensures Parted(list, i + 1, kept, freed + {list[i]}) && Parted(list, i + 1, kept + [list[i]], freed)
    ensures list[i] !in freed && list[i..][0] == list[i] && list[i..][1..] == list[i + 1..]
  {
    WithoutNext(list, i, freed);
  }

  lemma ChainAppend(head: Instance?, list: seq<Instance>, x: Instance)
    requires Chain(head, list, x)
    ensures Chain(head, list + [x], x.nextDelayed)
  {
    forall i | 0 <= i < |list + [x]| ensures (list + [x])[i].nextDelayed == Next(list + [x], i, x.nextDelayed) {
      if i < |list| { assert list[i].nextDelayed == Next(list, i, x); }
    }
  }

  lemma ChainInit(head: Instance?, list: seq<Instance>, x: Instance, tail: Instance?)
    requires Chain(head, list + [x], tail)
    ensures Chain(head, list, x)
  {
    forall i | 0 <= i < |list| ensures list[i].nextDelayed == Next(list, i, x) {
      assert (list + [x])[i].nextDelayed == Next(list + [x], i, tail);
    }
  }

  lemma ChainRest(head: Instance?, list: seq<Instance>, tail: Instance?)
    requires Chain(head, list, tail) && list != []
    ensures Chain(list[0].nextDelayed, list[1..], tail)
  {
    assert list[0].nextDelayed == Next(list, 0, tail);
    forall i | 0 <= i < |list| - 1 ensures list[1..][i].nextDelayed == Next(list[1..], i, tail) {
      assert list[i + 1].nextDelayed == Next(list, i + 1, tail);
    }
  }

  /** The last of a chain is linked to another tail. */
  method Relink(ghost list: seq<Instance>, last: Instance, next: Instance?, ghost tail: Instance?, ghost head: Instance?,
                ghost all: seq<Instance>, ghost before: seq<nat>, ghost i: nat, ghost freed: set<Instance>)
    requires |before| == |all| && Outcomes(all, before, i, freed) && list != [] && list[|list| - 1] == last && Chain(head, list, tail)
    requires Distinct(list)
    modifies last`nextDelayed
    ensures Outcomes(all, before, i, freed) && Chain(head, list, next) && last.nextDelayed == next
  {
    ghost var init := list[..|list| - 1];
    assert list == init + [last] && last !in init;
    ChainInit(head, init, last, tail);
    last.nextDelayed := next;
    ChainAppend(head, init, last);
  }

  class Driver {
    var queue: Instance?    // xen_shm_delayed_free_queue

    /** The queue is the list, of consistent instances that share nothing and are not freed. */
    ghost predicate Queued(list: seq<Instance>)
      reads this, set x | x in list, set x | x in list :: x.grantRefs, set x | x in list :: x.handles
    {
      var whole :=
        Chain(queue, list, null) && Distinct(list) && Apart(list) && AllValid(list) && forall x :: x in list ==> !x.retired;
      whole
    }

    /** The queue runs through the kept instances, then through those not yet tried. */
    ghost predicate Sweeping(kept: seq<Instance>, rest: seq<Instance>, previous: Instance?, current: Instance?)
      reads this, (set x | x in kept + rest)`nextDelayed
    {
      && Distinct(kept + rest)
      && previous == (if kept == [] then null else kept[|kept| - 1])
      && Chain(queue, kept, current) && Chain(current, rest, null)
    }

    /** The current instance stays. */
    lemma Keep(kept: seq<Instance>, rest: seq<Instance>, previous: Instance?, current: Instance)
      requires Sweeping(kept, rest, previous, current)
      ensures rest != [] && rest[0] == current && Sweeping(kept + [current], rest[1..], current, current.nextDelayed)
    {
      assert kept + rest == (kept + [current]) + rest[1..];
      ChainAppend(queue, kept, current);
      ChainRest(current, rest, null);
    }

    /** The current instance goes: its predecessor in the queue, or the head, is linked past it. */
    method Unlink(ghost kept: seq<Instance>, ghost rest: seq<Instance>, previous: Instance?, current: Instance,
                  ghost all: seq<Instance>, ghost before: seq<nat>, ghost i: nat, ghost freed: set<Instance>)
      requires |before| == |all| && Outcomes(all, before, i, freed) && Sweeping(kept, rest, previous, current)
      modifies this, (if previous == null then {} else {previous})`nextDelayed
      ensures Outcomes(all, before, i, freed) && current.nextDelayed == old(current.nextDelayed)
      ensures rest != [] && Sweeping(kept, rest[1..], previous, current.nextDelayed)
    {
      DistinctParts(kept, rest);
      ChainRest(current, rest, null);
      if previous == null {
        queue := current.nextDelayed;
      } else {
        assert previous in kept;
        Relink(kept, previous, current.nextDelayed, current, queue, all, before, i, freed);
      }
    }

    /** One instance is tried. It shares nothing with the others, so nothing changes for them. */
    method TryToFree(ghost list: seq<Instance>, ghost before: seq<nat>, ghost i: nat, ghost freed: set<Instance>, current: Instance)
      returns (ok: bool, ghost freed': set<Instance>)
      requires i < |list| && list[i] == current && current !in freed && Apart(list)
      requires |before| == |list| && Outcomes(list, before, i, freed)
      modifies current`live, current`lost, current`pagesCount, current`retired, current`refusals, current`balked, current`ended, current.handles
      ensures freed' == if ok then freed + {current} else freed
      ensures Outcomes(list, before, i + 1, freed')
    {
      ok := FreeAmong(list, i, current);
      freed' := if ok then freed + {current} else freed;
      assert forall k :: 0 <= k < |list| && k != i ==> list[k] != current;
    }

    method FreeAmong(ghost list: seq<Instance>, ghost i: nat, current: Instance) returns (ok: bool)
      requires i < |list| && list[i] == current && !current.retired && Apart(list) && AllValid(list)
      modifies current`live, current`lost, current`pagesCount, current`retired, current`refusals, current`balked, current`ended, current.handles
      ensures AllValid(list) && current.retired == ok && current.refusals == old(current.refusals) + if ok then 0 else 1
    {
      ghost var calls, refused;
      ok, calls, refused := current.PrepareFree();
      forall k | 0 <= k < |list| ensures list[k].Valid() {
        assert k != i ==> list[k] != list[i] && list[k].handles != list[i].handles;
      }
    }

    /** The queue is what the first i of the list left of it, then the rest of the list. */
    ghost predicate Linked(list: seq<Instance>, i: nat, kept: seq<Instance>, freed: set<Instance>, previous: Instance?, current: Instance?)
      reads this, (set x | x in kept + list)`nextDelayed
      requires i <= |list|
    {
      var whole := Parted(list, i, kept, freed) && Sweeping(kept, list[i..], previous, current);
      whole
    }

    /** One turn of the loop. */
    method SweepOne(ghost list: seq<Instance>, ghost before: seq<nat>, ghost i: nat, ghost kept: seq<Instance>, ghost freed: set<Instance>,
                    previous: Instance?, current: Instance)
      returns (last: Instance?, next: Instance?, ghost kept': seq<Instance>, ghost freed': set<Instance>)
      requires i < |list| && Apart(list) && Linked(list, i, kept, freed, previous, current)
      requires |before| == |list| && Outcomes(list, before, i, freed)
      modifies this, (if previous == null then {} else {previous})`nextDelayed
      modifies current`live, current`lost, current`pagesCount, current`retired, current`refusals, current`balked, current`ended, current.handles
      ensures Linked(list, i + 1, kept', freed', last, next)
      ensures Outcomes(list, before, i + 1, freed')
    {
      PartedNext(list, i, kept, freed);
      var ok;
      ok, freed' := TryToFree(list, before, i, freed, current);
      next := current.nextDelayed;
      if ok {
        last, kept' := previous, kept;
        Unlink(kept, list[i..], previous, current, list, before, i + 1, freed');
      } else {
        last, kept' := current, kept + [current];
        Keep(kept, list[i..], previous, current);
      }
    }

    /**
      Tries to free every instance of the queue, each once. Those that are freed leave it and give back what
      they hold; the others, each for a refusal, stay in the order they had.
     */
    method FreeDelayedQueue(ghost list: seq<Instance>) returns (ghost freed: set<Instance>)
      requires Queued(list)
      modifies this, set x | x in list, set x | x in list :: x.handles
      ensures Outcomes(list, old(Refusals(list)), |list|, freed) && forall x :: x in freed ==> x in list
      ensures Chain(queue, Without(list, freed), null)
    {
      SweepStarts(list);
      NoneTried(list);
      ghost var kept, previous;
      kept, freed, previous := SweepAll(list, Refusals(list));
      SweepEnds(list, kept, freed, previous);
    }

    /** The loop. */
    method SweepAll(ghost list: seq<Instance>, ghost before: seq<nat>)
      returns (ghost kept: seq<Instance>, ghost freed: set<Instance>, ghost last: Instance?)
      requires Apart(list) && Linked(list, 0, [], {}, null, queue)
      requires |before| == |list| && Outcomes(list, before, 0, {})
      modifies this, set x | x in list, set x | x in list :: x.handles
      ensures Linked(list, |list|, kept, freed, last, null)
      ensures Outcomes(list, before, |list|, freed)
    {
      var previous: Instance?, current := null, queue;
      ghost var i: nat := 0;
      kept, freed := [], {};
      while current != null
        invariant i <= |list|
        invariant Linked(list, i, kept, freed, previous, current)
        invariant Outcomes(list, before, i, freed)
        decreases |list| - i
      {
        InList(list, i, kept, freed, previous, current);
        previous, current, kept, freed := SweepOne(list, before, i, kept, freed, previous, current);
        i := i + 1;
      }
      AllTried(list, i, kept, freed, previous);
      last := previous;
    }

    lemma SweepStarts(list: seq<Instance>)
      requires Chain(queue, list, null) && Distinct(list)
      ensures Linked(list, 0, [], {}, null, queue)
    {
      assert [] + list[0..] == list;
    }

    lemma AllTried(list: seq<Instance>, i: nat, kept: seq<Instance>, freed: set<Instance>, previous: Instance?)
      requires i <= |list| && Linked(list, i, kept, freed, previous, null)
      ensures i == |list|
    {
    }

    lemma SweepEnds(list: seq<Instance>, kept: seq<Instance>, freed: set<Instance>, previous: Instance?)
      requires Linked(list, |list|, kept, freed, previous, null)
      ensures Chain(queue, Without(list, freed), null) && forall x :: x in freed ==> x in list
    {
      assert list[..|list|] == list;
    }

    lemma InList(list: seq<Instance>, i: nat, kept: seq<Instance>, freed: set<Instance>, previous: Instance?, current: Instance)
      requires i <= |list| && Linked(list, i, kept, freed, previous, current)
      ensures i < |list| && current == list[i] && (previous != null ==> previous in list)
    {
    }

    /**
      Meant to put an instance at the head of the queue. As written it links the instance to the queue
      but leaves the head where it was: the queue is as before, and the instance is not in it.
     */
    method AddDelayedFree(data: Instance, ghost list: seq<Instance>)
      requires Chain(queue, list, null) && data !in list
      modifies this`queue, data`nextDelayed
      ensures queue == old(queue) && data.nextDelayed == old(queue) && Chain(queue, list, null)
    {
      data.nextDelayed := queue;
      queue := data.nextDelayed;
    }

    /** The peer is told, and the instance is freed if it can be. */
    method Shut(data: Instance, ghost list: seq<Instance>, ghost before: seq<nat>, ghost freed: set<Instance>, ghost kept: seq<Instance>)
      returns (ok: bool)
      requires data.Valid() && !data.retired && Separate(data, list)
      requires |before| == |list| && Outcomes(list, before, |list|, freed)
      modifies data`closedShown, data`live, data`lost, data`pagesCount, data`retired, data`refusals, data`balked, data`ended, data.handles
      ensures data.Valid() && data.retired == ok && data.closedShown == (old(data.closedShown) || data.state != Opened)
      ensures data.refusals == old(data.refusals) + if ok then 0 else 1
      ensures Outcomes(list, before, |list|, freed)
      ensures old(Chain(queue, kept, null)) ==> Chain(queue, kept, null)
    {
      if data.state != Opened { data.closedShown := true; }
      ghost var calls, refused;
      ok, calls, refused := data.PrepareFree();
      forall k | 0 <= k < |list| ensures list[k].Valid() {
        assert list[k] in list;
      }
    }

    /**
      release: the queue is swept, the peer is told, and the instance is freed. If it cannot be, for one refusal, it
      keeps what its state calls for and is lost: it is in no queue, and no later sweep comes to it.
     */
    method Release(data: Instance, ghost list: seq<Instance>) returns (ok: bool, ghost freed: set<Instance>)
      requires Queued(list)
      requires data.Valid() && !data.retired && Separate(data, list)
      modifies this, data, data.handles, set x | x in list, set x | x in list :: x.handles
      ensures Outcomes(list, old(Refusals(list)), |list|, freed)
      ensures Chain(queue, Without(list, freed), null) && data !in Without(list, freed)
      ensures data.Valid() && data.retired == ok && data.state == old(data.state) && data.closedShown == (old(data.closedShown) || data.state != Opened)
      ensures data.refusals == old(data.refusals) + if ok then 0 else 1
    {
      freed := SweepBeside(data, list);
      ok := ShutOrLose(data, list, old(Refusals(list)), freed);
    }

    /** The sweep leaves an instance alone that is not in the queue. */
    method SweepBeside(data: Instance, ghost list: seq<Instance>) returns (ghost freed: set<Instance>)
      requires Queued(list)
      requires data.Valid() && Separate(data, list)
      modifies this, set x | x in list, set x | x in list :: x.handles
      ensures Outcomes(list, old(Refusals(list)), |list|, freed)
      ensures Chain(queue, Without(list, freed), null)
      ensures data.Valid()
      ensures data.retired == old(data.retired) && data.refusals == old(data.refusals) && data.state == old(data.state)
    {
      assert data !in list;
      freed := FreeDelayedQueue(list);
    }

    method ShutOrLose(data: Instance, ghost list: seq<Instance>, ghost before: seq<nat>, ghost freed: set<Instance>) returns (ok: bool)
      requires data.Valid() && !data.retired && Separate(data, list)
      requires |before| == |list| && Outcomes(list, before, |list|, freed)
      requires Chain(queue, Without(list, freed), null)
      modifies this`queue, data`closedShown, data`live, data`lost, data`pagesCount, data`retired, data`refusals, data`balked, data`ended, data`nextDelayed, data.handles
      ensures Outcomes(list, before, |list|, freed)
      ensures Chain(queue, Without(list, freed), null) && data !in Without(list, freed)
      ensures data.Valid() && data.retired == ok && data.closedShown == (old(data.closedShown) || data.state != Opened)
      ensures data.refusals == old(data.refusals) + if ok then 0 else 1
    {
      ok := Shut(data, list, before, freed, Without(list, freed));
      WithoutIn(list, freed, data);
      if !ok { LoseInstance(data, list, before, freed); }
    }

    method LoseInstance(data: Instance, ghost list: seq<Instance>, ghost before: seq<nat>, ghost freed: set<Instance>)
      requires data.Valid() && Separate(data, list) && data !in Without(list, freed)
      requires |before| == |list| && Outcomes(list, before, |list|, freed)
      requires Chain(queue, Without(list, freed), null)
      modifies this`queue, data`nextDelayed
      ensures Outcomes(list, before, |list|, freed)
      ensures Chain(queue, Without(list, freed), null)
      ensures data.Valid()
    {
      AddDelayedFree(data, Without(list, freed));
    }
  }
}
