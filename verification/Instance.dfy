/**
  One open descriptor of the device, and everything it holds. Hypercalls may fail at any time;
  `live` is what is held in truth, and the class invariant says that this is what the state calls
  for, plus what a release that was refused, and whose refusal was ignored, left behind.
  (xen_shm.c:381-552, 595-645, 667-862, 1183-1385)
 */
module KernelInstance {
  import opened Handles
  import opened Ledger

  datatype State = Opened | Offerer | Receiver | ReceiverMapped

  datatype Error = ENOTTY | EINVAL | ENOMEM | EIO | EFAULT | ENODATA | EPIPE | EAGAIN

  datatype Status = Ok | Fail(error: Error)

  /** The user's mapping of the data pages. */
  datatype Vma = NoVma | Vma(start: nat, end: nat) {
    predicate Aligned() { Vma? ==> start % 4096 == 0 && end % 4096 == 0 && start <= end }
  }

  class Instance {
    const usePtemod: bool
    const grantRefs: array<nat>   // in the meta page
    const handles: array<int>     // unmap_ops[].handle
    var state: State
    var pagesCount: nat           // with the meta page
    var order: nat
    var headerHandle: nat
    var userMem: Vma
    var closedShown: bool         // the own state in the meta page is CLOSED
    var nextDelayed: Instance?
    var live: set<Resource>
    ghost var lost: set<Resource>
    ghost var retired: bool       // a free has succeeded; the memory of the instance goes next
    var grantDenials: nat         // how often a grant was denied
    ghost var denials: nat        // how often something else that was asked for was denied
    ghost var denied: seq<Resource>  // the resources among these, in order
    ghost var refusals: nat       // how often taking back a grant or the header mapping was refused
    ghost var balked: set<Resource>  // everything whose taking back was ever refused
    ghost var ended: seq<nat>        // the grants taken back, in order

    /** What the state calls for. */
    ghost function Owed(): set<Resource>
      reads this`retired, this`state, this`pagesCount, this`headerHandle, grantRefs, handles
      requires grantRefs.Length == handles.Length == 128 && pagesCount <= 128
    {
      if retired then {}
      else match state
        case Opened => {}
        case Offerer => {Memory, Channel} + Grants(grantRefs[..pagesCount])
        case Receiver => {Area, Header(headerHandle), Channel}
        case ReceiverMapped => {Area, Header(headerHandle), Channel} + Pages(Slots())
    }

    /** What a free has left to the notifier: under ptemod the data pages still mapped. It has taken one off the count of pages. */
    ghost function Left(): set<Resource>
      reads this`retired, this`state, this`pagesCount, handles
      requires handles.Length == 128 && pagesCount <= 128
    {
      if retired && usePtemod && state == ReceiverMapped then Pages(handles[..pagesCount]) else {}
    }

    /** The handles of the data pages. */
    function Slots(): seq<int>
      reads this`pagesCount, handles
      requires handles.Length == 128 && pagesCount <= 128
    {
      if pagesCount == 0 then [] else handles[..pagesCount - 1]
    }

    ghost predicate Shaped()
      reads this`retired, this`state, this`pagesCount, this`userMem, this`lost, this`balked, grantRefs, handles
    {
      && grantRefs.Length == handles.Length == 128 && pagesCount <= 128
      && (state == Offerer ==> DistinctRefs(grantRefs[..pagesCount]))
      && (state == ReceiverMapped ==> DistinctHandles(Slots()))
      && (!retired && (state == Receiver || state == ReceiverMapped) ==> pagesCount >= 2)
      && (!retired ==> (userMem.Vma? <==> state == ReceiverMapped))
      && (!retired && userMem.Vma? ==> userMem.Aligned() && userMem.end == userMem.start + 4096 * (pagesCount - 1))
      && lost <= balked && forall x :: x in lost ==> x.Grant? || x.Header? || x.Page?
    }

    /** What is held is what the state calls for, what a refusal left behind, and what a free left to the notifier. */
    ghost predicate Held()
      reads this`retired, this`state, this`pagesCount, this`headerHandle, this`userMem, this`live, this`lost, this`balked, grantRefs, handles
    {
      var whole :=
        Shaped() && live == Owed() + lost + Left() && Owed() !! lost;
      whole
    }

    /** And the offerer's references are all references to grants. */
    ghost predicate Valid()
      reads this`retired, this`state, this`pagesCount, this`headerHandle, this`userMem, this`live, this`lost, this`balked, grantRefs, handles
    {
      Held() && (state == Offerer ==> AllGranted(grantRefs[..pagesCount]))
    }

    constructor (ptemod: bool)
      ensures Valid() && fresh(grantRefs) && fresh(handles)
      ensures state == Opened && !retired && live == lost == balked == {} && nextDelayed == null && usePtemod == ptemod
    {
      usePtemod, state, pagesCount, userMem, nextDelayed, live := ptemod, Opened, 0, NoVma, null, {};
      grantRefs, handles := new nat[128], new int[128];
      closedShown, order, headerHandle := false, 0, 0;
      lost, retired, denials, denied, refusals, balked, ended, grantDenials := {}, false, 0, [], 0, {}, [], 0;
    }

    // ----- what the hypervisor and the kernel give and take back; any of it may be refused -----

    method TryTake(r: Resource) returns (ok: bool)
      requires r !in live
      modifies this`live, this`denials, this`denied
      ensures live == if ok then old(live) + {r} else old(live)
      ensures denials == old(denials) + if ok then 0 else 1
      ensures denied == old(denied) + if ok then [] else [r]
    {
      ok := Asked();
      if ok { live := live + {r}; } else { denied := denied + [r]; }
    }

    /** A call of the kernel's that leaves nothing to give back. */
    method Asked() returns (ok: bool)
      modifies this`denials
      ensures denials == old(denials) + if ok then 0 else 1
    {
      ok := *;
      if !ok { denials := denials + 1; }
    }

    /** gnttab_end_foreign_access_ref, and GNTTABOP_unmap_grant_ref for the header page. */
    method TryGiveBack(r: Resource) returns (ok: bool)
      requires r in live
      modifies this`live, this`refusals, this`balked
      ensures balked == old(balked) + if ok then {} else {r}
      ensures live == if ok then old(live) - {r} else old(live)
      ensures refusals == old(refusals) + if ok then 0 else 1
    {
      ok := *;
      if ok { live := live - {r}; } else { refusals, balked := refusals + 1, balked + {r}; }
    }

    /** GNTTAB_UNMAP_REFS for one data page. */
    method TryUnmap(handle: int) returns (ok: bool)
      requires Page(handle) in live
      modifies this`live, this`balked
      ensures live == if ok then old(live) - {Page(handle)} else old(live)
      ensures balked == old(balked) + if ok then {} else {Page(handle)}
    {
      ok := *;
      if ok { live := live - {Page(handle)}; } else { balked := balked + {Page(handle)}; }
    }

    method GiveBack(r: Resource)
      requires r in live
      modifies this`live
      ensures live == old(live) - {r}
    {
      live := live - {r};
    }

    /** gnttab_grant_foreign_access: a grant reference not in use, or an error, as the unsigned field takes it. */
    method GrantAccess() returns (ref: nat)
      modifies this`live, this`grantDenials
      ensures ref < NO_GRANT ==> Grant(ref) !in old(live) && live == old(live) + {Grant(ref)} && grantDenials == old(grantDenials)
      ensures ref >= NO_GRANT ==> live == old(live) && grantDenials == old(grantDenials) + 1
    {
      ref := *;
      if ref < NO_GRANT && Grant(ref) !in live {
        live := live + {Grant(ref)};
      } else {
        ref, grantDenials := NO_GRANT, grantDenials + 1;
      }
    }

    /** gnttab_end_foreign_access_ref for a reference that is one. */
    method EndGrant(ref: nat) returns (ok: bool)
      requires Grant(ref) in live
      modifies this`live, this`refusals, this`balked, this`ended
      ensures balked == old(balked) + if ok then {} else {Grant(ref)}
      ensures live == if ok then old(live) - {Grant(ref)} else old(live)
      ensures refusals == old(refusals) + if ok then 0 else 1
      ensures ended == old(ended) + if ok then [ref] else []
    {
      ok := TryGiveBack(Grant(ref));
      if ok { ended := ended + [ref]; }
    }

    /** GNTTABOP_map_grant_ref for the header page. */
    method MapHeader() returns (ok: bool, handle: nat)
      modifies this`live, this`denials, this`denied
      ensures ok ==> Header(handle) !in old(live)
      ensures live == if ok then old(live) + {Header(handle)} else old(live)
      ensures denials == old(denials) + if ok then 0 else 1
      ensures denied == old(denied) + if ok then [] else [Header(handle)]
    {
      handle := *;
      if Header(handle) !in live {
        ok := TryTake(Header(handle));
      } else {
        ok, denials, denied := false, denials + 1, denied + [Header(handle)];
      }
    }

    /** One page of gnttab_map_refs; DEAD when its status is an error. */
    method MapPage() returns (handle: int)
      modifies this`live, this`denials, this`denied
      ensures handle != DEAD ==> handle >= 0 && Page(handle) !in old(live)
      ensures live == if handle != DEAD then old(live) + {Page(handle)} else old(live)
      ensures denials == old(denials) + if handle != DEAD then 0 else 1
    {
      var given: nat, ok := *, false;
      if Page(given) !in live {
        ok := TryTake(Page(given));
      } else {
        denials := denials + 1;
      }
      handle := if ok then given else DEAD;
    }

    // ----- offerer -----

    /** Part of the way through ending the grants of refs: the first pages are left to end; before is what was held before. */
    ghost predicate Undoing(refs: seq<nat>, before: set<Resource>, pages: nat, refused: set<Resource>)
      reads this`live
      requires pages <= |refs|
    {
      var fewer := refs[..pages];
      var whole :=
        && DistinctRefs(fewer) && Grants(fewer) <= Grants(refs) && Grants(fewer) !! refused && refused <= Grants(refs)
        && live == before + {Memory} + Grants(fewer) + refused && before + {Memory} !! Grants(refs);
      whole
    }

    method UndoOne(page: nat, ghost refs: seq<nat>, ghost before: set<Resource>, ghost refused: set<Resource>)
      returns (ghost refused': set<Resource>)
      requires page < |refs| <= grantRefs.Length && refs == grantRefs[..|refs|] && Undoing(refs, before, page + 1, refused)
      modifies this`live, this`refusals, this`balked, this`ended
      ensures Undoing(refs, before, page, refused') && balked == old(balked) + (refused' - refused) && refused <= refused'
    {
      refused' := refused;
      assert refs[..page + 1][..page] == refs[..page];
      GrantsShrink(refs[..page + 1]);
      if grantRefs[page] < NO_GRANT {
        var ok := EndGrant(grantRefs[page]);
        refused' := if ok then refused else refused + {Grant(grantRefs[page])};
      }
    }

    /**
      The rollback of init_offerer: every grant is ended, the pages are freed, and no refusal is looked at.
      What ending does with a reference that is none is taken to be nothing.
     */
    method UndoInit(granted: nat, ghost before: set<Resource>) returns (ghost refused: set<Resource>)
      requires granted <= grantRefs.Length && DistinctRefs(grantRefs[..granted])
      requires Memory !in before && Grants(grantRefs[..granted]) !! before
      requires live == before + {Memory} + Grants(grantRefs[..granted])
      modifies this`live, this`refusals, this`balked, this`ended
      ensures live == before + refused && refused <= Grants(grantRefs[..granted])
      ensures balked == old(balked) + refused
    {
      var page: nat := granted;
      refused := {};
      ghost var refs := grantRefs[..granted];
      InGrants(refs, Memory);
      assert refs[..granted] == refs;
      while page > 0
        invariant page <= granted && Undoing(refs, before, page, refused) && balked == old(balked) + refused
      {
        page := page - 1;
        refused := UndoOne(page, refs, before, refused);
      }
      GiveBack(Memory);
    }

    /** The first pages have been granted, as far as nothing was denied; before is what was held before. */
    ghost predicate Granting(before: set<Resource>, denials0: nat, pages: nat)
      reads this`live, this`grantDenials, grantRefs
    {
      var whole :=
        && pages <= grantRefs.Length && grantDenials >= denials0
        && GrantedOver(grantRefs[..pages], before, live, grantDenials == denials0);
      whole
    }

    method GrantOne(page: nat, ghost before: set<Resource>, ghost denials0: nat)
      requires page < grantRefs.Length && Granting(before, denials0, page)
      modifies this`live, this`grantDenials, grantRefs
      ensures Granting(before, denials0, page + 1)
    {
      ghost var refs := grantRefs[..page];
      ghost var live0, all := live, grantDenials == denials0;
      var ref := GrantAccess();
      GrantedOn(refs, before, live0, all, ref);
      grantRefs[page] := ref;
      assert grantRefs[..page + 1] == refs + [ref];
      assert live == live0 + if ref < NO_GRANT then {Grant(ref)} else {};
    }

    /** The grants of init_offerer. The test for an error compares an unsigned reference with 0, so none is ever noticed. */
    method GrantPages(pages: nat)
      requires pages <= grantRefs.Length
      modifies this`live, this`grantDenials, grantRefs
      ensures Granting(old(live), old(grantDenials), pages)
    {
      var page: nat, noticed := 0, false;
      assert grantRefs[..0] == [];
      while page < pages && !noticed
        invariant page <= pages && !noticed
        invariant Granting(old(live), old(grantDenials), page)
      {
        GrantOne(page, old(live), old(grantDenials));
        noticed := grantRefs[page] < 0;
        page := page + 1;
      }
    }

    /**
      Offers memory. When it fails, the grants whose revocation was refused stay, and nothing else: it leaves
      things as they were if and only if none was refused. A denied grant does not make it fail: when it
      succeeds the instance is consistent if and only if no grant was denied.
     */
    method InitOfferer(pages: nat) returns (status: Status, ghost refused: set<Resource>)
      requires Valid() && !retired
      modifies this, grantRefs
      ensures Held() && (Valid() <==> status != Ok || grantDenials == old(grantDenials)) && grantDenials >= old(grantDenials)
      ensures !retired && nextDelayed == old(nextDelayed) && closedShown == old(closedShown)
      ensures old(state) != Opened ==> status == Fail(ENOTTY)
      ensures old(state) == Opened && (pages == 0 || pages > 127) ==> status == Fail(EINVAL)
      ensures status == Fail(ENOTTY) || status == Fail(EINVAL) ==> unchanged(this) && unchanged(grantRefs) && refused == {}
      ensures old(state) == Opened && 0 < pages <= 127 ==> (status == Ok <==> denials == old(denials)) && OfferStatus(status, old(denied))
      ensures status == Ok ==> state == Offerer && pagesCount == pages + 1 <= 128 && OrderFits()
      ensures status != Ok ==> state == old(state) && live == old(live) + refused && forall x :: x in refused ==> x.Grant?
      ensures lost == old(lost) + refused && refused !! old(live) && (status == Ok ==> refused == {})
      ensures balked == old(balked) + refused
    {
      refused := {};
      if state != Opened { return Fail(ENOTTY), refused; }
      if pages == 0 || pages > 127 { return Fail(EINVAL), refused; }
      status, refused := Offer(pages);
    }

    method Offer(pages: nat) returns (status: Status, ghost refused: set<Resource>)
      requires Valid() && !retired && state == Opened && 0 < pages <= 127
      modifies this`state, this`pagesCount, this`order, this`live, this`lost, this`denials, this`denied, this`grantDenials, this`refusals, this`balked, this`ended, grantRefs
      ensures Held() && lost == old(lost) + refused && refused !! old(live) && grantDenials >= old(grantDenials)
      ensures Valid() <==> status != Ok || grantDenials == old(grantDenials)
      ensures (status == Ok <==> denials == old(denials)) && balked == old(balked) + refused
      ensures status == Ok ==> state == Offerer && pagesCount == pages + 1 && OrderFits() && refused == {}
      ensures OfferStatus(status, old(denied))
      ensures status != Ok ==> state == Opened && live == old(live) + refused && forall x :: x in refused ==> x.Grant?
    {
      pagesCount := pages + 1;
      status, refused := TakeForOffer();
      if status == Ok {
        BecomeOfferer();
      } else {
        Lose(refused, false);
      }
    }

    method BecomeOfferer()
      requires Shaped() && !retired && state == Opened && DistinctRefs(grantRefs[..pagesCount])
      requires live == {Memory, Channel} + Grants(grantRefs[..pagesCount]) + lost && {Memory, Channel} + Grants(grantRefs[..pagesCount]) !! lost
      modifies this`state
      ensures state == Offerer && Held() && (Valid() <==> AllGranted(grantRefs[..pagesCount]))
    {
      state := Offerer;
    }

    /** The pages allocated are more than those asked for, and at most twice as many. */
    predicate OrderFits()
      reads this`order, this`pagesCount
    {
      order > 0 && Pow2(order - 1) <= pagesCount < Pow2(order)
    }

    /** The error says what was denied: the pages, or the channel. */
    ghost predicate OfferStatus(status: Status, denied0: seq<Resource>)
      reads this`denied
    {
      (status == Ok && denied == denied0) || (status == Fail(ENOMEM) && denied == denied0 + [Memory]) || (status == Fail(EIO) && denied == denied0 + [Channel])
    }

    /** The pages, the grants and the channel, or nothing but what cannot be taken back. */
    method TakeForOffer() returns (status: Status, ghost refused: set<Resource>)
      requires 0 < pagesCount <= grantRefs.Length && Memory !in live && Channel !in live
      modifies this`order, this`live, this`denials, this`denied, this`grantDenials, this`refusals, this`balked, this`ended, grantRefs
      ensures refused !! old(live) && forall x :: x in refused ==> x.Grant?
      ensures (status == Ok <==> denials == old(denials)) && balked == old(balked) + refused && grantDenials >= old(grantDenials)
      ensures OfferStatus(status, old(denied))
      ensures status == Ok ==> OrderFits() && DistinctRefs(grantRefs[..pagesCount]) && refused == {}
      ensures status == Ok ==> (AllGranted(grantRefs[..pagesCount]) <==> grantDenials == old(grantDenials))
      ensures status == Ok ==>
        live == old(live) + {Memory, Channel} + Grants(grantRefs[..pagesCount]) && Grants(grantRefs[..pagesCount]) !! old(live)
      ensures status != Ok ==> live == old(live) + refused
    {
      refused := {};
      order := AllocationOrder(pagesCount);
      var ok := TryTake(Memory);
      if !ok { return Fail(ENOMEM), refused; }
      GrantPages(pagesCount);
      InGrants(grantRefs[..pagesCount], Channel);
      ok := TryTake(Channel);
      if ok { return Ok, refused; }
      refused := UndoInit(pagesCount, old(live));
      forall x | x in refused ensures x.Grant? { InGrants(grantRefs[..pagesCount], x); }
      status := Fail(EIO);
    }

    // ----- receiver -----

    /**
      Connects to an offer. theirPages is what the offerer wrote in the meta page. When it fails, the
      header page stays mapped if its unmapping was refused, and nothing else.
     */
    method InitReceiver(pages: nat, theirPages: nat) returns (status: Status, ghost refused: set<Resource>)
      requires Valid() && !retired
      modifies this`state, this`pagesCount, this`headerHandle, this`live, this`lost, this`denials, this`denied, this`refusals, this`balked
      ensures Valid() && !retired
      ensures old(state) != Opened ==> status == Fail(ENOTTY)
      ensures old(state) == Opened && (pages == 0 || pages > 127) ==> status == Fail(EINVAL)
      ensures status == Fail(ENOTTY) ==> unchanged(this)
      ensures old(state) == Opened && 0 < pages <= 127 ==>
        (status == Ok <==> denials == old(denials) && pages + 1 == theirPages) && ConnectStatus(status, old(denied), pages + 1 == theirPages)
      ensures status == Ok ==> state == Receiver && pagesCount == pages + 1 == theirPages
      ensures status != Ok ==> state == old(state) && live == old(live) + refused && refused <= {Header(headerHandle)}
      ensures lost == old(lost) + refused && refused !! old(live) && (status == Ok ==> refused == {})
      ensures balked == old(balked) + refused
    {
      refused := {};
      if state != Opened { return Fail(ENOTTY), refused; }
      if pages == 0 || pages > 127 { return Fail(EINVAL), refused; }
      status, refused := Connect(pages, theirPages);
    }

    method Connect(pages: nat, theirPages: nat) returns (status: Status, ghost refused: set<Resource>)
      requires Valid() && !retired && state == Opened && 0 < pages <= 127
      modifies this`state, this`pagesCount, this`headerHandle, this`live, this`lost, this`denials, this`denied, this`refusals, this`balked
      ensures Valid() && lost == old(lost) + refused && refused !! old(live)
      ensures (status == Ok <==> denials == old(denials) && pages + 1 == theirPages) && balked == old(balked) + refused
      ensures status == Ok ==> state == Receiver && pagesCount == pages + 1 == theirPages && refused == {}
      ensures ConnectStatus(status, old(denied), pages + 1 == theirPages)
      ensures status != Ok ==> state == Opened && live == old(live) + refused && refused <= {Header(headerHandle)}
    {
      pagesCount := pages + 1;
      status, refused := TakeForConnection(theirPages);
      if status == Ok {
        state := Receiver;
      } else {
        lost := lost + refused;
      }
    }

    /** The error says what was denied: the area, the channel or the header mapping; it is EINVAL too for a wrong number of pages. */
    ghost predicate ConnectStatus(status: Status, denied0: seq<Resource>, fits: bool)
      reads this`denied, this`headerHandle
    {
      || (status == Ok && denied == denied0 && fits)
      || (status == Fail(ENOMEM) && denied == denied0 + [Area])
      || (status == Fail(EIO) && denied == denied0 + [Channel] && fits)
      || (status == Fail(EINVAL) && denied == denied0 && !fits)
      || ((status == Fail(EINVAL) || status == Fail(EFAULT)) && denied == denied0 + [Header(headerHandle)])
    }

    /** The header page and the channel, or nothing but what cannot be taken back. */
    method TakeForConnection(theirPages: nat) returns (status: Status, ghost refused: set<Resource>)
      requires Area !in live && Channel !in live
      modifies this`headerHandle, this`live, this`denials, this`denied, this`refusals, this`balked
      ensures refused !! old(live) && ConnectStatus(status, old(denied), pagesCount == theirPages)
      ensures (status == Ok <==> denials == old(denials) && pagesCount == theirPages) && balked == old(balked) + refused
      ensures status == Ok ==>
        refused == {} && live == old(live) + {Area, Header(headerHandle), Channel} && Header(headerHandle) !in old(live)
      ensures status != Ok ==> live == old(live) + refused && refused <= {Header(headerHandle)}
    {
      refused := {};
      var ok := TryTake(Area);
      if !ok { return Fail(ENOMEM), refused; }
      ok, headerHandle := MapHeader();
      if !ok {
        var called := *;
        GiveBack(Area);
        return Fail(if called then EINVAL else EFAULT), refused;
      }
      status := Fail(EINVAL);
      if pagesCount == theirPages {
        ok := TryTake(Channel);
        if ok { return Ok, refused; }
        status := Fail(EIO);
      }
      ok := TryGiveBack(Header(headerHandle));
      refused := if ok then {} else {Header(headerHandle)};
      GiveBack(Area);
    }

    /**
      Part of the way through unmapping pages that had the handles h0: every page of h0 is mapped still, unmapped, or
      refused. `others` is what else is held.
     */
    ghost predicate Unmapping(h0: seq<int>, others: set<Resource>, refused: set<Resource>)
      reads this`live, handles
      requires |h0| <= handles.Length
    {
      var h := handles[..|h0|];
      var whole :=
        && DistinctHandles(h) && Pages(h) <= Pages(h0) && refused <= Pages(h0) - Pages(h)
        && live == others + refused + Pages(h) && others !! Pages(h0);
      whole
    }

    /** The page at p is unmapped if its handle is live; whether the hypercall is refused or not the handle is then marked dead. */
    method UnmapAt(p: nat, ghost h0: seq<int>, ghost others: set<Resource>, ghost refused: set<Resource>)
      returns (was: bool, ghost refused': set<Resource>)
      requires p < |h0| <= handles.Length && Unmapping(h0, others, refused)
      modifies this`live, this`balked, handles
      ensures was == (old(handles[p]) != DEAD)
      ensures balked == old(balked) + (refused' - refused) && refused <= refused'
      ensures handles[..|h0|] == old(handles[..|h0|])[p := DEAD]
      ensures Unmapping(h0, others, refused')
    {
      was, refused' := handles[p] != DEAD, refused;
      if was {
        ghost var h := handles[..|h0|];
        PagesMark(h, p);
        var ok := TryUnmap(handles[p]);
        refused' := if ok then refused else refused + {Page(handles[p])};
        handles[p] := DEAD;
      }
      assert handles[..|h0|] == old(handles[..|h0|])[p := DEAD];
    }

    /** __xen_shm_unmap_receiver_grant_pages, for n data pages. calls lists the pages that an unmap hypercall was made for. */
    method Unmap(offset: nat, nb: int, n: nat, ghost others: set<Resource>) returns (ghost calls: seq<nat>, ghost refused: set<Resource>)
      requires n <= handles.Length && (nb > 0 ==> offset < n) && DistinctHandles(handles[..n])
      requires live == others + Pages(handles[..n]) && others !! Pages(handles[..n])
      modifies this`live, this`balked, handles
      ensures balked == old(balked) + refused
      ensures handles[..n] == Sweep(old(handles[..n]), offset, nb) && calls == Swept(old(handles[..n]), offset, nb)
      ensures Unmapping(old(handles[..n]), others, refused)
    {
      var at: nat, left := offset, nb;
      calls, refused := [], {};
      ghost var h0 := handles[..n];
      while left > 0
        invariant left > 0 ==> at < n
        invariant Walked(h0, offset, nb, handles[..n], at, left, calls)
        invariant Unmapping(h0, others, refused)
        invariant balked == old(balked) + refused
        decreases n - at
      {
        WalkStep(h0, offset, nb, handles[..n], at, left, calls);
        var was;
        was, refused := UnmapAt(at, h0, others, refused);
        if was {
          calls := calls + [at];
          left := left - 1;
        }
        at := at + 1;
        if at >= n { break; }
      }
      WalkEnds(h0, offset, nb, handles[..n], at, left, calls);
    }

    // ----- the notifier's callbacks -----

    method UnmapMapped(offset: nat, nb: int) returns (ghost calls: seq<nat>, ghost refused: set<Resource>)
      requires Valid() && !retired && state == ReceiverMapped && (nb > 0 ==> offset < pagesCount - 1)
      modifies this`live, this`lost, this`balked, handles
      ensures balked == old(balked) + refused
      ensures Valid() && lost == old(lost) + refused && refused <= old(Pages(Slots()))
      ensures Slots() == Sweep(old(Slots()), offset, nb) && calls == Swept(old(Slots()), offset, nb)
    {
      ghost var others := {Area, Header(headerHandle), Channel} + lost;
      OthersAreNoPages();
      calls, refused := Unmap(offset, nb, pagesCount - 1, others);
      forall x | x in refused ensures x.Page? { InPages(old(Slots()), x); }
      lost := lost + refused;
    }

    lemma OthersAreNoPages()
      requires Valid() && !retired && state == ReceiverMapped
      ensures var others := {Area, Header(headerHandle), Channel} + lost; others !! Pages(Slots()) && live == others + Pages(Slots())
    {
      forall x | x in Pages(Slots()) ensures x.Page? { InPages(Slots(), x); }
    }

    /** A range of the address space goes. The part of it that is the mapping's is unmapped, as far as the walk does that. */
    method InvalidateRange(start: nat, end: nat) returns (ghost calls: seq<nat>, ghost refused: set<Resource>)
      requires Valid() && !retired && start <= end
      modifies this`live, this`lost, this`balked, handles
      ensures balked == old(balked) + refused
      ensures Valid() && lost == old(lost) + refused && refused <= old(Pages(Slots()))
      ensures var q := Touched(userMem, start, end);
        Slots() == Sweep(old(Slots()), q.at, q.nb) && calls == Swept(old(Slots()), q.at, q.nb)
    {
      calls, refused := [], {};
      if userMem == NoVma { return; }
      if start >= userMem.end || userMem.start >= end { return; }
      TouchedFits(userMem, start, end, pagesCount - 1);
      var q := Touched(userMem, start, end);
      calls, refused := UnmapMapped(q.at, q.nb);
    }

    method InvalidatePage(address: nat) returns (ghost calls: seq<nat>, ghost refused: set<Resource>)
      requires Valid() && !retired
      modifies this`live, this`lost, this`balked, handles
      ensures balked == old(balked) + refused
      ensures Valid() && lost == old(lost) + refused && refused <= old(Pages(Slots()))
      ensures var q := Touched(userMem, address, address + 4096);
        Slots() == Sweep(old(Slots()), q.at, q.nb) && calls == Swept(old(Slots()), q.at, q.nb)
    {
      calls, refused := InvalidateRange(address, address + 4096);
    }

    /** The address space goes: every page that is still mapped is unmapped. */
    method ReleaseSpace() returns (ghost calls: seq<nat>, ghost refused: set<Resource>)
      requires Valid() && !retired
      modifies this`live, this`lost, this`balked, handles
      ensures balked == old(balked) + refused
      ensures Valid() && lost == old(lost) + refused && refused <= old(Pages(Slots()))
      ensures state == ReceiverMapped ==> Pages(Slots()) == {} && calls == Live(old(Slots()), 0, |old(Slots())|)
      ensures state != ReceiverMapped ==> calls == [] && Slots() == old(Slots())
    {
      calls, refused := [], {};
      if userMem == NoVma { return; }
      calls, refused := UnmapMapped(0, pagesCount - 1);
      NothingLive(old(Slots()));
    }

    // ----- mmap -----

    /** The unmap operations are made with no valid handle. Under ptemod a walk of the page tables does it, and can fail on the way. */
    method ConstructOps(n: nat) returns (ok: bool)
      requires n <= handles.Length
      modifies handles, this`denials, this`denied
      ensures ok ==> AllDead(handles[..n], 0)
      ensures (!usePtemod ==> ok) && denials == old(denials) + if ok then 0 else 1
    {
      var p := 0;
      ok := true;
      while p < n && ok
        invariant 0 <= p <= n && (!usePtemod ==> ok)
        invariant forall k :: 0 <= k < p ==> handles[k] == DEAD
        invariant denials == old(denials) + if ok then 0 else 1
        decreases n - p, ok
      {
        if usePtemod { ok := Asked(); }
        if ok {
          handles[p] := DEAD;
          p := p + 1;
        }
      }
    }

    /** The first pages have been mapped, as far as nothing was denied; before is what was held before. */
    ghost predicate Mapping(before: set<Resource>, denials0: nat, p: nat, n: nat)
      reads this`live, this`denials, this`denied, handles
    {
      var whole :=
        && p <= n <= handles.Length && denials >= denials0 && (forall k :: p <= k < n ==> handles[k] == DEAD)
        && MappedOver(handles[..p], before, live, denials == denials0);
      whole
    }

    method MapOne(p: nat, n: nat, ghost before: set<Resource>, ghost denials0: nat) returns (mapped: bool)
      requires p < n && Mapping(before, denials0, p, n)
      modifies this`live, this`denials, this`denied, handles
      ensures Mapping(before, denials0, p + 1, n) && denials == old(denials) + if mapped then 0 else 1
    {
      ghost var h := handles[..p];
      ghost var live0, all := live, denials == denials0;
      var handle := MapPage();
      MappedOn(h, before, live0, all, handle);
      handles[p] := handle;
      assert handles[..p + 1] == h + [handle];
      assert live == live0 + if handle == DEAD then {} else {Page(handle)};
      mapped := handle != DEAD;
    }

    /** gnttab_map_refs and the copying of the handles: each page for itself may fail. */
    method MapPages(n: nat) returns (ok: bool)
      requires n <= handles.Length && AllDead(handles[..n], 0)
      modifies this`live, this`denials, this`denied, handles
      ensures denials >= old(denials) && (ok <==> denials == old(denials))
      ensures MappedOver(handles[..n], old(live), live, ok)
    {
      var p: nat := 0;
      ok := true;
      assert handles[..0] == [] && forall k :: 0 <= k < n ==> handles[k] == handles[..n][k];
      while p < n
        invariant p <= n && Mapping(old(live), old(denials), p, n)
        invariant denials >= old(denials) && (ok <==> denials == old(denials))
      {
        var mapped := MapOne(p, n, old(live), old(denials));
        ok := ok && mapped;
        p := p + 1;
      }
    }

    /** The rollback of mmap: the pages that were mapped, and no others, are unmapped. */
    method UndoMap(n: nat, ghost before: set<Resource>) returns (ghost calls: seq<nat>, ghost refused: set<Resource>)
      requires n <= handles.Length && DistinctHandles(handles[..n])
      requires live == before + Pages(handles[..n]) && before !! Pages(handles[..n])
      modifies this`live, this`balked, handles
      ensures balked == old(balked) + refused
      ensures live == before + refused && refused <= old(Pages(handles[..n])) && forall x :: x in refused ==> x.Page?
      ensures calls == Live(old(handles[..n]), 0, n) && AllDead(handles[..n], 0)
    {
      ghost var h0, left := handles[..n], n;
      var p: nat := 0;
      calls, refused := [], {};
      while p < n
        invariant p <= n && n - p <= left
        invariant Walked(h0, 0, n, handles[..n], p, left, calls)
        invariant Unmapping(h0, before, refused)
        invariant balked == old(balked) + refused
      {
        WalkStep(h0, 0, n, handles[..n], p, left, calls);
        var was;
        was, refused := UnmapAt(p, h0, before, refused);
        if was { calls, left := calls + [p], left - 1; }
        p := p + 1;
      }
      WalkEnds(h0, 0, n, handles[..n], p, left, calls);
      NothingLive(h0);
      AllSwept(h0);
      forall x | x in refused ensures x.Page? { InPages(h0, x); }
    }

    /**
      The operations, the mapping of the pages and their insertion into the user's space; when it fails, what was
      mapped is unmapped again.
     */
    method MapOrUndo(n: nat) returns (ok: bool, ghost refused: set<Resource>)
      requires n <= handles.Length
      modifies this`live, this`denials, this`denied, this`balked, handles
      ensures balked == old(balked) + refused
      ensures refused !! old(live) && denials >= old(denials) && (ok <==> denials == old(denials))
      ensures ok ==> AllLive(handles[..n], 0, n) && DistinctHandles(handles[..n]) && refused == {}
      ensures ok ==> live == old(live) + Pages(handles[..n]) && Pages(handles[..n]) !! old(live)
      ensures !ok ==> live == old(live) + refused && forall x :: x in refused ==> x.Page?
    {
      refused := {};
      ok := ConstructOps(n);
      if !ok { return; }
      ok := Asked();
      if ok {
        ok := MapPages(n);
        if ok && !usePtemod { ok := Asked(); }
        if !ok {
          ghost var calls;
          calls, refused := UndoMap(n, old(live));
        }
      } else {
        NoPages(handles[..n]);
      }
    }

    /** The receiver's part of mmap. When it fails, only mappings whose unmapping was refused stay. */
    method MapForUser(vma: Vma) returns (ok: bool, ghost refused: set<Resource>)
      requires Valid() && !retired && state == Receiver
      requires vma.Vma? && vma.Aligned() && vma.end == vma.start + 4096 * (pagesCount - 1)
      modifies this`live, this`lost, this`state, this`userMem, this`denials, this`denied, this`balked, handles
      ensures balked == old(balked) + refused
      ensures Valid() && lost == old(lost) + refused && refused !! old(live) && (ok <==> denials == old(denials))
      ensures ok ==> state == ReceiverMapped && userMem == vma && refused == {} && AllLive(Slots(), 0, pagesCount - 1)
      ensures !ok ==> state == Receiver && userMem == NoVma
    {
      refused := {};
      ok := Asked();
      if ok { ok, refused := MapOrUndo(pagesCount - 1); }
      if ok {
        BecomeMapped(vma);
      } else {
        Lose(refused, true);
      }
    }

    method BecomeMapped(vma: Vma)
      requires Shaped() && !retired && state == Receiver && Owed() !! lost && (forall x :: x in Pages(Slots()) ==> x !in lost)
      requires live == Owed() + lost + Pages(Slots()) && DistinctHandles(Slots())
      requires vma.Vma? && vma.Aligned() && vma.end == vma.start + 4096 * (pagesCount - 1)
      modifies this`state, this`userMem
      ensures state == ReceiverMapped && userMem == vma
      ensures Valid()
    {
      state, userMem := ReceiverMapped, vma;
    }

    /** What could not be taken back after a failure stays behind. */
    method Lose(ghost refused: set<Resource>, ghost mapping: bool)
      requires Shaped() && !retired && state == (if mapping then Receiver else Opened) && Owed() !! lost && Owed() !! refused
      requires live == Owed() + lost + refused && refused <= balked && forall x :: x in refused ==> x.Grant? || x.Header? || x.Page?
      modifies this`lost
      ensures lost == old(lost) + refused && Valid()
    {
      lost := lost + refused;
    }

    /** Maps the data pages for the user: remap_pfn_range for the offerer, the grants for the receiver. */
    method Mmap(vma: Vma, write: bool, shared: bool) returns (status: Status, ghost refused: set<Resource>)
      requires Valid() && !retired && vma.Vma? && vma.Aligned()
      modifies this`live, this`lost, this`state, this`userMem, this`denials, this`denied, this`balked, handles
      ensures balked == old(balked) + refused
      ensures Valid() && lost == old(lost) + refused && refused !! old(live)
      ensures status == Ok <==>
        && (write ==> shared) && (old(state) == Offerer || old(state) == Receiver)
        && vma.end - vma.start == 4096 * (pagesCount - 1) && denials == old(denials)
      ensures status == Ok ==> state == (if old(state) == Offerer then Offerer else ReceiverMapped) && refused == {}
      ensures status == Ok && old(state) == Receiver ==> userMem == vma && AllLive(Slots(), 0, pagesCount - 1)
      ensures status != Ok ==> state == old(state) && userMem == old(userMem)
      ensures refused != {} || status == Fail(EFAULT) ==> old(state) == Receiver
      ensures write && !shared ==> status == Fail(EINVAL)
      ensures (write ==> shared) && old(state) == Opened ==> status == Fail(ENODATA)
      ensures (write ==> shared) && old(state) == ReceiverMapped ==> status == Fail(EPIPE)
      ensures (write ==> shared) && (old(state) == Offerer || old(state) == Receiver) && status != Ok ==>
        status == Fail(if vma.end - vma.start != 4096 * (pagesCount - 1) then EINVAL else if old(state) == Offerer then EAGAIN else EFAULT)
    {
      refused := {};
      if write && !shared { return Fail(EINVAL), refused; }
      if state == Opened { return Fail(ENODATA), refused; }
      if state == ReceiverMapped { return Fail(EPIPE), refused; }
      var ok;
      if state == Offerer {
        if vma.end - vma.start != (pagesCount - 1) * 4096 { return Fail(EINVAL), refused; }
        ok := Asked();
        return if ok then Ok else Fail(EAGAIN), refused;
      }
      if (vma.end - vma.start) / 4096 != pagesCount - 1 { return Fail(EINVAL), refused; }
      ok, refused := MapForUser(vma);
      return if ok then Ok else Fail(EFAULT), refused;
    }

    // ----- free -----

    method EndLastGrant() returns (ok: bool)
      requires Valid() && !retired && state == Offerer && pagesCount != 0
      modifies this`live, this`pagesCount, this`refusals, this`balked, this`ended
      ensures refusals == old(refusals) + (if ok then 0 else 1) && old(balked) <= balked
      ensures Valid() && pagesCount == if ok then old(pagesCount) - 1 else old(pagesCount)
      ensures ended == old(ended) + if ok then [grantRefs[pagesCount]] else []
    {
      ghost var refs := grantRefs[..pagesCount];
      assert refs[..pagesCount - 1] == grantRefs[..pagesCount - 1];
      OfferShrinks(refs, lost);
      ok := EndGrant(grantRefs[pagesCount - 1]);
      if ok { pagesCount := pagesCount - 1; }
    }

    /** The grants ended since there were n, as often as it was tried, are those from the last down to the present one. */
    ghost predicate EndedFrom(ended0: seq<nat>, n: nat)
      reads this`ended, this`pagesCount, grantRefs
    {
      pagesCount <= n <= grantRefs.Length && ended == ended0 + Backwards(grantRefs[..][pagesCount..n])
    }

    lemma EndedStart()
      requires pagesCount <= grantRefs.Length
      ensures EndedFrom(ended, pagesCount)
    {
    }

    lemma EndedOn(ended0: seq<nat>, ended1: seq<nat>, now: nat, n: nat)
      requires now <= n && EndedFrom(ended1, now) && n <= grantRefs.Length
      requires ended1 == ended0 + Backwards(grantRefs[..][now..n])
      ensures EndedFrom(ended0, n)
    {
      BackwardsOn(grantRefs[..], pagesCount, now, n);
    }

    method EndNextGrant(ghost ended0: seq<nat>, ghost n: nat) returns (ok: bool)
      requires Valid() && !retired && state == Offerer && pagesCount != 0 && EndedFrom(ended0, n)
      modifies this`live, this`pagesCount, this`refusals, this`balked, this`ended
      ensures refusals == old(refusals) + (if ok then 0 else 1) && old(balked) <= balked
      ensures Valid() && pagesCount == (if ok then old(pagesCount) - 1 else old(pagesCount)) && EndedFrom(ended0, n)
    {
      ghost var ended1, now := ended, pagesCount;
      ok := EndLastGrant();
      if ok {
        BackwardsOn(grantRefs[..], pagesCount, now, now);
        EndedOn(ended0, ended1, now, n);
      }
    }

    /** Ends the grants from the last one down, and stops at the first refusal; what is done is done, and a later attempt goes on from there. */
    method FreeOfferer() returns (ok: bool)
      requires Valid() && !retired && state == Offerer
      modifies this`live, this`pagesCount, this`retired, this`refusals, this`balked, this`ended
      ensures refusals == old(refusals) + (if ok then 0 else 1) && old(balked) <= balked
      ensures Valid() && retired == ok && pagesCount <= old(pagesCount)
      ensures ok <==> pagesCount == 0
      ensures EndedFrom(old(ended), old(pagesCount))
    {
      EndedStart();
      while pagesCount != 0
        invariant Valid() && !retired && refusals == old(refusals) && old(balked) <= balked
        invariant EndedFrom(old(ended), old(pagesCount))
        decreases pagesCount
      {
        ok := EndNextGrant(old(ended), old(pagesCount));
        if !ok { return; }
      }
      GiveBack(Channel);
      GiveBack(Memory);
      ok, retired := true, true;
    }

    /** Any number of attempts: over all of them each grant is ended once, from the last down to the first. */
    method FreeInAttempts(attempts: nat) returns (ok: bool)
      requires Valid() && !retired && state == Offerer && pagesCount > 0
      modifies this`live, this`pagesCount, this`retired, this`refusals, this`balked, this`ended
      ensures Valid() && retired == ok && (ok <==> pagesCount == 0)
      ensures EndedFrom(old(ended), old(pagesCount))
      ensures !ok ==> refusals == old(refusals) + attempts
    {
      ok := false;
      EndedStart();
      for k := 0 to attempts
        invariant Valid() && retired == ok && (ok <==> pagesCount == 0) && state == Offerer
        invariant EndedFrom(old(ended), old(pagesCount))
        invariant !ok ==> refusals == old(refusals) + k
      {
        if !ok {
          ghost var ended1, now := ended, pagesCount;
          ok := FreeOfferer();
          EndedOn(old(ended), ended1, now, old(pagesCount));
        }
      }
    }

    /** Unmaps the header page and then closes what is left; data pages still mapped are left to the notifier. */
    method FreeHeader() returns (ok: bool)
      requires Valid() && !retired && (state == Receiver || state == ReceiverMapped)
      requires !usePtemod ==> state == Receiver || Pages(Slots()) == {}
      modifies this`live, this`pagesCount, this`retired, this`refusals, this`balked
      ensures refusals == old(refusals) + if ok then 0 else 1
      ensures Valid() && retired == ok
      ensures pagesCount == if ok then old(pagesCount) - 1 else old(pagesCount)
      ensures ok && state == ReceiverMapped ==> Pages(handles[..pagesCount]) == old(Pages(Slots()))
      ensures balked == old(balked) + if ok then {} else {Header(headerHandle)}
    {
      ghost var pages := if state == ReceiverMapped then Pages(Slots()) else {};
      forall x | x in pages ensures x.Page? { InPages(Slots(), x); }
      ok := GiveBackConnection(pages + lost);
      if ok {
        pagesCount := pagesCount - 1;
        retired := true;
      }
    }

    method GiveBackConnection(ghost others: set<Resource>) returns (ok: bool)
      requires live == {Area, Header(headerHandle), Channel} + others && {Area, Header(headerHandle), Channel} !! others
      modifies this`live, this`refusals, this`balked
      ensures live == if ok then others else old(live)
      ensures refusals == old(refusals) + if ok then 0 else 1
      ensures balked == old(balked) + if ok then {} else {Header(headerHandle)}
    {
      ok := TryGiveBack(Header(headerHandle));
      if !ok { return; }
      GiveBack(Channel);
      GiveBack(Area);
    }

    /** Unmaps the data pages, unless the notifier does that, and the header page. */
    method FreeReceiver() returns (ok: bool, ghost calls: seq<nat>, ghost refused: set<Resource>)
      requires Valid() && !retired && (state == Receiver || state == ReceiverMapped)
      modifies this`live, this`lost, this`pagesCount, this`retired, this`refusals, this`balked, handles
      ensures refusals == old(refusals) + if ok then 0 else 1
      ensures Valid() && retired == ok && lost == old(lost) + refused
      ensures balked == old(balked) + refused + if ok then {} else {Header(headerHandle)}
      ensures pagesCount == if ok then old(pagesCount) - 1 else old(pagesCount)
      ensures old(state) == Receiver || usePtemod ==> calls == [] && refused == {}
      ensures old(state) == ReceiverMapped && !usePtemod ==>
        && calls == Live(old(Slots()), 0, |old(Slots())|) && refused <= old(Pages(Slots())) && (!ok ==> Pages(Slots()) == {})
      ensures Left() == if ok && old(state) == ReceiverMapped && usePtemod then old(Pages(Slots())) else {}
    {
      calls, refused := [], {};
      if state == ReceiverMapped && !usePtemod {
        calls, refused := UnmapMapped(0, pagesCount - 1);
        NothingLive(old(Slots()));
      }
      ok := FreeHeader();
    }

    /**
      __xen_shm_prepare_free. When it succeeds nothing is held but what a refusal left behind, or the notifier
      has not come to unmap; when it fails the class invariant holds on, and it can be called again.
     */
    method PrepareFree() returns (ok: bool, ghost calls: seq<nat>, ghost refused: set<Resource>)
      requires Valid() && !retired
      modifies this`live, this`lost, this`pagesCount, this`retired, this`refusals, this`balked, this`ended, handles
      ensures refusals == old(refusals) + if ok then 0 else 1
      ensures Valid() && retired == ok && lost == old(lost) + refused && refused <= balked && old(balked) <= balked
      ensures ok ==> live == lost + Left()
      ensures state == Opened ==> ok
      ensures state == Offerer ==>
        && pagesCount <= old(pagesCount) && (ok <==> pagesCount == 0)
        && EndedFrom(old(ended), old(pagesCount))
      ensures state != ReceiverMapped || usePtemod ==> calls == [] && refused == {}
      ensures state == ReceiverMapped && !usePtemod ==>
        && calls == Live(old(Slots()), 0, |old(Slots())|) && refused <= old(Pages(Slots())) && (!ok ==> Pages(Slots()) == {})
      ensures Left() == if ok && state == ReceiverMapped && usePtemod then old(Pages(Slots())) else {}
      ensures Left() != {} <==> ok && state == ReceiverMapped && usePtemod && !old(AllDead(Slots(), 0))
    {
      calls, refused := [], {};
      NoPagesExactly(Slots());
      if state == Opened {
        ok, retired := true, true;
      } else if state == Offerer {
        ok := FreeOfferer();
      } else {
        ok, calls, refused := FreeReceiver();
      }
    }
  }

  /** The unmap call for the part of a range that lies in the mapping. */
  function Touched(vma: Vma, start: nat, end: nat): Request {
    if vma == NoVma || start >= vma.end || vma.start >= end then Request(0, 0)
    else
      var mstart := if start > vma.start then start else vma.start;
      var mend := if end < vma.end then end else vma.end;
      Request((mstart - vma.start) / 4096, (mend - mstart) / 4096)
  }

  lemma TouchedFits(vma: Vma, start: nat, end: nat, n: nat)
    requires vma.Vma? && vma.Aligned() && vma.end == vma.start + 4096 * n
    ensures Touched(vma, start, end).nb > 0 ==> Touched(vma, start, end).at < n
  {
  }

  /** The data page that is mapped at start + 4096 * p, and the range from start to end. */
  predicate PageMeets(vma: Vma, p: nat, start: nat, end: nat)
    requires vma.Vma?
  {
    start < vma.start + 4096 * (p + 1) && vma.start + 4096 * p < end
  }

  /** The data pages that meet a range: the first of them, and how many. */
  function Met(vma: Vma, start: nat, end: nat): Request {
    if vma == NoVma || start >= vma.end || vma.start >= end then Request(0, 0)
    else
      var mstart := if start > vma.start then start else vma.start;
      var mend := if end < vma.end then end else vma.end;
      var first := (mstart - vma.start) / 4096;
      Request(first, (mend - vma.start + 4095) / 4096 - first)
  }

  lemma MetPages(vma: Vma, start: nat, end: nat, p: nat)
    requires vma.Vma? && vma.Aligned() && start <= end && vma.start + 4096 * p < vma.end
    ensures var m := Met(vma, start, end); m.at <= p < m.at + m.nb <==> PageMeets(vma, p, start, end)
  {
  }

  lemma MetFits(vma: Vma, start: nat, end: nat, n: nat)
    requires vma.Vma? && vma.Aligned() && vma.end == vma.start + 4096 * n && start <= end
    ensures var m, q := Met(vma, start, end), Touched(vma, start, end);
      m.nb >= 0 && m.at + m.nb <= n && q.at == m.at && 0 <= q.nb <= m.nb
  {
  }

  /** The part of a range inside the mapping begins and ends where pages do. */
  predicate Whole(vma: Vma, start: nat, end: nat)
    requires vma.Vma?
  {
    (start <= vma.start || start % 4096 == 0) && (vma.end <= end || end % 4096 == 0)
  }

  predicate Outside(vma: Vma, start: nat, end: nat)
    requires vma.Vma?
  {
    start >= vma.end || vma.start >= end
  }

  /** Any range asks only for pages it meets, and it asks for all of them if and only if, inside the mapping, it consists of whole pages. */
  lemma RangeAskedExactly(vma: Vma, start: nat, end: nat)
    requires vma.Vma? && vma.Aligned() && start <= end
    ensures Touched(vma, start, end).nb == Met(vma, start, end).nb <==> Outside(vma, start, end) || Whole(vma, start, end)
  {
  }

  /** The callback for one page asks for the page its address is in if and only if a whole page fits behind the address; it never asks for another. */
  lemma PageAskedExactly(vma: Vma, address: nat)
    requires vma.Vma? && vma.Aligned() && vma.start <= address < vma.end
    ensures var q := Touched(vma, address, address + 4096);
      && q.at == (address - vma.start) / 4096 && q.nb <= 1
      && (q.nb == 1 <==> address + 4096 <= vma.end)
  {
  }

  /** When every page the range meets is asked for, and so it is for a page callback with the first address of a page. */
  lemma PageWholeExactly(vma: Vma, address: nat)
    requires vma.Vma? && vma.Aligned() && vma.start <= address < vma.end
    ensures Touched(vma, address, address + 4096).nb == Met(vma, address, address + 4096).nb <==> address % 4096 == 0
  {
    RangeAskedExactly(vma, address, address + 4096);
  }

  /**
    Invalidating any range unmaps exactly the live data pages that it meets if and only if as many of them are live as it asks
    for, or fewer are and none behind them is. For whole pages this says: each of them is live, or none behind is.
   */
  lemma InvalidationExactly(vma: Vma, h: seq<int>, start: nat, end: nat)
    requires vma.Vma? && vma.Aligned() && vma.end == vma.start + 4096 * |h| && start <= end
    ensures var q, m := Touched(vma, start, end), Met(vma, start, end);
      && m.nb >= 0 && m.at + m.nb <= |h|
      && var met := Live(h, m.at, m.at + m.nb);
      && (forall p: nat :: p in met <==> p < |h| && PageMeets(vma, p, start, end) && h[p] != DEAD)
      && (Swept(h, q.at, q.nb) == met <==> |met| == q.nb || (|met| < q.nb && AllDead(h, m.at + m.nb)))
  {
    var q, m := Touched(vma, start, end), Met(vma, start, end);
    MetFits(vma, start, end, |h|);
    forall p: nat ensures p in Live(h, m.at, m.at + m.nb) <==> p < |h| && PageMeets(vma, p, start, end) && h[p] != DEAD {
      InLive(h, m.at, m.at + m.nb, p);
      if p < |h| { MetPages(vma, start, end, p); }
    }
    SweptPartExactly(h, q.at, q.nb, m.nb);
  }

  /** An input where it does not: of two pages the first is invalidated twice, and the second time the other one is unmapped. */
  lemma InvalidationGoesBehind()
    ensures var vma, h := Vma(0, 8192), [5, 7]; var q := Touched(vma, 0, 4096); var again := Sweep(h, q.at, q.nb);
      && Swept(h, q.at, q.nb) == [0] && again == [DEAD, 7]
      && Swept(again, q.at, q.nb) == [1] && !PageMeets(vma, 1, 0, 4096)
  {
    var h := [5, 7];
    assert Swept(h[0 := DEAD], 1, 0) == [] && h[0 := DEAD] == [DEAD, 7];
    assert Swept([DEAD, 7], 1, 1) == [1] + Swept([DEAD, 7][1 := DEAD], 2, 0);
  }

  lemma WholeInvalidationExactly(vma: Vma, h: seq<int>, start: nat, end: nat)
    requires vma.Vma? && vma.Aligned() && vma.end == vma.start + 4096 * |h| && start <= end
    requires Outside(vma, start, end) || Whole(vma, start, end)
    ensures var q := Touched(vma, start, end);
      && q.nb >= 0 && q.at + q.nb <= |h|
      && (forall p: nat :: p in Live(h, q.at, q.at + q.nb) <==> p < |h| && PageMeets(vma, p, start, end) && h[p] != DEAD)
      && (Swept(h, q.at, q.nb) == Live(h, q.at, q.at + q.nb) <==> AllLive(h, q.at, q.at + q.nb) || AllDead(h, q.at + q.nb))
  {
    InvalidationExactly(vma, h, start, end);
    RangeAskedExactly(vma, start, end);
    MetFits(vma, start, end, |h|);
    SweptRangeExactly(h, Touched(vma, start, end).at, Touched(vma, start, end).nb);
  }

  // ----- any sequence of operations -----

  datatype Op =
    | OpInitOfferer(pages: nat)
    | OpInitReceiver(pages: nat, theirPages: nat)
    | OpMmap(vma: Vma, write: bool, shared: bool)
    | OpInvalidate(start: nat, end: nat)
    | OpInvalidatePage(address: nat)
    | OpReleaseSpace
    | OpFree
  {
    /** What the kernel sees to before it calls the driver. */
    predicate Sensible() {
      && (OpMmap? ==> vma.Vma? && vma.Aligned())
      && (OpInvalidate? ==> start <= end)
    }
  }

  /**
    Whatever is asked of an instance, in whatever order, failing wherever it fails: up to the free that
    succeeds it holds what its state calls for, and after that nothing; but for what some call refused to take back,
    and, under ptemod only, the pages that the notifier had not unmapped by then. A denied grant, which the
    code does not notice, ends what can be said.
   */
  method Drive(x: Instance, ops: seq<Op>) returns (freed: bool)
    requires x.Valid() && !x.retired && forall k :: 0 <= k < |ops| ==> ops[k].Sensible()
    modifies x, x.grantRefs, x.handles
    ensures x.Held() && freed == x.retired && (x.grantDenials == old(x.grantDenials) ==> x.Valid())
    ensures old(x.lost) <= x.lost <= x.balked && old(x.balked) <= x.balked
    ensures !freed ==> x.live == x.Owed() + x.lost
    ensures freed ==> x.live == x.lost + if x.usePtemod && x.state == ReceiverMapped then Pages(x.handles[..x.pagesCount]) else {}
  {
    var k, start := 0, x.grantDenials;
    freed := false;
    while k < |ops| && !freed && x.grantDenials == start
      invariant 0 <= k <= |ops| && x.Held() && freed == x.retired
      invariant x.grantDenials >= start && (x.grantDenials == start ==> x.Valid())
      invariant old(x.lost) <= x.lost && old(x.balked) <= x.balked
      decreases |ops| - k
    {
      freed := DriveOne(x, ops[k]);
      k := k + 1;
    }
  }

  method DriveOne(x: Instance, op: Op) returns (freed: bool)
    requires x.Valid() && !x.retired && op.Sensible()
    modifies x, x.grantRefs, x.handles
    ensures x.Held() && freed == x.retired
    ensures x.grantDenials >= old(x.grantDenials) && (x.grantDenials == old(x.grantDenials) ==> x.Valid())
    ensures old(x.lost) <= x.lost && old(x.balked) <= x.balked
  {
    freed := false;
    match op {
      case OpInitOfferer(pages) => var _, _ := x.InitOfferer(pages);
      case OpInitReceiver(pages, theirs) => var _, _ := x.InitReceiver(pages, theirs);
      case OpMmap(vma, write, shared) => var _, _ := x.Mmap(vma, write, shared);
      case OpInvalidate(start, end) => var _, _ := x.InvalidateRange(start, end);
      case OpInvalidatePage(address) => var _, _ := x.InvalidatePage(address);
      case OpReleaseSpace => var _, _ := x.ReleaseSpace();
      case OpFree =>
        ghost var calls, refused;
        freed, calls, refused := x.PrepareFree();
    }
  }
}
