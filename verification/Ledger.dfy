/** What an instance of the driver can hold of the hypervisor and the kernel, as sets. */
module Ledger {
  import opened Handles

  /** What can be held, and must be given back once. */
  datatype Resource =
    | Memory                 // the offerer's pages
    | Grant(ref: nat)
    | Area                   // the receiver's vm area for the header page
    | Header(handle: nat)    // the mapping of the header page
    | Page(mapped: int)      // the mapping of a data page, by its handle
    | Channel

  // ----- grants and mappings as the instance lists them -----

  /** A failed grant comes back as a negative error, and lands in an unsigned field. */
  const NO_GRANT: nat := 0x8000_0000

  function Grants(refs: seq<nat>): set<Resource> {
    if refs == [] then {}
    else Grants(refs[..|refs| - 1]) + if refs[|refs| - 1] < NO_GRANT then {Grant(refs[|refs| - 1])} else {}
  }

  predicate AllGranted(refs: seq<nat>) { forall k :: 0 <= k < |refs| ==> refs[k] < NO_GRANT }

  function Pages(h: seq<int>): set<Resource> {
    if h == [] then {}
    else Pages(h[..|h| - 1]) + if h[|h| - 1] == DEAD then {} else {Page(h[|h| - 1])}
  }

  lemma {:induction false} InGrants(refs: seq<nat>, x: Resource)
    ensures x in Grants(refs) <==> x.Grant? && x.ref < NO_GRANT && x.ref in refs
  {
    if refs != [] {
      InGrants(refs[..|refs| - 1], x);
      assert refs == refs[..|refs| - 1] + [refs[|refs| - 1]];
    }
  }

  lemma {:induction false} InPages(h: seq<int>, x: Resource)
    ensures x in Pages(h) <==> x.Page? && x.mapped != DEAD && x.mapped in h
  {
    if h != [] {
      InPages(h[..|h| - 1], x);
      assert h == h[..|h| - 1] + [h[|h| - 1]];
    }
  }

  predicate DistinctRefs(refs: seq<nat>) {
    forall i, j :: 0 <= i < j < |refs| && refs[i] < NO_GRANT ==> refs[i] != refs[j]
  }

  predicate DistinctHandles(h: seq<int>) {
    forall i, j :: 0 <= i < j < |h| && h[i] != DEAD ==> h[i] != h[j]
  }

  lemma GrantsGrow(refs: seq<nat>, ref: nat)
    requires DistinctRefs(refs) && (ref < NO_GRANT ==> Grant(ref) !in Grants(refs))
    ensures Grants(refs + [ref]) == Grants(refs) + (if ref < NO_GRANT then {Grant(ref)} else {}) && DistinctRefs(refs + [ref])
    ensures AllGranted(refs + [ref]) <==> AllGranted(refs) && ref < NO_GRANT
  {
    assert (refs + [ref])[..|refs|] == refs && (refs + [ref])[|refs|] == ref;
    InGrants(refs, Grant(ref));
    if AllGranted(refs + [ref]) {
      forall k | 0 <= k < |refs| ensures refs[k] < NO_GRANT { assert (refs + [ref])[k] < NO_GRANT; }
    }
  }

  /** On top of `before` the granted ones of refs are held; all says whether none was denied. */
  ghost predicate GrantedOver(refs: seq<nat>, before: set<Resource>, live: set<Resource>, all: bool) {
    var whole :=
      DistinctRefs(refs) && (AllGranted(refs) <==> all) && Grants(refs) !! before && live == before + Grants(refs);
    whole
  }

  lemma GrantedOn(refs: seq<nat>, before: set<Resource>, live: set<Resource>, all: bool, ref: nat)
    requires GrantedOver(refs, before, live, all) && (ref < NO_GRANT ==> Grant(ref) !in live)
    ensures GrantedOver(refs + [ref], before, live + (if ref < NO_GRANT then {Grant(ref)} else {}), all && ref < NO_GRANT)
  {
    GrantsGrow(refs, ref);
  }

  lemma GrantsShrink(refs: seq<nat>)
    requires refs != [] && DistinctRefs(refs)
    ensures var last := |refs| - 1;
      && DistinctRefs(refs[..last])
      && if refs[last] < NO_GRANT then Grants(refs[..last]) == Grants(refs) - {Grant(refs[last])} && Grant(refs[last]) in Grants(refs)
         else Grants(refs[..last]) == Grants(refs)
  {
    InGrants(refs[..|refs| - 1], Grant(refs[|refs| - 1]));
  }

  /** What an offer holds, with one grant fewer. */
  lemma OfferShrinks(refs: seq<nat>, lost: set<Resource>)
    requires refs != [] && DistinctRefs(refs) && AllGranted(refs) && {Memory, Channel} + Grants(refs) !! lost
    ensures var last := |refs| - 1; var fewer := refs[..last];
      && Grant(refs[last]) in Grants(refs) && DistinctRefs(fewer) && AllGranted(fewer)
      && {Memory, Channel} + Grants(refs) + lost - {Grant(refs[last])} == {Memory, Channel} + Grants(fewer) + lost
  {
    GrantsShrink(refs);
  }

  /** pages_count counts the grants that are still out. */
  lemma {:induction false} GrantsCount(refs: seq<nat>)
    requires DistinctRefs(refs) && AllGranted(refs)
    ensures |Grants(refs)| == |refs|
  {
    if refs != [] {
      GrantsShrink(refs);
      GrantsCount(refs[..|refs| - 1]);
    }
  }

  /** From the last to the first. */
  function Backwards(refs: seq<nat>): (r: seq<nat>)
    ensures |r| == |refs|
  {
    if refs == [] then [] else Backwards(refs[1..]) + [refs[0]]
  }

  lemma {:induction false} BackwardsJoin(a: seq<nat>, b: seq<nat>)
    ensures Backwards(a + b) == Backwards(b) + Backwards(a)
    decreases |a|
  {
    if a == [] {
      assert a + b == b;
    } else {
      assert (a + b)[1..] == a[1..] + b;
      BackwardsJoin(a[1..], b);
    }
  }

  lemma BackwardsOn(refs: seq<nat>, from: nat, mid: nat, to: nat)
    requires from <= mid <= to <= |refs|
    ensures Backwards(refs[from..to]) == Backwards(refs[mid..to]) + Backwards(refs[from..mid])
    ensures from + 1 == mid ==> Backwards(refs[from..mid]) == [refs[from]]
  {
    assert refs[from..to] == refs[from..mid] + refs[mid..to];
    BackwardsJoin(refs[from..mid], refs[mid..to]);
    if from + 1 == mid { assert refs[from..mid][1..] == []; }
  }

  /** One handle marked dead: one mapping fewer. */
  lemma PagesMark(h: seq<int>, p: nat)
    requires p < |h| && h[p] != DEAD && DistinctHandles(h)
    ensures Page(h[p]) in Pages(h) && DistinctHandles(h[p := DEAD])
    ensures Pages(h[p := DEAD]) == Pages(h) - {Page(h[p])}
  {
    InPages(h, Page(h[p]));
    forall x ensures x in Pages(h[p := DEAD]) <==> x in Pages(h) - {Page(h[p])} {
      InPages(h, x);
      InPages(h[p := DEAD], x);
      if x in Pages(h) - {Page(h[p])} {
        var k :| 0 <= k < |h| && h[k] == x.mapped;
        assert h[p := DEAD][k] == x.mapped;
      }
    }
  }

  lemma PagesGrow(h: seq<int>, handle: int)
    requires Page(handle) !in Pages(h) && DistinctHandles(h) && handle != DEAD
    ensures Pages(h + [handle]) == Pages(h) + {Page(handle)} && DistinctHandles(h + [handle])
  {
    assert (h + [handle])[..|h|] == h;
    InPages(h, Page(handle));
  }

  /** On top of `before` the live ones of h are held; all says whether every one is live. */
  ghost predicate MappedOver(h: seq<int>, before: set<Resource>, live: set<Resource>, all: bool) {
    var whole :=
      DistinctHandles(h) && (AllLive(h, 0, |h|) <==> all) && Pages(h) !! before && live == before + Pages(h);
    whole
  }

  lemma MappedOn(h: seq<int>, before: set<Resource>, live: set<Resource>, all: bool, handle: int)
    requires MappedOver(h, before, live, all) && (handle != DEAD ==> Page(handle) !in live)
    ensures MappedOver(h + [handle], before, live + (if handle == DEAD then {} else {Page(handle)}), all && handle != DEAD)
  {
    LiveOn(h, handle);
    if handle == DEAD { PagesSame(h); } else { PagesGrow(h, handle); }
  }

  lemma LiveOn(h: seq<int>, handle: int)
    ensures AllLive(h + [handle], 0, |h| + 1) <==> AllLive(h, 0, |h|) && handle != DEAD
  {
    var g := h + [handle];
    assert g[|h|] == handle;
    if AllLive(g, 0, |g|) {
      forall k | 0 <= k < |h| ensures h[k] != DEAD { assert g[k] != DEAD; }
    }
  }

  lemma PagesSame(h: seq<int>)
    requires DistinctHandles(h)
    ensures Pages(h + [DEAD]) == Pages(h) && DistinctHandles(h + [DEAD])
  {
    assert (h + [DEAD])[..|h|] == h;
  }

  lemma {:induction false} NoPages(h: seq<int>)
    requires forall p :: 0 <= p < |h| ==> h[p] == DEAD
    ensures Pages(h) == {} && DistinctHandles(h)
  {
    if h != [] { NoPages(h[..|h| - 1]); }
  }

  lemma NoPagesExactly(h: seq<int>)
    ensures Pages(h) == {} <==> AllDead(h, 0)
  {
    if k: nat :| k < |h| && h[k] != DEAD {
      InPages(h, Page(h[k]));
    } else {
      forall x ensures x !in Pages(h) { InPages(h, x); }
    }
  }

  /** A walk over all handles asks for each live one once, and leaves none. */
  lemma NothingLive(h: seq<int>)
    ensures Pages(Sweep(h, 0, |h|)) == {} && Swept(h, 0, |h|) == Live(h, 0, |h|)
  {
    AllSwept(h);
    NoPages(Sweep(h, 0, |h|));
    SweptAreFirstLive(h, 0, |h|);
  }

  // ----- the size of the allocation -----

  function Pow2(k: nat): nat { if k == 0 then 1 else 2 * Pow2(k - 1) }

  lemma {:induction false} Pow2Grows(j: nat, k: nat)
    requires j <= k
    ensures Pow2(j) <= Pow2(k)
  {
    if j < k { Pow2Grows(j, k - 1); }
  }

  ghost predicate IsPowerOf2(n: nat) { exists k: nat :: Pow2(k) == n }

  function Shifted(n: nat, k: nat): nat { if k == 0 then n else Shifted(n, k - 1) / 2 }

  /** The order of an allocation of that many pages: always enough, never more than twice too much. */
  method AllocationOrder(pages: nat) returns (order: nat)
    requires pages > 0
    ensures order > 0 && Pow2(order - 1) <= pages < Pow2(order)
  {
    var count: int, rest := 0, pages;
    while rest != 0
      invariant count >= 0 && rest == Shifted(pages, count)
      invariant count > 0 ==> Shifted(pages, count - 1) != 0
      invariant rest == 0 ==> count > 0
      decreases rest
    {
      rest := rest / 2;
      count := count + 1;
    }
    ShiftedOut(pages, count);
    // xen_shm.c:432 would take one off for a power of two, but tests a count that is 0 by now
    if rest == Pow2(count - 1) {
      count := count - 1;
    }
    order := count;
  }

  lemma {:induction false} ShiftedBounds(n: nat, k: nat)
    ensures Shifted(n, k) * Pow2(k) <= n < (Shifted(n, k) + 1) * Pow2(k)
  {
    if k > 0 {
      ShiftedBounds(n, k - 1);
      HalvingStep(Shifted(n, k - 1), n, Pow2(k - 1));
    }
  }

  lemma HalvingStep(rest: nat, n: nat, p: nat)
    requires rest * p <= n < (rest + 1) * p
    ensures rest / 2 * (2 * p) <= n < (rest / 2 + 1) * (2 * p)
  {
    var half := rest / 2;
    assert half * (2 * p) == (2 * half) * p && (half + 1) * (2 * p) == (2 * half + 2) * p;
    assert rest == 2 * half || rest == 2 * half + 1;
  }

  lemma ShiftedOut(n: nat, k: nat)
    requires k > 0 && Shifted(n, k) == 0 && Shifted(n, k - 1) != 0
    ensures 0 < Pow2(k - 1) <= n < Pow2(k)
  {
    ShiftedBounds(n, k);
    ShiftedBounds(n, k - 1);
    Pow2Grows(0, k - 1);
    AtLeast(Shifted(n, k - 1), Pow2(k - 1));
  }

  lemma AtLeast(a: nat, b: nat)
    requires a > 0
    ensures b <= a * b
  {
    assert a * b == (a - 1) * b + b;
  }

  /** The least order that is enough is one less exactly for a power of two: there the allocation is twice the pages. */
  lemma OrderMinimalExactly(pages: nat, order: nat)
    requires order > 0 && Pow2(order - 1) <= pages < Pow2(order)
    ensures (forall k: nat :: pages <= Pow2(k) ==> order <= k) <==> !IsPowerOf2(pages)
    ensures IsPowerOf2(pages) ==> Pow2(order) == 2 * pages
  {
    if IsPowerOf2(pages) {
      var k: nat :| Pow2(k) == pages;
      if k < order - 1 { Pow2Grows(k + 1, order - 1); assert Pow2(k + 1) == 2 * pages; }
      if k >= order { Pow2Grows(order, k); }
      assert pages <= Pow2(order - 1);
    } else {
      forall k: nat | pages <= Pow2(k) ensures order <= k {
        if k < order {
          Pow2Grows(k, order - 1);
        }
      }
    }
  }
}
