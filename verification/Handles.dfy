/**
  The unmap handles of a receiver's data pages, one a page: DEAD once unmapped. The kernel's
  unmap walk counts live handles, not pages; this module says what it releases.
  (xen_shm.c:381-406, 595-645)
 */
module Handles {

  const DEAD: int := -1

  /** What the walk from `at` leaves when it may release nb handles. */
  function Sweep(h: seq<int>, at: nat, nb: int): (r: seq<int>)
    ensures |r| == |h|
    decreases |h| - at
  {
    if nb <= 0 || at >= |h| then h
    else if h[at] != DEAD then Sweep(h[at := DEAD], at + 1, nb - 1)
    else Sweep(h, at + 1, nb)
  }

  /** The positions it releases, in its order. */
  function Swept(h: seq<int>, at: nat, nb: int): seq<nat>
    decreases |h| - at
  {
    if nb <= 0 || at >= |h| then []
    else if h[at] != DEAD then [at] + Swept(h[at := DEAD], at + 1, nb - 1)
    else Swept(h, at + 1, nb)
  }

  /** All live positions from `at` up to `end`. */
  function Live(h: seq<int>, at: nat, end: nat): (r: seq<nat>)
    requires end <= |h|
    ensures |r| <= if at < end then end - at else 0
    decreases end - at
  {
    if at >= end then []
    else if h[at] != DEAD then [at] + Live(h, at + 1, end)
    else Live(h, at + 1, end)
  }

  lemma {:induction false} InLive(h: seq<int>, at: nat, end: nat, p: nat)
    requires end <= |h|
    ensures p in Live(h, at, end) <==> at <= p < end && h[p] != DEAD
    decreases end - at
  {
    if at < end { InLive(h, at + 1, end, p); }
  }

  ghost predicate AllLive(h: seq<int>, at: nat, end: nat)
    requires end <= |h|
  {
    forall p :: at <= p < end ==> h[p] != DEAD
  }

  ghost predicate AllDead(h: seq<int>, at: nat) { forall p :: at <= p < |h| ==> h[p] == DEAD }

  function First(s: seq<nat>, nb: int): seq<nat> {
    if nb <= 0 then [] else if nb < |s| then s[..nb] else s
  }

  lemma {:induction false} LiveIgnoresBefore(h: seq<int>, p: nat, at: nat, end: nat)
    requires p < at && p < |h| && end <= |h|
    ensures Live(h[p := DEAD], at, end) == Live(h, at, end)
    decreases end - at
  {
    if at < end { LiveIgnoresBefore(h, p, at + 1, end); }
  }

  /** A walk for nb handles of h0 from offset has come to `at`, may release `left` more, and has released calls. */
  ghost predicate Walked(h0: seq<int>, offset: nat, nb: int, h: seq<int>, at: nat, left: int, calls: seq<nat>) {
    var whole :=
      && Sweep(h0, offset, nb) == Sweep(h, at, left)
      && Swept(h0, offset, nb) == calls + Swept(h, at, left);
    whole
  }

  lemma WalkStep(h0: seq<int>, offset: nat, nb: int, h: seq<int>, at: nat, left: int, calls: seq<nat>)
    requires left > 0 && at < |h| && Walked(h0, offset, nb, h, at, left, calls)
    ensures h[at] != DEAD ==> Walked(h0, offset, nb, h[at := DEAD], at + 1, left - 1, calls + [at])
    ensures h[at] == DEAD ==> Walked(h0, offset, nb, h[at := DEAD], at + 1, left, calls)
  {
    assert h[at] == DEAD ==> h[at := DEAD] == h;
  }

  lemma WalkEnds(h0: seq<int>, offset: nat, nb: int, h: seq<int>, at: nat, left: int, calls: seq<nat>)
    requires Walked(h0, offset, nb, h, at, left, calls) && (left <= 0 || at >= |h|)
    ensures h == Sweep(h0, offset, nb) && calls == Swept(h0, offset, nb)
  {
  }

  /** The walk releases the first nb live handles from `at` on, or all there are. */
  lemma {:induction false} SweptAreFirstLive(h: seq<int>, at: nat, nb: int)
    ensures Swept(h, at, nb) == First(Live(h, at, |h|), nb)
    decreases |h| - at
  {
    if nb > 0 && at < |h| {
      if h[at] != DEAD {
        SweptAreFirstLive(h[at := DEAD], at + 1, nb - 1);
        LiveIgnoresBefore(h, at, at + 1, |h|);
      } else {
        SweptAreFirstLive(h, at + 1, nb);
      }
    }
  }

  /** It marks those dead and touches no other. */
  lemma {:induction false} SweepClears(h: seq<int>, at: nat, nb: int)
    ensures forall p: nat :: p in Swept(h, at, nb) ==> at <= p < |h| && h[p] != DEAD
    ensures forall p: nat :: p < |h| ==> Sweep(h, at, nb)[p] == if p in Swept(h, at, nb) then DEAD else h[p]
    decreases |h| - at
  {
    if nb > 0 && at < |h| {
      if h[at] != DEAD {
        SweepClears(h[at := DEAD], at + 1, nb - 1);
      } else {
        SweepClears(h, at + 1, nb);
      }
    }
  }

  lemma {:induction false} LiveSplits(h: seq<int>, at: nat, mid: nat, end: nat)
    requires at <= mid <= end <= |h|
    ensures Live(h, at, end) == Live(h, at, mid) + Live(h, mid, end)
    decreases mid - at
  {
    if at < mid { LiveSplits(h, at + 1, mid, end); }
  }

  lemma {:induction false} FullRange(h: seq<int>, at: nat, end: nat)
    requires at <= end <= |h|
    ensures |Live(h, at, end)| == end - at <==> AllLive(h, at, end)
    decreases end - at
  {
    if at < end { FullRange(h, at + 1, end); }
  }

  /**
    The walk for nb pages from `at` releases exactly the live handles of those pages if and only if
    every one of them is live or no page behind them is. Otherwise it goes on into pages it was not asked for.
   */
  lemma SweptRangeExactly(h: seq<int>, at: nat, nb: nat)
    requires at + nb <= |h|
    ensures Swept(h, at, nb) == Live(h, at, at + nb) <==> AllLive(h, at, at + nb) || AllDead(h, at + nb)
  {
    var asked, rest := Live(h, at, at + nb), Live(h, at + nb, |h|);
    assert Swept(h, at, nb) == First(asked + rest, nb) by {
      SweptAreFirstLive(h, at, nb);
      LiveSplits(h, at, at + nb, |h|);
    }
    FirstIsWhole(asked, rest, nb);
    FullRange(h, at, at + nb);
    NoneLive(h, at + nb);
  }

  /** The same when the pages that should go are m, and the walk is for nb of them. */
  lemma SweptPartExactly(h: seq<int>, at: nat, nb: nat, m: nat)
    requires at + m <= |h| && nb <= m
    ensures var met := Live(h, at, at + m);
      Swept(h, at, nb) == met <==> |met| == nb || (|met| < nb && AllDead(h, at + m))
  {
    var met, rest := Live(h, at, at + m), Live(h, at + m, |h|);
    assert Swept(h, at, nb) == First(met + rest, nb) by {
      SweptAreFirstLive(h, at, nb);
      LiveSplits(h, at, at + m, |h|);
    }
    NoneLive(h, at + m);
    if |met| <= nb {
      FirstIsWhole(met, rest, nb);
    } else {
      assert |First(met + rest, nb)| == nb;
    }
  }

  lemma FirstIsWhole(a: seq<nat>, b: seq<nat>, nb: nat)
    requires |a| <= nb
    ensures First(a + b, nb) == a <==> |a| == nb || b == []
  {
    assert (a + b)[..|a|] == a;
    if b == [] { assert a + b == a; }
    assert |First(a + b, nb)| == if nb < |a| + |b| then nb else |a| + |b|;
  }

  lemma {:induction false} NoneLive(h: seq<int>, at: nat)
    ensures Live(h, at, |h|) == [] <==> AllDead(h, at)
    decreases |h| - at
  {
    if at < |h| { NoneLive(h, at + 1); }
  }

  // ----- any mix of unmap calls -----

  datatype Request = Request(at: nat, nb: int)

  function SweepAll(h: seq<int>, calls: seq<Request>): (r: seq<int>)
    ensures |r| == |h|
    decreases |calls|
  {
    if calls == [] then h else SweepAll(Sweep(h, calls[0].at, calls[0].nb), calls[1..])
  }

  function SweptAll(h: seq<int>, calls: seq<Request>): seq<nat>
    decreases |calls|
  {
    if calls == [] then []
    else Swept(h, calls[0].at, calls[0].nb) + SweptAll(Sweep(h, calls[0].at, calls[0].nb), calls[1..])
  }

  lemma {:induction false} LiveOnce(h: seq<int>, at: nat, end: nat, p: nat)
    requires end <= |h|
    ensures multiset(Live(h, at, end))[p] == if at <= p < end && h[p] != DEAD then 1 else 0
    decreases end - at
  {
    if at < end { LiveOnce(h, at + 1, end, p); }
  }

  lemma SweptOnce(h: seq<int>, at: nat, nb: int, p: nat)
    ensures multiset(Swept(h, at, nb))[p] == if p < |h| && h[p] != DEAD && Sweep(h, at, nb)[p] == DEAD then 1 else 0
  {
    var live, swept := Live(h, at, |h|), Swept(h, at, nb);
    SweptAreFirstLive(h, at, nb);
    SweepClears(h, at, nb);
    LiveOnce(h, at, |h|, p);
    assert live == swept + live[|swept|..];
    assert multiset(live) == multiset(swept) + multiset(live[|swept|..]);
    assert p in swept <==> p in multiset(swept);
  }

  /** Over any mix of calls, range after range, release, rollback and retry: a handle is unmapped once if it was live and no longer is, and never otherwise. */
  lemma {:induction false} UnmappedAtMostOnce(h: seq<int>, calls: seq<Request>, p: nat)
    ensures multiset(SweptAll(h, calls))[p] == if p < |h| && h[p] != DEAD && SweepAll(h, calls)[p] == DEAD then 1 else 0
    ensures p < |h| ==> SweepAll(h, calls)[p] == h[p] || SweepAll(h, calls)[p] == DEAD
    decreases |calls|
  {
    if calls != [] {
      var at, nb := calls[0].at, calls[0].nb;
      SweptOnce(h, at, nb, p);
      SweepClears(h, at, nb);
      UnmappedAtMostOnce(Sweep(h, at, nb), calls[1..], p);
    }
  }

  /** A call for all pages leaves none live, so a retried free unmaps nothing. */
  lemma AllSwept(h: seq<int>)
    ensures AllDead(Sweep(h, 0, |h|), 0)
    ensures forall at: nat, nb: int :: Swept(Sweep(h, 0, |h|), at, nb) == []
  {
    var r := Sweep(h, 0, |h|);
    SweptAreFirstLive(h, 0, |h|);
    SweepClears(h, 0, |h|);
    forall p: nat | p < |h| ensures r[p] == DEAD { InLive(h, 0, |h|, p); }
    forall at: nat, nb: int ensures Swept(r, at, nb) == [] {
      SweptAreFirstLive(r, at, nb);
      NoneLive(r, at);
    }
  }
}
