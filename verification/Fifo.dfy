/**
  The data path as a state machine. Each side copies bytes with a private
  cursor, works from a snapshot of the other side's published cursor, and
  publishes its own cursor after a chunk. A step is one shared access:
  loading the peer's cursor, copying one byte, or storing the own cursor.
  (xen_shm_pipe.c:496-798)
 */
module Fifo {
  import opened Slots

  type byte = bv8

  /** The cells, with every cursor written as a position, and what has gone in and come out so far. */
  datatype State = State(
    n: nat,               // number of cells, buffer_size
    cells: seq<byte>,
    rPub: nat,            // what s->read says
    rLoc: nat,            // the reader's read_pos
    wSnap: nat,           // the reader's write_pos, a snapshot of s->write
    wPub: nat,            // what s->write says
    wLoc: nat,            // the writer's write_pos
    rSnap: nat,           // the snapshot of s->read that read_pos_reduced comes from
    sent: seq<byte>,      // bytes the writer copied in, in order
    delivered: seq<byte>  // bytes the reader copied out, in order
  )

  ghost predicate Cursors(s: State) {
    s.n >= 2 && s.rPub <= s.rLoc <= s.wSnap <= s.wPub <= s.wLoc <= s.rSnap + s.n - 1 && s.rSnap <= s.rPub
  }

  /** The cells in use hold the accepted bytes that the reader has not released yet. */
  ghost predicate Contents(s: State)
    requires s.n >= 2
  {
    && |s.cells| == s.n
    && |s.sent| == s.wLoc
    && (forall p: nat {:trigger s.sent[p]} :: s.rPub <= p < s.wLoc ==> s.cells[Slot(p, s.n)] == s.sent[p])
  }

  ghost predicate Inv(s: State) {
    && Cursors(s)
    && Contents(s)
    && s.rLoc <= |s.sent|
    && s.delivered == s.sent[..s.rLoc]
  }

  datatype Step =
    | ReaderSnap               // write_pos = s->buffer + sv->write
    | ReaderCopy               // *current_buf = *read_pos
    | ReaderPublish            // s->read = read_pos - s->buffer
    | WriterSnap               // read_pos_reduced from sv->read
    | WriterCopy(b: byte)      // *write_pos = *current_buf
    | WriterPublish            // s->write = write_pos - s->buffer
  {
    predicate ByReader() { ReaderSnap? || ReaderCopy? || ReaderPublish? }
  }

  /** A side copies only up to the bound it computed from its snapshot. */
  predicate Enabled(s: State, a: Step) {
    match a
    case ReaderCopy => s.rLoc < s.wSnap
    case WriterCopy(_) => s.wLoc + 1 < s.rSnap + s.n
    case _ => true
  }

  function Do(s: State, a: Step): State
    requires s.n > 0 && |s.cells| == s.n && Enabled(s, a)
  {
    match a
    case ReaderSnap => s.(wSnap := s.wPub)
    case ReaderCopy => s.(rLoc := s.rLoc + 1, delivered := s.delivered + [s.cells[Slot(s.rLoc, s.n)]])
    case ReaderPublish => s.(rPub := s.rLoc)
    case WriterSnap => s.(rSnap := s.rPub)
    case WriterCopy(b) =>
      s.(wLoc := s.wLoc + 1, cells := s.cells[Slot(s.wLoc, s.n) := b], sent := s.sent + [b])
    case WriterPublish => s.(wPub := s.wLoc)
  }

  function Init(n: nat, cells: seq<byte>): State {
    State(n, cells, 0, 0, 0, 0, 0, 0, [], [])
  }

  lemma InitInv(n: nat, cells: seq<byte>)
    requires n >= 2 && |cells| == n
    ensures Inv(Init(n, cells))
  {
  }

  /** A byte is stored only into a cell that no unread byte occupies. */
  lemma NoUnreadCellOverwritten(s: State, p: nat)
    requires Inv(s) && s.wLoc + 1 < s.rSnap + s.n && s.rPub <= p < s.wLoc
    ensures Slot(p, s.n) != Slot(s.wLoc, s.n)
  {
    SlotDistance(p, s.wLoc, s.n);
  }

  /** Every step of either side, from a snapshot however stale, keeps the cursors in order and the bytes in place. */
  lemma StepInv(s: State, a: Step)
    requires Inv(s) && Enabled(s, a)
    ensures Inv(Do(s, a))
  {
    var t := Do(s, a);
    match a
    case WriterCopy(b) =>
      forall p: nat | t.rPub <= p < t.wLoc ensures t.cells[Slot(p, t.n)] == t.sent[p] {
        if p < s.wLoc { NoUnreadCellOverwritten(s, p); }
      }
    case _ =>
  }

  /** k reader copies in a row: where they lead, and that they pick up the bytes next in line. */
  ghost function CopyOutMany(s: State, k: nat): (t: State)
    requires Inv(s) && s.rLoc + k <= s.wSnap
    ensures Inv(t) && t == s.(rLoc := s.rLoc + k, delivered := s.sent[..s.rLoc + k])
    decreases k
  {
    if k == 0 then s else
      StepInv(s, ReaderCopy);
      CopyOutMany(Do(s, ReaderCopy), k - 1)
  }

  /** The writer copying the bytes of data in one after the other. */
  ghost function CopyInMany(s: State, data: seq<byte>): (t: State)
    requires Inv(s) && s.wLoc + |data| < s.rSnap + s.n
    ensures Inv(t) && t == s.(wLoc := s.wLoc + |data|, cells := t.cells, sent := t.sent)
    decreases |data|
  {
    if data == [] then s else
      var t := CopyInMany(s, data[..|data| - 1]);
      StepInv(t, WriterCopy(data[|data| - 1]));
      Do(t, WriterCopy(data[|data| - 1]))
  }

  /** The state after a store of several bytes at once, where the free cells do not wrap. */
  function WideStored(s: State, data: seq<byte>): State
    requires s.n > 0 && |s.cells| == s.n && Slot(s.wLoc, s.n) + |data| <= s.n
  {
    var c := Slot(s.wLoc, s.n);
    s.(wLoc := s.wLoc + |data|, cells := s.cells[..c] + data + s.cells[c + |data|..], sent := s.sent + data)
  }

  /** A store of several bytes at once is as good as the byte stores it stands for. */
  lemma {:induction false} StraightCopyIn(s: State, data: seq<byte>)
    requires Inv(s) && s.wLoc + |data| < s.rSnap + s.n && Slot(s.wLoc, s.n) + |data| <= s.n
    ensures CopyInMany(s, data) == WideStored(s, data)
    decreases |data|
  {
    if data == [] {
      var c := Slot(s.wLoc, s.n);
      assert s.cells[..c] + data + s.cells[c..] == s.cells;
      assert s.sent + data == s.sent;
    } else {
      StraightCopyIn(s, data[..|data| - 1]);
      StraightCopyInLast(s, data);
    }
  }

  lemma WideStoredInv(s: State, data: seq<byte>)
    requires Inv(s) && s.wLoc + |data| < s.rSnap + s.n && Slot(s.wLoc, s.n) + |data| <= s.n
    ensures Inv(WideStored(s, data))
  {
    var t := CopyInMany(s, data);
    assert Inv(t);
    StraightCopyIn(s, data);
  }

  lemma StoreWide(s: State, data: seq<byte>) returns (t: State)
    requires Inv(s) && s.wLoc + |data| < s.rSnap + s.n && Slot(s.wLoc, s.n) + |data| <= s.n
    ensures Inv(t) && t == s.(wLoc := s.wLoc + |data|, cells := t.cells, sent := s.sent + data)
    ensures var c := Slot(s.wLoc, s.n);
      && t.cells == s.cells[..c] + data + s.cells[c + |data|..]
      && Slot(t.wLoc, t.n) == if c + |data| == s.n then 0 else c + |data|
  {
    t := WideStored(s, data);
    WideStoredInv(s, data);
    assert Slot(t.wLoc, t.n) == var c := Slot(s.wLoc, s.n); if c + |data| == s.n then 0 else c + |data| by {
      SlotDistance(s.wLoc, s.wLoc + |data|, s.n);
    }
  }

  lemma StraightCopyInLast(s: State, data: seq<byte>)
    requires data != [] && s.n > 0 && |s.cells| == s.n
    requires s.wLoc + |data| < s.rSnap + s.n && Slot(s.wLoc, s.n) + |data| <= s.n
    ensures Do(WideStored(s, data[..|data| - 1]), WriterCopy(data[|data| - 1])) == WideStored(s, data)
  {
    var t := WideStored(s, data[..|data| - 1]);
    SlotDistance(s.wLoc, t.wLoc, s.n);
    CopiedCell(s.cells, Slot(s.wLoc, s.n), data, t.cells);
    assert data[..|data| - 1] + [data[|data| - 1]] == data;
  }

  lemma CopiedCell(cells: seq<byte>, c: nat, data: seq<byte>, t: seq<byte>)
    requires data != [] && c + |data| <= |cells|
    requires t == cells[..c] + data[..|data| - 1] + cells[c + |data| - 1..]
    ensures t[c + |data| - 1 := data[|data| - 1]] == cells[..c] + data + cells[c + |data|..]
  {
  }

  /** Where the occupied cells do not wrap, they are a slice of what was sent. */
  lemma {:induction false} StraightCells(s: State, p: nat, k: nat)
    requires Inv(s) && s.rPub <= p && p + k <= s.wLoc && Slot(p, s.n) + k <= s.n
    ensures s.cells[Slot(p, s.n)..Slot(p, s.n) + k] == s.sent[p..p + k]
  {
    if k > 0 {
      StraightCells(s, p, k - 1);
      SlotDistance(p, p + k - 1, s.n);
      var c := Slot(p, s.n);
      assert s.cells[c..c + k] == s.cells[c..c + k - 1] + [s.cells[c + k - 1]];
      assert s.sent[p..p + k] == s.sent[p..p + k - 1] + [s.sent[p + k - 1]];
    }
  }

  /** A schedule: steps of both sides in any order, each enabled when it is taken. */
  ghost predicate Feasible(s: State, run: seq<Step>)
    decreases |run|
  {
    run == [] || (s.n > 0 && |s.cells| == s.n && Enabled(s, run[0]) && Feasible(Do(s, run[0]), run[1..]))
  }

  ghost function After(s: State, run: seq<Step>): State
    requires Feasible(s, run)
    decreases |run|
  {
    if run == [] then s else After(Do(s, run[0]), run[1..])
  }

  /** What the reader may count on while only the writer moves. */
  ghost predicate WriterMoved(s: State, t: State) {
    && t.n == s.n && t.rPub == s.rPub && t.rLoc == s.rLoc && t.wSnap == s.wSnap && t.delivered == s.delivered
    && s.wPub <= t.wPub && s.sent <= t.sent
  }

  /** What the writer may count on while only the reader moves. */
  ghost predicate ReaderMoved(s: State, t: State) {
    && t.n == s.n && t.wPub == s.wPub && t.wLoc == s.wLoc && t.rSnap == s.rSnap && t.sent == s.sent
    && t.cells == s.cells && s.rPub <= t.rPub && s.delivered <= t.delivered
  }

  lemma {:induction false} RunInv(s: State, run: seq<Step>)
    requires Inv(s) && Feasible(s, run)
    ensures Inv(After(s, run))
    decreases |run|
  {
    if run != [] {
      StepInv(s, run[0]);
      RunInv(Do(s, run[0]), run[1..]);
    }
  }

  /** Any number of writer steps leave the reader's side alone and only add published bytes. */
  lemma {:induction false} WriterRun(s: State, run: seq<Step>)
    requires Inv(s) && Feasible(s, run)
    requires forall i :: 0 <= i < |run| ==> !run[i].ByReader()
    ensures Inv(After(s, run)) && WriterMoved(s, After(s, run))
    decreases |run|
  {
    if run != [] {
      StepInv(s, run[0]);
      WriterRun(Do(s, run[0]), run[1..]);
    }
  }

  /** Any number of reader steps leave the cells and the writer's side alone and only free space. */
  lemma {:induction false} ReaderRun(s: State, run: seq<Step>)
    requires Inv(s) && Feasible(s, run)
    requires forall i :: 0 <= i < |run| ==> run[i].ByReader()
    ensures Inv(After(s, run)) && ReaderMoved(s, After(s, run))
    decreases |run|
  {
    if run != [] {
      StepInv(s, run[0]);
      ReaderRun(Do(s, run[0]), run[1..]);
    }
  }

  /** FIFO under every schedule: what came out is the beginning of what went in, and what is in transit is still there. */
  lemma FifoUnderAnySchedule(n: nat, cells: seq<byte>, run: seq<Step>)
    requires n >= 2 && |cells| == n && Feasible(Init(n, cells), run)
    ensures var s := After(Init(n, cells), run);
      && s.delivered <= s.sent
      && |s.delivered| <= s.wPub <= |s.sent|
      && |s.sent| - s.rPub < s.n == |s.cells|
      && (forall p: nat :: s.rPub <= p < |s.sent| ==> s.cells[Slot(p, s.n)] == s.sent[p])
  {
    InitInv(n, cells);
    RunInv(Init(n, cells), run);
    var s := After(Init(n, cells), run);
    assert s.n == n by { SizeKept(Init(n, cells), run); }
  }

  lemma {:induction false} SizeKept(s: State, run: seq<Step>)
    requires Feasible(s, run)
    ensures After(s, run).n == s.n
    decreases |run|
  {
    if run != [] { SizeKept(Do(s, run[0]), run[1..]); }
  }

  /** Partial transfers, put together. */
  function Joined(pieces: seq<seq<byte>>): seq<byte> {
    if pieces == [] then [] else pieces[0] + Joined(pieces[1..])
  }

  lemma {:induction false} JoinedOn(pieces: seq<seq<byte>>, piece: seq<byte>)
    ensures Joined(pieces + [piece]) == Joined(pieces) + piece
    decreases |pieces|
  {
    if pieces == [] {
      assert [piece][1..] == [];
    } else {
      assert (pieces + [piece])[1..] == pieces[1..] + [piece];
      JoinedOn(pieces[1..], piece);
    }
  }

  /**
    However a stream is split into writes on the one side and into reads on the other, the reads put together
    are the beginning of the writes put together, and begin with all of them once as many bytes have been read.
    `early` was read before those reads, and `more` written after those writes.
   */
  lemma SplitsDoNotMatter(s: State, t: State, puts: seq<seq<byte>>, more: seq<byte>, early: seq<byte>, gots: seq<seq<byte>>)
    requires Inv(t) && s.delivered == s.sent
    requires t.sent == s.sent + Joined(puts) + more && t.delivered == s.delivered + early + Joined(gots)
    ensures early + Joined(gots) <= Joined(puts) + more
    ensures |early + Joined(gots)| >= |Joined(puts)| ==> Joined(puts) <= early + Joined(gots)
  {
    var put, got, k := Joined(puts) + more, early + Joined(gots), |s.sent|;
    assert t.delivered <= t.sent && t.delivered == s.delivered + got && t.sent == s.sent + put;
    forall i | 0 <= i < |got| ensures got[i] == put[i] {
      assert t.delivered[k + i] == got[i] && t.sent[k + i] == put[i];
    }
    if |got| >= |Joined(puts)| {
      forall i | 0 <= i < |Joined(puts)| ensures Joined(puts)[i] == got[i] { assert put[i] == Joined(puts)[i]; }
    }
  }
}
