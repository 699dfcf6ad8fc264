/**
  The copy loops of the pipe, in place on the shared buffer. Addresses are
  integers, so that the choice between byte and 64-bit copies can be followed.
  Between any two shared accesses the other domain takes any number of steps.
  (xen_shm_pipe.c:496-927)
 */
module DataPath {
  import opened Slots
  import Fifo

  type byte = Fifo.byte

  const FAST_CHECK_INTERVAL := 128

  function Min(a: int, b: int): int { if a < b then a else b }

  function Max0(a: int): nat { if a < 0 then 0 else a }

  /** The state t after the reader copied k bytes out of s while the writer moved freely. */
  ghost predicate CopiedOut(s: Fifo.State, t: Fifo.State, k: nat) {
    && t.n == s.n && t.rPub == s.rPub && t.wSnap == s.wSnap && t.rLoc == s.rLoc + k
    && s.wPub <= t.wPub && s.sent <= t.sent
  }

  /** The state t after the writer copied k bytes into s while the reader moved freely. */
  ghost predicate CopiedIn(s: Fifo.State, t: Fifo.State, k: nat) {
    && t.n == s.n && t.wPub == s.wPub && t.rSnap == s.rSnap && t.wLoc == s.wLoc + k
    && s.rPub <= t.rPub && s.delivered <= t.delivered
  }

  /** One look at the peer's SLEEPING flag: the side's position, what of it was published, and what it saw. */
  datatype Look = Look(at: nat, published: nat, sleeping: bool)

  /** How far a transfer may get from a look before the next: the first look, on entry, decides between two intervals. */
  function Reach(looks: seq<Look>, k: nat, interval: nat): nat
    requires k < |looks|
  {
    if k > 0 then interval + 7 else if looks[0].sleeping then FAST_CHECK_INTERVAL else interval
  }

  /** The looks of one transfer, which has come to position `at`: none is further from the one before than that allows. */
  ghost predicate Paced(looks: seq<Look>, at: nat, interval: nat) {
    && |looks| > 0
    && (forall k :: 0 < k < |looks| ==> looks[k - 1].at <= looks[k].at <= looks[k - 1].at + Reach(looks, k - 1, interval))
    && looks[|looks| - 1].at <= at <= NextLook(looks, interval)
  }

  /** Where the next look is due at the latest. */
  function NextLook(looks: seq<Look>, interval: nat): nat
    requires |looks| > 0
  {
    looks[|looks| - 1].at + Reach(looks, |looks| - 1, interval)
  }

  lemma PacedOn(looks: seq<Look>, at: nat, next: nat, interval: nat, l: Look)
    requires Paced(looks, at, interval) && at <= next <= NextLook(looks, interval)
    ensures Paced(looks, next, interval)
    ensures l.at == next ==> Paced(looks + [l], next, interval) && NextLook(looks + [l], interval) == next + interval + 7
  {
  }

  /** Where the looks saw the peer sleeping. */
  function Sightings(looks: seq<Look>): seq<nat> {
    if looks == [] then []
    else Sightings(looks[..|looks| - 1]) + if looks[|looks| - 1].sleeping then [looks[|looks| - 1].at] else []
  }

  /** Between two moments each look that saw the peer sleeping was answered by one signal, at its place. */
  ghost predicate Answered(looks0: seq<Look>, signals0: seq<nat>, looks: seq<Look>, signals: seq<nat>) {
    looks0 <= looks && signals == signals0 + Sightings(looks[|looks0|..])
  }

  lemma {:induction false} SightingsJoin(a: seq<Look>, b: seq<Look>)
    ensures Sightings(a + b) == Sightings(a) + Sightings(b)
    decreases |b|
  {
    if b == [] {
      assert a + b == a;
    } else {
      assert (a + b)[..|a + b| - 1] == a + b[..|b| - 1];
      SightingsJoin(a, b[..|b| - 1]);
    }
  }

  lemma TailJoins(a: seq<Look>, b: seq<Look>, n: nat)
    requires n <= |a|
    ensures (a + b)[n..] == a[n..] + b
  {
  }

  lemma AnsweredOn(l0: seq<Look>, s0: seq<nat>, l1: seq<Look>, s1: seq<nat>, l2: seq<Look>, s2: seq<nat>)
    requires Answered(l0, s0, l1, s1) && Answered(l1, s1, l2, s2)
    ensures Answered(l0, s0, l2, s2)
  {
    var b := l2[|l1|..];
    assert l2 == l1 + b by { assert l2[..|l1|] == l1; }
    TailJoins(l1, b, |l0|);
    SightingsJoin(l1[|l0|..], b);
  }

  /** What a list of results adds up to. */
  function Total(results: seq<int>): int {
    if results == [] then 0 else Total(results[..|results| - 1]) + results[|results| - 1]
  }

  /** A read request: the user's buffer as it was, where in it the answer begins, and position minus index. */
  datatype Job = Job(was: seq<byte>, from: nat, start: int)

  /** b is what the buffer was, with its positions up to k replaced by bytes of src. */
  ghost predicate Filled(b: seq<byte>, job: Job, k: nat, src: seq<byte>) {
    && |b| == |job.was| && job.from <= k <= |b| && 0 <= job.start + job.from && job.start + k <= |src|
    && (forall i {:trigger b[i]} :: 0 <= i < |b| ==> b[i] == if job.from <= i < k then src[job.start + i] else job.was[i])
  }

  lemma FilledOn(b1: seq<byte>, b2: seq<byte>, job: Job, k: nat, src1: seq<byte>, src2: seq<byte>, data: seq<byte>)
    requires Filled(b1, job, k, src1) && src1 <= src2
    requires k + |data| <= |b1| && job.start + k + |data| <= |src2|
    requires data == src2[job.start + k..job.start + k + |data|]
    requires b2 == b1[..k] + data + b1[k + |data|..]
    ensures Filled(b2, job, k + |data|, src2)
  {
  }

  lemma FilledParts(b: seq<byte>, job: Job, k: nat, src: seq<byte>)
    requires Filled(b, job, k, src)
    ensures b[..job.from] == job.was[..job.from] && b[k..] == job.was[k..]
    ensures b[job.from..k] == src[job.start + job.from..job.start + k]
  {
  }

  lemma BufferRead(b: seq<byte>, job: Job, count: nat, src: seq<byte>)
    requires Filled(b, job, job.from + count, src)
    ensures b[..job.from] == job.was[..job.from] && b[job.from + count..] == job.was[job.from + count..]
    ensures b[job.from..job.from + count] == src[job.start + job.from..job.start + job.from + count]
  {
    FilledParts(b, job, job.from + count, src);
  }

  lemma FilledLater(b: seq<byte>, job: Job, k: nat, src1: seq<byte>, src2: seq<byte>)
    requires Filled(b, job, k, src1) && src1 <= src2
    ensures Filled(b, job, k, src2)
  {
  }

  /** Where the slow copy that aligns the pointers stops. */
  function AlignUp(a: nat): (r: nat)
    ensures a <= r <= a + 7 && r % 8 == 0
  {
    a + (8 - a % 8) % 8
  }

  /** min_max_buf64, the last word boundary of the chunk. */
  function AlignDown(a: nat): (r: nat)
    ensures r <= a <= r + 7 && r % 8 == 0
  {
    a - a % 8
  }

  lemma NextWord(cur: nat, pos: nat, until: nat)
    requires cur % 8 == 0 && pos % 8 == 0 && until % 8 == 0 && cur < until
    ensures cur + 8 <= until && (cur + 8) % 8 == 0 && (pos + 8) % 8 == 0
  {
  }

  lemma SameResidue(a: nat, b: nat, k: nat)
    requires a % 8 == b % 8
    ensures (a + k) % 8 == (b + k) % 8
  {
  }

  /** A piece read after the first `done` bytes, and the rest untouched. */
  lemma PieceRead(was: seq<byte>, before: seq<byte>, b: seq<byte>, done: nat, got: nat)
    requires |was| == |before| == |b| && done + got <= |b|
    requires before[done..] == was[done..] && b[done + got..] == before[done + got..]
    ensures b[..done] + b[done..done + got] == b[..done + got] && b[done + got..] == was[done + got..]
  {
    assert before[done + got..] == before[done..][got..] && was[done + got..] == was[done..][got..];
  }

  class Shared {
    const buffer: array<byte>
    const bufferAddr: nat          // address of s->buffer
    const checkInterval: nat       // wait_check_interval
    var read: nat                  // s->read
    var write: nat                 // s->write
    var readerAt: nat              // cell of the reader's private cursor
    var readerSees: nat            // the reader's snapshot of write
    var writerAt: nat              // cell of the writer's private cursor
    var writerSees: nat            // the writer's snapshot of read
    var readerClosed: bool         // the CLOSED bits
    var writerClosed: bool
    ghost var fifo: Fifo.State
    ghost var looks: seq<Look>     // every look at the peer's SLEEPING bit
    ghost var signals: seq<nat>    // the position at which each signal was sent
    ghost var results: seq<int>    // what each read and each write returned

    ghost predicate Layout() {
      && bufferAddr % 8 == 0
      && buffer.Length % 8 == 0
      && buffer.Length >= 4096 - 16
      && checkInterval == buffer.Length / 4
    }

    ghost predicate Valid()
      reads this, buffer
    {
      var whole :=
        && Layout()
        && Fifo.Inv(fifo)
        && fifo.n == buffer.Length
        && fifo.cells == buffer[..]
        && read == Slot(fifo.rPub, fifo.n) && write == Slot(fifo.wPub, fifo.n)
        && readerAt == Slot(fifo.rLoc, fifo.n) && readerSees == Slot(fifo.wSnap, fifo.n)
        && writerAt == Slot(fifo.wLoc, fifo.n) && writerSees == Slot(fifo.rSnap, fifo.n)
        && (writerClosed ==> fifo.wLoc == fifo.wPub);
      whole
    }

    /** The size set-up in offers and connect, on the page-aligned area that mmap returned. */
    constructor (pages: nat, area: nat)
      requires 0 < pages && area % 4096 == 0
      ensures Valid() && fresh(buffer)
      ensures buffer.Length == pages * 4096 - 16 && bufferAddr == area + 16
      ensures fifo.rPub == fifo.rLoc == fifo.wPub == fifo.wLoc == 0 && !readerClosed && !writerClosed
    {
      var size := pages * 4096 - 16;
      buffer := new byte[size];
      bufferAddr := area + 16;
      checkInterval := size / 4;
      read, write, readerClosed, writerClosed := 0, 0, false, false;
      readerAt, readerSees, writerAt, writerSees := 0, 0, 0, 0;
      looks, signals, results := [], [], [];
      new;
      fifo := Fifo.Init(buffer.Length, buffer[..]);
    }

    /** The cell k cells further on, where the run up to it does not wrap. */
    function Advanced(cell: nat, k: nat): nat {
      if cell + k == buffer.Length then 0 else cell + k
    }

    /** read_pos_reduced: the cell before the given one. */
    function Reduced(cell: nat): int {
      if cell == 0 then buffer.Length - 1 else cell - 1
    }

    /** Where the side that looks stands, and what it has published. */
    ghost function Here(reading: bool): nat
      reads `fifo
    {
      if reading then fifo.rLoc else fifo.wLoc
    }

    ghost function Published(reading: bool): nat
      reads `fifo
    {
      if reading then fifo.rPub else fifo.wPub
    }

    /** Load the peer's flags and look at SLEEPING. */
    method PeerSleeping(reading: bool) returns (sleeping: bool)
      modifies `looks
      ensures looks == old(looks) + [Look(Here(reading), Published(reading), sleeping)]
    {
      sleeping := *;
      looks := looks + [Look(Here(reading), Published(reading), sleeping)];
    }

    method SendSignal(reading: bool)
      modifies `signals
      ensures signals == old(signals) + [Here(reading)]
    {
      signals := signals + [Here(reading)];
    }

    method SignalIfSleeping(reading: bool)
      modifies `looks, `signals
      ensures |looks| == |old(looks)| + 1 && looks[|old(looks)|].at == Here(reading) && looks[|old(looks)|].published == Published(reading)
      ensures Answered(old(looks), old(signals), looks, signals)
    {
      var sleeping := PeerSleeping(reading);
      if sleeping { SendSignal(reading); }
      assert looks[|old(looks)|..][..0] == [];
    }

    /** The least of the three bounds, and whether it is the granularity one. */
    method ChunkBound(cur: nat, circMax: nat, usrMax: nat, granMax: nat) returns (minMax: nat, granCheck: bool)
      requires cur < circMax && cur < usrMax && cur < granMax
      ensures cur < minMax <= circMax && minMax <= usrMax && minMax <= granMax
      ensures minMax in {circMax, usrMax, granMax} && (granCheck <==> granMax < circMax && granMax < usrMax)
    {
      minMax, granCheck := circMax, false;
      if minMax > usrMax { minMax := usrMax; }
      if minMax > granMax { granCheck, minMax := true, granMax; }
    }

    /**
      The check for a sleeping peer after a chunk, when it is due: a sleeping peer gets a signal and the bound moves on.
      The transfer's own looks begin at `mark`, it stood at position `was`, and `due0` is the position of the bound.
     */
    method CheckPeer(reading: bool, due: bool, granMax0: nat, ghost mark: nat, ghost was: nat, ghost due0: nat)
      returns (granMax: nat, ghost due1: nat)
      requires mark <= |looks| && Paced(looks[mark..], was, checkInterval)
      requires was <= Here(reading) <= due0 <= NextLook(looks[mark..], checkInterval)
      requires if due then due0 <= Here(reading) + 7 else Here(reading) < due0
      requires checkInterval > 7
      modifies `looks, `signals
      ensures mark <= |looks| && Paced(looks[mark..], Here(reading), checkInterval)
      ensures Here(reading) < due1 <= NextLook(looks[mark..], checkInterval) && granMax - granMax0 == due1 - due0
      ensures |looks| == |old(looks)| + if due then 1 else 0
      ensures Answered(old(looks), old(signals), looks, signals)
    {
      granMax, due1 := granMax0, due0;
      if due {
        ghost var looks0 := looks;
        SignalIfSleeping(reading);
        granMax, due1 := granMax + checkInterval, due1 + checkInterval;
        assert looks[mark..] == looks0[mark..] + [looks[|looks0|]];
        PacedOn(looks0[mark..], was, Here(reading), checkInterval, looks[|looks0|]);
      } else {
        PacedOn(looks[mark..], was, Here(reading), checkInterval, Look(0, 0, false));
        assert looks[|looks|..] == [];
      }
    }

    // ----- the writer, as the reader finds it -----

    method WriterLoadsRead()
      requires Valid()
      modifies `writerSees, `fifo
      ensures Valid() && Fifo.WriterMoved(old(fifo), fifo) && fifo.sent == old(fifo.sent) && fifo.wPub == old(fifo.wPub)
    {
      writerSees := read;
      fifo := Fifo.Do(fifo, Fifo.WriterSnap);
    }

    method WriterPublishes()
      requires Valid()
      modifies `write, `fifo
      ensures Valid() && Fifo.WriterMoved(old(fifo), fifo) && fifo.sent == old(fifo.sent) && fifo.wPub == old(fifo.wLoc)
    {
      write := writerAt;
      fifo := Fifo.Do(fifo, Fifo.WriterPublish);
    }

    method WriterCloses()
      requires Valid() && fifo.wLoc == fifo.wPub
      modifies `writerClosed
      ensures Valid() && writerClosed
    {
      writerClosed := true;
    }

    method WriterStores(b: byte)
      requires Valid() && !writerClosed && Advanced(writerAt, 1) != writerSees
      modifies `writerAt, `fifo, buffer
      ensures Valid() && Fifo.WriterMoved(old(fifo), fifo)
    {
      FullTest(fifo.rSnap, fifo.wLoc, fifo.n);
      Fifo.StepInv(fifo, Fifo.WriterCopy(b));
      fifo := Fifo.Do(fifo, Fifo.WriterCopy(b));
      buffer[writerAt] := b;
      writerAt := Advanced(writerAt, 1);
    }

    /** Any number of writer steps. A writer that has closed sends nothing more. */
    method WriterMoves()
      requires Valid()
      modifies `write, `writerAt, `writerSees, `writerClosed, `fifo, buffer
      ensures Valid() && Fifo.WriterMoved(old(fifo), fifo)
      ensures old(writerClosed) ==> writerClosed && fifo.sent == old(fifo.sent) && fifo.wPub == old(fifo.wPub)
    {
      var steps: nat := *;
      while steps > 0
        invariant Valid() && Fifo.WriterMoved(old(fifo), fifo)
        invariant old(writerClosed) ==> writerClosed && fifo.sent == old(fifo.sent) && fifo.wPub == old(fifo.wPub)
      {
        var choice: int, b: byte := *, *;
        if choice == 0 {
          WriterLoadsRead();
        } else if choice == 1 {
          WriterPublishes();
        } else if choice == 2 && writerAt == write {
          EmptyTest(fifo.wPub, fifo.wLoc, fifo.n);
          WriterCloses();
        } else if !writerClosed && Advanced(writerAt, 1) != writerSees {
          WriterStores(b);
        }
        steps := steps - 1;
      }
    }

    // ----- reading -----

    method LoadWrite() returns (w: nat)
      requires Valid()
      modifies `write, `writerAt, `writerSees, `writerClosed, `readerSees, `fifo, buffer
      ensures Valid() && w == readerSees && old(fifo.wPub) <= fifo.wSnap
      ensures CopiedOut(old(fifo), fifo.(wSnap := old(fifo.wSnap)), 0)
    {
      WriterMoves();
      w := write;
      readerSees := write;
      fifo := Fifo.Do(fifo, Fifo.ReaderSnap);
    }

    method PublishRead(cursor: nat)
      requires Valid() && cursor == readerAt
      modifies `read, `write, `writerAt, `writerSees, `writerClosed, `fifo, buffer
      ensures Valid() && fifo.rPub == fifo.rLoc
      ensures CopiedOut(old(fifo), fifo.(rPub := old(fifo.rPub)), 0)
    {
      WriterMoves();
      read := cursor;
      fifo := Fifo.Do(fifo, Fifo.ReaderPublish);
    }

    /** One load from the shared buffer: a byte, or an aligned word of eight. */
    method Load(pos: nat, width: nat) returns (data: seq<byte>)
      requires Valid() && (width == 1 || (width == 8 && pos % 8 == 0))
      requires pos - bufferAddr == readerAt && readerAt + width <= buffer.Length
      requires fifo.rLoc + width <= fifo.wSnap
      modifies `write, `writerAt, `writerSees, `writerClosed, `readerAt, `fifo, buffer
      ensures Valid() && CopiedOut(old(fifo), fifo, width)
      ensures readerAt == Advanced(old(readerAt), width)
      ensures data == fifo.sent[old(fifo.rLoc)..old(fifo.rLoc) + width]
    {
      WriterMoves();
      data := LoadNow(pos, width);
    }

    method LoadNow(pos: nat, width: nat) returns (data: seq<byte>)
      requires Valid() && pos - bufferAddr == readerAt && readerAt + width <= buffer.Length
      requires fifo.rLoc + width <= fifo.wSnap
      modifies `readerAt, `fifo
      ensures Valid() && CopiedOut(old(fifo), fifo, width) && fifo.sent == old(fifo.sent)
      ensures readerAt == Advanced(old(readerAt), width)
      ensures data == fifo.sent[old(fifo.rLoc)..old(fifo.rLoc) + width]
    {
      data := buffer[pos - bufferAddr..pos - bufferAddr + width];
      assert data == buffer[..][readerAt..readerAt + width];
      Fifo.StraightCells(fifo, fifo.rLoc, width);
      SlotDistance(fifo.rLoc, fifo.rLoc + width, fifo.n);
      fifo := Fifo.CopyOutMany(fifo, width);
      readerAt := Advanced(readerAt, width);
    }

    /** Where the reader stands: the user's buffer is filled up to index `at` with the bytes in order. */
    ghost predicate Reading(buf: array<byte>, job: Job, at: nat)
      reads this, buf
    {
      fifo.rLoc == job.start + at && Filled(buf[..], job, at, fifo.sent)
    }

    /** One pass of a copy loop: *current_buf = *read_pos, for a byte or a word, aligned at both ends. */
    method CopyOutOnce(buf: array<byte>, base: nat, at: nat, pos: nat, width: nat, ghost job: Job)
      requires Valid() && buf != buffer
      requires width == 1 || (width == 8 && pos % 8 == 0 && (base + at) % 8 == 0)
      requires pos - bufferAddr == readerAt && readerAt + width <= buffer.Length
      requires fifo.rLoc + width <= fifo.wSnap && at + width <= buf.Length
      requires Reading(buf, job, at)
      modifies `write, `writerAt, `writerSees, `writerClosed, `readerAt, `fifo, buffer, buf
      ensures Valid() && CopiedOut(old(fifo), fifo, width)
      ensures readerAt == Advanced(old(readerAt), width)
      ensures Reading(buf, job, at + width)
    {
      ghost var b1, sent := buf[..], fifo.sent;
      var data := Load(pos, width);
      forall k | at <= k < at + width {
        buf[k] := data[k - at];
      }
      FilledOn(b1, buf[..], job, at, sent, fifo.sent, data);
    }

    /** The chunk from pos to the bound lies in the readable cells, without wrapping, and in the user's buffer. */
    ghost predicate ReadRoom(buf: array<byte>, base: nat, cur: nat, pos: nat, until: nat)
      reads this
    {
      && buf != buffer && base <= cur <= until <= base + buf.Length
      && (cur < until ==> pos - bufferAddr == readerAt)
      && readerAt + (until - cur) <= buffer.Length
      && fifo.rLoc + (until - cur) <= fifo.wSnap
    }

    /** A byte loop. */
    method CopyBytesOut(buf: array<byte>, base: nat, cur0: nat, pos0: nat, until: nat, ghost job: Job)
      returns (cur: nat, pos: nat)
      requires Valid() && ReadRoom(buf, base, cur0, pos0, until)
      requires Reading(buf, job, cur0 - base)
      modifies `write, `writerAt, `writerSees, `writerClosed, `readerAt, `fifo, buffer, buf
      ensures Valid() && CopiedOut(old(fifo), fifo, until - cur0)
      ensures cur == until && pos == pos0 + (until - cur0)
      ensures readerAt == Advanced(old(readerAt), until - cur0)
      ensures Reading(buf, job, until - base)
    {
      cur, pos := cur0, pos0;
      while cur != until
        invariant Valid() && cur0 <= cur <= until && pos - pos0 == cur - cur0
        invariant CopiedOut(old(fifo), fifo, cur - cur0)
        invariant readerAt == Advanced(old(readerAt), cur - cur0)
        invariant Reading(buf, job, cur - base)
        decreases until - cur
      {
        CopyOutOnce(buf, base, cur - base, pos, 1, job);
        cur, pos := cur + 1, pos + 1;
      }
    }

    /** The 64-bit loop: it ends because both ends are multiples of eight. */
    method CopyWordsOut(buf: array<byte>, base: nat, cur0: nat, pos0: nat, until: nat, ghost job: Job)
      returns (cur: nat, pos: nat)
      requires Valid() && ReadRoom(buf, base, cur0, pos0, until)
      requires cur0 % 8 == 0 && pos0 % 8 == 0 && until % 8 == 0
      requires Reading(buf, job, cur0 - base)
      modifies `write, `writerAt, `writerSees, `writerClosed, `readerAt, `fifo, buffer, buf
      ensures Valid() && CopiedOut(old(fifo), fifo, until - cur0)
      ensures cur == until && pos == pos0 + (until - cur0)
      ensures readerAt == Advanced(old(readerAt), until - cur0)
      ensures Reading(buf, job, until - base)
    {
      cur, pos := cur0, pos0;
      while cur != until
        invariant Valid() && cur0 <= cur <= until && pos - pos0 == cur - cur0
        invariant cur % 8 == 0 && pos % 8 == 0
        invariant CopiedOut(old(fifo), fifo, cur - cur0)
        invariant readerAt == Advanced(old(readerAt), cur - cur0)
        invariant Reading(buf, job, cur - base)
        decreases until - cur
      {
        NextWord(cur, pos, until);
        CopyOutOnce(buf, base, cur - base, pos, 8, job);
        cur, pos := cur + 8, pos + 8;
      }
    }

    /** From a word boundary on: words, then the rest in bytes unless a check is due. */
    method CopyFromBoundaryOut(buf: array<byte>, base: nat, cur0: nat, pos0: nat, minMax: nat, granCheck: bool, ghost job: Job)
      returns (cur: nat, pos: nat, aligned: bool)
      requires Valid() && ReadRoom(buf, base, cur0, pos0, minMax)
      requires cur0 % 8 == 0 && pos0 % 8 == 0 && cur0 + 8 < minMax
      requires Reading(buf, job, cur0 - base)
      modifies `write, `writerAt, `writerSees, `writerClosed, `readerAt, `fifo, buffer, buf
      ensures Valid() && cur0 < cur <= minMax && pos == pos0 + (cur - cur0)
      ensures CopiedOut(old(fifo), fifo, cur - cur0)
      ensures cur == minMax || (granCheck && minMax <= cur + 7)
      ensures aligned ==> cur % 8 == 0 && pos % 8 == 0
      ensures readerAt == Advanced(old(readerAt), cur - cur0)
      ensures Reading(buf, job, cur - base)
    {
      SameResidue(cur0, pos0, AlignDown(minMax) - cur0);
      cur, pos := CopyWordsOut(buf, base, cur0, pos0, AlignDown(minMax), job);
      aligned := true;
      if !granCheck && cur != minMax {
        aligned := false;
        cur, pos := CopyBytesOut(buf, base, cur, pos, minMax, job);
      }
    }

    /** The copy in words, after the bytes up to a word boundary. */
    method CopyAlignedOut(buf: array<byte>, base: nat, cur0: nat, pos0: nat, minMax: nat,
                        granCheck: bool, wasAligned: bool, ghost job: Job)
      returns (cur: nat, pos: nat, aligned: bool)
      requires Valid() && ReadRoom(buf, base, cur0, pos0, minMax)
      requires wasAligned ==> cur0 % 8 == 0 && pos0 % 8 == 0
      requires cur0 % 8 == pos0 % 8 && minMax - cur0 > 24
      requires Reading(buf, job, cur0 - base)
      modifies `write, `writerAt, `writerSees, `writerClosed, `readerAt, `fifo, buffer, buf
      ensures Valid() && cur0 < cur <= minMax && pos == pos0 + (cur - cur0)
      ensures CopiedOut(old(fifo), fifo, cur - cur0)
      ensures cur == minMax || (granCheck && minMax <= cur + 7)
      ensures aligned ==> cur % 8 == 0 && pos % 8 == 0
      ensures readerAt == Advanced(old(readerAt), cur - cur0)
      ensures Reading(buf, job, cur - base)
    {
      cur, pos := cur0, pos0;
      if !wasAligned {
        SameResidue(cur, pos, AlignUp(cur) - cur);
        cur, pos := CopyBytesOut(buf, base, cur, pos, AlignUp(cur), job);
      }
      cur, pos, aligned := CopyFromBoundaryOut(buf, base, cur, pos, minMax, granCheck, job);
    }

    /** One chunk: words where both pointers allow it and the chunk is long enough, bytes otherwise. */
    method CopyChunkOut(buf: array<byte>, base: nat, cur0: nat, pos0: nat, minMax: nat,
                        granCheck: bool, wasAligned: bool, ghost job: Job)
      returns (cur: nat, pos: nat, aligned: bool)
      requires Valid() && ReadRoom(buf, base, cur0, pos0, minMax) && cur0 < minMax
      requires wasAligned ==> cur0 % 8 == 0 && pos0 % 8 == 0
      requires Reading(buf, job, cur0 - base)
      modifies `write, `writerAt, `writerSees, `writerClosed, `readerAt, `fifo, buffer, buf
      ensures Valid() && cur0 < cur <= minMax && pos == pos0 + (cur - cur0)
      ensures CopiedOut(old(fifo), fifo, cur - cur0)
      ensures cur == minMax || (granCheck && minMax <= cur + 7)
      ensures aligned ==> cur % 8 == 0 && pos % 8 == 0
      ensures readerAt == Advanced(old(readerAt), cur - cur0)
      ensures Reading(buf, job, cur - base)
    {
      cur, pos, aligned := cur0, pos0, false;
      if (wasAligned || cur % 8 == pos % 8) && minMax - cur > 24 {
        cur, pos, aligned := CopyAlignedOut(buf, base, cur, pos, minMax, granCheck, wasAligned, job);
      } else {
        cur, pos := CopyBytesOut(buf, base, cur, pos, minMax, job);
      }
    }

    /** The three bounds and the chunk up to the least of them. */
    method ReadUpToBound(buf: array<byte>, base: nat, cur0: nat, usrMax: nat, granMax: nat, pos0: nat, writePos: nat, aligned0: bool, ghost job: Job)
      returns (cur: nat, pos: nat, aligned: bool, due: bool)
      requires Valid() && buf != buffer && pos0 != writePos
      requires base <= cur0 < usrMax <= base + buf.Length && cur0 < granMax
      requires pos0 == bufferAddr + readerAt && writePos == bufferAddr + readerSees
      requires aligned0 ==> cur0 % 8 == 0 && pos0 % 8 == 0
      requires Reading(buf, job, cur0 - base)
      modifies `write, `writerAt, `writerSees, `writerClosed, `readerAt, `fifo, buffer, buf
      ensures Valid() && cur0 < cur <= usrMax && cur <= granMax && CopiedOut(old(fifo), fifo, cur - cur0)
      ensures if due then granMax <= cur + 7 else cur < granMax
      ensures aligned ==> cur % 8 == 0 && pos % 8 == 0
      ensures pos >= bufferAddr && readerAt == if pos - bufferAddr == buffer.Length then 0 else pos - bufferAddr
      ensures Reading(buf, job, cur - base)
    {
      SlotDistance(fifo.rLoc, fifo.wSnap, fifo.n);
      var circMax := cur0 + if pos0 <= writePos then writePos - pos0 else bufferAddr + buffer.Length - pos0;
      var minMax, granCheck := ChunkBound(cur0, circMax, usrMax, granMax);
      cur, pos, aligned := CopyChunkOut(buf, base, cur0, pos0, minMax, granCheck, aligned0, job);
      due := granCheck || cur == granMax;
    }

    /** The end of a round: rewind, reload the writer's cursor, publish the reader's own. */
    method RefreshReader(pos0: nat, buf: array<byte>, ghost at: nat, ghost job: Job) returns (pos: nat, writePos: nat)
      requires Valid() && readerAt == if pos0 - bufferAddr == buffer.Length then 0 else pos0 - bufferAddr
      requires buf != buffer && Reading(buf, job, at)
      modifies `read, `write, `writerAt, `writerSees, `writerClosed, `readerSees, `fifo, buffer
      ensures Valid() && fifo.rPub == fifo.rLoc == old(fifo.rLoc)
      ensures old(fifo.wPub) <= fifo.wSnap && old(fifo.sent) <= fifo.sent
      ensures Reading(buf, job, at)
      ensures pos == bufferAddr + readerAt && writePos == bufferAddr + readerSees
      ensures pos0 % 8 == 0 ==> pos % 8 == 0
    {
      pos := pos0;
      if pos == bufferAddr + buffer.Length { pos := bufferAddr; }
      ghost var sent := fifo.sent;
      var w := LoadWrite();
      writePos := bufferAddr + w;
      PublishRead(pos - bufferAddr);
      FilledLater(buf[..], job, at, sent, fifo.sent);
    }

    /** What holds at the head of the read loop; the transfer's own looks begin at `mark`. */
    ghost predicate ReadLoop(buf: array<byte>, base: nat, cur: nat, usrMax: nat, granMax: nat,
                             pos: nat, writePos: nat, aligned: bool, job: Job, mark: nat)
      reads this, buffer, buf
    {
      var whole :=
        && Valid() && base + job.from <= cur <= usrMax <= base + buf.Length && cur < granMax
        && pos == bufferAddr + readerAt && writePos == bufferAddr + readerSees
        && (aligned ==> cur % 8 == 0 && pos % 8 == 0)
        && fifo.rPub == fifo.rLoc
        && Reading(buf, job, cur - base)
        && mark <= |looks| && Paced(looks[mark..], fifo.rLoc, checkInterval)
        && job.start + granMax - base <= NextLook(looks[mark..], checkInterval);
      whole
    }

    /** One round of the read loop. */
    method ReadRound(buf: array<byte>, base: nat, cur0: nat, usrMax: nat, granMax0: nat, pos0: nat, writePos0: nat,
                     aligned0: bool, ghost job: Job, ghost mark: nat)
      returns (cur: nat, granMax: nat, pos: nat, writePos: nat, aligned: bool)
      requires buf != buffer && pos0 != writePos0 && cur0 != usrMax
      requires ReadLoop(buf, base, cur0, usrMax, granMax0, pos0, writePos0, aligned0, job, mark)
      modifies `read, `write, `writerAt, `writerSees, `writerClosed, `readerAt, `readerSees, `looks, `signals, `fifo, buffer, buf
      ensures ReadLoop(buf, base, cur, usrMax, granMax, pos, writePos, aligned, job, mark)
      ensures cur0 < cur && old(fifo.wSnap) <= fifo.wSnap && old(fifo.sent) <= fifo.sent
      ensures Answered(old(looks), old(signals), looks, signals)
    {
      ghost var due1: nat;
      var due;
      cur, pos, aligned, due := ReadUpToBound(buf, base, cur0, usrMax, granMax0, pos0, writePos0, aligned0, job);
      granMax, due1 := CheckPeer(true, due, granMax0, mark, old(fifo.rLoc), job.start + granMax0 - base);
      pos, writePos := RefreshReader(pos, buf, cur - base, job);
    }

    /** The read loop, to its end: everything in the last snapshot is read, or everything asked for. */
    method ReadChunks(buf: array<byte>, base: nat, userBuf: nat, usrMax: nat, interval: nat, pos0: nat, writePos0: nat, ghost job: Job, ghost mark: nat)
      returns (cur: nat)
      requires buf != buffer && userBuf == base + job.from
      requires ReadLoop(buf, base, userBuf, usrMax, userBuf + interval, pos0, writePos0, false, job, mark)
      modifies `read, `write, `writerAt, `writerSees, `writerClosed, `readerAt, `readerSees, `looks, `signals, `fifo, buffer, buf
      ensures Valid() && fifo.rPub == fifo.rLoc && old(fifo.wSnap) <= fifo.wSnap && old(fifo.sent) <= fifo.sent
      ensures userBuf <= cur <= usrMax && (cur < usrMax ==> fifo.rLoc == fifo.wSnap)
      ensures Reading(buf, job, cur - base) && mark <= |looks| && Paced(looks[mark..], fifo.rLoc, checkInterval)
      ensures Answered(old(looks), old(signals), looks, signals)
    {
      var pos, writePos, granMax: nat, aligned := pos0, writePos0, userBuf + interval, false;
      cur := userBuf;
      assert looks[|looks|..] == [];
      while pos != writePos && cur != usrMax
        invariant ReadLoop(buf, base, cur, usrMax, granMax, pos, writePos, aligned, job, mark) && userBuf <= cur
        invariant old(fifo.wSnap) <= fifo.wSnap && old(fifo.sent) <= fifo.sent
        invariant Answered(old(looks), old(signals), looks, signals)
        decreases usrMax - cur
      {
        ghost var looks1, signals1 := looks, signals;
        cur, granMax, pos, writePos, aligned := ReadRound(buf, base, cur, usrMax, granMax, pos, writePos, aligned, job, mark);
        AnsweredOn(old(looks), old(signals), looks1, signals1, looks, signals);
      }
      EmptyTest(fifo.rLoc, fifo.wSnap, fifo.n);
    }

    /**
      The looks of one transfer from position `from` to position `to`: one on entry, one at the end with all
      published, none too far from the one before, and a signal for each that saw the peer sleeping but the first.
     */
    ghost predicate Watched(looks0: seq<Look>, signals0: seq<nat>, from: nat, to: nat)
      reads `looks, `signals
    {
      && looks0 <= looks && |looks| >= |looks0| + 2
      && var own := looks[|looks0|..];
      && own[0].at == from && own[|own| - 1].at == own[|own| - 1].published == to
      && Paced(own, to, checkInterval)
      && signals == signals0 + Sightings(own[1..])
    }

    /** The last look of a transfer. */
    method LookBack(reading: bool, ghost looks0: seq<Look>, ghost signals0: seq<nat>, ghost from: nat, ghost entry: Look)
      requires Answered(looks0 + [entry], signals0, looks, signals) && entry.at == from
      requires Here(reading) == Published(reading) && Paced(looks[|looks0|..], Here(reading), checkInterval)
      modifies `looks, `signals
      ensures Watched(looks0, signals0, from, Here(reading))
    {
      ghost var looks1, signals1 := looks, signals;
      SignalIfSleeping(reading);
      ghost var last := looks[|looks1|];
      assert looks[|looks0|..] == looks1[|looks0|..] + [last];
      PacedOn(looks1[|looks0|..], Here(reading), Here(reading), checkInterval, last);
      AnsweredOn(looks0 + [entry], signals0, looks1, signals1, looks, signals);
      assert looks[|looks0|..][1..] == looks[|looks0 + [entry]|..];
    }

    /** Reads what is available, up to nbytes, into the user's memory at base + off. */
    method ReadAvail(buf: array<byte>, base: nat, off: nat, nbytes: nat) returns (count: nat)
      requires Valid() && fifo.rLoc == fifo.rPub
      requires off + nbytes <= buf.Length && buf != buffer
      modifies `read, `write, `writerAt, `writerSees, `writerClosed, `readerAt, `readerSees, `looks, `signals, `fifo, buffer, buf
      ensures Valid() && fifo.rLoc == fifo.rPub == old(fifo.rLoc) + count
      ensures Min(nbytes, old(fifo.wPub - fifo.rLoc)) <= count <= nbytes
      ensures fifo.wPub == old(fifo.wPub) ==> count == Min(nbytes, old(fifo.wPub - fifo.rLoc))
      ensures old(fifo.sent) <= fifo.sent && old(fifo.wPub) <= fifo.wPub
      ensures fifo.delivered == old(fifo.delivered) + buf[off..off + count]
      ensures buf[..off] == old(buf[..])[..off] && buf[off + count..] == old(buf[..])[off + count..]
      ensures Watched(old(looks), old(signals), old(fifo.rLoc), fifo.rLoc)
    {
      ghost var job, entry;
      count, job, entry := ReadAndLook(buf, base, off, nbytes);
      ReadIn(buf, job, count);
      LookBack(true, old(looks), old(signals), old(fifo.rLoc), entry);
    }

    /** All of it but the last look. */
    method ReadAndLook(buf: array<byte>, base: nat, off: nat, nbytes: nat) returns (count: nat, ghost job: Job, ghost entry: Look)
      requires Valid() && fifo.rLoc == fifo.rPub
      requires off + nbytes <= buf.Length && buf != buffer
      modifies `read, `write, `writerAt, `writerSees, `writerClosed, `readerAt, `readerSees, `looks, `signals, `fifo, buffer, buf
      ensures Valid() && fifo.rLoc == fifo.rPub == old(fifo.rLoc) + count
      ensures old(fifo.wPub) <= fifo.wPub && count <= nbytes && (count < nbytes ==> old(fifo.wPub) <= fifo.rLoc)
      ensures old(fifo.sent) <= fifo.sent && Reading(buf, job, off + count)
      ensures job == Job(old(buf[..]), off, old(fifo.rLoc) - off)
      ensures fifo.delivered == old(fifo.delivered) + fifo.sent[old(fifo.rLoc)..fifo.rLoc]
      ensures Answered(old(looks) + [entry], old(signals), looks, signals) && entry.at == old(fifo.rLoc)
      ensures Paced(looks[|old(looks)|..], fifo.rLoc, checkInterval)
    {
      var pos, writePos, interval;
      pos, writePos, interval, job, entry := BeginRead(buf, base, off, nbytes);
      count := ReadOn(buf, base, off, nbytes, interval, pos, writePos, job, |old(looks)|);
    }

    /** What has been read, by what it leaves in the user's memory. */
    lemma ReadIn(buf: array<byte>, job: Job, count: nat)
      requires Reading(buf, job, job.from + count)
      ensures buf.Length == |job.was| && job.from + count <= buf.Length
      ensures 0 <= fifo.rLoc - count && fifo.rLoc <= |fifo.sent|
      ensures buf[..job.from] == job.was[..job.from] && buf[job.from + count..] == job.was[job.from + count..]
      ensures buf[job.from..job.from + count] == fifo.sent[fifo.rLoc - count..fifo.rLoc]
    {
      BufferRead(buf[..], job, count, fifo.sent);
    }

    /** The read loop, by the number of bytes it reads. */
    method ReadOn(buf: array<byte>, base: nat, off: nat, nbytes: nat, interval: nat, pos: nat, writePos: nat, ghost job: Job, ghost mark: nat)
      returns (count: nat)
      requires buf != buffer && off == job.from
      requires ReadLoop(buf, base, base + off, base + off + nbytes, base + off + interval, pos, writePos, false, job, mark)
      modifies `read, `write, `writerAt, `writerSees, `writerClosed, `readerAt, `readerSees, `looks, `signals, `fifo, buffer, buf
      ensures Valid() && fifo.rPub == fifo.rLoc == old(fifo.rLoc) + count
      ensures old(fifo.wSnap) <= fifo.wSnap && old(fifo.sent) <= fifo.sent
      ensures count <= nbytes && (count < nbytes ==> fifo.rLoc == fifo.wSnap)
      ensures Reading(buf, job, off + count)
      ensures mark <= |looks| && Paced(looks[mark..], fifo.rLoc, checkInterval)
      ensures Answered(old(looks), old(signals), looks, signals)
    {
      var cur := ReadChunks(buf, base, base + off, base + off + nbytes, interval, pos, writePos, job, mark);
      count := cur - (base + off);
    }

    /** The first loads, and the first look at the writer's SLEEPING bit. */
    method BeginRead(buf: array<byte>, base: nat, off: nat, nbytes: nat)
      returns (pos: nat, writePos: nat, interval: nat, ghost job: Job, ghost entry: Look)
      requires Valid() && fifo.rLoc == fifo.rPub
      requires off + nbytes <= buf.Length && buf != buffer
      modifies `write, `writerAt, `writerSees, `writerClosed, `readerSees, `looks, `fifo, buffer
      ensures interval == if entry.sleeping then FAST_CHECK_INTERVAL else checkInterval
      ensures ReadLoop(buf, base, base + off, base + off + nbytes, base + off + interval, pos, writePos, false, job, |old(looks)|)
      ensures job == Job(buf[..], off, fifo.rLoc - off) && fifo.rLoc == old(fifo.rLoc)
      ensures looks == old(looks) + [entry] && entry.at == fifo.rLoc
      ensures old(fifo.wPub) <= fifo.wSnap && old(fifo.sent) <= fifo.sent
    {
      job := Job(buf[..], off, fifo.rLoc - off);
      pos := bufferAddr + read;
      var w := LoadWrite();
      writePos := bufferAddr + w;
      var sleeping := PeerSleeping(true);
      entry := looks[|old(looks)|];
      assert looks[|old(looks)|..] == [entry];
      interval := if sleeping then FAST_CHECK_INTERVAL else checkInterval;
    }

    // ----- the reader, as the writer finds it -----

    method ReaderLoadsWrite()
      requires Valid()
      modifies `readerSees, `fifo
      ensures Valid() && Fifo.ReaderMoved(old(fifo), fifo)
    {
      readerSees := write;
      fifo := Fifo.Do(fifo, Fifo.ReaderSnap);
    }

    method ReaderPublishes()
      requires Valid()
      modifies `read, `fifo
      ensures Valid() && Fifo.ReaderMoved(old(fifo), fifo) && fifo == old(fifo).(rPub := fifo.rLoc)
    {
      read := readerAt;
      fifo := Fifo.Do(fifo, Fifo.ReaderPublish);
    }

    method ReaderLoads()
      requires Valid() && readerAt != readerSees
      modifies `readerAt, `fifo
      ensures Valid() && Fifo.ReaderMoved(old(fifo), fifo)
    {
      EmptyTest(fifo.rLoc, fifo.wSnap, fifo.n);
      Fifo.StepInv(fifo, Fifo.ReaderCopy);
      fifo := Fifo.Do(fifo, Fifo.ReaderCopy);
      readerAt := Advanced(readerAt, 1);
    }

    /** Any number of reader steps. */
    method ReaderMoves()
      requires Valid()
      modifies `read, `readerAt, `readerSees, `readerClosed, `fifo
      ensures Valid() && Fifo.ReaderMoved(old(fifo), fifo) && (old(readerClosed) ==> readerClosed)
    {
      var steps: nat := *;
      while steps > 0
        invariant Valid() && Fifo.ReaderMoved(old(fifo), fifo) && (old(readerClosed) ==> readerClosed)
      {
        var choice: int := *;
        if choice == 0 {
          ReaderLoadsWrite();
        } else if choice == 1 {
          ReaderPublishes();
        } else if choice == 2 {
          readerClosed := true;
        } else if readerAt != readerSees {
          ReaderLoads();
        }
        steps := steps - 1;
      }
    }

    // ----- writing -----

    method LoadRead() returns (r: nat)
      requires Valid()
      modifies `read, `readerAt, `readerSees, `readerClosed, `writerSees, `fifo
      ensures Valid() && r == writerSees && old(fifo.rPub) <= fifo.rSnap
      ensures CopiedIn(old(fifo), fifo.(rSnap := old(fifo.rSnap)), 0) && fifo.sent == old(fifo.sent)
    {
      ReaderMoves();
      r := read;
      writerSees := read;
      fifo := Fifo.Do(fifo, Fifo.WriterSnap);
    }

    method PublishWrite(cursor: nat)
      requires Valid() && cursor == writerAt
      modifies `write, `read, `readerAt, `readerSees, `readerClosed, `fifo
      ensures Valid() && fifo.wPub == fifo.wLoc
      ensures CopiedIn(old(fifo), fifo.(wPub := old(fifo.wPub)), 0) && fifo.sent == old(fifo.sent)
    {
      ReaderMoves();
      write := cursor;
      fifo := Fifo.Do(fifo, Fifo.WriterPublish);
    }

    method StoreCells(data: seq<byte>)
      requires writerAt + |data| <= buffer.Length
      modifies buffer
      ensures buffer[..] == old(buffer[..])[..writerAt] + data + old(buffer[..])[writerAt + |data|..]
    {
      forall k | writerAt <= k < writerAt + |data| {
        buffer[k] := data[k - writerAt];
      }
    }

    /** One store into the shared buffer: a byte, or an aligned word of eight. */
    method Store(pos: nat, data: seq<byte>)
      requires Valid() && !writerClosed && (|data| == 1 || (|data| == 8 && pos % 8 == 0))
      requires pos - bufferAddr == writerAt && writerAt + |data| <= buffer.Length
      requires fifo.wLoc + |data| < fifo.rSnap + fifo.n
      modifies `read, `readerAt, `readerSees, `readerClosed, `writerAt, `fifo, buffer
      ensures Valid() && CopiedIn(old(fifo), fifo, |data|)
      ensures writerAt == Advanced(old(writerAt), |data|)
      ensures fifo.sent == old(fifo.sent) + data
    {
      ReaderMoves();
      StoreNow(data);
    }

    method StoreNow(data: seq<byte>)
      requires Valid() && !writerClosed && writerAt + |data| <= buffer.Length
      requires fifo.wLoc + |data| < fifo.rSnap + fifo.n
      modifies `writerAt, `fifo, buffer
      ensures Valid() && CopiedIn(old(fifo), fifo, |data|) && fifo.rPub == old(fifo.rPub) && fifo.delivered == old(fifo.delivered)
      ensures writerAt == Advanced(old(writerAt), |data|)
      ensures fifo.sent == old(fifo.sent) + data
    {
      ghost var next := Fifo.StoreWide(fifo, data);
      StoreCells(data);
      fifo := next;
      writerAt := Advanced(writerAt, |data|);
    }

    /** Where the writer stands: the user's bytes from index `from` up to `at` have been accepted after `before`. */
    ghost predicate Writing(buf: array<byte>, before: seq<byte>, from: nat, at: nat)
      reads this, buf
    {
      from <= at <= buf.Length && fifo.sent == before + buf[from..at] && !writerClosed
    }

    /** One pass of a copy loop: *write_pos = *current_buf, for a byte or a word, aligned at both ends. */
    method CopyInOnce(buf: array<byte>, base: nat, at: nat, pos: nat, width: nat, ghost before: seq<byte>, ghost from: nat)
      requires Valid() && buf != buffer
      requires width == 1 || (width == 8 && pos % 8 == 0 && (base + at) % 8 == 0)
      requires pos - bufferAddr == writerAt && writerAt + width <= buffer.Length
      requires fifo.wLoc + width < fifo.rSnap + fifo.n && at + width <= buf.Length
      requires Writing(buf, before, from, at)
      modifies `read, `readerAt, `readerSees, `readerClosed, `writerAt, `fifo, buffer
      ensures Valid() && CopiedIn(old(fifo), fifo, width)
      ensures writerAt == Advanced(old(writerAt), width)
      ensures Writing(buf, before, from, at + width)
    {
      Store(pos, buf[at..at + width]);
      assert buf[from..at] + buf[at..at + width] == buf[from..at + width];
    }

    /** The chunk from pos to the bound lies in the free cells, without wrapping, and in the user's buffer. */
    ghost predicate WriteRoom(buf: array<byte>, base: nat, cur: nat, pos: nat, until: nat)
      reads this
    {
      && buf != buffer && base <= cur <= until <= base + buf.Length
      && (cur < until ==> pos - bufferAddr == writerAt)
      && writerAt + (until - cur) <= buffer.Length
      && fifo.wLoc + (until - cur) < fifo.rSnap + fifo.n
    }

    /** A byte loop. */
    method CopyBytesIn(buf: array<byte>, base: nat, cur0: nat, pos0: nat, until: nat, ghost before: seq<byte>, ghost from: nat)
      returns (cur: nat, pos: nat)
      requires Valid() && WriteRoom(buf, base, cur0, pos0, until)
      requires Writing(buf, before, from, cur0 - base)
      modifies `read, `readerAt, `readerSees, `readerClosed, `writerAt, `fifo, buffer
      ensures Valid() && CopiedIn(old(fifo), fifo, until - cur0)
      ensures cur == until && pos == pos0 + (until - cur0)
      ensures writerAt == Advanced(old(writerAt), until - cur0)
      ensures Writing(buf, before, from, until - base)
    {
      cur, pos := cur0, pos0;
      while cur != until
        invariant Valid() && cur0 <= cur <= until && pos - pos0 == cur - cur0
        invariant CopiedIn(old(fifo), fifo, cur - cur0)
        invariant writerAt == Advanced(old(writerAt), cur - cur0)
        invariant Writing(buf, before, from, cur - base)
        decreases until - cur
      {
        CopyInOnce(buf, base, cur - base, pos, 1, before, from);
        cur, pos := cur + 1, pos + 1;
      }
    }

    /** The 64-bit loop: it ends because both ends are multiples of eight. */
    method CopyWordsIn(buf: array<byte>, base: nat, cur0: nat, pos0: nat, until: nat, ghost before: seq<byte>, ghost from: nat)
      returns (cur: nat, pos: nat)
      requires Valid() && WriteRoom(buf, base, cur0, pos0, until)
      requires cur0 % 8 == 0 && pos0 % 8 == 0 && until % 8 == 0
      requires Writing(buf, before, from, cur0 - base)
      modifies `read, `readerAt, `readerSees, `readerClosed, `writerAt, `fifo, buffer
      ensures Valid() && CopiedIn(old(fifo), fifo, until - cur0)
      ensures cur == until && pos == pos0 + (until - cur0)
      ensures writerAt == Advanced(old(writerAt), until - cur0)
      ensures Writing(buf, before, from, until - base)
    {
      cur, pos := cur0, pos0;
      while cur != until
        invariant Valid() && cur0 <= cur <= until && pos - pos0 == cur - cur0
        invariant cur % 8 == 0 && pos % 8 == 0
        invariant CopiedIn(old(fifo), fifo, cur - cur0)
        invariant writerAt == Advanced(old(writerAt), cur - cur0)
        invariant Writing(buf, before, from, cur - base)
        decreases until - cur
      {
        NextWord(cur, pos, until);
        CopyInOnce(buf, base, cur - base, pos, 8, before, from);
        cur, pos := cur + 8, pos + 8;
      }
    }

    /** From a word boundary on: words, then the rest in bytes unless a check is due. */
    method CopyFromBoundaryIn(buf: array<byte>, base: nat, cur0: nat, pos0: nat, minMax: nat, granCheck: bool, ghost before: seq<byte>, ghost from: nat)
      returns (cur: nat, pos: nat, aligned: bool)
      requires Valid() && WriteRoom(buf, base, cur0, pos0, minMax)
      requires cur0 % 8 == 0 && pos0 % 8 == 0 && cur0 + 8 < minMax
      requires Writing(buf, before, from, cur0 - base)
      modifies `read, `readerAt, `readerSees, `readerClosed, `writerAt, `fifo, buffer
      ensures Valid() && cur0 < cur <= minMax && pos == pos0 + (cur - cur0)
      ensures CopiedIn(old(fifo), fifo, cur - cur0)
      ensures cur == minMax || (granCheck && minMax <= cur + 7)
      ensures aligned ==> cur % 8 == 0 && pos % 8 == 0
      ensures writerAt == Advanced(old(writerAt), cur - cur0)
      ensures Writing(buf, before, from, cur - base)
    {
      SameResidue(cur0, pos0, AlignDown(minMax) - cur0);
      cur, pos := CopyWordsIn(buf, base, cur0, pos0, AlignDown(minMax), before, from);
      aligned := true;
      if !granCheck && cur != minMax {
        aligned := false;
        cur, pos := CopyBytesIn(buf, base, cur, pos, minMax, before, from);
      }
    }

    /** The copy in words, after the bytes up to a word boundary. */
    method CopyAlignedIn(buf: array<byte>, base: nat, cur0: nat, pos0: nat, minMax: nat,
                        granCheck: bool, wasAligned: bool, ghost before: seq<byte>, ghost from: nat)
      returns (cur: nat, pos: nat, aligned: bool)
      requires Valid() && WriteRoom(buf, base, cur0, pos0, minMax)
      requires wasAligned ==> cur0 % 8 == 0 && pos0 % 8 == 0
      requires cur0 % 8 == pos0 % 8 && minMax - cur0 > 24
      requires Writing(buf, before, from, cur0 - base)
      modifies `read, `readerAt, `readerSees, `readerClosed, `writerAt, `fifo, buffer
      ensures Valid() && cur0 < cur <= minMax && pos == pos0 + (cur - cur0)
      ensures CopiedIn(old(fifo), fifo, cur - cur0)
      ensures cur == minMax || (granCheck && minMax <= cur + 7)
      ensures aligned ==> cur % 8 == 0 && pos % 8 == 0
      ensures writerAt == Advanced(old(writerAt), cur - cur0)
      ensures Writing(buf, before, from, cur - base)
    {
      cur, pos := cur0, pos0;
      if !wasAligned {
        SameResidue(cur, pos, AlignUp(cur) - cur);
        cur, pos := CopyBytesIn(buf, base, cur, pos, AlignUp(cur), before, from);
      }
      cur, pos, aligned := CopyFromBoundaryIn(buf, base, cur, pos, minMax, granCheck, before, from);
    }

    /** One chunk: words where both pointers allow it and the chunk is long enough, bytes otherwise. */
    method CopyChunkIn(buf: array<byte>, base: nat, cur0: nat, pos0: nat, minMax: nat,
                        granCheck: bool, wasAligned: bool, ghost before: seq<byte>, ghost from: nat)
      returns (cur: nat, pos: nat, aligned: bool)
      requires Valid() && WriteRoom(buf, base, cur0, pos0, minMax) && cur0 < minMax
      requires wasAligned ==> cur0 % 8 == 0 && pos0 % 8 == 0
      requires Writing(buf, before, from, cur0 - base)
      modifies `read, `readerAt, `readerSees, `readerClosed, `writerAt, `fifo, buffer
      ensures Valid() && cur0 < cur <= minMax && pos == pos0 + (cur - cur0)
      ensures CopiedIn(old(fifo), fifo, cur - cur0)
      ensures cur == minMax || (granCheck && minMax <= cur + 7)
      ensures aligned ==> cur % 8 == 0 && pos % 8 == 0
      ensures writerAt == Advanced(old(writerAt), cur - cur0)
      ensures Writing(buf, before, from, cur - base)
    {
      cur, pos, aligned := cur0, pos0, false;
      if (wasAligned || cur % 8 == pos % 8) && minMax - cur > 24 {
        cur, pos, aligned := CopyAlignedIn(buf, base, cur, pos, minMax, granCheck, wasAligned, before, from);
      } else {
        cur, pos := CopyBytesIn(buf, base, cur, pos, minMax, before, from);
      }
    }

    /** The three bounds and the chunk up to the least of them. */
    method WriteUpToBound(buf: array<byte>, base: nat, cur0: nat, usrMax: nat, granMax: nat, pos0: nat, reducedPos: nat, aligned0: bool,
                          ghost before: seq<byte>, ghost from: nat)
      returns (cur: nat, pos: nat, aligned: bool, due: bool)
      requires Valid() && buf != buffer && pos0 != reducedPos
      requires base <= cur0 < usrMax <= base + buf.Length && cur0 < granMax
      requires pos0 == bufferAddr + writerAt && reducedPos == bufferAddr + Reduced(writerSees)
      requires aligned0 ==> cur0 % 8 == 0 && pos0 % 8 == 0
      requires Writing(buf, before, from, cur0 - base)
      modifies `read, `readerAt, `readerSees, `readerClosed, `writerAt, `fifo, buffer
      ensures Valid() && cur0 < cur <= usrMax && cur <= granMax && CopiedIn(old(fifo), fifo, cur - cur0)
      ensures if due then granMax <= cur + 7 else cur < granMax
      ensures aligned ==> cur % 8 == 0 && pos % 8 == 0
      ensures pos >= bufferAddr && writerAt == if pos - bufferAddr == buffer.Length then 0 else pos - bufferAddr
      ensures Writing(buf, before, from, cur - base)
    {
      ReducedCursor(fifo.rSnap, fifo.n);
      SlotDistance(fifo.wLoc, fifo.rSnap + fifo.n - 1, fifo.n);
      var circMax := cur0 + if pos0 <= reducedPos then reducedPos - pos0 else bufferAddr + buffer.Length - pos0;
      var minMax, granCheck := ChunkBound(cur0, circMax, usrMax, granMax);
      cur, pos, aligned := CopyChunkIn(buf, base, cur0, pos0, minMax, granCheck, aligned0, before, from);
      due := granCheck || cur == granMax;
    }

    /** The end of a round: rewind, reload the reader's cursor, publish the writer's own. */
    method RefreshWriter(pos0: nat) returns (pos: nat, reducedPos: nat)
      requires Valid() && writerAt == if pos0 - bufferAddr == buffer.Length then 0 else pos0 - bufferAddr
      modifies `read, `write, `readerAt, `readerSees, `readerClosed, `writerSees, `fifo
      ensures Valid() && fifo.wPub == fifo.wLoc == old(fifo.wLoc) && fifo.sent == old(fifo.sent)
      ensures old(fifo.rPub) <= fifo.rSnap && old(fifo.delivered) <= fifo.delivered
      ensures pos == bufferAddr + writerAt && reducedPos == bufferAddr + Reduced(writerSees)
      ensures pos0 % 8 == 0 ==> pos % 8 == 0
    {
      pos := pos0;
      if pos == bufferAddr + buffer.Length { pos := bufferAddr; }
      var r := LoadRead();
      reducedPos := bufferAddr + Reduced(r);
      PublishWrite(pos - bufferAddr);
    }

    /** What holds at the head of the write loop; the transfer's own looks begin at `mark`. */
    ghost predicate WriteLoop(buf: array<byte>, base: nat, cur: nat, usrMax: nat, granMax: nat, pos: nat, reducedPos: nat, aligned: bool,
                              before: seq<byte>, from: nat, mark: nat)
      reads this, buffer, buf
    {
      var whole :=
        && Valid() && base + from <= cur <= usrMax <= base + buf.Length && cur < granMax
        && pos == bufferAddr + writerAt && reducedPos == bufferAddr + Reduced(writerSees)
        && (aligned ==> cur % 8 == 0 && pos % 8 == 0)
        && fifo.wPub == fifo.wLoc
        && Writing(buf, before, from, cur - base)
        && mark <= |looks| && Paced(looks[mark..], fifo.wLoc, checkInterval)
        && |before| + (granMax - base) - from <= NextLook(looks[mark..], checkInterval);
      whole
    }

    /** One round of the write loop. */
    method WriteRound(buf: array<byte>, base: nat, cur0: nat, usrMax: nat, granMax0: nat, pos0: nat, reducedPos0: nat,
                      aligned0: bool, ghost before: seq<byte>, ghost from: nat, ghost mark: nat)
      returns (cur: nat, granMax: nat, pos: nat, reducedPos: nat, aligned: bool)
      requires buf != buffer && pos0 != reducedPos0 && cur0 != usrMax
      requires WriteLoop(buf, base, cur0, usrMax, granMax0, pos0, reducedPos0, aligned0, before, from, mark)
      modifies `read, `write, `readerAt, `readerSees, `readerClosed, `writerAt, `writerSees, `looks, `signals, `fifo, buffer
      ensures WriteLoop(buf, base, cur, usrMax, granMax, pos, reducedPos, aligned, before, from, mark)
      ensures cur0 < cur && old(fifo.rSnap) <= fifo.rSnap && old(fifo.delivered) <= fifo.delivered
      ensures Answered(old(looks), old(signals), looks, signals)
    {
      ghost var due1: nat;
      var due;
      cur, pos, aligned, due := WriteUpToBound(buf, base, cur0, usrMax, granMax0, pos0, reducedPos0, aligned0, before, from);
      granMax, due1 := CheckPeer(false, due, granMax0, mark, old(fifo.wLoc), |before| + (granMax0 - base) - from);
      pos, reducedPos := RefreshWriter(pos);
    }

    /** The write loop, to its end: the room in the last snapshot is used up, or everything is written. */
    method WriteChunks(buf: array<byte>, base: nat, userBuf: nat, usrMax: nat, interval: nat, pos0: nat, reducedPos0: nat,
                       ghost before: seq<byte>, ghost from: nat, ghost mark: nat)
      returns (cur: nat)
      requires buf != buffer && userBuf == base + from
      requires WriteLoop(buf, base, userBuf, usrMax, userBuf + interval, pos0, reducedPos0, false, before, from, mark)
      modifies `read, `write, `readerAt, `readerSees, `readerClosed, `writerAt, `writerSees, `looks, `signals, `fifo, buffer
      ensures Valid() && fifo.wPub == fifo.wLoc && old(fifo.rSnap) <= fifo.rSnap && old(fifo.delivered) <= fifo.delivered
      ensures userBuf <= cur <= usrMax && (cur < usrMax ==> fifo.wLoc == fifo.rSnap + buffer.Length - 1)
      ensures Writing(buf, before, from, cur - base) && mark <= |looks| && Paced(looks[mark..], fifo.wLoc, checkInterval)
      ensures Answered(old(looks), old(signals), looks, signals)
    {
      var pos, reducedPos, granMax: nat, aligned := pos0, reducedPos0, userBuf + interval, false;
      cur := userBuf;
      assert looks[|looks|..] == [];
      while pos != reducedPos && cur != usrMax
        invariant WriteLoop(buf, base, cur, usrMax, granMax, pos, reducedPos, aligned, before, from, mark) && userBuf <= cur
        invariant old(fifo.rSnap) <= fifo.rSnap && old(fifo.delivered) <= fifo.delivered
        invariant Answered(old(looks), old(signals), looks, signals)
        decreases usrMax - cur
      {
        ghost var looks1, signals1 := looks, signals;
        cur, granMax, pos, reducedPos, aligned :=
          WriteRound(buf, base, cur, usrMax, granMax, pos, reducedPos, aligned, before, from, mark);
        AnsweredOn(old(looks), old(signals), looks1, signals1, looks, signals);
      }
      ReducedCursor(fifo.rSnap, fifo.n);
      EmptyTest(fifo.wLoc, fifo.rSnap + fifo.n - 1, fifo.n);
    }

    /** Writes as much as there is room for, up to nbytes, from the user's memory at base + off. */
    method WriteAvail(buf: array<byte>, base: nat, off: nat, nbytes: nat) returns (count: nat)
      requires Valid() && fifo.wLoc == fifo.wPub && !writerClosed
      requires off + nbytes <= buf.Length && buf != buffer
      modifies `read, `write, `readerAt, `readerSees, `readerClosed, `writerAt, `writerSees, `looks, `signals, `fifo, buffer
      ensures Valid() && fifo.wLoc == fifo.wPub == old(fifo.wLoc) + count
      ensures Min(nbytes, buffer.Length - 1 - old(fifo.wLoc - fifo.rPub)) <= count <= nbytes
      ensures fifo.rPub == old(fifo.rPub) ==> count == Min(nbytes, buffer.Length - 1 - old(fifo.wLoc - fifo.rPub))
      ensures fifo.sent == old(fifo.sent) + buf[off..off + count] && old(fifo.delivered) <= fifo.delivered
      ensures Watched(old(looks), old(signals), old(fifo.wLoc), fifo.wLoc)
    {
      ghost var entry;
      count, entry := WriteAndLook(buf, base, off, nbytes);
      LookBack(false, old(looks), old(signals), old(fifo.wLoc), entry);
    }

    /** All of it but the last look. */
    method WriteAndLook(buf: array<byte>, base: nat, off: nat, nbytes: nat) returns (count: nat, ghost entry: Look)
      requires Valid() && fifo.wLoc == fifo.wPub && !writerClosed
      requires off + nbytes <= buf.Length && buf != buffer
      modifies `read, `write, `readerAt, `readerSees, `readerClosed, `writerAt, `writerSees, `looks, `signals, `fifo, buffer
      ensures Valid() && fifo.wLoc == fifo.wPub == old(fifo.wLoc) + count
      ensures count <= nbytes && (count < nbytes ==> fifo.wLoc >= old(fifo.rPub) + buffer.Length - 1)
      ensures fifo.sent == old(fifo.sent) + buf[off..off + count] && old(fifo.delivered) <= fifo.delivered
      ensures Answered(old(looks) + [entry], old(signals), looks, signals) && entry.at == old(fifo.wLoc)
      ensures Paced(looks[|old(looks)|..], fifo.wLoc, checkInterval)
    {
      var userBuf := base + off;
      var pos, reducedPos, interval;
      pos, reducedPos, interval, entry := BeginWrite(buf, base, off, nbytes);
      var cur := WriteChunks(buf, base, userBuf, userBuf + nbytes, interval, pos, reducedPos, old(fifo.sent), off, |old(looks)|);
      count := cur - userBuf;
    }

    /** The first loads, and the first look at the reader's SLEEPING bit. */
    method BeginWrite(buf: array<byte>, base: nat, off: nat, nbytes: nat)
      returns (pos: nat, reducedPos: nat, interval: nat, ghost entry: Look)
      requires Valid() && fifo.wLoc == fifo.wPub && !writerClosed
      requires off + nbytes <= buf.Length && buf != buffer
      modifies `read, `readerAt, `readerSees, `readerClosed, `writerSees, `looks, `fifo
      ensures interval == if entry.sleeping then FAST_CHECK_INTERVAL else checkInterval
      ensures WriteLoop(buf, base, base + off, base + off + nbytes, base + off + interval, pos, reducedPos, false,
                                    old(fifo.sent), off, |old(looks)|)
      ensures looks == old(looks) + [entry] && entry.at == fifo.wLoc == old(fifo.wLoc)
      ensures old(fifo.rPub) <= fifo.rSnap && old(fifo.delivered) <= fifo.delivered
    {
      var r := LoadRead();
      var sleeping := PeerSleeping(false);
      entry := looks[|old(looks)|];
      assert looks[|old(looks)|..] == [entry];
      interval := if sleeping then FAST_CHECK_INTERVAL else checkInterval;
      pos, reducedPos := bufferAddr + write, bufferAddr + Reduced(r);
    }

    // ----- whole calls -----

    /**
      __xen_shm_pipe_wait_reader, by its looks at the shared area: the writer's CLOSED bit, then the cursor again. How often it goes
      round, and what ends it early (the probe, an earlier EPIPE, a failed await), is left open here and is the subject of
      module Protocol, which proves of all schedules what is stated here.
     */
    method WaitReader() returns (ret: int)
      requires Valid()
      modifies `write, `writerAt, `writerSees, `writerClosed, `fifo, buffer
      ensures Valid() && CopiedOut(old(fifo), fifo, 0)
      ensures ret in {-1, 0, 1} && if ret == 1 then fifo.rPub < fifo.wPub else old(fifo.wPub) == fifo.rPub
      ensures ret == 0 ==> writerClosed && |fifo.sent| == fifo.rPub
      ensures old(writerClosed && fifo.rPub == fifo.wPub) ==> ret == 0
    {
      var rounds: nat := *;
      WriterMoves();
      EmptyTest(fifo.rPub, fifo.wPub, fifo.n);
      ret := if read != write then 1 else -1;
      while ret == -1
        invariant Valid() && CopiedOut(old(fifo), fifo, 0) && ret in {-1, 0, 1}
        invariant ret == 1 ==> fifo.rPub < fifo.wPub
        invariant ret != 1 ==> old(fifo.wPub) == fifo.rPub
        invariant ret == 0 ==> writerClosed && fifo.rPub == fifo.wPub
        invariant old(writerClosed && fifo.rPub == fifo.wPub) ==> ret != 1 && writerClosed && fifo.rPub == fifo.wPub
        decreases rounds, ret == -1
      {
        var closed := writerClosed;
        WriterMoves();
        EmptyTest(fifo.rPub, fifo.wPub, fifo.n);
        if read != write {
          ret := 1;
        } else if closed {
          ret := 0;
        } else if rounds == 0 {
          return;
        } else {
          rounds := rounds - 1;
          WriterMoves();
          EmptyTest(fifo.rPub, fifo.wPub, fifo.n);
          ret := if read != write then 1 else -1;
        }
      }
      WriterMoves();
    }

    /** A look at the reader's cursor. */
    method SeesRoom() returns (room: bool)
      requires Valid()
      modifies `read, `readerAt, `readerSees, `readerClosed, `fifo
      ensures Valid() && Fifo.ReaderMoved(old(fifo), fifo) && (old(readerClosed) ==> readerClosed)
      ensures if room then fifo.wPub + 1 < fifo.rPub + buffer.Length else fifo.wPub + 1 == fifo.rPub + buffer.Length
    {
      ReaderMoves();
      FullTest(fifo.rPub, fifo.wPub, fifo.n);
      room := Advanced(write, 1) != read;
    }

    /** __xen_shm_pipe_wait_writer in the same way: 1 only if there is room. */
    method WaitWriter() returns (ret: int)
      requires Valid()
      modifies `read, `readerAt, `readerSees, `readerClosed, `fifo
      ensures Valid() && CopiedIn(old(fifo), fifo, 0) && fifo.sent == old(fifo.sent)
      ensures ret in {-1, 1} && (ret == 1 ==> fifo.wPub + 1 < fifo.rPub + buffer.Length)
      ensures ret == -1 ==> readerClosed || fifo.wPub + 1 == old(fifo.rPub) + buffer.Length
      ensures old(readerClosed) ==> ret == -1
    {
      if readerClosed { return -1; }
      var rounds: nat := *;
      var room := SeesRoom();
      var over := false;
      while !room && !over
        invariant Valid() && CopiedIn(old(fifo), fifo, 0) && fifo.sent == old(fifo.sent)
        invariant if room then fifo.wPub + 1 < fifo.rPub + buffer.Length else fifo.wPub + 1 == old(fifo.rPub) + buffer.Length
        decreases rounds, !room, !over
      {
        var closed := readerClosed;
        room := SeesRoom();
        if !room && (closed || rounds == 0) {
          over := true;
        } else if !room {
          rounds := rounds - 1;
          room := SeesRoom();
        }
      }
      ret := if room then 1 else -1;
      if room { ReaderMoves(); }
    }

    /**
      xen_shm_pipe_read: at least one byte once the wait is over, nothing taken otherwise. 0 for a non-empty request is the end
      of the stream: the writer has closed and every byte it accepted has been delivered; unless this end is closed itself.
     */
    method Read(buf: array<byte>, base: nat, off: nat, nbytes: nat) returns (ret: int)
      requires Valid() && fifo.rLoc == fifo.rPub
      requires off + nbytes <= buf.Length && buf != buffer
      modifies this, buffer, buf
      ensures Valid() && fifo.rLoc == fifo.rPub && old(fifo.sent) <= fifo.sent && old(fifo.wPub) <= fifo.wPub
      ensures readerClosed == old(readerClosed) && results == old(results) + [ret]
      ensures -1 <= ret <= nbytes && (old(readerClosed) ==> ret == 0)
      ensures nbytes > 0 && ret <= 0 && !readerClosed ==> old(fifo.wPub) == fifo.rPub
      ensures nbytes > 0 && ret == 0 && !readerClosed ==> writerClosed && fifo.delivered == fifo.sent
      ensures old(writerClosed && fifo.rPub == fifo.wPub) ==> ret == 0
      ensures var got := Max0(ret);
        && fifo.delivered == old(fifo.delivered) + buf[off..off + got]
        && buf[..off] == old(buf[..off]) && buf[off + got..] == old(buf[..])[off + got..]
    {
      if readerClosed {
        ret := 0;
      } else {
        ret := WaitReader();
        if ret > 0 { ret := ReadAvail(buf, base, off, nbytes); }
      }
      results := results + [ret];
    }

    /** xen_shm_pipe_write: at least one byte once the wait is over; it fails only if an end has closed or there was no room at the start. */
    method Write(buf: array<byte>, base: nat, off: nat, nbytes: nat) returns (ret: int)
      requires Valid() && fifo.wLoc == fifo.wPub
      requires off + nbytes <= buf.Length && buf != buffer
      modifies this, buffer
      ensures Valid() && fifo.wLoc == fifo.wPub && old(fifo.delivered) <= fifo.delivered
      ensures writerClosed == old(writerClosed) && results == old(results) + [ret]
      ensures -1 <= ret <= nbytes && (nbytes > 0 ==> ret != 0) && (old(writerClosed || readerClosed) ==> ret == -1)
      ensures ret == -1 ==> writerClosed || readerClosed || old(fifo.wPub) + 1 == old(fifo.rPub) + buffer.Length
      ensures fifo.sent == old(fifo.sent) + buf[off..off + Max0(ret)]
    {
      if writerClosed {
        ret := -1;
      } else {
        ret := WaitWriter();
        if ret > 0 { ret := WriteAvail(buf, base, off, nbytes); }
      }
      results := results + [ret];
    }

    /**
      What a loop of calls made: each but the last moved bytes; it ended with all nbytes, or with the first call that
      moved none, whose result is the loop's own if no byte was moved.
     */
    ghost predicate Looped(results0: seq<int>, nbytes: nat, ret: int)
      reads `results
    {
      var whole :=
        && results0 <= results
        && var inner := results[|results0|..];
        && (forall k :: 0 <= k < |inner| - 1 ==> inner[k] > 0)
        && if inner == [] then ret == nbytes == 0
           else if inner[|inner| - 1] > 0 then ret == nbytes == Total(inner)
           else ret == if |inner| > 1 then Total(inner[..|inner| - 1]) else inner[0];
      whole
    }

    /** On the way: the calls so far have all moved bytes, `done` in all. */
    ghost predicate Looping(results0: seq<int>, done: int)
      reads `results
    {
      var whole :=
        && results0 <= results
        && var inner := results[|results0|..];
        (forall k :: 0 <= k < |inner| ==> inner[k] > 0) && Total(inner) == done && (inner == [] <==> done == 0);
      whole
    }

    lemma LoopBegins()
      ensures Looping(results, 0)
    {
    }

    lemma LoopEnds(results0: seq<int>, nbytes: nat)
      requires Looping(results0, nbytes)
      ensures Looped(results0, nbytes, nbytes)
    {
    }

    lemma LoopTurns(results0: seq<int>, results1: seq<int>, nbytes: nat, done: nat, got: int)
      requires results0 <= results1 && results == results1 + [got]
      requires var inner := results1[|results0|..];
        (forall k :: 0 <= k < |inner| ==> inner[k] > 0) && Total(inner) == done && (inner == [] <==> done == 0)
      ensures got > 0 ==> Looping(results0, done + got)
      ensures got <= 0 ==> Looped(results0, nbytes, if done != 0 then done else got)
    {
      var inner := results1[|results0|..];
      assert results[|results0|..] == inner + [got] && (inner + [got])[..|inner|] == inner;
    }

    /** What a loop of reads has done so far: `done` bytes, the next of the stream, at the start of the user's buffer. */
    ghost predicate ReadSoFar(buf: array<byte>, was: seq<byte>, delivered0: seq<byte>, done: nat)
      reads this, buffer, buf
    {
      var whole :=
        && Valid() && fifo.rLoc == fifo.rPub && done <= buf.Length == |was|
        && fifo.delivered == delivered0 + buf[..done] && buf[done..] == was[done..];
      whole
    }

    method ReadMore(buf: array<byte>, base: nat, nbytes: nat, done: nat, ghost was: seq<byte>, ghost delivered0: seq<byte>) returns (got: int)
      requires done < nbytes <= buf.Length && buf != buffer && ReadSoFar(buf, was, delivered0, done)
      modifies this, buffer, buf
      ensures got <= nbytes - done && got >= -1 && ReadSoFar(buf, was, delivered0, done + Max0(got))
      ensures old(fifo.sent) <= fifo.sent && old(fifo.wPub) <= fifo.wPub && old(fifo.rPub) <= fifo.rPub
      ensures readerClosed == old(readerClosed) && results == old(results) + [got]
      ensures got <= 0 && !readerClosed ==> old(fifo.wPub) == fifo.rPub
      ensures got == 0 && !readerClosed ==> writerClosed && fifo.delivered == fifo.sent
    {
      ghost var before := buf[..];
      got := Read(buf, base, done, nbytes - done);
      assert buf[..done] == before[..done];
      PieceRead(was, before, buf[..], done, Max0(got));
    }

    /** xen_shm_pipe_read_all */
    method ReadAll(buf: array<byte>, base: nat, nbytes: nat) returns (ret: int)
      requires Valid() && fifo.rLoc == fifo.rPub
      requires nbytes <= buf.Length && buf != buffer
      modifies this, buffer, buf
      ensures Valid() && fifo.rLoc == fifo.rPub && old(fifo.sent) <= fifo.sent && readerClosed == old(readerClosed)
      ensures Looped(old(results), nbytes, ret) && -1 <= ret <= nbytes
      ensures ret < nbytes && !readerClosed ==> old(fifo.wPub) <= fifo.rPub
      ensures nbytes > 0 && ret == 0 && !readerClosed ==> writerClosed && fifo.delivered == fifo.sent
      ensures fifo.delivered == old(fifo.delivered) + buf[..Max0(ret)]
      ensures buf[Max0(ret)..] == old(buf[..])[Max0(ret)..]
    {
      var done := 0;
      LoopBegins();
      while done < nbytes
        invariant 0 <= done <= nbytes && ReadSoFar(buf, old(buf[..]), old(fifo.delivered), done) && Looping(old(results), done)
        invariant old(fifo.sent) <= fifo.sent && old(fifo.wPub) <= fifo.wPub && readerClosed == old(readerClosed)
      {
        ghost var results1 := results;
        var got := ReadMore(buf, base, nbytes, done, old(buf[..]), old(fifo.delivered));
        LoopTurns(old(results), results1, nbytes, done, got);
        if got <= 0 { return if done != 0 then done else got; }
        done := done + got;
      }
      LoopEnds(old(results), nbytes);
      ret := done;
    }

    /** What a loop of writes has done so far. */
    ghost predicate WrittenSoFar(buf: array<byte>, sent0: seq<byte>, done: nat)
      reads this, buffer, buf
    {
      var whole := Valid() && fifo.wLoc == fifo.wPub && done <= buf.Length && fifo.sent == sent0 + buf[..done];
      whole
    }

    method WriteMore(buf: array<byte>, base: nat, nbytes: nat, done: nat, ghost sent0: seq<byte>) returns (put: int)
      requires done < nbytes <= buf.Length && buf != buffer && WrittenSoFar(buf, sent0, done)
      modifies this, buffer
      ensures put <= nbytes - done && put >= -1 && put != 0 && WrittenSoFar(buf, sent0, done + Max0(put))
      ensures old(fifo.delivered) <= fifo.delivered && writerClosed == old(writerClosed) && results == old(results) + [put]
    {
      put := Write(buf, base, done, nbytes - done);
      assert buf[..done] + buf[done..done + Max0(put)] == buf[..done + Max0(put)];
    }

    /** xen_shm_pipe_write_all */
    method WriteAll(buf: array<byte>, base: nat, nbytes: nat) returns (ret: int)
      requires Valid() && fifo.wLoc == fifo.wPub
      requires nbytes <= buf.Length && buf != buffer
      modifies this, buffer
      ensures Valid() && fifo.wLoc == fifo.wPub && old(fifo.delivered) <= fifo.delivered && writerClosed == old(writerClosed)
      ensures Looped(old(results), nbytes, ret) && -1 <= ret <= nbytes && (nbytes > 0 ==> ret != 0)
      ensures fifo.sent == old(fifo.sent) + buf[..Max0(ret)]
    {
      var done := 0;
      LoopBegins();
      while done < nbytes
        invariant 0 <= done <= nbytes && WrittenSoFar(buf, old(fifo.sent), done) && Looping(old(results), done)
        invariant old(fifo.delivered) <= fifo.delivered && writerClosed == old(writerClosed)
      {
        ghost var results1 := results;
        var put := WriteMore(buf, base, nbytes, done, old(fifo.sent));
        LoopTurns(old(results), results1, nbytes, done, put);
        if put <= 0 { return if done != 0 then done else put; }
        done := done + put;
      }
      LoopEnds(old(results), nbytes);
      ret := done;
    }

    // ----- streams -----

    /** A stream read by any number of read_all calls of any sizes: the pieces put together are the next bytes that were sent. */
    method ReadPieces(buf: array<byte>, base: nat, sizes: seq<nat>) returns (ghost pieces: seq<seq<byte>>)
      requires Valid() && fifo.rLoc == fifo.rPub && buf != buffer
      requires forall k :: 0 <= k < |sizes| ==> sizes[k] <= buf.Length
      modifies this, buffer, buf
      ensures Valid() && fifo.rLoc == fifo.rPub && old(fifo.sent) <= fifo.sent && |pieces| == |sizes|
      ensures fifo.delivered == old(fifo.delivered) + Fifo.Joined(pieces)
      ensures Fifo.Joined(pieces) == fifo.sent[old(fifo.rLoc)..fifo.rLoc]
    {
      pieces := [];
      for k := 0 to |sizes|
        invariant Valid() && fifo.rLoc == fifo.rPub && old(fifo.sent) <= fifo.sent && |pieces| == k && old(fifo.rLoc) <= fifo.rLoc
        invariant fifo.delivered == old(fifo.delivered) + Fifo.Joined(pieces)
      {
        ghost var piece := ReadPiece(buf, base, sizes[k]);
        Fifo.JoinedOn(pieces, piece);
        pieces := pieces + [piece];
      }
    }

    method ReadPiece(buf: array<byte>, base: nat, size: nat) returns (ghost piece: seq<byte>)
      requires Valid() && fifo.rLoc == fifo.rPub && buf != buffer && size <= buf.Length
      modifies this, buffer, buf
      ensures Valid() && fifo.rLoc == fifo.rPub && old(fifo.sent) <= fifo.sent && old(fifo.rLoc) <= fifo.rLoc
      ensures fifo.delivered == old(fifo.delivered) + piece
    {
      var got := ReadAll(buf, base, size);
      piece := buf[..Max0(got)];
    }

    /** A stream written by any number of write_all calls: what is accepted of each, put together, is what is sent. */
    method WritePieces(buf: array<byte>, base: nat, sizes: seq<nat>) returns (ghost pieces: seq<seq<byte>>)
      requires Valid() && fifo.wLoc == fifo.wPub && buf != buffer
      requires forall k :: 0 <= k < |sizes| ==> sizes[k] <= buf.Length
      modifies this, buffer
      ensures Valid() && fifo.wLoc == fifo.wPub && |pieces| == |sizes|
      ensures forall k :: 0 <= k < |sizes| ==> pieces[k] <= buf[..sizes[k]]
      ensures fifo.sent == old(fifo.sent) + Fifo.Joined(pieces) && old(fifo.delivered) <= fifo.delivered
    {
      pieces := [];
      for k := 0 to |sizes|
        invariant Valid() && fifo.wLoc == fifo.wPub && |pieces| == k
        invariant forall j :: 0 <= j < k ==> pieces[j] <= buf[..sizes[j]]
        invariant fifo.sent == old(fifo.sent) + Fifo.Joined(pieces) && old(fifo.delivered) <= fifo.delivered
      {
        ghost var piece := WritePiece(buf, base, sizes[k]);
        Fifo.JoinedOn(pieces, piece);
        pieces := pieces + [piece];
      }
    }

    method WritePiece(buf: array<byte>, base: nat, size: nat) returns (ghost piece: seq<byte>)
      requires Valid() && fifo.wLoc == fifo.wPub && buf != buffer && size <= buf.Length
      modifies this, buffer
      ensures Valid() && fifo.wLoc == fifo.wPub && old(fifo.delivered) <= fifo.delivered
      ensures piece <= buf[..size] && fifo.sent == old(fifo.sent) + piece
    {
      var put := WriteAll(buf, base, size);
      piece := buf[..Max0(put)];
    }

    /**
      Any number of writes of any sizes into an empty pipe, then any number of reads of any sizes, with the other side moving freely all
      the while: what is read is the beginning of what was written, and all of it once that many bytes have come out.
     */
    method Carry(src: array<byte>, srcBase: nat, sizesIn: seq<nat>, dst: array<byte>, dstBase: nat, sizesOut: seq<nat>)
      returns (ghost puts: seq<seq<byte>>, ghost more: seq<byte>, ghost early: seq<byte>, ghost gots: seq<seq<byte>>)
      requires Valid() && fifo.rPub == fifo.rLoc == fifo.wPub == fifo.wLoc && src != buffer && dst != buffer
      requires forall k :: 0 <= k < |sizesIn| ==> sizesIn[k] <= src.Length
      requires forall k :: 0 <= k < |sizesOut| ==> sizesOut[k] <= dst.Length
      modifies this, buffer, dst
      ensures Valid() && |puts| == |sizesIn| && |gots| == |sizesOut|
      ensures forall k :: 0 <= k < |sizesIn| ==> puts[k] <= old(src[..])[..sizesIn[k]]
      ensures fifo.sent == old(fifo.sent) + Fifo.Joined(puts) + more
      ensures fifo.delivered == old(fifo.delivered) + early + Fifo.Joined(gots)
      ensures early + Fifo.Joined(gots) <= Fifo.Joined(puts) + more
      ensures |early + Fifo.Joined(gots)| >= |Fifo.Joined(puts)| ==> Fifo.Joined(puts) <= early + Fifo.Joined(gots)
    {
      ghost var s := fifo;
      puts := WritePieces(src, srcBase, sizesIn);
      ghost var sent1, delivered1 := fifo.sent, fifo.delivered;
      ReaderPublishes();
      gots := ReadPieces(dst, dstBase, sizesOut);
      early, more := delivered1[|s.delivered|..], fifo.sent[|sent1|..];
      assert delivered1 == s.delivered + early && fifo.sent == sent1 + more;
      Fifo.SplitsDoNotMatter(s, fifo, puts, more, early, gots);
    }
  }
}
