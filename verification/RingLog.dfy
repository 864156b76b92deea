/**
 The cyclic log file of src/util/logger.c.

 A chunk is written contiguously; when it does not fit before the capacity the writer starts
 again at offset 0 and leaves the rest of the file as it is.  The functions here give the
 effect of one call on file, offset and capacity for every outcome of the I/O calls in it.
 */
module RingLog {
  import opened Base

  type Byte = bv8

  const MIN_CAPACITY: nat := 4096

  datatype Ring = Ring(file: seq<Byte>, offset: nat, capacity: nat)

  /** How the I/O of one write call goes; `stored` bytes reach the file when it fails half-way. */
  datatype Io = Done | PrepareFails | SeekFails | WriteFails(stored: nat) | FlushFails(stored: nat)

  datatype Op = Chunk(data: seq<Byte>, io: Io) | Reprepare(ok: bool)

  function Prepare(r: Ring): Ring {
    var cap := Max(|r.file|, MIN_CAPACITY);
    r.(capacity := cap, offset := if r.offset >= cap then 0 else r.offset)
  }

  /** A positioned write; a gap beyond the end of the file reads as zero bytes. */
  function Overwrite(file: seq<Byte>, at: nat, data: seq<Byte>): (r: seq<Byte>)
    ensures data != [] ==> |r| == Max(|file|, at + |data|)
    ensures data != [] ==> r[at..at + |data|] == data
    ensures data != [] ==> forall i :: 0 <= i < |file| && (i < at || at + |data| <= i) ==> r[i] == file[i]
  {
    if data == [] then file
    else
      var head: seq<Byte> := if at <= |file| then file[..at] else file + seq(at - |file|, _ => 0);
      head + data + if at + |data| <= |file| then file[at + |data|..] else []
  }

  /** Capacity and offset are settled before the write itself: lines 242-258. */
  function Place(r: Ring, len: nat): (p: Ring)
    ensures p.file == r.file
    ensures p.offset + len <= p.capacity
  {
    var r1 := if r.capacity == 0 then Prepare(r) else r;
    var r2 := if len > r1.capacity then r1.(capacity := len) else r1;
    if r2.offset + len > r2.capacity then r2.(offset := 0) else r2
  }

  /** The offset after `len` bytes were handed to the stream. */
  function Advance(r: Ring, len: nat): Ring {
    var next := r.offset + len;
    r.(offset := if next >= r.capacity then 0 else next)
  }

  function Store(r: Ring, data: seq<Byte>): Ring
  {
    r.(file := Overwrite(r.file, r.offset, data))
  }

  /** `write_cyclic_bytes_locked`. */
  function WriteChunk(r: Ring, data: seq<Byte>, io: Io): Ring
  {
    if data == [] || (io.PrepareFails? && r.capacity == 0) then r
    else
      var p := Place(r, |data|);
      match io
      case SeekFails => p
      case WriteFails(stored) => Store(p, data[..Min(stored, |data|)])
      case FlushFails(stored) => Advance(Store(p, data[..Min(stored, |data|)]), |data|)
      case _ => Advance(Store(p, data), |data|)
  }

  function Step(r: Ring, op: Op): Ring
  {
    match op
    case Chunk(data, io) => WriteChunk(r, data, io)
    case Reprepare(ok) => if ok then Prepare(r) else r
  }

  /** A cyclic episode that begins with the given file; the offset is 0 when it is entered. */
  function Enter(file: seq<Byte>): Ring { Ring(file, 0, 0) }

  function Longest(ops: seq<Op>): nat {
    if ops == [] then 0
    else
      var last := ops[|ops| - 1];
      Max(Longest(ops[..|ops| - 1]), if last.Chunk? then |last.data| else 0)
  }

  ghost predicate Bounded(r: Ring, bound: int) {
    && |r.file| <= bound && r.capacity <= bound
    && (r.capacity == 0 ==> r.offset == 0)
    && (r.capacity > 0 ==> r.offset < r.capacity && |r.file| <= r.capacity && MIN_CAPACITY <= r.capacity)
  }

  lemma PlaceKeepsBounded(r: Ring, len: nat, bound: int)
    requires Bounded(r, bound) && MIN_CAPACITY <= bound && 0 < len <= bound
    ensures Bounded(Place(r, len), bound) && Place(r, len).capacity > 0
  {
  }

  lemma StoreKeepsBounded(p: Ring, data: seq<Byte>, bound: int)
    requires Bounded(p, bound) && p.capacity > 0 && p.offset + |data| <= p.capacity
    ensures Bounded(Store(p, data), bound)
  {
  }

  lemma StepKeepsBounded(r: Ring, op: Op, bound: int)
    requires Bounded(r, bound) && MIN_CAPACITY <= bound && (op.Chunk? ==> |op.data| <= bound)
    ensures Bounded(Step(r, op), bound)
  {
    if op.Chunk? && op.data != [] {
      var p := Place(r, |op.data|);
      PlaceKeepsBounded(r, |op.data|, bound);
      StoreKeepsBounded(p, op.data, bound);
      if op.io.WriteFails? || op.io.FlushFails? {
        StoreKeepsBounded(p, op.data[..Min(op.io.stored, |op.data|)], bound);
      }
    }
  }

  function Run(file: seq<Byte>, ops: seq<Op>): Ring {
    if ops == [] then Enter(file) else Step(Run(file, ops[..|ops| - 1]), ops[|ops| - 1])
  }

  lemma RunSnoc(file: seq<Byte>, ops: seq<Op>, op: Op)
    ensures Run(file, ops + [op]) == Step(Run(file, ops), op)
  {
    assert (ops + [op])[..|ops|] == ops;
  }

  /**
   Ring size bound, whatever the I/O does: the file never outgrows the largest of its size at
   entry, 4096 bytes and the longest chunk; the offset stays inside the capacity.
   */
  lemma {:induction false} FileStaysBounded(file: seq<Byte>, ops: seq<Op>)
    ensures var r := Run(file, ops);
            Bounded(r, Max(Max(|file|, 4096), Longest(ops)))
  {
    if ops != [] {
      var before, last := ops[..|ops| - 1], ops[|ops| - 1];
      FileStaysBounded(file, before);
      StepKeepsBounded(Run(file, before), last, Max(Max(|file|, MIN_CAPACITY), Longest(ops)));
    }
  }

  /**
   Where one chunk lands, call by call: behind the last one if it fits below the capacity, at the
   start otherwise.  A seek or write that fails leaves the offset there; once the stream took the
   chunk the offset moves on, whether or not the flush succeeds.
   */
  lemma ChunkLands(r: Ring, data: seq<Byte>, io: Io, bound: int)
    requires Bounded(r, bound) && data != [] && !(io.PrepareFails? && r.capacity == 0)
    ensures var r', len := WriteChunk(r, data, io), |data|;
            var cap := Max(if r.capacity == 0 then Max(|r.file|, 4096) else r.capacity, len);
            var at := if r.offset + len <= cap then r.offset else 0;
            && r'.capacity == cap && at + len <= cap
            && (io.SeekFails? || io.WriteFails? ==> r'.offset == at)
            && (!io.SeekFails? && !io.WriteFails? ==> r'.offset == if at + len == cap then 0 else at + len)
            && (io.SeekFails? ==> r'.file == r.file)
            && (io.Done? || io.PrepareFails? ==> |r'.file| == Max(|r.file|, at + len) && r'.file[at..at + len] == data)
            && forall i :: 0 <= i < |r.file| && (i < at || at + len <= i) ==> i < |r'.file| && r'.file[i] == r.file[i]
  {
  }

  // ---------------------------------------------------------------- refinement of the history

  /**
   A ring together with what a reader would need to know: where the lap before the current one
   ended, and whether there has been one.  `history` is the file at entry followed by every
   chunk written since.
   */
  datatype Traced = Traced(ring: Ring, lapEnd: nat, wrapped: bool, history: seq<Byte>, longest: nat)

  /** The offset moved from `o` to 0: a lap ended at `o`. */
  function EndLap(t: Traced, o: int): Traced {
    if o > 0 then t.(lapEnd := o, wrapped := true) else t
  }

  function TracedPrepare(t: Traced): Traced {
    var ring := Prepare(t.ring);
    (if ring.offset == 0 then EndLap(t, t.ring.offset) else t).(ring := ring)
  }

  /** Capacity and offset are settled; nothing is written yet. */
  function Settle(t: Traced, len: nat): Traced {
    var p := Place(t.ring, len);
    (if p.offset == 0 then EndLap(t, t.ring.offset) else t).(ring := p, longest := Max(t.longest, len))
  }

  /** The chunk is written at the settled offset. */
  function Commit(t: Traced, data: seq<Byte>): Traced {
    var ring := Advance(Store(t.ring, data), |data|);
    (if ring.offset == 0 then EndLap(t, t.ring.offset + |data|) else t)
    .(ring := ring, history := t.history + data)
  }

  function TracedStep(t: Traced, op: Op): Traced {
    match op
    case Reprepare(ok) => if ok then TracedPrepare(t) else t
    case Chunk(data, io) =>
      if data == [] || (io.PrepareFails? && t.ring.capacity == 0) then t
      else if io.SeekFails? then Settle(t, |data|)
      else Commit(Settle(t, |data|), data)
  }

  /** The bytes of the lap that ended at `lapEnd` still there, followed by the current lap. */
  function ViewOf(file: seq<Byte>, offset: nat, lapEnd: nat): (v: seq<Byte>)
    requires offset <= |file| && lapEnd <= |file|
    ensures |v| == Max(offset, lapEnd)
  {
    (if offset < lapEnd then file[offset..lapEnd] else []) + file[..offset]
  }

  function View(t: Traced): seq<Byte>
    requires t.ring.offset <= |t.ring.file| && t.lapEnd <= |t.ring.file|
  {
    ViewOf(t.ring.file, t.ring.offset, t.lapEnd)
  }

  ghost predicate IsSuffix(s: seq<Byte>, whole: seq<Byte>) {
    |s| <= |whole| && s == whole[|whole| - |s|..]
  }

  /** No write or flush fails half-way. */
  predicate Clean(op: Op) {
    op.Chunk? ==> !op.io.WriteFails? && !op.io.FlushFails?
  }

  ghost predicate Refines(t: Traced) {
    && Bounded(t.ring, Max(|t.ring.file|, t.ring.capacity))
    && t.ring.offset <= |t.ring.file| && t.lapEnd <= |t.ring.file|
    && IsSuffix(View(t), t.history)
    && (t.ring.capacity == 0 ==> !t.wrapped)
    && (t.wrapped || t.ring.offset > 0 ==> t.longest > 0)
    && (t.wrapped ==> t.lapEnd > 0 && |View(t)| > t.ring.capacity - t.longest)
  }

  function TracedRun(file: seq<Byte>, ops: seq<Op>): Traced {
    if ops == [] then Traced(Enter(file), |file|, false, file, 0)
    else TracedStep(TracedRun(file, ops[..|ops| - 1]), ops[|ops| - 1])
  }

  /** Suffixes survive appending the chunk that replaced their first bytes. */
  lemma SuffixAfterWrite(s: seq<Byte>, whole: seq<Byte>, drop: nat, data: seq<Byte>)
    requires IsSuffix(s, whole) && drop <= |s|
    ensures IsSuffix(s[drop..] + data, whole + data)
  {
    assert s[drop..] + data == (whole + data)[|whole + data| - |s[drop..] + data|..];
  }

  /** Preparing again in the middle of an episode forgets nothing. */
  lemma PrepareRefines(t: Traced)
    requires Refines(t)
    ensures Refines(TracedPrepare(t)) && View(TracedPrepare(t)) == View(t)
  {
  }

  /** Settling changes which lap is current; at most a lap two back is forgotten. */
  lemma SettleRefines(t: Traced, len: nat)
    requires Refines(t) && len > 0
    ensures Refines(Settle(t, len)) && Settle(t, len).ring.capacity > 0
  {
  }

  lemma ViewAfterStore(file: seq<Byte>, o: nat, lapEnd: nat, data: seq<Byte>)
    requires o <= |file| && lapEnd <= |file| && data != []
    ensures var stored := Overwrite(file, o, data);
            var drop := Min(|data|, Max(lapEnd - o, 0));
            && lapEnd <= |stored|
            && ViewOf(stored, o + |data|, lapEnd) == ViewOf(file, o, lapEnd)[drop..] + data
  {
    var stored := Overwrite(file, o, data);
    assert stored[..o + |data|] == file[..o] + data;
    if o + |data| < lapEnd {
      assert stored[o + |data|..lapEnd] == file[o + |data|..lapEnd];
    }
  }

  lemma ViewAtLapEnd(file: seq<Byte>, o: nat, lapEnd: nat, history: seq<Byte>)
    requires o <= |file| && lapEnd <= |file| && IsSuffix(ViewOf(file, o, lapEnd), history)
    ensures IsSuffix(ViewOf(file, 0, o), history)
  {
    var v := ViewOf(file, o, lapEnd);
    assert ViewOf(file, 0, o) == v[|v| - o..];
    assert v[|v| - o..] == history[|history| - o..];
  }

  /** The bytes of the chunk take the place of the oldest ones still there. */
  lemma StoreKeepsSuffix(file: seq<Byte>, offset: nat, lapEnd: nat, history: seq<Byte>, data: seq<Byte>)
    requires offset <= |file| && lapEnd <= |file| && data != []
    requires IsSuffix(ViewOf(file, offset, lapEnd), history)
    ensures var o, stored := offset + |data|, Overwrite(file, offset, data);
            && |stored| == Max(|file|, o)
            && IsSuffix(ViewOf(stored, o, lapEnd), history + data)
            && IsSuffix(ViewOf(stored, 0, o), history + data)
  {
    var o, stored := offset + |data|, Overwrite(file, offset, data);
    ViewAfterStore(file, offset, lapEnd, data);
    SuffixAfterWrite(ViewOf(file, offset, lapEnd), history, Min(|data|, Max(lapEnd - offset, 0)), data);
    ViewAtLapEnd(stored, o, lapEnd, history + data);
  }

  lemma {:induction false} CommitRefines(t: Traced, data: seq<Byte>)
    requires Refines(t) && t.ring.capacity > 0
    requires data != [] && t.ring.offset + |data| <= t.ring.capacity && |data| <= t.longest
    ensures Refines(Commit(t, data))
  {
    StoreKeepsSuffix(t.ring.file, t.ring.offset, t.lapEnd, t.history, data);
  }

  lemma StepRefines(t: Traced, op: Op)
    requires Refines(t) && Clean(op)
    ensures Refines(TracedStep(t, op))
  {
    match op
    case Reprepare(ok) =>
      PrepareRefines(t);
    case Chunk(data, io) =>
      if data != [] {
        SettleRefines(t, |data|);
        CommitRefines(Settle(t, |data|), data);
      }
  }

  /** Whether `write_cyclic_bytes_locked` returns 0. */
  predicate Succeeds(r: Ring, data: seq<Byte>, io: Io) {
    data == [] || io.Done? || (io.PrepareFails? && r.capacity > 0)
  }

  /** The bytes an operation adds to the log when it succeeds. */
  function Accepted(r: Ring, op: Op): seq<Byte> {
    if op.Chunk? && Succeeds(r, op.data, op.io) then op.data else []
  }

  /** All chunks whose write call succeeded, in order. */
  function Written(file: seq<Byte>, ops: seq<Op>): seq<Byte> {
    if ops == [] then []
    else Written(file, ops[..|ops| - 1]) + Accepted(Run(file, ops[..|ops| - 1]), ops[|ops| - 1])
  }

  /**
   The ring log refines an append-only history: over any episode whose writes do not fail
   half-way, and across any number of re-preparations, the previous lap's remaining bytes
   followed by the current lap are a suffix of the file at entry followed by all chunks; after
   the first wrap more than capacity minus the longest chunk of it is kept.
   */
  lemma {:induction false} RingRefinesHistory(file: seq<Byte>, ops: seq<Op>)
    requires forall i :: 0 <= i < |ops| ==> Clean(ops[i])
    ensures var t, ring := TracedRun(file, ops), Run(file, ops);
            && t.ring == ring
            && ring.offset <= |ring.file| && t.lapEnd <= |ring.file|
            && IsSuffix(ViewOf(ring.file, ring.offset, t.lapEnd), file + Written(file, ops))
            && (t.wrapped ==> |ViewOf(ring.file, ring.offset, t.lapEnd)| > ring.capacity - Longest(ops))
            && (!t.wrapped ==> t.lapEnd == |file| && ring.offset == |Written(file, ops)|)
  {
    FirstLap(file, ops);
    HistoryIsWritten(file, ops);
    TracedRunTracks(file, ops);
    LongestIsTracked(file, ops);
    RunRefines(file, ops);
  }

  lemma {:induction false} RunRefines(file: seq<Byte>, ops: seq<Op>)
    requires forall i :: 0 <= i < |ops| ==> Clean(ops[i])
    ensures Refines(TracedRun(file, ops))
  {
    if ops != [] {
      RunRefines(file, ops[..|ops| - 1]);
      StepRefines(TracedRun(file, ops[..|ops| - 1]), ops[|ops| - 1]);
    }
  }

  lemma TracedStepTracks(t: Traced, op: Op)
    requires Clean(op)
    ensures TracedStep(t, op).ring == Step(t.ring, op)
    ensures TracedStep(t, op).history == t.history + Accepted(t.ring, op)
    ensures t.longest <= TracedStep(t, op).longest <= Max(t.longest, if op.Chunk? then |op.data| else 0)
    ensures !TracedStep(t, op).wrapped ==>
              && !t.wrapped && TracedStep(t, op).lapEnd == t.lapEnd
              && TracedStep(t, op).ring.offset == t.ring.offset + |Accepted(t.ring, op)|
  {
    if Accepted(t.ring, op) == [] {
      assert t.history + Accepted(t.ring, op) == t.history;
    }
  }

  lemma {:induction false} TracedRunTracks(file: seq<Byte>, ops: seq<Op>)
    requires forall i :: 0 <= i < |ops| ==> Clean(ops[i])
    ensures TracedRun(file, ops).ring == Run(file, ops)
  {
    if ops != [] {
      TracedRunTracks(file, ops[..|ops| - 1]);
      TracedStepTracks(TracedRun(file, ops[..|ops| - 1]), ops[|ops| - 1]);
    }
  }

  lemma {:induction false} LongestIsTracked(file: seq<Byte>, ops: seq<Op>)
    requires forall i :: 0 <= i < |ops| ==> Clean(ops[i])
    ensures TracedRun(file, ops).longest <= Longest(ops)
  {
    if ops != [] {
      LongestIsTracked(file, ops[..|ops| - 1]);
      TracedStepTracks(TracedRun(file, ops[..|ops| - 1]), ops[|ops| - 1]);
    }
  }

  /** Until the first wrap every chunk follows the one before it, from the start of the file. */
  lemma {:induction false} FirstLap(file: seq<Byte>, ops: seq<Op>)
    requires forall i :: 0 <= i < |ops| ==> Clean(ops[i])
    ensures var t := TracedRun(file, ops);
            !t.wrapped ==> t.lapEnd == |file| && t.ring.offset == |Written(file, ops)|
  {
    if ops != [] {
      FirstLap(file, ops[..|ops| - 1]);
      TracedRunTracks(file, ops[..|ops| - 1]);
      TracedStepTracks(TracedRun(file, ops[..|ops| - 1]), ops[|ops| - 1]);
    }
  }

  lemma Associative(a: seq<Byte>, b: seq<Byte>, c: seq<Byte>)
    ensures (a + b) + c == a + (b + c)
  {
  }

  lemma {:induction false} HistoryIsWritten(file: seq<Byte>, ops: seq<Op>)
    requires forall i :: 0 <= i < |ops| ==> Clean(ops[i])
    ensures TracedRun(file, ops).history == file + Written(file, ops)
  {
    if ops != [] {
      var before, last := ops[..|ops| - 1], ops[|ops| - 1];
      var t, w := TracedRun(file, before), Written(file, before);
      HistoryIsWritten(file, before);
      TracedRunTracks(file, before);
      TracedStepTracks(t, last);
      Associative(file, w, Accepted(t.ring, last));
    }
  }
}
