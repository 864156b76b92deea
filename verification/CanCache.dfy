/**
 The CAN side of src/can/can_bus.c: the byte layout of command frames, the receive cache with its
 dirty bits, and the flush that prints dirty values into a bounded buffer.
 */
module CanCache {
  import opened Base
  import opened Scan

  const CAN_ID_COUNT: nat := 0x800
  const FLUSH_CAPACITY: nat := 8192
  const ENTRY_LENGTH: nat := 9

  // ---------------------------------------------------------------- frames

  /** A raw frame; identifiers above 2^29 carry the error, remote or extended flag. */
  datatype CanFrame = CanFrame(canId: nat, dlc: nat, data: seq<nat>)

  predicate WellFormed(f: CanFrame) {
    f.canId < U32 && |f.data| == 8 && forall i :: 0 <= i < 8 ==> f.data[i] < 256
  }

  /** `can_bus_send_command` before the write; `None` when the id is refused. */
  function CommandFrame(id: nat, value: nat, durationMs: nat): Option<CanFrame> {
    if id > 0x7FF then None
    else Some(CanFrame(id, 8, [value % 256, value / 256 % 256, durationMs % 256, durationMs / 256 % 256, 0, 0, 0, 0]))
  }

  predicate Flagged(f: CanFrame) { f.canId / 0x2000_0000 != 0 }

  function RxId(f: CanFrame): (id: nat)
    ensures id < CAN_ID_COUNT
  {
    f.canId % 0x800
  }

  function RxValue(f: CanFrame): nat
    requires WellFormed(f)
  {
    if f.dlc >= 2 then f.data[0] + f.data[1] * 256 else 0
  }

  /** A command is eight bytes, value and duration low byte first; read back it has the same id and value. */
  lemma CommandRoundTrip(id: nat, value: nat, durationMs: nat)
    requires value < U16 && durationMs < U16
    ensures CommandFrame(id, value, durationMs).Some? <==> id <= 0x7FF
    ensures id <= 0x7FF ==>
              var f := CommandFrame(id, value, durationMs).value;
              && WellFormed(f) && !Flagged(f) && RxId(f) == id && RxValue(f) == value
              && f.canId == id && f.dlc == 8
              && f.data[0] + f.data[1] * 256 == value && f.data[2] + f.data[3] * 256 == durationMs
              && f.data[4..] == [0, 0, 0, 0]
  {
  }

  // ---------------------------------------------------------------- the cache as a value

  datatype Cache = Cache(values: seq<int>, dirty: seq<bool>)

  ghost predicate Valid(c: Cache) {
    && |c.values| == |c.dirty| == CAN_ID_COUNT
    && (forall id :: 0 <= id < CAN_ID_COUNT ==> -1 <= c.values[id] < U16)
    && (forall id :: 0 <= id < CAN_ID_COUNT && c.dirty[id] ==> c.values[id] >= 0)
  }

  function Initial(): Cache {
    Cache(seq(CAN_ID_COUNT, _ => -1), seq(CAN_ID_COUNT, _ => false))
  }

  /** `can_bus_store_rx`. */
  function Receive(c: Cache, f: CanFrame): Cache
    requires |c.values| == |c.dirty| == CAN_ID_COUNT && WellFormed(f)
  {
    if Flagged(f) then c else Cache(c.values[RxId(f) := RxValue(f)], c.dirty[RxId(f) := true])
  }

  /** Dirty ids below `n`, ascending. */
  function DirtyBelow(c: Cache, n: nat): (ids: seq<nat>)
    requires n <= |c.values| == |c.dirty|
    ensures forall i :: 0 <= i < |ids| ==> ids[i] < n && c.values[ids[i]] >= 0
  {
    if n == 0 then []
    else DirtyBelow(c, n - 1) + if Pending(c, n - 1) then [n - 1] else []
  }

  predicate Pending(c: Cache, id: nat)
    requires id < |c.values| == |c.dirty|
  {
    c.dirty[id] && c.values[id] >= 0
  }

  /** The list holds exactly the dirty ids, in ascending order. */
  lemma {:induction false} DirtyBelowSorted(c: Cache, n: nat)
    requires n <= |c.values| == |c.dirty|
    ensures forall id: nat :: id in DirtyBelow(c, n) <==> id < n && Pending(c, id)
    ensures forall i, j :: 0 <= i < j < |DirtyBelow(c, n)| ==> DirtyBelow(c, n)[i] < DirtyBelow(c, n)[j]
  {
    if n > 0 {
      DirtyBelowSorted(c, n - 1);
    }
  }

  function DirtyIds(c: Cache): seq<nat>
    requires |c.values| == |c.dirty|
  {
    DirtyBelow(c, |c.values|)
  }

  /** How many entries a buffer of this capacity takes. */
  function Quota(capacity: nat): nat {
    if capacity == 0 then 0 else (capacity - 1) / ENTRY_LENGTH
  }

  /** The ids one flush emits: the first dirty ones, as many as fit. */
  function Emitted(c: Cache, capacity: nat): seq<nat>
    requires |c.values| == |c.dirty|
  {
    var ids := DirtyIds(c);
    ids[..Min(|ids|, Quota(capacity))]
  }

  /** The cache after a flush. */
  function Flushed(c: Cache, capacity: nat): Cache
    requires |c.values| == |c.dirty|
  {
    var emitted := Emitted(c, capacity);
    c.(dirty := seq(|c.dirty|, id requires 0 <= id < |c.dirty| => c.dirty[id] && id !in emitted))
  }

  function Entry(id: nat, value: nat): string {
    Padded(id, 16, 3) + "#" + Padded(value, 16, 4)
  }

  function Entries(c: Cache, ids: seq<nat>): (r: seq<string>)
    requires forall i :: 0 <= i < |ids| ==> ids[i] < |c.values| && c.values[ids[i]] >= 0
    ensures |r| == |ids| && forall i :: 0 <= i < |ids| ==> r[i] == Entry(ids[i], c.values[ids[i]])
  {
    seq(|ids|, i requires 0 <= i < |ids| => Entry(ids[i], c.values[ids[i]]))
  }

  /** The flushed text: entries joined by bars. */
  function FlushText(c: Cache, capacity: nat): string
    requires |c.values| == |c.dirty|
  {
    Joined(Entries(c, Emitted(c, capacity)))
  }

  /** Each entry followed by a bar, as the loop writes them. */
  function Lines(c: Cache, ids: seq<nat>): string
    requires forall i :: 0 <= i < |ids| ==> ids[i] < |c.values| && c.values[ids[i]] >= 0
  {
    Barred(Entries(c, ids))
  }

  lemma {:induction false} DigitsLength(n: nat, k: nat)
    requires k <= 3 && (k == 0 ==> n < 16) && (k == 1 ==> n < 256) && (k == 2 ==> n < 4096) && (k == 3 ==> n < U16)
    ensures |Digits(n, 16)| <= k + 1
  {
    if n >= 16 {
      DigitsLength(n / 16, k - 1);
    }
  }

  lemma EntryLength(id: nat, value: nat)
    requires id < CAN_ID_COUNT && value < U16
    ensures |Entry(id, value)| + 1 == ENTRY_LENGTH
  {
    DigitsLength(id, 2);
    DigitsLength(value, 3);
  }

  lemma LinesSnoc(c: Cache, ids: seq<nat>, id: nat)
    requires forall i :: 0 <= i < |ids| ==> ids[i] < |c.values| && c.values[ids[i]] >= 0
    requires id < |c.values| && c.values[id] >= 0
    ensures Lines(c, ids + [id]) == Lines(c, ids) + Entry(id, c.values[id]) + "|"
  {
    assert Entries(c, ids + [id]) == Entries(c, ids) + [Entry(id, c.values[id])];
    BarredSnoc(Entries(c, ids), Entry(id, c.values[id]));
  }

  lemma DirtyStep(c: Cache, id: nat)
    requires id < |c.values| == |c.dirty|
    ensures if Pending(c, id) then
              && |DirtyBelow(c, id + 1)| == |DirtyBelow(c, id)| + 1
              && Lines(c, DirtyBelow(c, id + 1)) == Lines(c, DirtyBelow(c, id)) + Entry(id, c.values[id]) + "|"
            else DirtyBelow(c, id + 1) == DirtyBelow(c, id)
  {
    if Pending(c, id) {
      LinesSnoc(c, DirtyBelow(c, id), id);
    } else {
      assert DirtyBelow(c, id) + [] == DirtyBelow(c, id);
    }
  }

  /** Earlier ids stay at the front. */
  lemma {:induction false} DirtyPrefix(c: Cache, m: nat, n: nat)
    requires m <= n <= |c.values| == |c.dirty|
    ensures |DirtyBelow(c, m)| <= |DirtyBelow(c, n)|
    ensures DirtyBelow(c, n)[..|DirtyBelow(c, m)|] == DirtyBelow(c, m)
    ensures m < n && Pending(c, m) ==> |DirtyBelow(c, m)| < |DirtyBelow(c, n)|
    decreases n
  {
    if m + 1 < n {
      DirtyPrefix(c, m, n - 1);
    }
  }

  /** The dirty bits once every id below `n` has been printed. */
  function ClearedBelow(c: Cache, n: nat): (bits: seq<bool>)
    requires n <= |c.values| == |c.dirty|
    ensures |bits| == |c.dirty|
    ensures forall id :: 0 <= id < |bits| ==> bits[id] == (c.dirty[id] && (id < n ==> c.values[id] < 0))
  {
    seq(|c.dirty|, id requires 0 <= id < |c.dirty| => c.dirty[id] && (id < n ==> c.values[id] < 0))
  }

  lemma ClearedStep(c: Cache, id: nat)
    requires id < |c.values| == |c.dirty|
    ensures ClearedBelow(c, id + 1)
         == if Pending(c, id) then ClearedBelow(c, id)[id := false] else ClearedBelow(c, id)
  {
  }

  /** The dirty bits after a flush whose last look was at id `n`. */
  lemma FlushedUpTo(c: Cache, capacity: nat, n: nat)
    requires n <= |c.values| == |c.dirty| && Emitted(c, capacity) == DirtyBelow(c, n)
    ensures Flushed(c, capacity).dirty == ClearedBelow(c, n)
  {
    DirtyBelowSorted(c, n);
  }

  /** Text and dirty bits once every id below `id` has been dealt with. */
  ghost predicate Shows(c: Cache, id: nat, text: string, bits: seq<bool>)
    requires id <= |c.values| == |c.dirty|
  {
    && |text| == ENTRY_LENGTH * |DirtyBelow(c, id)|
    && text == Lines(c, DirtyBelow(c, id))
    && bits == ClearedBelow(c, id)
  }

  lemma ShowsStep(c: Cache, id: nat, text: string, bits: seq<bool>)
    requires Valid(c) && id < |c.values| && Shows(c, id, text, bits)
    ensures bits[id] == c.dirty[id]
    ensures if Pending(c, id) then Shows(c, id + 1, text + Entry(id, c.values[id]) + "|", bits[id := false])
            else Shows(c, id + 1, text, bits)
  {
    DirtyStep(c, id);
    ClearedStep(c, id);
    if Pending(c, id) {
      EntryLength(id, c.values[id]);
    }
  }

  // ---------------------------------------------------------------- the cache in memory

  /** `snprintf` at position `at`: at most the room left, always terminated. */
  method Snprintf(buffer: array<char>, at: nat, text: string) returns (written: nat)
    requires at < buffer.Length
    modifies buffer
    ensures written == |text|
    ensures buffer[..at] == old(buffer[..at])
    ensures at + |text| < buffer.Length ==>
              buffer[at..at + |text|] == text && buffer[at + |text|] == '\0'
  {
    var n := Min(|text|, buffer.Length - at - 1);
    for i := 0 to n
      invariant buffer[..at] == old(buffer[..at])
      invariant buffer[at..at + i] == text[..i]
    {
      buffer[at + i] := text[i];
    }
    buffer[at + n] := '\0';
    return |text|;
  }

  /** One entry and its bar, appended to the `length` characters already there. */
  method PrintEntry(buffer: array<char>, length: nat, id: nat, value: nat) returns (fits: bool)
    requires length < buffer.Length && id < CAN_ID_COUNT && value < U16
    modifies buffer
    ensures fits <==> ENTRY_LENGTH < buffer.Length - length
    ensures fits ==> buffer[..length + ENTRY_LENGTH] == old(buffer[..length]) + Entry(id, value) + "|"
    ensures fits ==> buffer[length + ENTRY_LENGTH] == '\0'
    ensures !fits ==> buffer[..length] == old(buffer[..length])
  {
    EntryLength(id, value);
    var text := Entry(id, value) + "|";
    var written := Snprintf(buffer, length, text);
    fits := written < buffer.Length - length;
    if fits {
      assert buffer[..length + written] == buffer[..length] + buffer[length..length + written];
      assert old(buffer[..length]) + text == old(buffer[..length]) + Entry(id, value) + "|";
    }
  }

  class CanCache {
    const values: array<int>
    const dirty: array<bool>

    function Contents(): Cache
      reads values, dirty
    {
      Cache(values[..], dirty[..])
    }

    constructor ()
      ensures Contents() == Initial() && Valid(Contents()) && fresh(values) && fresh(dirty)
    {
      values := new int[CAN_ID_COUNT](_ => -1);
      dirty := new bool[CAN_ID_COUNT](_ => false);
      new;
      assert values[..] == Initial().values && dirty[..] == Initial().dirty;
    }

    /** `can_bus_store_rx`. */
    method StoreRx(f: CanFrame)
      requires Valid(Contents()) && WellFormed(f)
      modifies values, dirty
      ensures Valid(Contents()) && Contents() == Receive(old(Contents()), f)
    {
      if Flagged(f) {
        return;
      }
      values[RxId(f)] := RxValue(f);
      dirty[RxId(f)] := true;
    }

    /** One id of the loop of `can_bus_format_dirty`. */
    method PrintIfDirty(buffer: array<char>, length: nat, id: nat) returns (length': nat, full: bool)
      requires length < buffer.Length && buffer[length] == '\0'
      requires id < dirty.Length == values.Length <= CAN_ID_COUNT && values[id] < U16
      modifies dirty, buffer
      ensures full <==> old(Pending(Contents(), id)) && ENTRY_LENGTH >= buffer.Length - length
      ensures !full && old(Pending(Contents(), id)) ==>
                && length' == length + ENTRY_LENGTH < buffer.Length
                && buffer[..length'] == old(buffer[..length]) + Entry(id, values[id]) + "|"
                && dirty[..] == old(dirty[..])[id := false]
      ensures full || !old(Pending(Contents(), id)) ==>
                && length' == length && buffer[..length'] == old(buffer[..length])
                && dirty[..] == old(dirty[..])
      ensures !full ==> buffer[length'] == '\0'
    {
      length', full := length, false;
      if dirty[id] && values[id] >= 0 {
        var fits := PrintEntry(buffer, length, id, values[id]);
        if !fits {
          full := true;
          return;
        }
        length' := length + ENTRY_LENGTH;
        ghost var text := buffer[..length'];
        dirty[id] := false;
        assert buffer[..length'] == text;
      }
    }

    /** The loop of `can_bus_format_dirty`; `seen` is the first id it did not deal with. */
    method PrintDirty(buffer: array<char>) returns (length: nat, ghost seen: nat)
      requires Valid(Contents()) && buffer.Length > 0
      modifies dirty, buffer
      ensures seen <= dirty.Length && length < buffer.Length
      ensures Emitted(old(Contents()), buffer.Length) == DirtyBelow(old(Contents()), seen)
      ensures buffer[..length] == Lines(old(Contents()), DirtyBelow(old(Contents()), seen))
      ensures length == 0 && buffer.Length > ENTRY_LENGTH ==> buffer[0] == '\0'
      ensures dirty[..] == ClearedBelow(old(Contents()), seen)
    {
      ghost var c := Contents();
      length, seen := 0, 0;
      buffer[0] := '\0';
      assert dirty[..] == ClearedBelow(c, 0);
      for id := 0 to dirty.Length
        invariant values[..] == c.values && seen == id && length < buffer.Length && buffer[length] == '\0'
        invariant Shows(c, id, buffer[..length], dirty[..])
      {
        ShowsStep(c, id, buffer[..length], dirty[..]);
        var full;
        length, full := PrintIfDirty(buffer, length, id);
        if full {
          EmittedIs(c, buffer.Length, id, true);
          return;
        }
        seen := id + 1;
      }
      EmittedIs(c, buffer.Length, seen, false);
    }

    /** `can_bus_format_dirty`: prints dirty entries until the buffer is full. */
    method FormatDirty(buffer: array<char>) returns (length: nat)
      requires Valid(Contents())
      modifies dirty, buffer
      ensures Contents() == Flushed(old(Contents()), buffer.Length)
      ensures length <= buffer.Length && buffer[..length] == FlushText(old(Contents()), buffer.Length)
      ensures buffer.Length > ENTRY_LENGTH ==> length < buffer.Length && buffer[length] == '\0'
    {
      ghost var c := Contents();
      if buffer.Length == 0 {
        assert dirty[..] == Flushed(c, 0).dirty;
        return 0;
      }
      ghost var seen;
      length, seen := PrintDirty(buffer);
      FlushedUpTo(c, buffer.Length, seen);
      assert dirty[..] == Flushed(c, buffer.Length).dirty;
      if length > 0 {
        ghost var lines := buffer[..length];
        buffer[length - 1] := '\0';
        length := length - 1;
        assert buffer[..length] == lines[..length];
      }
    }
  }

  /** The loop stops at the end or where the next entry no longer fits: that is the quota. */
  lemma EmittedIs(c: Cache, capacity: nat, id: nat, full: bool)
    requires id <= |c.values| == |c.dirty|
    requires ENTRY_LENGTH * |DirtyBelow(c, id)| < capacity
    requires if full then
               id < |c.values| && Pending(c, id) && ENTRY_LENGTH >= capacity - ENTRY_LENGTH * |DirtyBelow(c, id)|
             else id == |c.values|
    ensures Emitted(c, capacity) == DirtyBelow(c, id)
  {
    DirtyPrefix(c, id, |c.values|);
  }
}
