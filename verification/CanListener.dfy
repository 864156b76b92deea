/** A listener that parses every flushed text holds what the cache holds. */
module CanListener {
  import opened Base
  import opened Scan
  import opened CanCache

  const RAW_WITH_DURATION := Number(16, U32, Hash(Number(16, U16, Hash(Number(10, U16, End)))))
  const RAW := Number(16, U32, Hash(Number(16, U16, End)))

  /** `duration` is `None` when the text has no third field. */
  datatype RawCommand = RawCommand(id: nat, value: nat, duration: Option<nat>)

  /** `parse_raw_can_fields` of src/control/command.c; what follows the fields is not looked at. */
  function ParseRaw(text: string): Option<RawCommand> {
    var three := Sscanf(RAW_WITH_DURATION, text);
    if |three| == 3 then Some(RawCommand(three[0], three[1], Some(three[2])))
    else
      var two := Sscanf(RAW, text);
      if |two| == 2 then Some(RawCommand(two[0], two[1], None)) else None
  }

  /** Two hexadecimal fields, read by a format that starts with them. */
  lemma TwoFields(f: Format, a: string, b: string)
    requires a != "" && b != "" && AllDigits(a, 16) && AllDigits(b, 16)
    ensures Sscanf(Number(16, U32, Hash(Number(16, U16, f))), a + ("#" + b))
         == [Numeral(a, 16) % U32, Numeral(b, 16) % U16] + Sscanf(f, "")
  {
    SscanfField(16, U32, Number(16, U16, f), a, b);
    SscanfLast(16, U16, f, b);
  }

  lemma ParseTwo(a: string, b: string)
    requires a != "" && b != "" && AllDigits(a, 16) && AllDigits(b, 16)
    ensures ParseRaw(a + ("#" + b)) == Some(RawCommand(Numeral(a, 16) % U32, Numeral(b, 16) % U16, None))
  {
    TwoFields(Hash(Number(10, U16, End)), a, b);
    TwoFields(End, a, b);
  }

  lemma EntryText(id: nat, value: nat)
    ensures Entry(id, value) == Padded(id, 16, 3) + ("#" + Padded(value, 16, 4))
  {
  }

  /** Printing a value and parsing it gives id and value back. */
  lemma EntryRoundTrip(id: nat, value: nat)
    requires id < CAN_ID_COUNT && value < U16
    ensures ParseRaw(Entry(id, value)) == Some(RawCommand(id, value, None))
  {
    EntryText(id, value);
    assert id % U32 == id && value % U16 == value;
    ParseTwo(Padded(id, 16, 3), Padded(value, 16, 4));
  }

  /** A raw command as the command reference writes it. */
  function PrintRaw(raw: RawCommand): string {
    Padded(raw.id, 16, 3) + ("#" + (Padded(raw.value, 16, 4)
      + if raw.duration.Some? then "#" + Digits(raw.duration.value, 10) else ""))
  }

  /** Two hexadecimal fields and a decimal one. */
  lemma ParseThree(a: string, b: string, c: string)
    requires a != "" && b != "" && c != "" && AllDigits(a, 16) && AllDigits(b, 16) && AllDigits(c, 10)
    ensures ParseRaw(a + ("#" + (b + ("#" + c))))
         == Some(RawCommand(Numeral(a, 16) % U32, Numeral(b, 16) % U16, Some(Numeral(c, 10) % U16)))
  {
    SscanfField(16, U32, Number(16, U16, Hash(Number(10, U16, End))), a, b + ("#" + c));
    SscanfField(16, U16, Number(10, U16, End), b, c);
    SscanfLast(10, U16, End, c);
  }

  /** Printing a raw command, with or without a duration, and parsing it gives the command back. */
  lemma RawRoundTrip(raw: RawCommand)
    requires raw.id < U32 && raw.value < U16 && (raw.duration.Some? ==> raw.duration.value < U16)
    ensures ParseRaw(PrintRaw(raw)) == Some(raw)
  {
    var a, b := Padded(raw.id, 16, 3), Padded(raw.value, 16, 4);
    assert raw.id % U32 == raw.id && raw.value % U16 == raw.value;
    if raw.duration.Some? {
      var c := Digits(raw.duration.value, 10);
      DigitsNumeral(raw.duration.value, 10);
      assert raw.duration.value % U16 == raw.duration.value;
      ParseThree(a, b, c);
    } else {
      assert b + "" == b;
      ParseTwo(a, b);
    }
  }

  lemma EntryIsToken(id: nat, value: nat)
    ensures Entry(id, value) != "" && '|' !in Entry(id, value)
  {
  }

  type Listener = map<nat, nat>

  function Parsed(tokens: seq<string>): (r: seq<Option<RawCommand>>)
    ensures |r| == |tokens| && forall i :: 0 <= i < |tokens| ==> r[i] == ParseRaw(tokens[i])
  {
    seq(|tokens|, i requires 0 <= i < |tokens| => ParseRaw(tokens[i]))
  }

  function Apply(l: Listener, commands: seq<Option<RawCommand>>): Listener
    decreases |commands|
  {
    if commands == [] then l
    else
      var l' := match commands[0] case None => l case Some(r) => l[r.id := r.value];
      Apply(l', commands[1..])
  }

  /** A listener receives one text: it applies each token it can parse, in order. */
  function Hear(l: Listener, text: string): Listener { Apply(l, Parsed(Tokens(text))) }

  // ---------------------------------------------------------------- one flush

  ghost predicate Printable(c: Cache, ids: seq<nat>) {
    forall i :: 0 <= i < |ids| ==> ids[i] < |c.values| <= CAN_ID_COUNT && 0 <= c.values[ids[i]] < U16
  }

  ghost function Restrict(c: Cache, ids: seq<nat>): map<nat, nat>
    requires Printable(c, ids)
  {
    map id | id in ids :: c.values[id]
  }

  ghost function Updates(c: Cache, ids: seq<nat>): (r: seq<Option<RawCommand>>)
    requires Printable(c, ids)
    ensures |r| == |ids|
    ensures forall i :: 0 <= i < |ids| ==> r[i] == Some(RawCommand(ids[i], c.values[ids[i]], None))
  {
    seq(|ids|, i requires 0 <= i < |ids| => Some(RawCommand(ids[i], c.values[ids[i]], None)))
  }

  /** Updates for some ids, applied in order, set these ids to what the cache holds. */
  lemma {:induction false} ApplyUpdates(l: Listener, c: Cache, ids: seq<nat>)
    requires Printable(c, ids)
    ensures Apply(l, Updates(c, ids)) == l + Restrict(c, ids)
    decreases |ids|
  {
    if ids == [] {
      assert l + Restrict(c, ids) == l;
    } else {
      assert Updates(c, ids)[1..] == Updates(c, ids[1..]);
      ApplyUpdates(l[ids[0] := c.values[ids[0]]], c, ids[1..]);
      RestrictFront(l, c, ids);
    }
  }

  lemma RestrictFront(l: Listener, c: Cache, ids: seq<nat>)
    requires Printable(c, ids) && ids != [] && Printable(c, ids[1..])
    ensures l + Restrict(c, ids) == l[ids[0] := c.values[ids[0]]] + Restrict(c, ids[1..])
  {
  }

  /** A flush, as the listener hears it. */
  lemma {:induction false} HearFlush(l: Listener, c: Cache, capacity: nat)
    requires Valid(c)
    ensures Hear(l, FlushText(c, capacity)) == l + Restrict(c, Emitted(c, capacity))
  {
    var ids := Emitted(c, capacity);
    var entries := Entries(c, ids);
    forall i | 0 <= i < |ids|
      ensures entries[i] != "" && '|' !in entries[i]
      ensures ParseRaw(entries[i]) == Updates(c, ids)[i]
    {
      EntryIsToken(ids[i], c.values[ids[i]]);
      EntryRoundTrip(ids[i], c.values[ids[i]]);
    }
    TokensOfJoined(entries);
    assert Parsed(entries) == Updates(c, ids);
    ApplyUpdates(l, c, ids);
  }

  // ---------------------------------------------------------------- whole runs

  datatype Event = Rx(frame: CanFrame) | Flush

  datatype World = World(cache: Cache, listener: Listener)

  function Step(w: World, e: Event): World
    requires |w.cache.values| == |w.cache.dirty| == CAN_ID_COUNT && (e.Rx? ==> WellFormed(e.frame))
  {
    match e
    case Rx(frame) => w.(cache := Receive(w.cache, frame))
    case Flush => World(Flushed(w.cache, FLUSH_CAPACITY), Hear(w.listener, FlushText(w.cache, FLUSH_CAPACITY)))
  }

  function Run(events: seq<Event>): (w: World)
    requires forall i :: 0 <= i < |events| && events[i].Rx? ==> WellFormed(events[i].frame)
    ensures |w.cache.values| == |w.cache.dirty| == CAN_ID_COUNT
  {
    if events == [] then World(Initial(), map[]) else Step(Run(events[..|events| - 1]), events[|events| - 1])
  }

  /** Every id that is not dirty reads the same at the listener and in the cache. */
  ghost predicate Agree(w: World) {
    && Valid(w.cache)
    && forall id: nat :: id < CAN_ID_COUNT && !w.cache.dirty[id] ==>
         && (id in w.listener <==> w.cache.values[id] >= 0)
         && (id in w.listener ==> w.listener[id] == w.cache.values[id])
  }

  /** The listener after a flush, id by id. */
  lemma {:induction false} HeardAt(w: World, id: nat)
    requires Valid(w.cache)
    ensures var l', emitted := Step(w, Flush).listener, Emitted(w.cache, FLUSH_CAPACITY);
            && (id in l' <==> id in w.listener || id in emitted)
            && (id in l' ==> l'[id] == if id in emitted then w.cache.values[id] else w.listener[id])
  {
    HearFlush(w.listener, w.cache, FLUSH_CAPACITY);
  }

  lemma {:induction false} FlushAgrees(w: World)
    requires Agree(w)
    ensures Agree(Step(w, Flush))
  {
    var w' := Step(w, Flush);
    FlushKeepsValid(w.cache, FLUSH_CAPACITY);
    forall id: nat | id < CAN_ID_COUNT && !w'.cache.dirty[id]
      ensures id in w'.listener <==> w'.cache.values[id] >= 0
      ensures id in w'.listener ==> w'.listener[id] == w'.cache.values[id]
    {
      HeardAt(w, id);
    }
  }

  /**
   Cache agreement end to end: after any mix of received frames and flushes, a listener that
   applied every flushed text agrees with the cache on every id that is not dirty.
   */
  lemma {:induction false} ListenerAgrees(events: seq<Event>)
    requires forall i :: 0 <= i < |events| && events[i].Rx? ==> WellFormed(events[i].frame)
    ensures Agree(Run(events))
  {
    if events != [] {
      var before, last := Run(events[..|events| - 1]), events[|events| - 1];
      ListenerAgrees(events[..|events| - 1]);
      if last.Flush? {
        FlushAgrees(before);
      }
    }
  }

  /** Each flush emits ids in ascending order and splits the dirty set into emitted and still dirty. */
  lemma {:induction false} FlushPartitions(c: Cache, capacity: nat)
    requires Valid(c)
    ensures var emitted, after := Emitted(c, capacity), Flushed(c, capacity);
            && (forall i, j :: 0 <= i < j < |emitted| ==> emitted[i] < emitted[j])
            && (forall id: nat :: id in emitted ==> id < CAN_ID_COUNT && c.dirty[id] && !after.dirty[id])
            && (forall id: nat :: id < CAN_ID_COUNT ==> (c.dirty[id] <==> id in emitted || after.dirty[id]))
            && after.values == c.values
  {
    DirtyBelowSorted(c, CAN_ID_COUNT);
    var ids, emitted := DirtyIds(c), Emitted(c, capacity);
    assert forall id: nat :: id in emitted ==> id in ids;
  }

  // ---------------------------------------------------------------- draining

  /** A dirty id is emitted exactly when few enough dirty ids come before it. */
  lemma {:induction false} EmittedIff(c: Cache, capacity: nat, id: nat)
    requires Valid(c) && id < CAN_ID_COUNT && Pending(c, id)
    ensures id in Emitted(c, capacity) <==> |DirtyBelow(c, id)| < |Emitted(c, capacity)|
  {
    var ids, k := DirtyIds(c), |DirtyBelow(c, id)|;
    DirtyPrefix(c, id + 1, CAN_ID_COUNT);
    assert DirtyBelow(c, id + 1) == DirtyBelow(c, id) + [id];
    assert ids[k] == ids[..k + 1][k] == id;
    DirtyBelowSorted(c, CAN_ID_COUNT);
    var emitted := Emitted(c, capacity);
    if id in emitted {
      var i :| 0 <= i < |emitted| && emitted[i] == id;
      assert ids[i] == id;
    }
    assert k < |emitted| ==> emitted[k] == id;
  }

  /** A flush removes the emitted ids from the front of the list, and nothing else. */
  lemma {:induction false} FlushDropsFront(c: Cache, capacity: nat, n: nat)
    requires Valid(c) && n <= CAN_ID_COUNT
    ensures var ids, done := DirtyBelow(c, n), |Emitted(c, capacity)|;
            DirtyBelow(Flushed(c, capacity), n) == if |ids| <= done then [] else ids[done..]
  {
    if n > 0 {
      FlushDropsFront(c, capacity, n - 1);
      if Pending(c, n - 1) {
        EmittedIff(c, capacity, n - 1);
      }
    }
  }

  function FlushTimes(c: Cache, k: nat): (r: Cache)
    requires |c.values| == |c.dirty|
    ensures |r.values| == |r.dirty| == |c.values|
  {
    if k == 0 then c else Flushed(FlushTimes(c, k - 1), FLUSH_CAPACITY)
  }

  lemma {:induction false} AtMostAll(c: Cache, n: nat)
    requires n <= |c.values| == |c.dirty|
    ensures |DirtyBelow(c, n)| <= n
  {
    if n > 0 {
      AtMostAll(c, n - 1);
    }
  }

  lemma FlushKeepsValid(c: Cache, capacity: nat)
    requires Valid(c)
    ensures Valid(Flushed(c, capacity))
  {
  }

  /** With the 8192-byte buffer a flush emits exactly min(n, 910) of n dirty ids. */
  lemma FlushCount(c: Cache)
    requires Valid(c)
    ensures Quota(FLUSH_CAPACITY) == 910
    ensures |Emitted(c, FLUSH_CAPACITY)| == Min(|DirtyIds(c)|, 910)
    ensures DirtyIds(Flushed(c, FLUSH_CAPACITY)) == DirtyIds(c)[Min(|DirtyIds(c)|, 910)..]
  {
    FlushDropsFront(c, FLUSH_CAPACITY, CAN_ID_COUNT);
  }

  /** Drain bound: without new frames k flushes leave the dirty ids from position 910 k on. */
  lemma {:induction false} DrainBound(c: Cache, k: nat)
    requires Valid(c)
    ensures Valid(FlushTimes(c, k))
    ensures DirtyIds(FlushTimes(c, k)) == DirtyIds(c)[Min(|DirtyIds(c)|, 910 * k)..]
    ensures |DirtyIds(FlushTimes(c, k))| == Max(0, |DirtyIds(c)| - 910 * k)
  {
    if k > 0 {
      DrainBound(c, k - 1);
      var before := FlushTimes(c, k - 1);
      FlushKeepsValid(before, FLUSH_CAPACITY);
      FlushCount(before);
      DropTwice(DirtyIds(c), Min(|DirtyIds(c)|, 910 * (k - 1)), Min(|DirtyIds(before)|, 910));
    }
  }

  lemma DropTwice(s: seq<nat>, a: nat, b: nat)
    requires a + b <= |s|
    ensures s[a..][b..] == s[a + b..]
  {
  }

  /** Three flushes empty all 2048 ids. */
  lemma ThreeFlushesDrain(c: Cache)
    requires Valid(c)
    ensures forall id :: 0 <= id < CAN_ID_COUNT ==> !FlushTimes(c, 3).dirty[id]
  {
    DrainBound(c, 3);
    AtMostAll(c, CAN_ID_COUNT);
    DirtyBelowSorted(FlushTimes(c, 3), CAN_ID_COUNT);
    forall id | 0 <= id < CAN_ID_COUNT ensures !FlushTimes(c, 3).dirty[id] {
      assert id !in DirtyIds(FlushTimes(c, 3));
    }
  }
}
