/**
 The wiggle table of src/control/wiggle.c: 16 slots that are both an allocator and a timed
 toggler, and the system state of src/control/state.c, which share one lock.

 Each operation is given twice: as a method on the array of slots, as the source works, and as a
 function on its contents.  `tx` records every send attempt; the result of an attempt does not
 change the table.
 */
module Wiggle {
  const MAX_WIGGLES: nat := 16
  const MAX_CAN_ID: nat := 0x7FF

  datatype Mode = Prechilling | Hotfire

  datatype Slot = Slot(
    active: bool, id: nat, startValue: nat, endValue: nat, currentValue: nat, exitValue: nat,
    period: nat, total: nat, nextToggle: nat, stopTime: nat)

  const ZERO_SLOT := Slot(false, 0, 0, 0, 0, 0, 0, 0, 0, 0)

  datatype Send = Send(id: nat, value: nat)

  /** What a WIGGLE entry asks for. */
  datatype Request = Request(
    id: nat, startValue: nat, endValue: nat, exitValue: nat, period: nat, total: nat)

  /** One critical section of the state lock. */
  datatype Op =
    | Start(request: Request, now: nat)
    | Stop(id: nat)
    | StopAll(sendExit: bool)
    | Tick(now: nat)
    | SetMode(mode: Mode)

  datatype Table = Table(mode: Mode, slots: seq<Slot>, tx: seq<Send>)

  function Empty(): Table { Table(Prechilling, seq(MAX_WIGGLES, _ => ZERO_SLOT), []) }

  // ---------------------------------------------------------------- functions on the contents

  function SlotOf(slots: seq<Slot>, id: nat): (k: nat)
    ensures k <= |slots|
    ensures k < |slots| ==> slots[k].active && slots[k].id == id
    ensures forall i :: 0 <= i < k ==> !(slots[i].active && slots[i].id == id)
  {
    if slots == [] then 0
    else
      var n := |slots| - 1;
      var k := SlotOf(slots[..n], id);
      if k < n then k else if slots[n].active && slots[n].id == id then n else n + 1
  }

  function FreeSlot(slots: seq<Slot>): (k: nat)
    ensures k <= |slots|
    ensures k < |slots| ==> !slots[k].active
    ensures forall i :: 0 <= i < k ==> slots[i].active
  {
    if slots == [] then 0
    else
      var n := |slots| - 1;
      var k := FreeSlot(slots[..n]);
      if k < n then k else if !slots[n].active then n else n + 1
  }

  predicate Valid(request: Request) {
    request.period > 0 && request.id <= MAX_CAN_ID
  }

  function Opened(r: Request, now: nat): Slot {
    Slot(true, r.id, r.startValue, r.endValue, r.startValue, r.exitValue, r.period, r.total,
         now + r.period, if r.total > 0 then now + r.total else 0)
  }

  predicate Expired(s: Slot, now: nat) {
    s.total > 0 && s.stopTime > 0 && now >= s.stopTime
  }

  function NextValue(s: Slot): nat {
    if s.currentValue == s.startValue then s.endValue else s.startValue
  }

  function Toggled(s: Slot, now: nat): Slot {
    s.(currentValue := NextValue(s), nextToggle := now + s.period)
  }

  function TickSlot(s: Slot, now: nat): Slot {
    if !s.active then s
    else if Expired(s, now) then ZERO_SLOT
    else if now < s.nextToggle then s
    else Toggled(s, now)
  }

  function TickSend(s: Slot, now: nat): seq<Send> {
    if !s.active then []
    else if Expired(s, now) then [Send(s.id, s.exitValue)]
    else if now < s.nextToggle then []
    else [Send(s.id, NextValue(s))]
  }

  function TickSlots(slots: seq<Slot>, now: nat): (r: seq<Slot>)
    ensures |r| == |slots| && forall i :: 0 <= i < |slots| ==> r[i] == TickSlot(slots[i], now)
  {
    seq(|slots|, i requires 0 <= i < |slots| => TickSlot(slots[i], now))
  }

  function TickSends(slots: seq<Slot>, now: nat): seq<Send> {
    if slots == [] then []
    else TickSends(slots[..|slots| - 1], now) + TickSend(slots[|slots| - 1], now)
  }

  function ExitSends(slots: seq<Slot>): seq<Send> {
    if slots == [] then []
    else
      var last := slots[|slots| - 1];
      ExitSends(slots[..|slots| - 1]) + if last.active then [Send(last.id, last.exitValue)] else []
  }

  function Cleared(slots: seq<Slot>): (r: seq<Slot>)
    ensures |r| == |slots|
    ensures forall i :: 0 <= i < |slots| ==> r[i] == if slots[i].active then ZERO_SLOT else slots[i]
  {
    seq(|slots|, i requires 0 <= i < |slots| => if slots[i].active then ZERO_SLOT else slots[i])
  }

  /** The slot a start writes to: the one with the same id, or a free one; |slots| if there is none. */
  function TargetSlot(slots: seq<Slot>, id: nat): (k: nat)
    ensures k <= |slots|
  {
    var found := SlotOf(slots, id);
    if found < |slots| then found else FreeSlot(slots)
  }

  predicate Starts(slots: seq<Slot>, r: Request) {
    Valid(r) && TargetSlot(slots, r.id) < |slots|
  }

  function Apply(t: Table, op: Op): Table {
    match op
    case Start(r, now) =>
      if Starts(t.slots, r) then
        t.(slots := t.slots[TargetSlot(t.slots, r.id) := Opened(r, now)],
           tx := t.tx + [Send(r.id, r.startValue)])
      else t
    case Stop(id) =>
      var k := SlotOf(t.slots, id);
      if k < |t.slots| then
        t.(slots := t.slots[k := ZERO_SLOT], tx := t.tx + [Send(id, t.slots[k].exitValue)])
      else t
    case StopAll(sendExit) =>
      t.(slots := Cleared(t.slots), tx := t.tx + if sendExit then ExitSends(t.slots) else [])
    case Tick(now) =>
      if t.mode == Prechilling then
        t.(slots := TickSlots(t.slots, now), tx := t.tx + TickSends(t.slots, now))
      else t
    case SetMode(mode) => t.(mode := mode)
  }

  function Run(ops: seq<Op>): Table {
    if ops == [] then Empty() else Apply(Run(ops[..|ops| - 1]), ops[|ops| - 1])
  }

  // ---------------------------------------------------------------- the table in memory

  class WiggleTable {
    const slots: array<Slot>
    var mode: Mode
    var tx: seq<Send>

    constructor ()
      ensures Contents() == Empty() && fresh(slots)
    {
      slots := new Slot[MAX_WIGGLES](_ => ZERO_SLOT);
      mode, tx := Prechilling, [];
      new;
      assert slots[..] == Empty().slots;
    }

    function Contents(): Table
      reads this, slots
    {
      Table(mode, slots[..], tx)
    }

    method FindSlot(id: nat) returns (k: nat)
      ensures k == SlotOf(slots[..], id)
    {
      k := 0;
      while k < slots.Length
        invariant k <= slots.Length
        invariant forall i :: 0 <= i < k ==> !(slots[i].active && slots[i].id == id)
      {
        if slots[k].active && slots[k].id == id {
          return;
        }
        k := k + 1;
      }
    }

    method AllocSlot() returns (k: nat)
      ensures k == FreeSlot(slots[..])
    {
      k := 0;
      while k < slots.Length
        invariant k <= slots.Length
        invariant forall i :: 0 <= i < k ==> slots[i].active
      {
        if !slots[k].active {
          return;
        }
        k := k + 1;
      }
    }

    /** `wiggle_start`. */
    method Start(r: Request, now: nat) returns (ok: bool)
      modifies this, slots
      ensures Contents() == Apply(old(Contents()), Op.Start(r, now))
      ensures ok <==> Starts(old(slots[..]), r)
    {
      if r.period == 0 || r.id > MAX_CAN_ID {
        return false;
      }
      var k := FindSlot(r.id);
      if k == slots.Length {
        k := AllocSlot();
      }
      if k == slots.Length {
        return false;
      }
      slots[k] := Opened(r, now);
      tx := tx + [Send(r.id, r.startValue)];
      return true;
    }

    /** `wiggle_stop`. */
    method Stop(id: nat) returns (stopped: bool)
      modifies this, slots
      ensures Contents() == Apply(old(Contents()), Op.Stop(id))
      ensures stopped <==> exists i :: 0 <= i < slots.Length && old(slots[i].active && slots[i].id == id)
    {
      var k := FindSlot(id);
      stopped := k < slots.Length;
      if stopped {
        tx := tx + [Send(id, slots[k].exitValue)];
        slots[k] := ZERO_SLOT;
      }
    }

    /** `wiggle_stop_all`. */
    method StopAll(sendExit: bool) returns (stopped: nat)
      modifies this, slots
      ensures Contents() == Apply(old(Contents()), Op.StopAll(sendExit))
      ensures stopped == |ExitSends(old(slots[..]))|
    {
      stopped := 0;
      ghost var was := slots[..];
      for i := 0 to slots.Length
        invariant mode == old(mode)
        invariant forall j :: 0 <= j < i ==> slots[j] == if was[j].active then ZERO_SLOT else was[j]
        invariant forall j :: i <= j < slots.Length ==> slots[j] == was[j]
        invariant tx == old(tx) + if sendExit then ExitSends(was[..i]) else []
        invariant stopped == |ExitSends(was[..i])|
      {
        assert was[..i + 1][..i] == was[..i];
        if slots[i].active {
          if sendExit {
            tx := tx + [Send(slots[i].id, slots[i].exitValue)];
          }
          slots[i] := ZERO_SLOT;
          stopped := stopped + 1;
        }
      }
      assert was[..slots.Length] == was;
      assert slots[..] == Cleared(was);
    }

    /** One slot of `wiggle_process`. */
    method ProcessSlot(i: nat, now: nat)
      requires i < slots.Length
      modifies `tx, slots
      ensures slots[i] == TickSlot(old(slots[i]), now)
      ensures forall j :: 0 <= j < slots.Length && j != i ==> slots[j] == old(slots[j])
      ensures tx == old(tx) + TickSend(old(slots[i]), now)
    {
      var s := slots[i];
      if s.active {
        if s.total > 0 && s.stopTime > 0 && now >= s.stopTime {
          tx := tx + [Send(s.id, s.exitValue)];
          slots[i] := ZERO_SLOT;
        } else if now >= s.nextToggle {
          var next := if s.currentValue == s.startValue then s.endValue else s.startValue;
          tx := tx + [Send(s.id, next)];
          slots[i] := s.(currentValue := next, nextToggle := now + s.period);
        }
      }
    }

    /** `wiggle_process`. */
    method Process(now: nat)
      modifies this, slots
      ensures Contents() == Apply(old(Contents()), Tick(now))
    {
      if mode != Prechilling {
        return;
      }
      ghost var was := slots[..];
      for i := 0 to slots.Length
        invariant mode == old(mode)
        invariant forall j :: 0 <= j < i ==> slots[j] == TickSlot(was[j], now)
        invariant forall j :: i <= j < slots.Length ==> slots[j] == was[j]
        invariant tx == old(tx) + TickSends(was[..i], now)
      {
        assert was[..i + 1][..i] == was[..i];
        ProcessSlot(i, now);
      }
      assert was[..slots.Length] == was;
      assert slots[..] == TickSlots(was, now);
    }

    /** The lock-protected part of `app_state_set`. */
    method SetMode(mode: Mode) returns (changed: bool)
      modifies `mode
      ensures Contents() == Apply(old(Contents()), Op.SetMode(mode))
      ensures changed <==> old(this.mode) != mode
    {
      changed := this.mode != mode;
      this.mode := mode;
    }
  }
}
