/** The slot table refines a map from id to running session, of size at most 16. */
module WiggleMap {
  import opened Wiggle

  ghost predicate Distinct(slots: seq<Slot>) {
    forall i, j :: 0 <= i < j < |slots| && slots[i].active && slots[j].active ==> slots[i].id != slots[j].id
  }

  /** A slot is all zero, or a running session that sits at one of its two values. */
  ghost predicate GoodSlot(s: Slot) {
    if s.active then
      && s.id <= MAX_CAN_ID && s.period > 0
      && (s.currentValue == s.startValue || s.currentValue == s.endValue)
    else s == ZERO_SLOT
  }

  ghost predicate Inv(slots: seq<Slot>) {
    && |slots| == MAX_WIGGLES && Distinct(slots)
    && forall i :: 0 <= i < |slots| ==> GoodSlot(slots[i])
  }

  /** The sessions in the table, by id. */
  ghost function Abs(slots: seq<Slot>): map<nat, Slot> {
    map id: nat | id <= MAX_CAN_ID && SlotOf(slots, id) < |slots| :: slots[SlotOf(slots, id)]
  }

  /** Start succeeds iff the request is valid and the id is present or a place is left. */
  ghost predicate CanStart(m: map<nat, Slot>, r: Request) {
    r.period > 0 && r.id <= 0x7FF && (r.id in m || |m| < 16)
  }

  ghost function MapApply(m: map<nat, Slot>, mode: Mode, op: Op): map<nat, Slot> {
    match op
    case Start(r, now) => if CanStart(m, r) then m[r.id := Opened(r, now)] else m
    case Stop(id) => m - {id}
    case StopAll(_) => map[]
    case Tick(now) =>
      if mode != Prechilling then m
      else map id | id in m && !Expired(m[id], now) ::
             if now < m[id].nextToggle then m[id] else Toggled(m[id], now)
    case SetMode(_) => m
  }

  /** What one operation sends for `id`. */
  ghost function MapSends(m: map<nat, Slot>, mode: Mode, op: Op, id: nat): seq<nat> {
    match op
    case Start(r, _) => if r.id == id && CanStart(m, r) then [r.startValue] else []
    case Stop(j) => if j == id && id in m then [m[id].exitValue] else []
    case StopAll(sendExit) => if sendExit && id in m then [m[id].exitValue] else []
    case Tick(now) =>
      if mode != Prechilling || id !in m then []
      else if Expired(m[id], now) then [m[id].exitValue]
      else if now < m[id].nextToggle then []
      else [NextValue(m[id])]
    case SetMode(_) => []
  }

  /** The values sent to one id. */
  function SendsOf(tx: seq<Send>, id: nat): seq<nat> {
    if tx == [] then []
    else
      var last := tx[|tx| - 1];
      SendsOf(tx[..|tx| - 1], id) + if last.id == id then [last.value] else []
  }

  // ---------------------------------------------------------------- counting

  function Ids(slots: seq<Slot>): set<nat> {
    if slots == [] then {}
    else Ids(slots[..|slots| - 1]) + if slots[|slots| - 1].active then {slots[|slots| - 1].id} else {}
  }

  function ActiveCount(slots: seq<Slot>): nat {
    if slots == [] then 0
    else ActiveCount(slots[..|slots| - 1]) + if slots[|slots| - 1].active then 1 else 0
  }

  lemma {:induction false} IdsMember(slots: seq<Slot>, id: nat)
    ensures id in Ids(slots) <==> SlotOf(slots, id) < |slots|
  {
    if slots != [] {
      IdsMember(slots[..|slots| - 1], id);
    }
  }

  lemma {:induction false} IdsCount(slots: seq<Slot>)
    requires Distinct(slots)
    ensures |Ids(slots)| == ActiveCount(slots)
  {
    if slots != [] {
      var n := |slots| - 1;
      var init, last := slots[..n], slots[n];
      IdsCount(init);
      IdsMember(init, last.id);
      if last.active {
        assert last.id !in Ids(init);
      }
    }
  }

  lemma {:induction false} FullCount(slots: seq<Slot>)
    ensures ActiveCount(slots) <= |slots|
    ensures ActiveCount(slots) == |slots| <==> FreeSlot(slots) == |slots|
  {
    if slots != [] {
      FullCount(slots[..|slots| - 1]);
    }
  }

  /** A free slot is left exactly when fewer than 16 sessions run. */
  lemma FreeIffRoom(slots: seq<Slot>)
    requires Inv(slots)
    ensures |Abs(slots)| <= MAX_WIGGLES
    ensures FreeSlot(slots) < |slots| <==> |Abs(slots)| < MAX_WIGGLES
  {
    forall id: nat ensures id in Abs(slots) <==> id in Ids(slots) {
      IdsMember(slots, id);
    }
    assert Abs(slots).Keys == Ids(slots);
    assert |Abs(slots)| == |Abs(slots).Keys|;
    IdsCount(slots);
    FullCount(slots);
  }

  // ---------------------------------------------------------------- what is at which index

  /** With distinct ids, membership is the same as sitting in some slot. */
  lemma AbsAt(slots: seq<Slot>, i: nat)
    requires Distinct(slots) && i < |slots| && slots[i].active
    ensures SlotOf(slots, slots[i].id) == i
    ensures slots[i].id <= MAX_CAN_ID ==> slots[i].id in Abs(slots) && Abs(slots)[slots[i].id] == slots[i]
  {
  }

  /** Writing one slot changes the map at its old and its new id only. */
  lemma {:induction false} AbsUpdate(slots: seq<Slot>, k: nat, s: Slot, id: nat)
    requires Distinct(slots) && k < |slots| && Distinct(slots[k := s])
    ensures SlotOf(slots[k := s], id)
         == if s.active && s.id == id then k
            else if slots[k].active && slots[k].id == id then |slots|
            else SlotOf(slots, id)
  {
    var slots' := slots[k := s];
    var j, j' := SlotOf(slots, id), SlotOf(slots', id);
    if s.active && s.id == id {
      AbsAt(slots', k);
    } else if slots[k].active && slots[k].id == id {
      AbsAt(slots, k);
    } else {
      if j < |slots| { assert slots'[j] == slots[j]; AbsAt(slots', j); }
      if j' < |slots| { assert slots'[j'] == slots[j']; AbsAt(slots, j'); }
    }
  }

  // ---------------------------------------------------------------- sends per id

  lemma {:induction false} SendsOfConcat(a: seq<Send>, b: seq<Send>, id: nat)
    ensures SendsOf(a + b, id) == SendsOf(a, id) + SendsOf(b, id)
  {
    if b == [] {
      assert a + b == a;
    } else {
      SendsOfConcat(a, b[..|b| - 1], id);
      assert (a + b)[..|a + b| - 1] == a + b[..|b| - 1];
    }
  }

  lemma SendsOfOne(send: Send, id: nat)
    ensures SendsOf([send], id) == if send.id == id then [send.value] else []
  {
    assert [send][..0] == [];
  }

  lemma {:induction false} TickSendsOf(slots: seq<Slot>, now: nat, id: nat)
    requires Distinct(slots)
    ensures SendsOf(TickSends(slots, now), id)
         == if SlotOf(slots, id) < |slots| then SendsOf(TickSend(slots[SlotOf(slots, id)], now), id) else []
  {
    if slots != [] {
      var n := |slots| - 1;
      TickSendsOf(slots[..n], now, id);
      SendsOfConcat(TickSends(slots[..n], now), TickSend(slots[n], now), id);
      OtherIdSilent(slots[n], now, id);
    }
  }

  lemma OtherIdSilent(s: Slot, now: nat, id: nat)
    ensures !(s.active && s.id == id) ==> SendsOf(TickSend(s, now), id) == []
    ensures s.active && s.id == id ==>
              SendsOf(TickSend(s, now), id)
              == if Expired(s, now) then [s.exitValue] else if now < s.nextToggle then [] else [NextValue(s)]
  {
    SendsOfOne(Send(s.id, s.exitValue), id);
    SendsOfOne(Send(s.id, NextValue(s)), id);
  }

  lemma {:induction false} ExitSendsOf(slots: seq<Slot>, id: nat)
    requires Distinct(slots)
    ensures SendsOf(ExitSends(slots), id)
         == if SlotOf(slots, id) < |slots| then [slots[SlotOf(slots, id)].exitValue] else []
  {
    if slots != [] {
      var n := |slots| - 1;
      ExitSendsOf(slots[..n], id);
      SendsOfConcat(ExitSends(slots[..n]), if slots[n].active then [Send(slots[n].id, slots[n].exitValue)] else [], id);
      SendsOfOne(Send(slots[n].id, slots[n].exitValue), id);
    }
  }

  // ---------------------------------------------------------------- refinement, operation by operation

  /** What is promised of every operation: the invariant, the map and the sends to each id. */
  ghost predicate Refines(t: Table, op: Op) {
    var t', m := Apply(t, op), Abs(t.slots);
    && Inv(t'.slots)
    && Abs(t'.slots) == MapApply(m, t.mode, op)
    && forall id: nat :: id <= MAX_CAN_ID ==>
         SendsOf(t'.tx, id) == SendsOf(t.tx, id) + MapSends(m, t.mode, op, id)
  }

  lemma SendsOfSnoc(tx: seq<Send>, send: Send, id: nat)
    ensures SendsOf(tx + [send], id) == SendsOf(tx, id) + if send.id == id then [send.value] else []
  {
    assert (tx + [send])[..|tx|] == tx;
  }

  lemma StartKeepsInv(slots: seq<Slot>, r: Request, now: nat)
    requires Inv(slots) && Starts(slots, r)
    ensures Inv(slots[TargetSlot(slots, r.id) := Opened(r, now)])
  {
  }

  lemma {:induction false} StartMap(slots: seq<Slot>, r: Request, now: nat)
    requires Inv(slots) && Starts(slots, r)
    ensures Abs(slots[TargetSlot(slots, r.id) := Opened(r, now)]) == Abs(slots)[r.id := Opened(r, now)]
  {
    var k, s := TargetSlot(slots, r.id), Opened(r, now);
    var m, m' := Abs(slots)[r.id := s], Abs(slots[k := s]);
    StartKeepsInv(slots, r, now);
    forall id: nat ensures (id in m <==> id in m') && (id in m ==> m[id] == m'[id]) {
      AbsUpdate(slots, k, s, id);
    }
  }

  lemma StartIffRoom(slots: seq<Slot>, r: Request)
    requires Inv(slots)
    ensures Starts(slots, r) <==> CanStart(Abs(slots), r)
  {
    FreeIffRoom(slots);
  }

  lemma StartRefines(t: Table, r: Request, now: nat)
    requires Inv(t.slots)
    ensures Refines(t, Start(r, now))
  {
    StartIffRoom(t.slots, r);
    if Starts(t.slots, r) {
      StartKeepsInv(t.slots, r, now);
      StartMap(t.slots, r, now);
      forall id: nat ensures SendsOf(t.tx + [Send(r.id, r.startValue)], id)
                          == SendsOf(t.tx, id) + if id == r.id then [r.startValue] else []
      {
        SendsOfSnoc(t.tx, Send(r.id, r.startValue), id);
      }
    }
  }

  lemma {:induction false} StopMap(slots: seq<Slot>, id: nat)
    requires Inv(slots) && SlotOf(slots, id) < |slots|
    ensures Inv(slots[SlotOf(slots, id) := ZERO_SLOT])
    ensures Abs(slots[SlotOf(slots, id) := ZERO_SLOT]) == Abs(slots) - {id}
  {
    var k := SlotOf(slots, id);
    var m, m' := Abs(slots) - {id}, Abs(slots[k := ZERO_SLOT]);
    forall j: nat ensures (j in m <==> j in m') && (j in m ==> m[j] == m'[j]) {
      AbsUpdate(slots, k, ZERO_SLOT, j);
    }
  }

  lemma StopRefines(t: Table, id: nat)
    requires Inv(t.slots)
    ensures Refines(t, Stop(id))
  {
    var k := SlotOf(t.slots, id);
    if k < |t.slots| {
      StopMap(t.slots, id);
      forall j: nat ensures SendsOf(t.tx + [Send(id, t.slots[k].exitValue)], j)
                         == SendsOf(t.tx, j) + if j == id then [t.slots[k].exitValue] else []
      {
        SendsOfSnoc(t.tx, Send(id, t.slots[k].exitValue), j);
      }
    } else {
      assert Abs(t.slots) - {id} == Abs(t.slots);
    }
  }

  lemma {:induction false} StopAllMap(slots: seq<Slot>)
    requires Inv(slots)
    ensures Inv(Cleared(slots)) && Abs(Cleared(slots)) == map[]
  {
    assert Abs(Cleared(slots)).Keys == {};
  }

  lemma {:induction false} ExitSendsById(slots: seq<Slot>, sendExit: bool, mode: Mode, id: nat)
    requires Inv(slots) && id <= MAX_CAN_ID
    ensures SendsOf(if sendExit then ExitSends(slots) else [], id)
         == MapSends(Abs(slots), mode, StopAll(sendExit), id)
  {
    ExitSendsOf(slots, id);
  }

  lemma StopAllRefines(t: Table, sendExit: bool)
    requires Inv(t.slots)
    ensures Refines(t, StopAll(sendExit))
  {
    StopAllMap(t.slots);
    var sends := if sendExit then ExitSends(t.slots) else [];
    forall id: nat | id <= MAX_CAN_ID
      ensures SendsOf(t.tx + sends, id) == SendsOf(t.tx, id) + MapSends(Abs(t.slots), t.mode, StopAll(sendExit), id)
    {
      SendsOfConcat(t.tx, sends, id);
      ExitSendsById(t.slots, sendExit, t.mode, id);
    }
  }

  lemma TickKeepsInv(slots: seq<Slot>, now: nat)
    requires Inv(slots)
    ensures Inv(TickSlots(slots, now))
  {
  }

  lemma {:induction false} TickSlotOf(slots: seq<Slot>, now: nat, id: nat)
    requires Inv(slots)
    ensures var k := SlotOf(slots, id);
            SlotOf(TickSlots(slots, now), id) == if k < |slots| && !Expired(slots[k], now) then k else |slots|
  {
    var slots' := TickSlots(slots, now);
    var k, k' := SlotOf(slots, id), SlotOf(slots', id);
    TickKeepsInv(slots, now);
    if k' < |slots| {
      AbsAt(slots, k');
    }
    if k < |slots| && slots'[k].active {
      AbsAt(slots', k);
    }
  }

  lemma {:induction false} TickMap(slots: seq<Slot>, now: nat)
    requires Inv(slots)
    ensures Abs(TickSlots(slots, now)) == MapApply(Abs(slots), Prechilling, Tick(now))
  {
    var m, m' := MapApply(Abs(slots), Prechilling, Tick(now)), Abs(TickSlots(slots, now));
    forall id: nat ensures (id in m <==> id in m') && (id in m ==> m[id] == m'[id]) {
      TickSlotOf(slots, now, id);
    }
  }

  lemma {:induction false} TickSendsById(slots: seq<Slot>, now: nat, id: nat)
    requires Inv(slots) && id <= MAX_CAN_ID
    ensures SendsOf(TickSends(slots, now), id) == MapSends(Abs(slots), Prechilling, Tick(now), id)
  {
    TickSendsOf(slots, now, id);
    var k := SlotOf(slots, id);
    if k < |slots| { OtherIdSilent(slots[k], now, id); }
  }

  lemma {:induction false} TickRefines(t: Table, now: nat)
    requires Inv(t.slots) && t.mode == Prechilling
    ensures Refines(t, Tick(now))
  {
    TickKeepsInv(t.slots, now);
    TickMap(t.slots, now);
    var sends := TickSends(t.slots, now);
    forall id: nat | id <= MAX_CAN_ID
      ensures SendsOf(t.tx + sends, id) == SendsOf(t.tx, id) + MapSends(Abs(t.slots), Prechilling, Tick(now), id)
    {
      SendsOfConcat(t.tx, sends, id);
      TickSendsById(t.slots, now, id);
    }
  }

  lemma StepRefines(t: Table, op: Op)
    requires Inv(t.slots)
    ensures Refines(t, op)
  {
    match op
    case Start(r, now) => StartRefines(t, r, now);
    case Stop(id) => StopRefines(t, id);
    case StopAll(sendExit) => StopAllRefines(t, sendExit);
    case Tick(now) =>
      if t.mode == Prechilling { TickRefines(t, now); }
    case SetMode(_) =>
  }

  /**
   The refinement over whole runs: the invariant holds in every reachable table, at most 16
   sessions run, and the next operation acts on the map alone.
   */
  lemma {:induction false} RunRefines(ops: seq<Op>)
    ensures Inv(Run(ops).slots) && |Abs(Run(ops).slots)| <= 16
    ensures ops != [] ==> Refines(Run(ops[..|ops| - 1]), ops[|ops| - 1])
  {
    if ops != [] {
      RunRefines(ops[..|ops| - 1]);
      StepRefines(Run(ops[..|ops| - 1]), ops[|ops| - 1]);
    }
    FreeIffRoom(Run(ops).slots);
  }

  /** One more operation, seen at the level of the map. */
  lemma {:induction false} RunStep(ops: seq<Op>, op: Op, id: nat)
    requires id <= MAX_CAN_ID
    ensures Abs(Run(ops + [op]).slots) == MapApply(Abs(Run(ops).slots), Run(ops).mode, op)
    ensures Run(ops + [op]).mode == if op.SetMode? then op.mode else Run(ops).mode
    ensures SendsOf(Run(ops + [op]).tx, id)
         == SendsOf(Run(ops).tx, id) + MapSends(Abs(Run(ops).slots), Run(ops).mode, op, id)
  {
    assert (ops + [op])[..|ops|] == ops;
    RunRefines(ops + [op]);
  }
}
