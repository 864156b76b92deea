/** What one id sees over any run of starts, stops, ticks, stop-alls and mode changes. */
module WiggleTrace {
  import opened Wiggle
  import opened WiggleMap

  /** How a session ended, if it has. */
  datatype Ending = Live | Replaced | Closed | Silenced

  /** One session: what was asked for, how often it toggled, and which operations began and ended it. */
  datatype Session = Session(request: Request, toggles: nat, ending: Ending, startedAt: nat, endedAt: nat)

  /** a, b, a, b, ... : the first n of them. */
  function Alternate(a: nat, b: nat, n: nat): (r: seq<nat>)
    ensures |r| == n
    ensures forall i :: 0 <= i < n ==> r[i] == if i % 2 == 0 then a else b
  {
    if n == 0 then [] else Alternate(a, b, n - 1) + [if (n - 1) % 2 == 0 then a else b]
  }

  /** start, end, start, ... and one exit value if the session was closed. */
  function Render(s: Session): seq<nat> {
    Alternate(s.request.startValue, s.request.endValue, s.toggles + 1)
    + if s.ending == Closed then [s.request.exitValue] else []
  }

  function RenderAll(ss: seq<Session>): seq<nat> {
    if ss == [] then [] else RenderAll(ss[..|ss| - 1]) + Render(ss[|ss| - 1])
  }

  function Requests(ss: seq<Session>): (r: seq<Request>)
    ensures |r| == |ss| && forall i :: 0 <= i < |ss| ==> r[i] == ss[i].request
  {
    seq(|ss|, i requires 0 <= i < |ss| => ss[i].request)
  }

  /** The requests for `id` that were accepted, in order. */
  function Accepted(ops: seq<Op>, id: nat): seq<Request> {
    if ops == [] then []
    else
      var before, last := ops[..|ops| - 1], ops[|ops| - 1];
      Accepted(before, id)
      + if last.Start? && last.request.id == id && Starts(Run(before).slots, last.request)
        then [last.request] else []
  }

  /** Applied to table `t`, `op` is an accepted start of `request` for `id`. */
  predicate Opens(t: Table, op: Op, id: nat, request: Request) {
    op.Start? && op.request == request && request.id == id && Starts(t.slots, request)
  }

  /** Applied to table `t`, `op` ends the session of `id` in this way. */
  ghost predicate Ends(t: Table, op: Op, id: nat, ending: Ending) {
    && id in Abs(t.slots)
    && match ending
       case Live => false
       case Replaced => op.Start? && op.request.id == id && Starts(t.slots, op.request)
       case Silenced => op == StopAll(false)
       case Closed =>
         || op == Stop(id) || op == StopAll(true)
         || (op.Tick? && t.mode == Prechilling && Expired(Abs(t.slots)[id], op.now))
  }

  /** Where a session stands in the run: opened by one operation, ended by a later one. */
  ghost predicate Placed(ops: seq<Op>, id: nat, s: Session) {
    && s.startedAt < |ops| && Opens(Run(ops[..s.startedAt]), ops[s.startedAt], id, s.request)
    && (s.ending != Live ==>
          s.startedAt < s.endedAt < |ops| && Ends(Run(ops[..s.endedAt]), ops[s.endedAt], id, s.ending))
  }

  /** The values sent to `id` by the first `n` operations. */
  function Sent(ops: seq<Op>, id: nat, n: nat): seq<nat>
    requires n <= |ops|
  {
    SendsOf(Run(ops[..n]).tx, id)
  }

  /** When session `k` opens, the sends so far are those of the sessions before it. */
  ghost predicate RenderedAtStart(ops: seq<Op>, id: nat, ss: seq<Session>, k: nat)
    requires k < |ss|
  {
    ss[k].startedAt <= |ops| ==> Sent(ops, id, ss[k].startedAt) == RenderAll(ss[..k])
  }

  /** When it is closed or silenced, the sends so far are those up to and including it. */
  ghost predicate RenderedAtEnd(ops: seq<Op>, id: nat, ss: seq<Session>, k: nat)
    requires k < |ss|
  {
    (ss[k].ending == Closed || ss[k].ending == Silenced) && ss[k].endedAt < |ops| ==>
      Sent(ops, id, ss[k].endedAt + 1) == RenderAll(ss[..k + 1])
  }

  ghost predicate Rendered(ops: seq<Op>, id: nat, ss: seq<Session>) {
    forall k :: 0 <= k < |ss| ==> RenderedAtStart(ops, id, ss, k) && RenderedAtEnd(ops, id, ss, k)
  }

  ghost predicate AllPlaced(ops: seq<Op>, id: nat, ss: seq<Session>) {
    forall k :: 0 <= k < |ss| ==> Placed(ops, id, ss[k])
  }

  /** A replaced session ends where the next one starts, any other ends before. */
  predicate InOrder(ss: seq<Session>, k: nat)
    requires k + 1 < |ss|
  {
    if ss[k].ending == Replaced then ss[k].endedAt == ss[k + 1].startedAt else ss[k].endedAt < ss[k + 1].startedAt
  }

  ghost predicate Ordered(ss: seq<Session>) {
    && (forall k :: 0 <= k < |ss| - 1 ==> InOrder(ss, k))
    && (ss != [] ==> ss[|ss| - 1].ending != Replaced)
  }

  /** The slot of a live session and its place in the alternation. */
  ghost predicate Matches(slot: Slot, s: Session) {
    && slot.startValue == s.request.startValue && slot.endValue == s.request.endValue
    && slot.exitValue == s.request.exitValue
    && slot.currentValue == if s.toggles % 2 == 0 then slot.startValue else slot.endValue
  }

  /** Sessions, sends and accepted requests of one id agree. */
  ghost predicate Accounts(m: map<nat, Slot>, id: nat, sends: seq<nat>, requests: seq<Request>, ss: seq<Session>) {
    && RenderAll(ss) == sends
    && Requests(ss) == requests
    && (forall k :: 0 <= k < |ss| - 1 ==> ss[k].ending != Live)
    && (id in m <==> ss != [] && ss[|ss| - 1].ending == Live)
    && (id in m ==> Matches(m[id], ss[|ss| - 1]))
  }

  ghost predicate Explains(ops: seq<Op>, id: nat, ss: seq<Session>) {
    && Accounts(Abs(Run(ops).slots), id, SendsOf(Run(ops).tx, id), Accepted(ops, id), ss)
    && AllPlaced(ops, id, ss) && Rendered(ops, id, ss) && Ordered(ss)
  }

  /** The session that one more operation opens for `id`, if any. */
  ghost function Begins(m: map<nat, Slot>, op: Op, at: nat, id: nat): seq<Session> {
    if op.Start? && op.request.id == id && CanStart(m, op.request)
    then [Session(op.request, 0, Live, at, 0)] else []
  }

  /** What one more operation makes of the live session of `id`. */
  ghost function Follow(m: map<nat, Slot>, mode: Mode, op: Op, at: nat, id: nat, last: Session): Session
    requires id in m
  {
    match op
    case Start(_, _) => if Begins(m, op, at, id) == [] then last else last.(ending := Replaced, endedAt := at)
    case Stop(j) => if j == id then last.(ending := Closed, endedAt := at) else last
    case StopAll(sendExit) => last.(ending := if sendExit then Closed else Silenced, endedAt := at)
    case Tick(now) =>
      if mode != Prechilling then last
      else if Expired(m[id], now) then last.(ending := Closed, endedAt := at)
      else if now < m[id].nextToggle then last
      else last.(toggles := last.toggles + 1)
    case SetMode(_) => last
  }

  /** The sessions after one more operation, given those before it. */
  ghost function Extend(m: map<nat, Slot>, mode: Mode, op: Op, at: nat, id: nat, ss: seq<Session>): seq<Session>
    requires id in m ==> ss != []
  {
    if id !in m then ss + Begins(m, op, at, id)
    else ss[..|ss| - 1] + [Follow(m, mode, op, at, id, ss[|ss| - 1])] + Begins(m, op, at, id)
  }

  lemma RenderLast(ss: seq<Session>, s: Session)
    ensures RenderAll(ss + [s]) == RenderAll(ss) + Render(s)
  {
  }

  /** A toggle sends the next value of the alternation. */
  lemma ToggleAlternates(slot: Slot, s: Session, now: nat)
    requires Matches(slot, s)
    ensures Matches(Toggled(slot, now), s.(toggles := s.toggles + 1))
    ensures Alternate(slot.startValue, slot.endValue, s.toggles + 2)
         == Alternate(slot.startValue, slot.endValue, s.toggles + 1) + [NextValue(slot)]
  {
  }

  lemma FollowRenders(m: map<nat, Slot>, mode: Mode, op: Op, at: nat, id: nat, last: Session)
    requires id in m && last.ending == Live && Matches(m[id], last)
    ensures Render(Follow(m, mode, op, at, id, last))
         == Render(last) + if op.Start? then [] else MapSends(m, mode, op, id)
  {
    if op.Tick? {
      ToggleAlternates(m[id], last, op.now);
    }
  }

  lemma BeginsRenders(m: map<nat, Slot>, op: Op, at: nat, id: nat, ss: seq<Session>)
    ensures RenderAll(ss + Begins(m, op, at, id))
         == RenderAll(ss) + if op.Start? then MapSends(m, Prechilling, op, id) else []
  {
    var begun := Begins(m, op, at, id);
    if begun == [] {
      assert ss + begun == ss;
    } else {
      assert Render(begun[0]) == [op.request.startValue];
      RenderLast(ss, begun[0]);
    }
  }

  lemma Glue(a: seq<nat>, b: seq<nat>, c: seq<nat>, d: seq<nat>, both: seq<nat>)
    requires (c == [] && d == both) || (c == both && d == [])
    ensures (a + (b + c)) + d == (a + b) + both
  {
  }

  /** One operation adds to the rendering exactly what it sends. */
  lemma {:induction false} ExtendRenders(m: map<nat, Slot>, mode: Mode, op: Op, at: nat, id: nat, ss: seq<Session>)
    requires id in m ==> ss != [] && ss[|ss| - 1].ending == Live && Matches(m[id], ss[|ss| - 1])
    ensures RenderAll(Extend(m, mode, op, at, id, ss)) == RenderAll(ss) + MapSends(m, mode, op, id)
  {
    if id in m {
      var init, last := ss[..|ss| - 1], ss[|ss| - 1];
      var last' := Follow(m, mode, op, at, id, last);
      FollowRenders(m, mode, op, at, id, last);
      RenderLast(init, last');
      BeginsRenders(m, op, at, id, init + [last']);
      var sends := MapSends(m, mode, op, id);
      Glue(RenderAll(init), Render(last), if op.Start? then [] else sends, if op.Start? then sends else [], sends);
    } else {
      BeginsRenders(m, op, at, id, ss);
    }
  }

  lemma ExtendStays(m: map<nat, Slot>, mode: Mode, op: Op, at: nat, id: nat, ss: seq<Session>)
    requires id in m ==> ss != [] && ss[|ss| - 1].ending == Live && Matches(m[id], ss[|ss| - 1])
    requires id !in m && ss != [] ==> ss[|ss| - 1].ending != Live
    requires forall k :: 0 <= k < |ss| - 1 ==> ss[k].ending != Live
    ensures var ss', m' := Extend(m, mode, op, at, id, ss), MapApply(m, mode, op);
            && (forall k :: 0 <= k < |ss'| - 1 ==> ss'[k].ending != Live)
            && (id in m' <==> ss' != [] && ss'[|ss'| - 1].ending == Live)
            && (id in m' ==> Matches(m'[id], ss'[|ss'| - 1]))
  {
  }

  /** Operations already looked at keep their place when the run grows. */
  lemma {:induction false} SentGrows(ops: seq<Op>, op: Op, id: nat, n: nat)
    requires n <= |ops|
    ensures Sent(ops + [op], id, n) == Sent(ops, id, n)
  {
    assert (ops + [op])[..n] == ops[..n];
  }

  lemma {:induction false} PlacedGrows(ops: seq<Op>, op: Op, id: nat, s: Session)
    requires Placed(ops, id, s)
    ensures Placed(ops + [op], id, s)
  {
    assert (ops + [op])[..s.startedAt] == ops[..s.startedAt];
    if s.ending != Live {
      assert (ops + [op])[..s.endedAt] == ops[..s.endedAt];
    }
  }

  /** A session ended by the newest operation was ended in the right way. */
  lemma FollowEnds(t: Table, op: Op, at: nat, id: nat, last: Session)
    requires Inv(t.slots) && id in Abs(t.slots) && last.ending == Live
    ensures var s := Follow(Abs(t.slots), t.mode, op, at, id, last);
            && s.request == last.request && s.startedAt == last.startedAt
            && (s.ending != Live ==> s.endedAt == at && Ends(t, op, id, s.ending))
  {
  }

  lemma {:induction false} FollowPlaced(ops: seq<Op>, op: Op, id: nat, last: Session)
    requires id in Abs(Run(ops).slots) && last.ending == Live && Placed(ops, id, last)
    ensures Placed(ops + [op], id, Follow(Abs(Run(ops).slots), Run(ops).mode, op, |ops|, id, last))
  {
    assert (ops + [op])[..|ops|] == ops;
    RunRefines(ops);
    PlacedGrows(ops, op, id, last);
    FollowEnds(Run(ops), op, |ops|, id, last);
  }

  lemma {:induction false} BeginsPlaced(ops: seq<Op>, op: Op, id: nat)
    ensures var begun := Begins(Abs(Run(ops).slots), op, |ops|, id);
            begun != [] ==> Placed(ops + [op], id, begun[0])
  {
    assert (ops + [op])[..|ops|] == ops;
    RunRefines(ops);
    if op.Start? {
      StartIffRoom(Run(ops).slots, op.request);
    }
  }

  /** Session `k` after one more operation. */
  lemma ExtendAt(m: map<nat, Slot>, mode: Mode, op: Op, at: nat, id: nat, ss: seq<Session>, k: nat)
    requires id in m ==> ss != []
    requires k < |Extend(m, mode, op, at, id, ss)|
    ensures var s := Extend(m, mode, op, at, id, ss)[k];
            if k >= |ss| then Begins(m, op, at, id) == [s]
            else s == if id in m && k == |ss| - 1 then Follow(m, mode, op, at, id, ss[k]) else ss[k]
  {
  }

  lemma {:induction false} ExtendPlaced(
    ops: seq<Op>, op: Op, id: nat, ss: seq<Session>, m: map<nat, Slot>, mode: Mode, k: nat)
    requires m == Abs(Run(ops).slots) && mode == Run(ops).mode
    requires id in m ==> ss != [] && ss[|ss| - 1].ending == Live
    requires k < |Extend(m, mode, op, |ops|, id, ss)| && (k < |ss| ==> Placed(ops, id, ss[k]))
    ensures Placed(ops + [op], id, Extend(m, mode, op, |ops|, id, ss)[k])
  {
    ExtendAt(m, mode, op, |ops|, id, ss, k);
    if k >= |ss| {
      BeginsPlaced(ops, op, id);
    } else if id in m && k == |ss| - 1 {
      FollowPlaced(ops, op, id, ss[k]);
    } else {
      PlacedGrows(ops, op, id, ss[k]);
    }
  }

  lemma {:induction false} ExtendAllPlaced(
    ops: seq<Op>, op: Op, id: nat, ss: seq<Session>, m: map<nat, Slot>, mode: Mode)
    requires m == Abs(Run(ops).slots) && mode == Run(ops).mode
    requires id in m ==> ss != [] && ss[|ss| - 1].ending == Live
    requires AllPlaced(ops, id, ss)
    ensures AllPlaced(ops + [op], id, Extend(m, mode, op, |ops|, id, ss))
  {
    forall k | 0 <= k < |Extend(m, mode, op, |ops|, id, ss)|
      ensures Placed(ops + [op], id, Extend(m, mode, op, |ops|, id, ss)[k])
    {
      ExtendPlaced(ops, op, id, ss, m, mode, k);
    }
  }

  /** One more operation keeps the sessions in order; `at` is later than anything before. */
  lemma {:induction false} ExtendOrdered(m: map<nat, Slot>, mode: Mode, op: Op, at: nat, id: nat, ss: seq<Session>)
    requires Ordered(ss)
    requires id in m ==> ss != [] && ss[|ss| - 1].ending == Live
    requires id !in m && ss != [] ==> ss[|ss| - 1].endedAt < at
    ensures Ordered(Extend(m, mode, op, at, id, ss))
  {
    var ss', n := Extend(m, mode, op, at, id, ss), |ss|;
    forall k | 0 <= k < |ss'| - 1 ensures InOrder(ss', k) {
      if k + 1 < n {
        assert InOrder(ss, k);
        assert ss'[k] == ss[k] && ss'[k + 1].startedAt == ss[k + 1].startedAt;
      }
    }
  }

  /** Sessions before the live one look the same after one more operation. */
  lemma ExtendFront(m: map<nat, Slot>, mode: Mode, op: Op, at: nat, id: nat, ss: seq<Session>, k: nat)
    requires id in m ==> ss != []
    requires k < |ss| && (id in m ==> k < |ss| - 1)
    ensures var ss' := Extend(m, mode, op, at, id, ss);
            k < |ss'| && ss'[k] == ss[k] && ss'[..k] == ss[..k] && ss'[..k + 1] == ss[..k + 1]
  {
  }

  /** A session that was there before opened as before, and if it has ended, ended as before. */
  lemma {:induction false} StartRendered(
    ops: seq<Op>, op: Op, id: nat, ss: seq<Session>, ss': seq<Session>, k: nat)
    requires k < |ss| && k < |ss'| && RenderedAtStart(ops, id, ss, k) && Placed(ops, id, ss[k])
    requires ss'[k].startedAt == ss[k].startedAt && ss'[..k] == ss[..k]
    ensures RenderedAtStart(ops + [op], id, ss', k)
  {
    SentGrows(ops, op, id, ss[k].startedAt);
  }

  lemma {:induction false} EndRendered(
    ops: seq<Op>, op: Op, id: nat, ss: seq<Session>, ss': seq<Session>, k: nat)
    requires k < |ss| && k < |ss'| && RenderedAtEnd(ops, id, ss, k) && Placed(ops, id, ss[k])
    requires ss'[k] == ss[k] && ss'[..k + 1] == ss[..k + 1]
    ensures RenderedAtEnd(ops + [op], id, ss', k)
  {
    if ss[k].ending != Live { SentGrows(ops, op, id, ss[k].endedAt + 1); }
  }

  /** The session that was live may have been ended just now. */
  lemma {:induction false} EndRenderedNow(ops: seq<Op>, op: Op, id: nat, ss': seq<Session>, k: nat)
    requires k < |ss'|
    requires ss'[k].ending != Live && ss'[k].ending != Replaced ==>
               ss'[k].endedAt == |ops| && k == |ss'| - 1 && RenderAll(ss') == Sent(ops + [op], id, |ops| + 1)
    ensures RenderedAtEnd(ops + [op], id, ss', k)
  {
    if ss'[k].ending != Live && ss'[k].ending != Replaced {
      assert ss'[..k + 1] == ss';
    }
  }

  /** A session opened just now: everything sent before it is in the sessions before it. */
  lemma {:induction false} NewRendered(ops: seq<Op>, op: Op, id: nat, ss': seq<Session>, k: nat)
    requires k < |ss'| && ss'[k].startedAt == |ops| && ss'[k].ending == Live
    requires RenderAll(ss'[..k]) == Sent(ops, id, |ops|)
    ensures RenderedAtStart(ops + [op], id, ss', k) && RenderedAtEnd(ops + [op], id, ss', k)
  {
    SentGrows(ops, op, id, |ops|);
  }

  /** What an operation makes of the live session, apart from its rendering. */
  lemma {:induction false} FollowShape(m: map<nat, Slot>, mode: Mode, op: Op, at: nat, id: nat, ss: seq<Session>)
    requires id in m && ss != [] && ss[|ss| - 1].ending == Live && Matches(m[id], ss[|ss| - 1])
    ensures var ss', k := Extend(m, mode, op, at, id, ss), |ss| - 1;
            && |ss'| >= |ss| && ss'[..k] == ss[..k] && ss'[k].startedAt == ss[k].startedAt
            && (ss'[k].ending != Live ==> ss'[k].endedAt == at)
            && (ss'[k].ending != Live && ss'[k].ending != Replaced ==> |ss'| == |ss|)
            && (|ss'| > |ss| ==>
                  && |ss'| == |ss| + 1 && ss'[|ss|].startedAt == at && ss'[|ss|].ending == Live
                  && RenderAll(ss'[..|ss|]) == RenderAll(ss))
  {
    var ss', init, last := Extend(m, mode, op, at, id, ss), ss[..|ss| - 1], ss[|ss| - 1];
    var last' := Follow(m, mode, op, at, id, last);
    if |ss'| > |ss| {
      assert ss'[..|ss|] == init + [last'];
      FollowRenders(m, mode, op, at, id, last);
      RenderLast(init, last');
    }
  }

  /** All that is sent by the first operations, and by one more, is rendered. */
  ghost predicate Accounted(ops: seq<Op>, op: Op, id: nat, ss: seq<Session>, ss': seq<Session>) {
    RenderAll(ss) == Sent(ops, id, |ops|) && RenderAll(ss') == Sent(ops + [op], id, |ops| + 1)
  }

  lemma {:induction false} ExtendActive(
    ops: seq<Op>, op: Op, id: nat, m: map<nat, Slot>, mode: Mode, ss: seq<Session>, ss': seq<Session>, k: nat)
    requires id in m && ss != [] && ss[|ss| - 1].ending == Live && Matches(m[id], ss[|ss| - 1])
    requires ss' == Extend(m, mode, op, |ops|, id, ss) && k < |ss'| && Accounted(ops, op, id, ss, ss')
    requires k < |ss| ==> Placed(ops, id, ss[k])
    requires k < |ss| ==> RenderedAtStart(ops, id, ss, k) && RenderedAtEnd(ops, id, ss, k)
    ensures RenderedAtStart(ops + [op], id, ss', k) && RenderedAtEnd(ops + [op], id, ss', k)
  {
    FollowShape(m, mode, op, |ops|, id, ss);
    if k < |ss| - 1 {
      ExtendFront(m, mode, op, |ops|, id, ss, k);
      StartRendered(ops, op, id, ss, ss', k);
      EndRendered(ops, op, id, ss, ss', k);
    } else if k == |ss| - 1 {
      StartRendered(ops, op, id, ss, ss', k);
      EndRenderedNow(ops, op, id, ss', k);
    } else {
      NewRendered(ops, op, id, ss', k);
    }
  }

  lemma {:induction false} ExtendIdle(
    ops: seq<Op>, op: Op, id: nat, m: map<nat, Slot>, mode: Mode, ss: seq<Session>, ss': seq<Session>, k: nat)
    requires id !in m
    requires ss' == Extend(m, mode, op, |ops|, id, ss) && k < |ss'| && Accounted(ops, op, id, ss, ss')
    requires k < |ss| ==> Placed(ops, id, ss[k])
    requires k < |ss| ==> RenderedAtStart(ops, id, ss, k) && RenderedAtEnd(ops, id, ss, k)
    ensures RenderedAtStart(ops + [op], id, ss', k) && RenderedAtEnd(ops + [op], id, ss', k)
  {
    if k < |ss| {
      ExtendFront(m, mode, op, |ops|, id, ss, k);
      StartRendered(ops, op, id, ss, ss', k);
      EndRendered(ops, op, id, ss, ss', k);
    } else {
      assert ss'[..|ss|] == ss;
      NewRendered(ops, op, id, ss', k);
    }
  }

  lemma {:induction false} ExtendRendered(
    ops: seq<Op>, op: Op, id: nat, m: map<nat, Slot>, mode: Mode, ss: seq<Session>, ss': seq<Session>)
    requires id in m ==> ss != [] && ss[|ss| - 1].ending == Live && Matches(m[id], ss[|ss| - 1])
    requires ss' == Extend(m, mode, op, |ops|, id, ss) && Accounted(ops, op, id, ss, ss')
    requires AllPlaced(ops, id, ss) && Rendered(ops, id, ss)
    ensures Rendered(ops + [op], id, ss')
  {
    forall k | 0 <= k < |ss'|
      ensures RenderedAtStart(ops + [op], id, ss', k) && RenderedAtEnd(ops + [op], id, ss', k)
    {
      if id in m {
        ExtendActive(ops, op, id, m, mode, ss, ss', k);
      } else {
        ExtendIdle(ops, op, id, m, mode, ss, ss', k);
      }
    }
  }

  lemma {:induction false} ExtendAccounted(ops: seq<Op>, op: Op, id: nat, ss: seq<Session>, ss': seq<Session>)
    requires id <= MAX_CAN_ID
    requires Accounts(Abs(Run(ops).slots), id, SendsOf(Run(ops).tx, id), Accepted(ops, id), ss)
    requires ss' == Extend(Abs(Run(ops).slots), Run(ops).mode, op, |ops|, id, ss)
    ensures Accounted(ops, op, id, ss, ss')
  {
    assert ops[..|ops|] == ops && (ops + [op])[..|ops| + 1] == ops + [op];
    ExtendRenders(Abs(Run(ops).slots), Run(ops).mode, op, |ops|, id, ss);
    RunStep(ops, op, id);
  }

  lemma {:induction false} BeginsRequests(ops: seq<Op>, op: Op, id: nat)
    ensures Accepted(ops + [op], id) == Accepted(ops, id) + Requests(Begins(Abs(Run(ops).slots), op, |ops|, id))
  {
    assert (ops + [op])[..|ops|] == ops;
    RunRefines(ops);
    if op.Start? {
      StartIffRoom(Run(ops).slots, op.request);
    }
  }

  lemma ExtendRequests(m: map<nat, Slot>, mode: Mode, op: Op, at: nat, id: nat, ss: seq<Session>)
    requires id in m ==> ss != []
    ensures Requests(Extend(m, mode, op, at, id, ss)) == Requests(ss) + Requests(Begins(m, op, at, id))
  {
  }

  /**
   Session trace grammar: over any run, the attempts made for one id are the renderings of its
   accepted sessions in order.  Each is start, end, start, ... ; it is closed by one exit value
   exactly when the operation that ended it, while the id was active, was a stop, a stop-all with
   exit values or a tick at which it expired, and by none when a restart replaced it.  At the moment
   a session opens everything sent belongs to the sessions before it, so nothing follows a close
   until a new start.  Only the last session may be live, exactly when the table holds the id.
   */
  lemma {:induction false} SessionGrammar(ops: seq<Op>, id: nat) returns (ss: seq<Session>)
    requires id <= MAX_CAN_ID
    ensures Explains(ops, id, ss)
  {
    if ops == [] {
      ss := [];
      assert Abs(Run(ops).slots).Keys == {};
    } else {
      var before, op := ops[..|ops| - 1], ops[|ops| - 1];
      assert before + [op] == ops;
      var sofar := SessionGrammar(before, id);
      ss := ExtendExplains(before, op, id, sofar);
    }
  }

  lemma ExtendAccounts(
    m: map<nat, Slot>, mode: Mode, op: Op, at: nat, id: nat, sends: seq<nat>, requests: seq<Request>, ss: seq<Session>)
    requires Accounts(m, id, sends, requests, ss)
    ensures Accounts(MapApply(m, mode, op), id, sends + MapSends(m, mode, op, id),
                     requests + Requests(Begins(m, op, at, id)), Extend(m, mode, op, at, id, ss))
  {
    ExtendRenders(m, mode, op, at, id, ss);
    ExtendStays(m, mode, op, at, id, ss);
    ExtendRequests(m, mode, op, at, id, ss);
  }

  lemma {:induction false} ExtendExplains(ops: seq<Op>, op: Op, id: nat, sofar: seq<Session>) returns (ss: seq<Session>)
    requires id <= MAX_CAN_ID && Explains(ops, id, sofar)
    ensures Explains(ops + [op], id, ss)
  {
    var m, mode := Abs(Run(ops).slots), Run(ops).mode;
    ss := Extend(m, mode, op, |ops|, id, sofar);
    ExtendAccounts(m, mode, op, |ops|, id, SendsOf(Run(ops).tx, id), Accepted(ops, id), sofar);
    ExtendAllPlaced(ops, op, id, sofar, m, mode);
    ExtendOrdered(m, mode, op, |ops|, id, sofar);
    ExtendAccounted(ops, op, id, sofar, ss);
    ExtendRendered(ops, op, id, m, mode, sofar, ss);
    RunStep(ops, op, id);
    BeginsRequests(ops, op, id);
  }
}
