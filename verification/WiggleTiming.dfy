/** When a wiggle toggles and when it ends, on a clock that is read at most d ms apart. */
module WiggleTiming {
  import opened Base
  import opened Wiggle
  import opened WiggleMap

  /** Operations that leave the session of `id` to the ticks; other sessions may come and go. */
  ghost predicate Undisturbed(tail: seq<Op>, id: nat) {
    forall k :: 0 <= k < |tail| ==> LeavesAlone(tail[k], id)
  }

  predicate LeavesAlone(op: Op, id: nat) {
    match op
    case Start(r, _) => r.id != id
    case Stop(j) => j != id
    case StopAll(_) => false
    case Tick(_) => true
    case SetMode(mode) => mode == Prechilling
  }

  /** The latest tick reading, or the start time before the first tick. */
  function LastTick(tail: seq<Op>, t0: nat): nat {
    if tail == [] then t0
    else if tail[|tail| - 1].Tick? then tail[|tail| - 1].now
    else LastTick(tail[..|tail| - 1], t0)
  }

  /** Tick readings do not decrease and are at most `d` apart. */
  ghost predicate Paced(tail: seq<Op>, t0: nat, d: nat) {
    forall k :: 0 <= k < |tail| && tail[k].Tick? ==>
      LastTick(tail[..k], t0) <= tail[k].now <= LastTick(tail[..k], t0) + d
  }

  /** Readings of the ticks that sent something for `id` and left it running. */
  ghost function ToggleTimes(from: seq<Op>, tail: seq<Op>, id: nat): seq<nat> {
    if tail == [] then []
    else
      var init, op := tail[..|tail| - 1], tail[|tail| - 1];
      ToggleTimes(from, init, id)
      + if op.Tick? && id in Abs(Run(from + tail).slots)
           && SendsOf(Run(from + tail).tx, id) != SendsOf(Run(from + init).tx, id)
        then [op.now] else []
  }

  /** The k-th toggle (from 1) lies between t0 + k*p and t0 + k*(p + d). */
  ghost predicate Bounds(times: seq<nat>, t0: nat, p: nat, d: nat) {
    forall k :: 0 <= k < |times| ==> t0 + (k + 1) * p <= times[k] <= t0 + (k + 1) * (p + d)
  }

  /** Between two tables the session of `r` went, and its exit value was sent. */
  ghost predicate Left(t: Table, t': Table, r: Request) {
    && r.id in Abs(t.slots) && r.id !in Abs(t'.slots)
    && SendsOf(t'.tx, r.id) == SendsOf(t.tx, r.id) + [r.exitValue]
  }

  /** The session was ended by a tick that read `now`. */
  ghost predicate Exits(from: seq<Op>, tail: seq<Op>, r: Request, now: nat) {
    tail != [] &&
    var init := tail[..|tail| - 1];
    Exits(from, init, r, now) || (tail[|tail| - 1] == Tick(now) && Left(Run(from + init), Run(from + tail), r))
  }

  /** Each toggle comes at least a period after the one before, the first after the start. */
  ghost predicate Spaced(times: seq<nat>, t0: nat, p: nat) {
    forall k :: 0 <= k < |times| ==> times[k] >= Latest(times[..k], t0) + p
  }

  lemma SpacedSnoc(times: seq<nat>, t0: nat, p: nat, now: nat)
    requires Spaced(times, t0, p) && now >= Latest(times, t0) + p
    ensures Spaced(times + [now], t0, p)
  {
    var more := times + [now];
    forall k | 0 <= k < |more| ensures more[k] >= Latest(more[..k], t0) + p {
      assert more[..k] == times[..k];
      assert times[..|times|] == times;
    }
  }

  function Latest(times: seq<nat>, t0: nat): nat {
    if times == [] then t0 else times[|times| - 1]
  }

  /** The session of a running wiggle and its toggles so far; `last` is the latest reading. */
  ghost predicate OnTime(s: Slot, r: Request, t0: nat, times: seq<nat>, last: nat) {
    && s.period == r.period && s.total == r.total && s.exitValue == r.exitValue
    && s.stopTime == (if r.total > 0 then t0 + r.total else 0)
    && s.nextToggle == Latest(times, t0) + r.period
    && last < s.nextToggle
    && (r.total > 0 ==> last < t0 + r.total)
  }

  lemma BoundsLatest(times: seq<nat>, t0: nat, p: nat, d: nat)
    requires Bounds(times, t0, p, d)
    ensures t0 + |times| * p <= Latest(times, t0) <= t0 + |times| * (p + d)
  {
  }

  /** A toggle at the first reading that reaches `nextToggle` keeps the bounds. */
  lemma BoundsSnoc(times: seq<nat>, t0: nat, p: nat, d: nat, last: nat, now: nat)
    requires Bounds(times, t0, p, d)
    requires last < Latest(times, t0) + p <= now <= last + d
    ensures Bounds(times + [now], t0, p, d)
  {
  }

  lemma TailSnoc(from: seq<Op>, tail: seq<Op>)
    requires tail != []
    ensures from + tail == (from + tail[..|tail| - 1]) + [tail[|tail| - 1]]
  {
  }

  lemma PacedInit(tail: seq<Op>, t0: nat, d: nat)
    requires tail != [] && Paced(tail, t0, d)
    ensures Paced(tail[..|tail| - 1], t0, d)
  {
    var init := tail[..|tail| - 1];
    forall k | 0 <= k < |init| && init[k].Tick?
      ensures LastTick(init[..k], t0) <= init[k].now <= LastTick(init[..k], t0) + d
    {
      assert init[..k] == tail[..k];
    }
  }

  /** What an operation that leaves `id` alone does to its session, and what it sends for it. */
  lemma AloneStep(m: map<nat, Slot>, op: Op, id: nat)
    requires LeavesAlone(op, id)
    ensures id !in m ==> id !in MapApply(m, Prechilling, op) && MapSends(m, Prechilling, op, id) == []
    ensures id in m && !op.Tick? ==>
              && id in MapApply(m, Prechilling, op) && MapApply(m, Prechilling, op)[id] == m[id]
              && MapSends(m, Prechilling, op, id) == []
  {
  }

  /** The facts one more tick is judged by. */
  ghost predicate Verdict(
    m: map<nat, Slot>, r: Request, t0: nat, d: nat, times: seq<nat>, last: nat, exit: Option<nat>)
  {
    && Bounds(times, t0, r.period, d) && Spaced(times, t0, r.period)
    && (r.total > 0 ==> |times| * r.period < r.total)
    && (r.id in m <==> exit.None?)
    && (exit.None? ==> OnTime(m[r.id], r, t0, times, last))
    && (exit.Some? ==> r.total > 0 && t0 + r.total <= exit.value <= Min(last, t0 + r.total + d))
  }

  lemma TickVerdict(
    m: map<nat, Slot>, r: Request, t0: nat, d: nat, times: seq<nat>, last: nat, now: nat)
    returns (exit: Option<nat>)
    requires Verdict(m, r, t0, d, times, last, None) && last <= now <= last + d && r.period > 0
    ensures var m', sent := MapApply(m, Prechilling, Tick(now)), MapSends(m, Prechilling, Tick(now), r.id);
            && Verdict(m', r, t0, d, times + (if r.id in m' && sent != [] then [now] else []), now, exit)
            && (exit.Some? ==> exit.value == now && sent == [r.exitValue])
  {
    var s := m[r.id];
    var m' := MapApply(m, Prechilling, Tick(now));
    if Expired(s, now) {
      exit := Some(now);
      assert times + [] == times;
    } else {
      exit := None;
      if now < s.nextToggle {
        assert times + [] == times;
      } else {
        BoundsSnoc(times, t0, r.period, d, last, now);
        SpacedSnoc(times, t0, r.period, now);
        BoundsLatest(times + [now], t0, r.period, d);
      }
    }
  }

  lemma {:induction false} TimingRun(before: seq<Op>, r: Request, t0: nat, tail: seq<Op>, d: nat)
    returns (exit: Option<nat>)
    requires Run(before).mode == Prechilling && Starts(Run(before).slots, r)
    requires Undisturbed(tail, r.id) && Paced(tail, t0, d)
    ensures var from := before + [Start(r, t0)];
            && Run(from + tail).mode == Prechilling
            && Verdict(Abs(Run(from + tail).slots), r, t0, d, ToggleTimes(from, tail, r.id), LastTick(tail, t0), exit)
    ensures LastTick(tail, t0) >= t0
    ensures exit.Some? ==> Exits(before + [Start(r, t0)], tail, r, exit.value)
    decreases |tail|
  {
    var from := before + [Start(r, t0)];
    if tail == [] {
      assert from + tail == from;
      RunRefines(before);
      StartIffRoom(Run(before).slots, r);
      RunStep(before, Start(r, t0), r.id);
      exit := None;
    } else {
      var init, op := tail[..|tail| - 1], tail[|tail| - 1];
      PacedInit(tail, t0, d);
      exit := TimingRun(before, r, t0, init, d);
      TailSnoc(from, tail);
      RunStep(from + init, op, r.id);
      var m := Abs(Run(from + init).slots);
      AloneStep(m, op, r.id);
      SentOrNot(SendsOf(Run(from + init).tx, r.id), MapSends(m, Prechilling, op, r.id));
      var times := ToggleTimes(from, init, r.id);
      assert times + [] == times;
      if exit.None? && op.Tick? {
        exit := TickVerdict(m, r, t0, d, times, LastTick(init, t0), op.now);
        assert exit.Some? ==> Left(Run(from + init), Run(from + tail), r);
      }
    }
  }

  lemma SentOrNot(a: seq<nat>, b: seq<nat>)
    ensures a + b != a <==> b != []
  {
  }

  /** What the verdict says about the count of toggles and the latest reading. */
  lemma VerdictCounts(
    m: map<nat, Slot>, r: Request, t0: nat, d: nat, times: seq<nat>, last: nat, exit: Option<nat>)
    requires Verdict(m, r, t0, d, times, last, exit) && Latest(times, t0) <= last
    ensures exit.None? ==> t0 + |times| * r.period <= last < t0 + |times| * (r.period + d) + r.period
    ensures exit.None? ==> last < Latest(times, t0) + r.period
    ensures r.total > 0 && last >= t0 + r.total ==> exit.Some?
  {
  }

  /**
   Toggle-count bounds: for a wiggle accepted at t0 with period p, whatever else the table does
   meanwhile, the k-th toggle lies between t0 + k*p and t0 + k*(p+d), each at least p after the one before,
   and no reading p or more after the latest toggle goes by without the next.  While it runs, the number
   of toggles is what the latest reading calls for; with a total duration D > 0 the toggles
   satisfy k*p < D, and once a reading reaches t0 + D the exit has been sent, between t0 + D and
   t0 + D + d.
   */
  lemma {:induction false} ToggleBounds(before: seq<Op>, r: Request, t0: nat, tail: seq<Op>, d: nat)
    returns (exit: Option<nat>)
    requires Run(before).mode == Prechilling && Starts(Run(before).slots, r)
    requires Undisturbed(tail, r.id) && Paced(tail, t0, d)
    ensures var from := before + [Start(r, t0)];
            var times, last := ToggleTimes(from, tail, r.id), LastTick(tail, t0);
            && Bounds(times, t0, r.period, d) && Spaced(times, t0, r.period)
            && (exit.None? ==> last < Latest(times, t0) + r.period)
            && (exit.None? <==> r.id in Abs(Run(from + tail).slots))
            && (exit.None? ==> t0 + |times| * r.period <= last < t0 + |times| * (r.period + d) + r.period)
            && (r.total > 0 ==> |times| * r.period < r.total)
            && (r.total > 0 && last >= t0 + r.total ==> exit.Some?)
            && (exit.Some? ==> r.total > 0 && t0 + r.total <= exit.value <= t0 + r.total + d)
    ensures exit.Some? ==> Exits(before + [Start(r, t0)], tail, r, exit.value)
  {
    exit := TimingRun(before, r, t0, tail, d);
    var from := before + [Start(r, t0)];
    LastIsLatest(from, tail, t0, r.id, d);
    VerdictCounts(Abs(Run(from + tail).slots), r, t0, d, ToggleTimes(from, tail, r.id), LastTick(tail, t0), exit);
  }

  /** No toggle is later than the latest reading. */
  lemma {:induction false} LastIsLatest(from: seq<Op>, tail: seq<Op>, t0: nat, id: nat, d: nat)
    requires Paced(tail, t0, d)
    ensures t0 <= LastTick(tail, t0) && Latest(ToggleTimes(from, tail, id), t0) <= LastTick(tail, t0)
  {
    if tail != [] {
      PacedInit(tail, t0, d);
      LastIsLatest(from, tail[..|tail| - 1], t0, id, d);
    }
  }
}
