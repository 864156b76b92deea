/** The heartbeat of the timer branch in src/main.c: a grid fixed at start-up, without drift. */
module Heartbeat {
  const PERIOD_MS: nat := 1000

  /** The do-while loop after an attempt: the first grid point behind `now`. */
  method CatchUp(next: nat, now: nat) returns (r: nat)
    requires next <= now
    ensures now < r <= now + 1000 && (r - next) % 1000 == 0
    ensures r == Following(next, now)
  {
    r := next + PERIOD_MS;
    while r <= now
      invariant next < r <= now + PERIOD_MS && (r - next) % PERIOD_MS == 0
    {
      r := r + PERIOD_MS;
    }
  }

  function Following(next: nat, now: nat): nat
    requires next <= now
  {
    next + PERIOD_MS * ((now - next) / PERIOD_MS + 1)
  }

  /** The tick readings at which an attempt is made. */
  function Beats(next: nat, ticks: seq<nat>): seq<nat>
    decreases |ticks|
  {
    if ticks == [] then []
    else if ticks[0] < next then Beats(next, ticks[1..])
    else [ticks[0]] + Beats(Following(next, ticks[0]), ticks[1..])
  }

  /** The timer branch of the event loop, over the readings of a whole run. */
  method RunTimer(startMs: nat, ticks: seq<nat>) returns (beats: seq<nat>)
    ensures beats == Beats(startMs + 1000, ticks)
  {
    beats := [];
    var next: nat := startMs + PERIOD_MS;
    for i := 0 to |ticks|
      invariant Beats(startMs + PERIOD_MS, ticks) == beats + Beats(next, ticks[i..])
    {
      assert ticks[i..][0] == ticks[i] && ticks[i..][1..] == ticks[i + 1..];
      if ticks[i] >= next {
        beats := beats + [ticks[i]];
        next := CatchUp(next, ticks[i]);
      }
    }
  }

  ghost predicate NonDecreasing(ticks: seq<nat>) {
    forall i, j :: 0 <= i < j < |ticks| ==> ticks[i] <= ticks[j]
  }

  predicate In(t: nat, lo: nat) { lo <= t < lo + 1000 }

  function CountIn(times: seq<nat>, lo: nat): nat {
    if times == [] then 0 else (if In(times[0], lo) then 1 else 0) + CountIn(times[1..], lo)
  }

  ghost predicate SomeIn(ticks: seq<nat>, lo: nat) {
    exists i :: 0 <= i < |ticks| && In(ticks[i], lo)
  }

  lemma FollowingIsFirst(next: nat, now: nat, lo: nat, steps: int)
    requires next <= now && lo == next + PERIOD_MS * steps
    ensures lo > now <==> lo >= Following(next, now)
    ensures exists m: int :: lo == Following(next, now) + PERIOD_MS * m
  {
    var q := (now - next) / PERIOD_MS;
    assert lo == Following(next, now) + PERIOD_MS * (steps - q - 1);
  }

  lemma SomeInStep(ticks: seq<nat>, lo: nat)
    requires ticks != []
    ensures SomeIn(ticks, lo) <==> In(ticks[0], lo) || SomeIn(ticks[1..], lo)
  {
  }

  lemma {:induction false} BeatsInInterval(next: nat, ticks: seq<nat>, lo: nat, steps: int)
    requires NonDecreasing(ticks) && lo == next + PERIOD_MS * steps
    ensures CountIn(Beats(next, ticks), lo) == if lo >= next && SomeIn(ticks, lo) then 1 else 0
    decreases |ticks|
  {
    if ticks != [] {
      var t := ticks[0];
      SomeInStep(ticks, lo);
      if t < next {
        BeatsInInterval(next, ticks[1..], lo, steps);
      } else {
        FollowingIsFirst(next, t, lo, steps);
        var m: int :| lo == Following(next, t) + PERIOD_MS * m;
        BeatsInInterval(Following(next, t), ticks[1..], lo, m);
        var beats := [t] + Beats(Following(next, t), ticks[1..]);
        assert beats[1..] == Beats(Following(next, t), ticks[1..]);
        assert Beats(next, ticks) == beats;
        if t >= lo + PERIOD_MS {
          assert forall i :: 0 <= i < |ticks| ==> !In(ticks[i], lo);
        }
      }
    }
  }

  /**
   Drift-free heartbeat: for every non-decreasing sequence of tick readings, each 1000 ms interval
   of the grid fixed at start-up contains exactly one attempt if some reading falls in it, and
   none otherwise; nothing is sent before the grid begins.
   */
  lemma OneBeatPerInterval(startMs: nat, ticks: seq<nat>, k: nat)
    requires NonDecreasing(ticks)
    ensures var lo := startMs + 1000 * (k + 1);
            CountIn(Beats(startMs + 1000, ticks), lo) == if SomeIn(ticks, lo) then 1 else 0
    ensures CountIn(Beats(startMs + 1000, ticks), startMs) == 0
  {
    BeatsInInterval(startMs + PERIOD_MS, ticks, startMs + PERIOD_MS * (k + 1), k);
    BeatsInInterval(startMs + PERIOD_MS, ticks, startMs, -1);
  }
}
