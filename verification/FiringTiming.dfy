/** How long the worker waits: exactly as long as configured, not shorter and not longer. */
module FiringTiming {
  import opened FiringProtocol
  import opened FiringOwnership
  import opened FiringAbort
  import opened FiringFrames
  import opened FiringTightness

  /** At a block whose deadline was read, what is left of the wait is fixed. */
  ghost predicate Waits(o: Owner, i: nat, deadline: nat) {
    o.pc.AtBlock() && o.pc.block == i && !o.pc.Sending? ==> !o.pc.ReadingDeadline? && o.pc.deadline == deadline
  }

  lemma {:induction false} DeadlineKept(
    states: seq<State>, acts: seq<Action>, r: nat, k: nat, run: nat, i: nat, t: nat, deadline: nat)
    requires IsRun(states, acts) && r < k < |states| && run in states[r].owners && run in states[k].owners
    requires acts[r] == Own(run, ReadDeadline(t)) && states[r].owners[run].pc == ReadingDeadline(i)
    requires run in states[r + 1].owners && Waits(states[r + 1].owners[run], i, deadline)
    ensures Waits(states[k].owners[run], i, deadline)
    decreases k
  {
    if r + 1 < k {
      OwnsInBetween(states, acts, r, k - 1, k, run);
      OwnerStep(states, acts, r, run);
      OwnerStep(states, acts, k - 1, run);
      if Live(states[k].owners[run].pc) {
        RankAdvances(states, acts, r + 1, k - 1, run);
      }
      DeadlineKept(states, acts, r, k - 1, run, i, t, deadline);
    }
  }

  /**
   The wait of a block is exact: a clock test of block i leads to its sending iff the reading is at
   least the wait of the block before it, or 10000 ms for the first block of a FIRE and nothing for
   that of a drown, after the reading at which the wait began; otherwise the worker polls again.
   */
  lemma WaitIsExact(
    states: seq<State>, acts: seq<Action>, r: nat, k: nat, run: nat, t: nat, now: nat)
    requires IsRun(states, acts) && r < k < |acts|
    requires acts[r] == Own(run, ReadDeadline(t)) && acts[k] == Own(run, TestClock(now))
    requires run in states[r].owners && run in states[k].owners
    requires states[r].owners[run].pc.AtBlock() && states[k].owners[run].pc.AtBlock()
    requires states[r].owners[run].pc.block == states[k].owners[run].pc.block
    ensures run in states[k + 1].owners
    ensures var i, config, pc := states[r].owners[run].pc.block, states[r].owners[run].config,
                                 states[k + 1].owners[run].pc;
            && i < |config.blocks|
            && var wait := if i > 0 then config.blocks[i - 1].waitMs else if config.drown then 0 else 10000;
               && (pc == Sending(i, 0) <==> now >= t + wait)
               && (pc.PollingAbort? <==> now < t + wait)
  {
    var i, config := states[r].owners[run].pc.block, states[r].owners[run].config;
    BlocksInRange(states, acts, r, run);
    assert StepAt(states, acts, r);
    OwnerStep(states, acts, r, run);
    DeadlineKept(states, acts, r, k, run, i, t, t + DelayBefore(config, i));
    assert StepAt(states, acts, k);
    OwnerStep(states, acts, k, run);
  }

  // ---------------------------------------------------------------- from one block to the next

  /** At block i + 1, after block i went out at reading `u`. */
  ghost predicate After(o: Owner, i: nat, u: nat, clock: nat) {
    clock >= u &&
    (o.pc.AtBlock() && o.pc.block == i + 1 ==>
       && i < |o.config.blocks|
       && (o.pc.Sending? ==> clock >= u + o.config.blocks[i].waitMs)
       && (!o.pc.Sending? && !o.pc.ReadingDeadline? ==> o.pc.deadline >= u + o.config.blocks[i].waitMs))
  }

  lemma AfterStep(o: Owner, op: Op, abort: bool, stop: bool, i: nat, u: nat, clock: nat)
    requires After(o, i, u, clock) && NextPc(o.config, o.pc, op, abort, stop).Some?
    requires ReadingOf(op, clock) >= clock && Rank(o.pc) >= 2 * (i + 1)
    ensures After(o.(pc := NextPc(o.config, o.pc, op, abort, stop).value), i, u, ReadingOf(op, clock))
  {
  }

  lemma {:induction false} AfterBlock(
    states: seq<State>, acts: seq<Action>, a: nat, k: nat, run: nat, i: nat)
    requires IsRun(states, acts) && a < k < |states| && run in states[a].owners && run in states[k].owners
    requires acts[a].Own? && acts[a].run == run && acts[a].op.Attempt? && acts[a].op.ok
    requires states[a].owners[run].pc.Sending? && states[a].owners[run].pc.block == i
    requires Live(states[k].owners[run].pc)
    ensures After(states[k].owners[run], i, acts[a].op.now, states[k].clock)
    ensures Rank(states[k].owners[run].pc) >= 2 * (i + 1)
    decreases k
  {
    OwnsInBetween(states, acts, a, k - 1, k, run);
    OwnerStep(states, acts, k - 1, run);
    if a + 1 < k {
      RankAdvances(states, acts, k - 1, k, run);
      AfterBlock(states, acts, a, k - 1, run, i);
      if acts[k - 1].Own? {
        AfterStep(states[k - 1].owners[run], acts[k - 1].op, states[k - 1].abort, states[k - 1].stop,
                  i, acts[a].op.now, states[k - 1].clock);
      }
    }
  }

  /** The block after one that went out is attempted no earlier than the wait of that one later. */
  lemma GapBetweenBlocks(states: seq<State>, acts: seq<Action>, a: nat, k: nat, run: nat)
    requires IsRun(states, acts) && a < k < |acts|
    requires acts[a].Own? && acts[a].run == run && acts[a].op.Attempt? && acts[a].op.ok
    requires acts[k].Own? && acts[k].run == run && acts[k].op.Attempt?
    requires |Successes(acts[..k], run)| == |Successes(acts[..a], run)| + 1
    ensures run in states[k].owners && |Successes(acts[..a], run)| < |states[k].owners[run].config.blocks|
    ensures acts[k].op.now
         >= acts[a].op.now + states[k].owners[run].config.blocks[|Successes(acts[..a], run)|].waitMs
  {
    assert StepAt(states, acts, a) && StepAt(states, acts, k);
    HistoryAgrees(states, acts, a, run);
    HistoryAgrees(states, acts, k, run);
    AfterBlock(states, acts, a, k, run, |Successes(acts[..a], run)|);
    OwnerStep(states, acts, k, run);
  }

  // ---------------------------------------------------------------- the earliest time is reached

  lemma {:induction false} ReachOnTime(config: Config, x: nat) returns (states: seq<State>, acts: seq<Action>, d: nat)
    requires x < |config.blocks| && forall y :: 0 <= y < x ==> Sendable(config.blocks[y])
    ensures Building(states, acts, config, TestingClock(x, d), NONE) && MayPass(states, acts, config, x)
    ensures states[|acts|].clock <= d == Earliest(config, x)
    ensures |acts| > 2 && acts[0] == Claim(0, config) && acts[2] == Own(0, Spawn(true, 0))
  {
    if x == 0 {
      states, acts := ReachBlock(config, 0);
    } else {
      states, acts, d := ReachOnTime(config, x - 1);
      states, acts := PassAndSend(states, acts, config, x - 1, d, NONE);
    }
    states, acts, d := ToLastTest(states, acts, config, x, NONE);
  }

  /**
   The bound of NoEarlyAttempt is reached: for every configuration and every block behind blocks
   that can be sent, some run attempts it exactly 10000 ms, or nothing for a drown, and the waits
   before it after its worker started.
   */
  lemma EarliestIsReached(config: Config, i: nat) returns (states: seq<State>, acts: seq<Action>, k: nat)
    requires i < |config.blocks| && forall y :: 0 <= y < i ==> Sendable(config.blocks[y])
    ensures IsRun(states, acts) && PositiveWaitsEnter(states, acts, 0)
    ensures 2 < k < |acts| && acts[0] == Claim(0, config) && acts[2] == Own(0, Spawn(true, 0))
    ensures acts[k].Own? && acts[k].run == 0 && acts[k].op.Attempt? && acts[k].op.frame == config.blocks[i].frame
    ensures acts[k].op.now == (if config.drown then 0 else 10000) + WaitSum(config.blocks[..i])
  {
    var d;
    states, acts, d := ReachOnTime(config, i);
    k := |acts| + 1;
    states, acts := PassAndSend(states, acts, config, i, d, NONE);
    EarliestIsWaitSum(config, i);
  }
}
