/** What an abort request, or the stop of the server, guarantees a running sequence, and what it does not. */
module FiringAbort {
  import opened FiringProtocol
  import opened FiringOwnership

  /**
   Aborts are not lost: a request made while `run` holds the claim, even before its worker
   exists, is visible for as long as `run` holds it.
   */
  lemma {:induction false} AbortStaysVisible(
    states: seq<State>, acts: seq<Action>, j: nat, k: nat, run: nat)
    requires IsRun(states, acts) && j < k < |states| && acts[j] == RequestAbort
    requires run in states[j].owners && run in states[k].owners
    ensures states[k].abort
    decreases k
  {
    assert StepAt(states, acts, j);
    if j + 1 < k {
      OwnsInBetween(states, acts, j, k - 1, k, run);
      AbortStaysVisible(states, acts, j, k - 1, run);
      OwnerStep(states, acts, k - 1, run);
    }
  }

  lemma {:induction false} StopHasCause(states: seq<State>, acts: seq<Action>, k: nat)
    requires IsRun(states, acts) && k < |states| && states[k].stop
    ensures exists j :: 0 <= j < k && acts[j] == RaiseStop
  {
    assert k > 0;
    assert StepAt(states, acts, k - 1);
    if states[k - 1].stop {
      StopHasCause(states, acts, k - 1);
    } else {
      assert acts[k - 1] == RaiseStop;
    }
  }

  /** While `run` holds its claim, a raised abort flag was raised after that claim. */
  lemma {:induction false} VisibleAbortIsFresh(
    states: seq<State>, acts: seq<Action>, c: nat, k: nat, run: nat, config: Config)
    requires IsRun(states, acts) && c < k < |states| && acts[c] == Claim(run, config)
    requires run in states[k].owners && states[k].abort
    ensures exists j :: c < j < k && acts[j] == RequestAbort
    decreases k
  {
    assert StepAt(states, acts, c);
    if c + 1 < k {
      OwnsInBetween(states, acts, c + 1, k - 1, k, run);
      OwnerStep(states, acts, k - 1, run);
      assert StepAt(states, acts, k - 1);
      if states[k - 1].abort {
        VisibleAbortIsFresh(states, acts, c, k - 1, run, config);
      } else {
        assert acts[k - 1] == RequestAbort;
      }
    }
  }

  ghost predicate AbortCause(acts: seq<Action>, c: nat, k: nat)
    requires k <= |acts|
  {
    || (exists j :: c < j < k && acts[j] == RequestAbort)
    || (exists j :: 0 <= j < k && acts[j] == RaiseStop)
  }

  lemma {:induction false} AbortedIsCaused(
    states: seq<State>, acts: seq<Action>, c: nat, k: nat, run: nat, config: Config)
    requires IsRun(states, acts) && c < k < |states| && acts[c] == Claim(run, config)
    requires run in states[k].owners && states[k].owners[run].pc == Finishing(Aborted)
    ensures AbortCause(acts, c, k)
    decreases k
  {
    assert StepAt(states, acts, c);
    assert c + 1 < k;
    OwnsInBetween(states, acts, c + 1, k - 1, k, run);
    OwnerStep(states, acts, k - 1, run);
    if states[k - 1].owners[run].pc == Finishing(Aborted) {
      AbortedIsCaused(states, acts, c, k - 1, run, config);
    } else if states[k - 1].owners[run].pc.PollingAbort? {
      VisibleAbortIsFresh(states, acts, c, k - 1, run, config);
    } else {
      StopHasCause(states, acts, k - 1);
    }
  }

  /**
   Aborts are not stale: a run reported as aborted saw a request made after its own claim,
   or the stop flag.
   */
  lemma AbortReportHasCause(
    states: seq<State>, acts: seq<Action>, c: nat, e: nat, run: nat, config: Config)
    requires IsRun(states, acts) && c < e < |acts| && acts[c] == Claim(run, config)
    requires acts[e] == Own(run, Finish(Aborted))
    ensures AbortCause(acts, c, e)
  {
    assert StepAt(states, acts, e);
    assert StepAt(states, acts, c);
    AbortedIsCaused(states, acts, c, e, run, config);
  }

  // ---------------------------------------------------------------- bounded overrun

  /** The next poll inside a wait loop ends the run: abort was requested, or stop was raised. */
  predicate Halting(s: State) { s.abort || s.stop }

  /** Both flags outlast the run that is to see them. */
  lemma {:induction false} HaltStaysVisible(states: seq<State>, acts: seq<Action>, j: nat, k: nat, run: nat)
    requires IsRun(states, acts) && j <= k < |states| && Halting(states[j])
    requires run in states[j].owners && run in states[k].owners
    ensures Halting(states[k])
    decreases k
  {
    if j < k {
      OwnsInBetween(states, acts, j, k - 1, k, run);
      HaltStaysVisible(states, acts, j, k - 1, run);
      OwnerStep(states, acts, k - 1, run);
      assert StepAt(states, acts, k - 1);
    }
  }

  /** Either request takes effect at once and leaves the owner where it stands. */
  lemma HaltTakesEffect(states: seq<State>, acts: seq<Action>, j: nat, run: nat)
    requires IsRun(states, acts) && j < |acts| && (acts[j] == RequestAbort || acts[j] == RaiseStop)
    requires run in states[j].owners
    ensures Halting(states[j + 1])
    ensures run in states[j + 1].owners && states[j + 1].owners[run] == states[j].owners[run]
  {
    assert StepAt(states, acts, j);
  }

  /** At step `u` the worker of `run` found its deadline in the future and entered the loop. */
  ghost predicate EntersLoop(states: seq<State>, acts: seq<Action>, u: nat, run: nat)
    requires IsRun(states, acts) && u < |acts|
  {
    && acts[u].Own? && acts[u].run == run && acts[u].op.TestClock?
    && run in states[u].owners && states[u].owners[run].pc.TestingClock?
    && acts[u].op.now < states[u].owners[run].pc.deadline
  }

  /** An owner that has not yet decided how its run ends. */
  predicate Live(pc: Pc) { !pc.Finishing? && !pc.GivingBack? }

  /**
   How far a live owner has come: before the worker exists, before the deadline of block i is read
   (2 i), or at block i with its deadline read (2 i + 1).
   */
  function Rank(pc: Pc): int {
    if !pc.AtBlock() then -1
    else if pc.ReadingDeadline? then 2 * pc.block
    else 2 * pc.block + 1
  }

  /** Once a flag is up, a worker that enters a wait loop polls and ends. */
  lemma {:induction false} LoopEntryIsFatal(
    states: seq<State>, acts: seq<Action>, j: nat, u: nat, k: nat, run: nat)
    requires IsRun(states, acts) && j <= u < k < |states| && Halting(states[j])
    requires run in states[j].owners && run in states[k].owners
    requires EntersLoop(states, acts, u, run)
    ensures var pc := states[k].owners[run].pc;
            pc.PollingAbort? || (pc.PollingStop? && states[k].stop) || pc == Finishing(Aborted)
    decreases k
  {
    assert StepAt(states, acts, u);
    if u + 1 < k {
      OwnsInBetween(states, acts, j, k - 1, k, run);
      LoopEntryIsFatal(states, acts, j, u, k - 1, run);
      HaltStaysVisible(states, acts, j, k - 1, run);
      OwnerStep(states, acts, k - 1, run);
      assert StepAt(states, acts, k - 1);
    }
  }

  /** A live owner was live before, and only ever moves forward. */
  lemma {:induction false} RankAdvances(states: seq<State>, acts: seq<Action>, j: nat, k: nat, run: nat)
    requires IsRun(states, acts) && j <= k < |states|
    requires run in states[j].owners && run in states[k].owners && Live(states[k].owners[run].pc)
    ensures Live(states[j].owners[run].pc)
    ensures Rank(states[j].owners[run].pc) <= Rank(states[k].owners[run].pc)
    ensures states[j].owners[run].config == states[k].owners[run].config
    decreases k
  {
    if j < k {
      OwnsInBetween(states, acts, j, k - 1, k, run);
      OwnerStep(states, acts, k - 1, run);
      RankAdvances(states, acts, j, k - 1, run);
    }
  }

  /**
   The exact guarantee, with no assumption on the clock: if a block is still attempted after the
   flag went up, its worker has entered no wait loop since, and it has not gone back to an earlier
   block than the one it stood at.
   */
  lemma AttemptAfterAbort(states: seq<State>, acts: seq<Action>, j: nat, k: nat, run: nat)
    requires IsRun(states, acts) && j <= k < |acts| && Halting(states[j]) && run in states[j].owners
    requires acts[k].Own? && acts[k].run == run && acts[k].op.Attempt?
    ensures run in states[k].owners && states[k].owners[run].pc.Sending? && Live(states[j].owners[run].pc)
    ensures Rank(states[j].owners[run].pc) <= 2 * states[k].owners[run].pc.block + 1
    ensures states[j].owners[run].config == states[k].owners[run].config
    ensures forall u :: j <= u < k ==> !EntersLoop(states, acts, u, run)
  {
    assert StepAt(states, acts, k);
    RankAdvances(states, acts, j, k, run);
    forall u | j <= u < k ensures !EntersLoop(states, acts, u, run) {
      if EntersLoop(states, acts, u, run) {
        LoopEntryIsFatal(states, acts, j, u, k, run);
      }
    }
  }

  /**
   Scheduling assumption: a positive wait that ends by the clock has entered its loop before,
   that is, the first clock test after the deadline was read still saw it in the future.
   */
  ghost predicate PositiveWaitsEnter(states: seq<State>, acts: seq<Action>, run: nat)
    requires IsRun(states, acts)
  {
    forall t ::
      0 <= t < |acts| && PassesWait(states, acts, t, run)
      && states[t].owners[run].pc.block < |states[t].owners[run].config.blocks|
      && DelayBefore(states[t].owners[run].config, states[t].owners[run].pc.block) > 0
      ==> exists u :: 0 <= u < t && EntersLoop(states, acts, u, run)
                      && states[u].owners[run].pc.block == states[t].owners[run].pc.block
  }

  /** At step `t` the worker of `run` found its deadline reached and goes on to send. */
  ghost predicate PassesWait(states: seq<State>, acts: seq<Action>, t: nat, run: nat)
    requires IsRun(states, acts) && t < |acts|
  {
    && acts[t].Own? && acts[t].run == run && acts[t].op.TestClock?
    && run in states[t].owners && states[t].owners[run].pc.TestingClock?
    && acts[t].op.now >= states[t].owners[run].pc.deadline
  }

  /** An owner that got from before the wait of block `x` to sending `x` or a later block passed it. */
  lemma {:induction false} FindPassedWait(
    states: seq<State>, acts: seq<Action>, j: nat, k: nat, run: nat, x: nat) returns (t: nat)
    requires IsRun(states, acts) && j <= k < |states|
    requires run in states[j].owners && run in states[k].owners
    requires Live(states[j].owners[run].pc) && Rank(states[j].owners[run].pc) <= 2 * x
    requires states[k].owners[run].pc.AtBlock()
    requires var q := states[k].owners[run].pc; x < q.block || (x == q.block && q.Sending?)
    ensures j <= t < k && PassesWait(states, acts, t, run) && states[t].owners[run].pc.block == x
    decreases k
  {
    OwnsInBetween(states, acts, j, k - 1, k, run);
    RankAdvances(states, acts, k - 1, k, run);
    OwnerStep(states, acts, k - 1, run);
    var p, q := states[k - 1].owners[run].pc, states[k].owners[run].pc;
    if p.TestingClock? && p.block == x && q.Sending? {
      t := k - 1;
    } else {
      t := FindPassedWait(states, acts, j, k - 1, run, x);
    }
  }

  lemma {:induction false} BlocksInRange(states: seq<State>, acts: seq<Action>, k: nat, run: nat)
    requires IsRun(states, acts) && k < |states| && run in states[k].owners
    ensures |states[k].owners[run].config.blocks| > 0
    ensures states[k].owners[run].pc.AtBlock()
            ==> states[k].owners[run].pc.block < |states[k].owners[run].config.blocks|
    ensures states[k].owners[run].pc.Sending? ==> states[k].owners[run].pc.tries < CAN_SEND_ATTEMPTS
  {
    assert k > 0;
    if run in states[k - 1].owners {
      BlocksInRange(states, acts, k - 1, run);
      OwnerStep(states, acts, k - 1, run);
    } else {
      assert StepAt(states, acts, k - 1);
    }
  }

  /**
   Bounded overrun: once abort or stop is up while `run` owns the sequence, a block b can still be
   attempted only if every wait up to b that has not begun at that moment is zero.
   */
  lemma BoundedOverrun(states: seq<State>, acts: seq<Action>, j: nat, k: nat, run: nat)
    requires IsRun(states, acts) && j <= k < |acts| && Halting(states[j]) && run in states[j].owners
    requires acts[k].Own? && acts[k].run == run && acts[k].op.Attempt?
    requires PositiveWaitsEnter(states, acts, run)
    ensures run in states[k].owners && states[k].owners[run].pc.Sending? && Live(states[j].owners[run].pc)
    ensures var config, b := states[j].owners[run].config, states[k].owners[run].pc.block;
            && b < |config.blocks| && acts[k].op.frame == config.blocks[b].frame
            && forall x: nat :: x <= b && Rank(states[j].owners[run].pc) <= 2 * x ==> DelayBefore(config, x) == 0
  {
    AttemptAfterAbort(states, acts, j, k, run);
    BlocksInRange(states, acts, k, run);
    assert StepAt(states, acts, k);
    var config, b := states[j].owners[run].config, states[k].owners[run].pc.block;
    forall x: nat | x <= b && Rank(states[j].owners[run].pc) <= 2 * x ensures DelayBefore(config, x) == 0 {
      var t := FindPassedWait(states, acts, j, k, run, x);
      RankAdvances(states, acts, j, t, run);
      if DelayBefore(config, x) > 0 {
        var u :| 0 <= u < t && EntersLoop(states, acts, u, run)
                 && states[u].owners[run].pc.block == states[t].owners[run].pc.block;
        if u < j {
          RankAdvances(states, acts, u, j, run);
        }
      }
    }
  }

  /** The same for a worker at block i: it sends at most i..m, joined by zero waits. */
  lemma OverrunFromBlock(states: seq<State>, acts: seq<Action>, j: nat, k: nat, run: nat)
    requires IsRun(states, acts) && j <= k < |acts| && Halting(states[j])
    requires run in states[j].owners && states[j].owners[run].pc.AtBlock()
    requires acts[k].Own? && acts[k].run == run && acts[k].op.Attempt?
    requires PositiveWaitsEnter(states, acts, run)
    ensures run in states[k].owners && states[k].owners[run].pc.Sending?
    ensures var config, i, b :=
              states[j].owners[run].config, states[j].owners[run].pc.block, states[k].owners[run].pc.block;
            && i <= b < |config.blocks|
            && acts[k].op.frame == config.blocks[b].frame
            && forall x :: i <= x < b ==> config.blocks[x].waitMs == 0
  {
    AttemptAfterAbort(states, acts, j, k, run);
    BoundedOverrun(states, acts, j, k, run);
    var config, i, b :=
      states[j].owners[run].config, states[j].owners[run].pc.block, states[k].owners[run].pc.block;
    forall x | i <= x < b ensures config.blocks[x].waitMs == 0 {
      assert DelayBefore(config, x + 1) == 0;
    }
  }

  /** A FIRE aborted before its worker exists, or claimed after stop was raised, sends nothing at all. */
  lemma EarlyAbortSendsNothing(states: seq<State>, acts: seq<Action>, j: nat, k: nat, run: nat)
    requires IsRun(states, acts) && j <= k < |acts| && Halting(states[j]) && run in states[j].owners
    requires states[j].owners[run].pc.Claimed? || states[j].owners[run].pc.Prepared?
    requires !states[j].owners[run].config.drown && PositiveWaitsEnter(states, acts, run)
    ensures !(acts[k].Own? && acts[k].run == run && acts[k].op.Attempt?)
  {
    BlocksInRange(states, acts, j, run);
    assert DelayBefore(states[j].owners[run].config, 0) == T_MINUS_MS;
    if acts[k].Own? && acts[k].run == run && acts[k].op.Attempt? {
      BoundedOverrun(states, acts, j, k, run);
    }
  }

  // ---------------------------------------------------------------- the run then ends

  /** Own steps left to a worker when abort or stop is up and will be seen at a poll. */
  function StepsLeft(config: Config, pc: Pc, stop: bool): int {
    match pc
    case Finishing(_) => 1
    case PollingAbort(_, _) => 3
    case Sending(i, tries) => 1 + (CAN_SEND_ATTEMPTS - tries) + 5 * (|config.blocks| - 1 - i)
    case TestingClock(i, _) => 5 + 5 * (|config.blocks| - 1 - i)
    case ReadingDeadline(i) => 6 + 5 * (|config.blocks| - 1 - i)
    case Sleeping(i, _) => 6 + 5 * (|config.blocks| - 1 - i)
    case PollingStop(i, _) => if stop then 2 else 7 + 5 * (|config.blocks| - 1 - i)
    case GivingBack => 1
    case Prepared => 7 + 5 * (|config.blocks| - 1)
    case Claimed => 8 + 5 * (|config.blocks| - 1)
  }

  function OwnSteps(acts: seq<Action>, run: nat): nat {
    if acts == [] then 0
    else
      OwnSteps(acts[..|acts| - 1], run)
      + if acts[|acts| - 1].Own? && acts[|acts| - 1].run == run then 1 else 0
  }

  /** With a flag up, every own step that does not release the claim brings the end closer. */
  lemma CountdownStep(config: Config, pc: Pc, op: Op, abort: bool, stop: bool)
    requires |config.blocks| > 0 && (pc.AtBlock() ==> pc.block < |config.blocks|)
    requires pc.Sending? ==> pc.tries < CAN_SEND_ATTEMPTS
    ensures StepsLeft(config, pc, stop) >= 1
    ensures var next := NextPc(config, pc, op, abort, stop);
            next.Some? && (abort || stop) ==> StepsLeft(config, next.value, stop) + 1 <= StepsLeft(config, pc, stop)
  {
  }

  lemma OwnStepsSnoc(acts: seq<Action>, from: nat, k: nat, run: nat)
    requires from <= k < |acts|
    ensures OwnSteps(acts[from..k + 1], run)
         == OwnSteps(acts[from..k], run) + if acts[k].Own? && acts[k].run == run then 1 else 0
  {
    assert acts[from..k + 1][..k - from] == acts[from..k];
  }

  function Left(s: State, run: nat): int {
    if run in s.owners then StepsLeft(s.owners[run].config, s.owners[run].pc, s.stop) else 0
  }

  /** One action of the system while a flag is up: an own step of `run` uses up what is left to it. */
  lemma LeftStep(states: seq<State>, acts: seq<Action>, j: nat, k: nat, run: nat)
    requires IsRun(states, acts) && j <= k < |acts| && Halting(states[j]) && run in states[j].owners
    ensures Left(states[k + 1], run) + (if acts[k].Own? && acts[k].run == run then 1 else 0)
         <= Left(states[k], run)
  {
    if run in states[k].owners {
      HaltStaysVisible(states, acts, j, k, run);
      BlocksInRange(states, acts, k, run);
      OwnerStep(states, acts, k, run);
      assert StepAt(states, acts, k);
      if acts[k].Own? {
        var o := states[k].owners[run];
        CountdownStep(o.config, o.pc, acts[k].op, states[k].abort, states[k].stop);
      }
    } else {
      StillKnown(states, acts, j, k, run);
      GoneStaysGone(states, acts, k, k + 1, run);
      assert StepAt(states, acts, k);
    }
  }

  lemma {:induction false} AbortCountdown(states: seq<State>, acts: seq<Action>, j: nat, k: nat, run: nat)
    requires IsRun(states, acts) && j <= k < |states| && Halting(states[j]) && run in states[j].owners
    ensures OwnSteps(acts[j..k], run) + Left(states[k], run) <= Left(states[j], run)
    decreases k
  {
    if j < k {
      AbortCountdown(states, acts, j, k - 1, run);
      OwnStepsSnoc(acts, j, k - 1, run);
      LeftStep(states, acts, j, k - 1, run);
    }
  }

  lemma {:induction false} StillKnown(states: seq<State>, acts: seq<Action>, j: nat, k: nat, run: nat)
    requires IsRun(states, acts) && j <= k < |states| && run in states[j].owners
    ensures run < states[k].nextRun
    decreases k
  {
    if j < k {
      StillKnown(states, acts, j, k - 1, run);
      assert StepAt(states, acts, k - 1);
    } else {
      AlwaysSingleOwner(states, acts, j);
    }
  }

  /**
   A run ends once abort or stop is up: whatever the schedule, its owner takes at most five own steps per remaining
   block and a few more, and until it has given its claim back one of them is always enabled.
   */
  lemma AbortedRunEnds(states: seq<State>, acts: seq<Action>, j: nat, k: nat, run: nat)
    requires IsRun(states, acts) && j <= k < |states| && Halting(states[j]) && run in states[j].owners
    ensures var o := states[j].owners[run];
            && OwnSteps(acts[j..k], run) <= 5 * |o.config.blocks| + 3
            && (o.pc.AtBlock() ==> OwnSteps(acts[j..k], run) <= 5 * (|o.config.blocks| - o.pc.block) + 2)
    ensures run in states[k].owners ==> exists op :: Next(states[k], Own(run, op)).Some?
  {
    AbortCountdown(states, acts, j, k, run);
    BlocksInRange(states, acts, j, run);
    if run in states[k].owners {
      BlocksInRange(states, acts, k, run);
      CountdownStep(states[k].owners[run].config, states[k].owners[run].pc, Sleep, true, states[k].stop);
      OwnerCanMove(states[k], run);
    }
  }
}
