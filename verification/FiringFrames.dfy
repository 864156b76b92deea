/** What a run puts on the bus, how it reports, and when. */
module FiringFrames {
  import opened FiringProtocol
  import opened FiringOwnership

  /** Frames accepted by the bus on behalf of `run`, oldest first. */
  function Successes(acts: seq<Action>, run: nat): seq<Frame> {
    if acts == [] then []
    else
      var last := acts[|acts| - 1];
      Successes(acts[..|acts| - 1], run)
      + if last.Own? && last.run == run && last.op.Attempt? && last.op.ok then [last.op.frame] else []
  }

  /** Failed attempts of `run` since its last successful one. */
  function FailStreak(acts: seq<Action>, run: nat): nat {
    if acts == [] then 0
    else
      var last := acts[|acts| - 1];
      var before := FailStreak(acts[..|acts| - 1], run);
      if !last.Own? || last.run != run || !last.op.Attempt? then before
      else if last.op.ok then 0
      else before + 1
  }

  ghost predicate SentPrefix(config: Config, sent: seq<Frame>) {
    && |sent| <= |config.blocks|
    && forall i :: 0 <= i < |sent| ==> sent[i] == config.blocks[i].frame && sent[i].id <= 0x7FF
  }

  /** How the history of a run and the place its owner stands at agree. */
  ghost predicate Agrees(o: Owner, sent: seq<Frame>, streak: nat) {
    && SentPrefix(o.config, sent)
    && match o.pc
       case Sending(i, tries) => |sent| == i < |o.config.blocks| && streak == tries < CAN_SEND_ATTEMPTS
       case Finishing(Completed) => |sent| == |o.config.blocks| && streak == 0
       case Finishing(Failed) => |sent| < |o.config.blocks| && streak == CAN_SEND_ATTEMPTS
       case Finishing(Aborted) => |sent| < |o.config.blocks| && streak == 0
       case _ =>
         && |sent| == (if o.pc.AtBlock() then o.pc.block else 0)
         && |sent| < |o.config.blocks| && streak == 0
  }

  lemma AgreesStep(o: Owner, op: Op, abort: bool, stop: bool, sent: seq<Frame>, streak: nat)
    requires Agrees(o, sent, streak) && NextPc(o.config, o.pc, op, abort, stop).Some?
    ensures var o' := o.(pc := NextPc(o.config, o.pc, op, abort, stop).value);
            if !op.Attempt? then Agrees(o', sent, streak)
            else if op.ok then Agrees(o', sent + [op.frame], 0)
            else Agrees(o', sent, streak + 1)
  {
  }

  lemma HistorySnoc(acts: seq<Action>, k: nat, run: nat)
    requires k < |acts|
    ensures var mine := acts[k].Own? && acts[k].run == run && acts[k].op.Attempt?;
            && Successes(acts[..k + 1], run)
               == Successes(acts[..k], run) + (if mine && acts[k].op.ok then [acts[k].op.frame] else [])
            && FailStreak(acts[..k + 1], run)
               == if !mine then FailStreak(acts[..k], run)
                  else if acts[k].op.ok then 0 else FailStreak(acts[..k], run) + 1
  {
    assert acts[..k + 1][..k] == acts[..k];
  }

  lemma {:induction false} UnclaimedIsSilent(states: seq<State>, acts: seq<Action>, k: nat, run: nat)
    requires IsRun(states, acts) && k < |states| && run >= states[k].nextRun
    ensures Successes(acts[..k], run) == [] && FailStreak(acts[..k], run) == 0
  {
    if k > 0 {
      assert StepAt(states, acts, k - 1);
      UnclaimedIsSilent(states, acts, k - 1, run);
      AlwaysSingleOwner(states, acts, k - 1);
      HistorySnoc(acts, k - 1, run);
    }
  }

  /** One action of the system keeps history and owner in agreement. */
  lemma AgreesAfter(states: seq<State>, acts: seq<Action>, k: nat, run: nat)
    requires IsRun(states, acts) && k < |acts| && run in states[k].owners && run in states[k + 1].owners
    requires Agrees(states[k].owners[run], Successes(acts[..k], run), FailStreak(acts[..k], run))
    ensures Agrees(states[k + 1].owners[run], Successes(acts[..k + 1], run), FailStreak(acts[..k + 1], run))
  {
    var o, sent, streak := states[k].owners[run], Successes(acts[..k], run), FailStreak(acts[..k], run);
    HistorySnoc(acts, k, run);
    OwnerStep(states, acts, k, run);
    if acts[k].Own? {
      AgreesStep(o, acts[k].op, states[k].abort, states[k].stop, sent, streak);
      assert states[k + 1].owners[run] == o.(pc := states[k + 1].owners[run].pc);
      assert sent + [] == sent;
    } else {
      assert sent + [] == sent;
    }
  }

  lemma {:induction false} HistoryAgrees(states: seq<State>, acts: seq<Action>, k: nat, run: nat)
    requires IsRun(states, acts) && k < |states| && run in states[k].owners
    ensures Agrees(states[k].owners[run], Successes(acts[..k], run), FailStreak(acts[..k], run))
  {
    assert k > 0;
    if run in states[k - 1].owners {
      HistoryAgrees(states, acts, k - 1, run);
      AgreesAfter(states, acts, k - 1, run);
    } else {
      HistorySnoc(acts, k - 1, run);
      assert StepAt(states, acts, k - 1);
      UnclaimedIsSilent(states, acts, k - 1, run);
    }
  }

  lemma {:induction false} ConfigIsClaimed(
    states: seq<State>, acts: seq<Action>, c: nat, k: nat, run: nat, config: Config)
    requires IsRun(states, acts) && c < k < |states| && acts[c] == Claim(run, config)
    requires run in states[k].owners
    ensures states[k].owners[run].config == config
    decreases k
  {
    assert StepAt(states, acts, c);
    if c + 1 < k {
      OwnsInBetween(states, acts, c + 1, k - 1, k, run);
      ConfigIsClaimed(states, acts, c, k - 1, run, config);
      OwnerStep(states, acts, k - 1, run);
    }
  }

  /**
   Every attempt of a run carries the first block not yet sent, after fewer than three
   failures of that block.
   */
  lemma AttemptIsNextBlock(
    states: seq<State>, acts: seq<Action>, c: nat, k: nat, run: nat, config: Config)
    requires IsRun(states, acts) && c < k < |acts| && acts[c] == Claim(run, config)
    requires acts[k].Own? && acts[k].run == run && acts[k].op.Attempt?
    ensures var sent := Successes(acts[..k], run);
            && SentPrefix(config, sent) && |sent| < |config.blocks|
            && acts[k].op.frame == config.blocks[|sent|].frame
            && FailStreak(acts[..k], run) < 3
  {
    assert StepAt(states, acts, k);
    HistoryAgrees(states, acts, k, run);
    ConfigIsClaimed(states, acts, c, k, run, config);
  }

  /**
   The report at the end of a run is truthful: the frames sent are an in-order prefix of the
   configured blocks, completed means all of them, failed means the next block was refused
   three times, aborted means the run stopped between two blocks.
   */
  lemma ReportIsTruthful(
    states: seq<State>, acts: seq<Action>, c: nat, e: nat, run: nat, config: Config, outcome: Outcome)
    requires IsRun(states, acts) && c < e < |acts| && acts[c] == Claim(run, config)
    requires acts[e] == Own(run, Finish(outcome))
    ensures var sent, streak := Successes(acts[..e], run), FailStreak(acts[..e], run);
            && SentPrefix(config, sent)
            && (outcome == Completed <==> |sent| == |config.blocks|)
            && (outcome == Failed <==> |sent| < |config.blocks| && streak == 3)
            && (outcome == Aborted <==> |sent| < |config.blocks| && streak == 0)
  {
    assert StepAt(states, acts, e);
    HistoryAgrees(states, acts, e, run);
    ConfigIsClaimed(states, acts, c, e, run, config);
  }

  // ---------------------------------------------------------------- timing

  /** Milliseconds after the worker starts before which block `i` must not be attempted. */
  function Earliest(config: Config, i: nat): nat
    requires i < |config.blocks|
  {
    DelayBefore(config, i) + if i == 0 then 0 else Earliest(config, i - 1)
  }

  ghost predicate OnSchedule(o: Owner, t0: nat, clock: nat) {
    clock >= t0 &&
    match o.pc
    case ReadingDeadline(i) =>
      i < |o.config.blocks| && clock >= t0 + if i == 0 then 0 else Earliest(o.config, i - 1)
    case TestingClock(i, d) => i < |o.config.blocks| && d >= t0 + Earliest(o.config, i)
    case PollingAbort(i, d) => i < |o.config.blocks| && d >= t0 + Earliest(o.config, i)
    case PollingStop(i, d) => i < |o.config.blocks| && d >= t0 + Earliest(o.config, i)
    case Sleeping(i, d) => i < |o.config.blocks| && d >= t0 + Earliest(o.config, i)
    case Sending(i, _) => i < |o.config.blocks| && clock >= t0 + Earliest(o.config, i)
    case Finishing(_) => true
    case _ => false
  }

  lemma OnScheduleStep(o: Owner, op: Op, abort: bool, stop: bool, t0: nat, clock: nat)
    requires OnSchedule(o, t0, clock) && NextPc(o.config, o.pc, op, abort, stop).Some?
    requires ReadingOf(op, clock) >= clock
    ensures OnSchedule(o.(pc := NextPc(o.config, o.pc, op, abort, stop).value), t0, ReadingOf(op, clock))
  {
  }

  lemma {:induction false} WorkerOnSchedule(
    states: seq<State>, acts: seq<Action>, sp: nat, k: nat, run: nat, t0: nat)
    requires IsRun(states, acts) && sp < k < |states|
    requires acts[sp] == Own(run, Spawn(true, t0)) && run in states[k].owners
    ensures OnSchedule(states[k].owners[run], t0, states[k].clock)
    decreases k
  {
    assert StepAt(states, acts, sp);
    if k == sp + 1 {
      HistoryAgrees(states, acts, sp, run);
      OwnerStep(states, acts, sp, run);
    } else {
      OwnsInBetween(states, acts, sp, k - 1, k, run);
      WorkerOnSchedule(states, acts, sp, k - 1, run, t0);
      OwnerStep(states, acts, k - 1, run);
      if acts[k - 1].Own? {
        OnScheduleStep(states[k - 1].owners[run], acts[k - 1].op, states[k - 1].abort, states[k - 1].stop,
                       t0, states[k - 1].clock);
      }
    }
  }

  /**
   No block is attempted early: block i of a FIRE waits for worker start + 10000 ms + the waits
   of the blocks before it, a drown run for the waits alone.
   */
  lemma NoEarlyAttempt(
    states: seq<State>, acts: seq<Action>, c: nat, sp: nat, k: nat, run: nat, config: Config, t0: nat)
    requires IsRun(states, acts) && c < k && sp < k < |acts|
    requires acts[c] == Claim(run, config) && acts[sp] == Own(run, Spawn(true, t0))
    requires acts[k].Own? && acts[k].run == run && acts[k].op.Attempt?
    ensures |Successes(acts[..k], run)| < |config.blocks|
    ensures acts[k].op.now >= t0 + (if config.drown then 0 else 10000)
                              + WaitSum(config.blocks[..|Successes(acts[..k], run)|])
  {
    AttemptIsNextBlock(states, acts, c, k, run, config);
    assert StepAt(states, acts, k);
    HistoryAgrees(states, acts, k, run);
    ConfigIsClaimed(states, acts, c, k, run, config);
    WorkerOnSchedule(states, acts, sp, k, run, t0);
    EarliestIsWaitSum(config, |Successes(acts[..k], run)|);
  }

  function WaitSum(blocks: seq<Block>): nat {
    if blocks == [] then 0 else WaitSum(blocks[..|blocks| - 1]) + blocks[|blocks| - 1].waitMs
  }

  lemma {:induction false} EarliestIsWaitSum(config: Config, i: nat)
    requires i < |config.blocks|
    ensures Earliest(config, i) == (if config.drown then 0 else T_MINUS_MS) + WaitSum(config.blocks[..i])
  {
    if i > 0 {
      EarliestIsWaitSum(config, i - 1);
      assert config.blocks[..i][..i - 1] == config.blocks[..i - 1];
    }
  }
}
