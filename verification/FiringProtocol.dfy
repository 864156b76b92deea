/**
 The firing-sequence protocol of src/control/firing_sequence.c as a small-step machine.

 Command handlers, the detached worker, abort requests, shutdown and the clock interleave
 freely; one step is one critical section, one clock reading, one sleep or one send attempt.
 Clock readings, send results, allocation and thread creation are chosen by the environment
 and recorded in the action; the bus never takes a frame whose id is wider than eleven bits.
 `Elapse` is a reading of the clock by somebody else.  Nothing in the step relation limits the number of owners:
 that there is at most one is a theorem.
 */
module FiringProtocol {
  import opened Base

  const T_MINUS_MS: nat := 10000
  const CAN_SEND_ATTEMPTS: nat := 3
  const MAX_CAN_ID: nat := 0x7FF

  datatype Frame = Frame(id: nat, value: nat, durationMs: nat)

  datatype Block = Block(frame: Frame, waitMs: nat)

  datatype Config = Config(blocks: seq<Block>, drown: bool)

  /** The wait that precedes block `i`; the wait stored with the last block is never used. */
  function DelayBefore(config: Config, i: nat): nat
    requires i < |config.blocks|
  {
    if i > 0 then config.blocks[i - 1].waitMs
    else if config.drown then 0
    else T_MINUS_MS
  }

  datatype Outcome = Completed | Failed | Aborted

  /** Where the owner of a claim stands: first the starting handler, then the worker. */
  datatype Pc =
    | Claimed
    | Prepared
    | GivingBack
    | ReadingDeadline(block: nat)
    | TestingClock(block: nat, deadline: nat)
    | PollingAbort(block: nat, deadline: nat)
    | PollingStop(block: nat, deadline: nat)
    | Sleeping(block: nat, deadline: nat)
    | Sending(block: nat, tries: nat)
    | Finishing(outcome: Outcome)
  {
    /** A worker that has not yet decided how its run ends. */
    predicate AtBlock() {
      ReadingDeadline? || TestingClock? || PollingAbort? || PollingStop? || Sleeping? || Sending?
    }
  }

  datatype Op =
    | Allocate(ok: bool)
    | Spawn(ok: bool, now: nat)
    | GiveBack
    | ReadDeadline(now: nat)
    | TestClock(now: nat)
    | PollAbort
    | PollStop
    | Sleep
    | Attempt(frame: Frame, ok: bool, now: nat)
    | Finish(outcome: Outcome)

  datatype Action =
    | Refuse
    | Claim(run: nat, config: Config)
    | Own(run: nat, op: Op)
    | RequestAbort
    | RaiseStop
    | Elapse(now: nat)

  datatype Owner = Owner(config: Config, pc: Pc)

  /** `owners` holds every claim not yet given back, under a run number that is never reused. */
  datatype State = State(
    active: bool, abort: bool, stop: bool, clock: nat, owners: map<nat, Owner>, nextRun: nat)

  const INITIAL := State(false, false, false, 0, map[], 0)

  function ReadingOf(op: Op, clock: nat): nat {
    match op
    case Spawn(_, now) => now
    case ReadDeadline(now) => now
    case TestClock(now) => now
    case Attempt(_, _, now) => now
    case _ => clock
  }

  function NextPc(config: Config, pc: Pc, op: Op, abort: bool, stop: bool): Option<Pc> {
    match op
    case Allocate(ok) =>
      if pc.Claimed? then Some(if ok then Prepared else GivingBack) else None
    case Spawn(ok, _) =>
      if pc.Prepared? then Some(if ok then ReadingDeadline(0) else GivingBack) else None
    case ReadDeadline(now) =>
      if pc.ReadingDeadline? && pc.block < |config.blocks| then
        Some(TestingClock(pc.block, now + DelayBefore(config, pc.block)))
      else None
    case TestClock(now) =>
      if pc.TestingClock? then
        Some(if now < pc.deadline then PollingAbort(pc.block, pc.deadline) else Sending(pc.block, 0))
      else None
    case PollAbort =>
      if pc.PollingAbort? then
        Some(if abort then Finishing(Aborted) else PollingStop(pc.block, pc.deadline))
      else None
    case PollStop =>
      if pc.PollingStop? then
        Some(if stop then Finishing(Aborted) else Sleeping(pc.block, pc.deadline))
      else None
    case Sleep =>
      if pc.Sleeping? then Some(TestingClock(pc.block, pc.deadline)) else None
    case Attempt(frame, ok, _) =>
      if !pc.Sending? || pc.block >= |config.blocks| || frame != config.blocks[pc.block].frame then None
      else if ok && frame.id > MAX_CAN_ID then None
      else if ok then
        Some(if pc.block + 1 < |config.blocks| then ReadingDeadline(pc.block + 1) else Finishing(Completed))
      else
        Some(if pc.tries + 1 < CAN_SEND_ATTEMPTS then Sending(pc.block, pc.tries + 1) else Finishing(Failed))
    case GiveBack => None
    case Finish(_) => None
  }

  predicate Releases(pc: Pc, op: Op) {
    (pc.GivingBack? && op.GiveBack?) || (pc.Finishing? && op == Finish(pc.outcome))
  }

  function OwnerNext(s: State, run: nat, op: Op): Option<State>
    requires run in s.owners
  {
    var o := s.owners[run];
    if ReadingOf(op, s.clock) < s.clock then None
    else if Releases(o.pc, op) then
      Some(s.(active := false, abort := false, owners := s.owners - {run}))
    else
      match NextPc(o.config, o.pc, op, s.abort, s.stop)
      case None => None
      case Some(pc) =>
        Some(s.(clock := ReadingOf(op, s.clock), owners := s.owners[run := Owner(o.config, pc)]))
  }

  function Next(s: State, a: Action): Option<State> {
    match a
    case Refuse => if s.active then Some(s) else None
    case Claim(run, config) =>
      if s.active || config.blocks == [] || run != s.nextRun then None
      else Some(s.(active := true, abort := false, nextRun := run + 1,
                   owners := s.owners[run := Owner(config, Claimed)]))
    case Own(run, op) => if run in s.owners then OwnerNext(s, run, op) else None
    case RequestAbort => Some(s.(abort := true))
    case RaiseStop => Some(s.(stop := true))
    case Elapse(now) => if now < s.clock then None else Some(s.(clock := now))
  }

  ghost predicate StepAt(states: seq<State>, acts: seq<Action>, k: nat)
    requires k < |acts| && |states| == |acts| + 1
  {
    Next(states[k], acts[k]) == Some(states[k + 1])
  }

  /** A finite run from start-up: `states[k]` is reached after the first `k` actions. */
  ghost predicate IsRun(states: seq<State>, acts: seq<Action>) {
    && |states| == |acts| + 1
    && states[0] == INITIAL
    && forall k :: 0 <= k < |acts| ==> StepAt(states, acts, k)
  }

  /** An owner is never stuck: its own next step is enabled in every state it can be in. */
  lemma OwnerCanMove(s: State, run: nat)
    requires run in s.owners
    requires s.owners[run].pc.AtBlock() ==> s.owners[run].pc.block < |s.owners[run].config.blocks|
    ensures exists op :: Next(s, Own(run, op)).Some?
  {
    var o := s.owners[run];
    var op :=
      match o.pc
      case Claimed => Allocate(true)
      case Prepared => Spawn(true, s.clock)
      case GivingBack => GiveBack
      case ReadingDeadline(_) => ReadDeadline(s.clock)
      case TestingClock(_, _) => TestClock(s.clock)
      case PollingAbort(_, _) => PollAbort
      case PollingStop(_, _) => PollStop
      case Sleeping(_, _) => Sleep
      case Sending(i, _) => Attempt(o.config.blocks[i].frame, false, s.clock)
      case Finishing(outcome) => Finish(outcome);
    assert Next(s, Own(run, op)).Some?;
  }
}
