/** The overrun bound of FiringAbort is exact: each block it allows is sent in some run. */
module FiringTightness {
  import opened Base
  import opened FiringProtocol
  import opened FiringAbort

  /** Which of the two flags are up. */
  datatype Flags = Flags(abort: bool, stop: bool)

  const NONE := Flags(false, false)

  /** The flag that a request to end the run raises. */
  function RaisedBy(request: Action): Flags { Flags(request == RequestAbort, request == RaiseStop) }

  /** A run under construction, whose only claim is number 0 and stands at `pc`. */
  ghost predicate Building(states: seq<State>, acts: seq<Action>, config: Config, pc: Pc, up: Flags) {
    && IsRun(states, acts)
    && PositiveWaitsEnter(states, acts, 0)
    && var s := states[|acts|];
       0 in s.owners && s.owners[0] == Owner(config, pc) && Flags(s.abort, s.stop) == up
  }

  /** The wait before `block` may pass: it is zero, or its loop has been entered. */
  ghost predicate MayPass(states: seq<State>, acts: seq<Action>, config: Config, block: nat)
    requires IsRun(states, acts) && block < |config.blocks|
  {
    DelayBefore(config, block) > 0 ==>
      exists u :: 0 <= u < |acts| && EntersLoop(states, acts, u, 0) && states[u].owners[0].pc.block == block
  }

  lemma Push(states: seq<State>, acts: seq<Action>, a: Action) returns (states': seq<State>, acts': seq<Action>)
    requires IsRun(states, acts) && PositiveWaitsEnter(states, acts, 0)
    requires Next(states[|acts|], a).Some?
    requires a.Own? && a.run == 0 && a.op.TestClock? && 0 in states[|acts|].owners ==>
               var o := states[|acts|].owners[0];
               o.pc.TestingClock? && a.op.now >= o.pc.deadline ==>
                 o.pc.block < |o.config.blocks| && MayPass(states, acts, o.config, o.pc.block)
    ensures acts' == acts + [a] && states' == states + [Next(states[|acts|], a).value]
    ensures IsRun(states', acts') && PositiveWaitsEnter(states', acts', 0)
    ensures forall u :: 0 <= u < |acts| && EntersLoop(states, acts, u, 0) ==> EntersLoop(states', acts', u, 0)
  {
    acts' := acts + [a];
    states' := states + [Next(states[|acts|], a).value];
    forall k | 0 <= k < |acts'| ensures StepAt(states', acts', k) {
      if k < |acts| { assert StepAt(states, acts, k); }
    }
    assert forall u :: 0 <= u < |acts| && EntersLoop(states, acts, u, 0) ==> EntersLoop(states', acts', u, 0);
    forall t |
      0 <= t < |acts'| && PassesWait(states', acts', t, 0)
      && states'[t].owners[0].pc.block < |states'[t].owners[0].config.blocks|
      && DelayBefore(states'[t].owners[0].config, states'[t].owners[0].pc.block) > 0
      ensures exists u :: 0 <= u < t && EntersLoop(states', acts', u, 0)
                          && states'[u].owners[0].pc.block == states'[t].owners[0].pc.block
    {
      var config, block := states'[t].owners[0].config, states'[t].owners[0].pc.block;
      if t < |acts| {
        assert PassesWait(states, acts, t, 0);
        var u :| 0 <= u < t && EntersLoop(states, acts, u, 0) && states[u].owners[0].pc.block == block;
        assert EntersLoop(states', acts', u, 0);
      } else {
        assert MayPass(states, acts, config, block);
        var u :| 0 <= u < |acts| && EntersLoop(states, acts, u, 0) && states[u].owners[0].pc.block == block;
        assert EntersLoop(states', acts', u, 0);
      }
    }
  }

  /** One own step of the worker that does not end a wait. */
  lemma Advance(states: seq<State>, acts: seq<Action>, config: Config, pc: Pc, op: Op, pc': Pc, up: Flags)
    returns (states': seq<State>, acts': seq<Action>)
    requires Building(states, acts, config, pc, up)
    requires NextPc(config, pc, op, up.abort, up.stop) == Some(pc') && !Releases(pc, op)
    requires ReadingOf(op, states[|acts|].clock) == states[|acts|].clock
    requires op.TestClock? && pc.TestingClock? ==> op.now < pc.deadline
    ensures Building(states', acts', config, pc', up)
    ensures acts <= acts' && states <= states' && states'[|acts'|].clock == states[|acts|].clock
    ensures forall b: nat ::
              b < |config.blocks| && MayPass(states, acts, config, b) ==> MayPass(states', acts', config, b)
    ensures op.TestClock? && pc.TestingClock? && pc.block < |config.blocks| ==>
              MayPass(states', acts', config, pc.block)
  {
    states', acts' := Push(states, acts, Own(0, op));
    assert op.TestClock? && pc.TestingClock? ==> EntersLoop(states', acts', |acts|, 0);
  }

  /** Once round the wait loop: the deadline is ahead, nothing is raised, the worker sleeps. */
  lemma AroundLoop(states: seq<State>, acts: seq<Action>, config: Config, x: nat, d: nat)
    returns (states': seq<State>, acts': seq<Action>)
    requires Building(states, acts, config, TestingClock(x, d), NONE) && x < |config.blocks|
    requires states[|acts|].clock < d
    ensures Building(states', acts', config, TestingClock(x, d), NONE)
    ensures acts <= acts' && states <= states' && MayPass(states', acts', config, x)
    ensures states'[|acts'|].clock == states[|acts|].clock
  {
    var test, poll := TestingClock(x, d), PollingAbort(x, d);
    states', acts' := Advance(states, acts, config, test, TestClock(states[|acts|].clock), poll, NONE);
    states', acts' := Advance(states', acts', config, poll, PollAbort, PollingStop(x, d), NONE);
    states', acts' := Advance(states', acts', config, PollingStop(x, d), PollStop, Sleeping(x, d), NONE);
    states', acts' := Advance(states', acts', config, Sleeping(x, d), Sleep, test, NONE);
  }

  /** From the start of block `x` to the clock test that lets it pass. */
  lemma ToLastTest(states: seq<State>, acts: seq<Action>, config: Config, x: nat, up: Flags)
    returns (states': seq<State>, acts': seq<Action>, d: nat)
    requires Building(states, acts, config, ReadingDeadline(x), up) && x < |config.blocks|
    requires up != NONE ==> DelayBefore(config, x) == 0
    ensures Building(states', acts', config, TestingClock(x, d), up)
    ensures acts <= acts' && states <= states' && MayPass(states', acts', config, x)
    ensures states'[|acts'|].clock == states[|acts|].clock && d == states[|acts|].clock + DelayBefore(config, x)
  {
    var now := states[|acts|].clock;
    d := now + DelayBefore(config, x);
    states', acts' := Advance(states, acts, config, ReadingDeadline(x), ReadDeadline(now), TestingClock(x, d), up);
    if DelayBefore(config, x) > 0 {
      states', acts' := AroundLoop(states', acts', config, x, d);
    }
  }

  /** The bus can take the block: its id is eleven bits wide. */
  predicate Sendable(b: Block) { b.frame.id <= 0x7FF }

  /** The wait passes and block `x` is attempted, with success if its id allows it. */
  lemma PassAndSend(states: seq<State>, acts: seq<Action>, config: Config, x: nat, d: nat, up: Flags)
    returns (states': seq<State>, acts': seq<Action>)
    requires Building(states, acts, config, TestingClock(x, d), up) && x < |config.blocks|
    requires MayPass(states, acts, config, x)
    ensures Sendable(config.blocks[x]) ==>
              Building(states', acts', config,
                       if x + 1 < |config.blocks| then ReadingDeadline(x + 1) else Finishing(Completed), up)
    ensures IsRun(states', acts') && PositiveWaitsEnter(states', acts', 0)
    ensures acts <= acts' && states <= states' && |acts'| == |acts| + 2
    ensures acts'[|acts| + 1].Own? && acts'[|acts| + 1].run == 0
    ensures acts'[|acts| + 1].op.Attempt? && acts'[|acts| + 1].op.ok == Sendable(config.blocks[x])
    ensures acts'[|acts| + 1].op.frame == config.blocks[x].frame
    ensures states'[|acts'|].clock == acts'[|acts| + 1].op.now == Max(states[|acts|].clock, d)
  {
    var now := Max(states[|acts|].clock, d);
    states', acts' := Push(states, acts, Own(0, TestClock(now)));
    states', acts' := Push(states', acts', Own(0, Attempt(config.blocks[x].frame, Sendable(config.blocks[x]), now)));
  }

  /** Without an abort every block is reached behind blocks that can be sent. */
  lemma {:induction false} ReachBlock(config: Config, x: nat) returns (states: seq<State>, acts: seq<Action>)
    requires x < |config.blocks| && forall y :: 0 <= y < x ==> Sendable(config.blocks[y])
    ensures Building(states, acts, config, ReadingDeadline(x), NONE)
    ensures |acts| > 2 && acts[0] == Claim(0, config) && acts[2] == Own(0, Spawn(true, 0))
    ensures x == 0 ==> states[|acts|].clock == 0
  {
    if x == 0 {
      states, acts := [INITIAL], [];
      states, acts := Push(states, acts, Claim(0, config));
      states, acts := Push(states, acts, Own(0, Allocate(true)));
      states, acts := Push(states, acts, Own(0, Spawn(true, 0)));
    } else {
      states, acts := ReachBlock(config, x - 1);
      var d;
      states, acts, d := ToLastTest(states, acts, config, x - 1, NONE);
      states, acts := PassAndSend(states, acts, config, x - 1, d, NONE);
    }
  }

  /** With a flag up, a chain of zero waits carries the worker from block `i` to block `m`. */
  lemma {:induction false} ReachUnderAbort(config: Config, i: nat, m: nat, request: Action)
    returns (states: seq<State>, acts: seq<Action>, j: nat, d: nat)
    requires i <= m < |config.blocks| && (request == RequestAbort || request == RaiseStop)
    requires forall x :: i <= x < m ==> config.blocks[x].waitMs == 0
    requires forall x :: 0 <= x < m ==> Sendable(config.blocks[x])
    ensures Building(states, acts, config, TestingClock(m, d), RaisedBy(request)) && MayPass(states, acts, config, m)
    ensures j < |acts| && acts[j] == request
    ensures 0 in states[j].owners && states[j].owners[0].config == config
    ensures states[j].owners[0].pc.AtBlock() && states[j].owners[0].pc.block == i
    decreases m
  {
    if i == m {
      states, acts := ReachBlock(config, i);
      states, acts, d := ToLastTest(states, acts, config, i, NONE);
      j := |acts|;
      ghost var u :| DelayBefore(config, i) > 0 ==>
        0 <= u < |acts| && EntersLoop(states, acts, u, 0) && states[u].owners[0].pc.block == i;
      states, acts := Push(states, acts, request);
      assert DelayBefore(config, i) > 0 ==> EntersLoop(states, acts, u, 0);
    } else {
      var up := RaisedBy(request);
      states, acts, j, d := ReachUnderAbort(config, i, m - 1, request);
      states, acts := PassAndSend(states, acts, config, m - 1, d, up);
      assert DelayBefore(config, m) == 0;
      states, acts, d := ToLastTest(states, acts, config, m, up);
    }
  }

  /**
   Exactness: for every configuration, every i <= m joined by zero waits behind blocks that can be
   sent, and either request, there is a run, in which every positive wait enters its loop, that
   attempts block m after the request at block i, with success if it can be sent.
   */
  lemma OverrunIsReachable(config: Config, i: nat, m: nat, request: Action)
    returns (states: seq<State>, acts: seq<Action>, j: nat, k: nat)
    requires i <= m < |config.blocks| && (request == RequestAbort || request == RaiseStop)
    requires forall x :: i <= x < m ==> config.blocks[x].waitMs == 0
    requires forall x :: 0 <= x < m ==> Sendable(config.blocks[x])
    ensures IsRun(states, acts) && PositiveWaitsEnter(states, acts, 0)
    ensures j < k < |acts| && acts[j] == request
    ensures 0 in states[j].owners && states[j].owners[0].config == config
    ensures states[j].owners[0].pc.AtBlock() && states[j].owners[0].pc.block == i
    ensures 0 in states[k].owners && states[k].owners[0].pc == Sending(m, 0)
    ensures acts[k].Own? && acts[k].run == 0 && acts[k].op.Attempt? && acts[k].op.ok == Sendable(config.blocks[m])
    ensures acts[k].op.frame == config.blocks[m].frame
  {
    var d;
    states, acts, j, d := ReachUnderAbort(config, i, m, request);
    k := |acts| + 1;
    var before := acts;
    states, acts := PassAndSend(states, acts, config, m, d, RaisedBy(request));
    assert acts[j] == before[j];
    assert StepAt(states, acts, k);
    assert StepAt(states, acts, k - 1);
  }
}
