/** What commands handled at the same time can do: the condition of mode exclusion is exact. */
module ServerOverlap {
  import opened Base
  import opened Wiggle
  import opened Commands
  import opened Server
  import opened ServerFiring
  import WiggleMap
  import FireParser
  import FiringOwnership
  import F = FiringProtocol

  /** What a lock section may find in `s`: the clock has not gone on, allocation and threads fail. */
  function At(s: System): Env { Env(s.control.firing.clock, true, false, false) }

  /** The state after the given actions, if each is enabled in turn. */
  function After(s: System, acts: seq<Action>): Option<System>
    decreases |acts|
  {
    if acts == [] then Some(s)
    else
      match Next(s, acts[0])
      case None => None
      case Some(s') => After(s', acts[1..])
  }

  lemma AfterStep(s: System, a: Action, acts: seq<Action>)
    ensures After(s, [a] + acts) == if Next(s, a).None? then None else After(Next(s, a).value, acts)
  {
    assert ([a] + acts)[1..] == acts;
  }

  /** No new command begins: those in progress, ticks and the worker go on. */
  ghost predicate NoBegin(acts: seq<Action>) {
    forall i :: 0 <= i < |acts| ==> !acts[i].Begin?
  }

  ghost predicate Violates(s: System) { !Exclusive(s) || !ClaimsInHotfire(s) }

  /** From `s` the commands already in progress can bring about a violation. */
  ghost predicate Doomed(s: System) {
    exists acts :: NoBegin(acts) && After(s, acts).Some? && Violates(After(s, acts).value)
  }

  lemma DoomedBefore(s: System, a: Action)
    requires !a.Begin? && Next(s, a).Some? && Doomed(Next(s, a).value)
    ensures Doomed(s)
  {
    var acts :| NoBegin(acts) && After(Next(s, a).value, acts).Some? && Violates(After(Next(s, a).value, acts).value);
    AfterStep(s, a, acts);
    assert NoBegin([a] + acts);
  }

  lemma DoomedNow(s: System)
    requires Violates(s)
    ensures Doomed(s)
  {
    assert NoBegin([]) && After(s, []) == Some(s);
  }

  /** A WIGGLE that passed its check goes on after the switch, whatever the state is now. */
  lemma StartWhileHot(s: System, a: nat, env: Env)
    requires NoneActive(s.control.table.slots) && |s.control.table.slots| == MAX_WIGGLES
    requires env.now >= s.control.firing.clock
    requires a in s.work && CanStartNext(s.work[a])
    requires s.control.table.mode == Hotfire && forall c :: c in s.work ==> !s.work[c].FinishHot?
    ensures Next(s, Proceed(a, env)).Some? && !Exclusive(Next(s, Proceed(a, env)).value)
  {
    var r := s.work[a].entries[0].value;
    var k := TargetSlot(s.control.table.slots, r.id);
    assert Starts(s.control.table.slots, r);
    assert Next(s, Proceed(a, env)).value.control.table.slots[k].active;
  }

  /**
   In HOTFIRE, a WIGGLE that can start its next entry leads to a wiggle running in HOTFIRE with no
   switch in progress, however many switches are in progress now.
   */
  lemma {:induction false} OverlapBreaksExclusion(s: System, a: nat)
    requires WiggleMap.Inv(s.control.table.slots) && s.control.table.mode == Hotfire
    requires a in s.work && CanStartNext(s.work[a])
    ensures Doomed(s)
    decreases |s.work|
  {
    if c :| c in s.work && s.work[c].FinishHot? {
      var s' := Next(s, Proceed(c, At(s))).value;
      assert s'.work == s.work - {c};
      assert s'.work.Keys == s.work.Keys - {c};
      StepKeepsTable(s, Proceed(c, At(s)));
      OverlapBreaksExclusion(s', a);
      DoomedBefore(s, Proceed(c, At(s)));
    } else if NoneActive(s.control.table.slots) {
      StartWhileHot(s, a, At(s));
      DoomedNow(Next(s, Proceed(a, At(s))).value);
      DoomedBefore(s, Proceed(a, At(s)));
    } else {
      DoomedNow(s);
    }
  }

  // ---------------------------------------------------------------- a sequence in progress ends

  /** Steps to the release of the claim when allocation, threads and the bus fail. */
  function ToRelease(pc: F.Pc): nat {
    match pc
    case Claimed => 2
    case Prepared => 2
    case GivingBack => 1
    case Finishing(_) => 1
    case Sending(_, tries) => if tries < F.CAN_SEND_ATTEMPTS then 1 + F.CAN_SEND_ATTEMPTS - tries else 1
    case TestingClock(_, _) => 5
    case ReadingDeadline(_) => 6
    case Sleeping(_, _) => 6
    case PollingStop(_, _) => 7
    case PollingAbort(_, _) => 8
  }

  /** The worker's next step on that way. */
  function WorkerOp(o: F.Owner, clock: nat): F.Op
    requires Sound(o) && !InHandler(o.pc)
  {
    match o.pc
    case ReadingDeadline(_) => F.ReadDeadline(clock)
    case TestingClock(_, d) => F.TestClock(Max(clock, d))
    case PollingAbort(_, _) => F.PollAbort
    case PollingStop(_, _) => F.PollStop
    case Sleeping(_, _) => F.Sleep
    case Sending(i, _) => F.Attempt(o.config.blocks[i].frame, false, clock)
    case Finishing(outcome) => F.Finish(outcome)
  }

  lemma WorkerGoesOn(f: F.State, run: nat)
    requires Fine(f) && run in f.owners && !InHandler(f.owners[run].pc)
    ensures var op := WorkerOp(f.owners[run], f.clock);
            && IsWorkerOp(op) && F.Next(f, F.Own(run, op)).Some?
            && var f' := F.Next(f, F.Own(run, op)).value;
               if run in f'.owners then f'.active && ToRelease(f'.owners[run].pc) < ToRelease(f.owners[run].pc)
               else !f'.active
  {
    var op := WorkerOp(f.owners[run], f.clock);
    assert F.Next(f, F.Own(run, op)).Some?;
    OwnMoves(f, run, op);
  }

  lemma HolderGoesOn(c: Control, w: Work, env: Env)
    requires Fine(c.firing) && Holds(w) && Answers(c.firing, w)
    requires env.now == c.firing.clock && !env.allocates && !env.spawns
    ensures var f' := Does(c.firing, Touches(c, w, env));
            if w.run in f'.owners then
              f'.active && ToRelease(f'.owners[w.run].pc) < ToRelease(c.firing.owners[w.run].pc)
            else !f'.active
  {
    HolderStep(c, w, env);
    match w
    case Allocating(run) => AllocateMoves(c.firing, run, false);
    case Spawning(run) => SpawnMoves(c.firing, run, false, env.now);
    case GivingBack(run) => GiveBackMoves(c.firing, run);
  }

  /** A step towards the release; clients that only wait to claim are not touched. */
  ghost predicate Nearer(s: System, s': System, run: nat)
    requires run in s.control.firing.owners
  {
    && s'.control.table.mode == s.control.table.mode
    && (forall c :: c in s.work && s.work[c].Claiming? ==> c in s'.work && s'.work[c] == s.work[c])
    && if run in s'.control.firing.owners then
         && s'.control.firing.active
         && ToRelease(s'.control.firing.owners[run].pc) < ToRelease(s.control.firing.owners[run].pc)
       else !s'.control.firing.active
  }

  lemma HolderNearer(s: System, c: nat)
    requires Linked(s) && c in s.work && Holds(s.work[c]) && Answers(s.control.firing, s.work[c])
    ensures Next(s, Proceed(c, At(s))).Some? && Nearer(s, Next(s, Proceed(c, At(s))).value, s.work[c].run)
  {
    var s', p := Next(s, Proceed(c, At(s))).value, Continue(s.control, s.work[c], At(s));
    HolderGoesOn(s.control, s.work[c], At(s));
    ContinueKeeps(s.control, s.work[c], At(s));
    MovedWork(s, c, p);
  }

  lemma WorkerNearer(s: System, run: nat)
    requires Linked(s) && run in s.control.firing.owners && !InHandler(s.control.firing.owners[run].pc)
    ensures var act := Worker(run, WorkerOp(s.control.firing.owners[run], s.control.firing.clock));
            Next(s, act).Some? && Nearer(s, Next(s, act).value, run)
  {
    WorkerGoesOn(s.control.firing, run);
  }

  lemma ReleaseStep(s: System, run: nat) returns (act: Action)
    requires Linked(s) && run in s.control.firing.owners
    ensures !act.Begin? && Next(s, act).Some? && Nearer(s, Next(s, act).value, run)
  {
    var f := s.control.firing;
    if InHandler(f.owners[run].pc) {
      assert OwnerInHandler(f);
      var c :| c in s.work && Holds(s.work[c]);
      assert Answers(f, s.work[c]);
      FiringOwnership.OnlyOwner(f, run, s.work[c].run);
      act := Proceed(c, At(s));
      HolderNearer(s, c);
    } else {
      act := Worker(run, WorkerOp(f.owners[run], f.clock));
      WorkerNearer(s, run);
    }
  }

  /** In PRECHILLING, a FIRE or DROWN past the gate leads to a claim made in PRECHILLING. */
  lemma {:induction false} OverlapClaimsInPrechilling(s: System, a: nat, run: nat)
    requires Linked(s) && s.control.table.mode == Prechilling
    requires a in s.work && s.work[a].Claiming? && s.work[a].config.blocks != []
    requires s.control.firing.active ==> run in s.control.firing.owners
    ensures Doomed(s)
    decreases if s.control.firing.active then ToRelease(s.control.firing.owners[run].pc) else 0
  {
    if s.control.firing.active {
      var act := ReleaseStep(s, run);
      StepKeepsLinked(s, act);
      OverlapClaimsInPrechilling(Next(s, act).value, a, run);
      DoomedBefore(s, act);
    } else {
      ClaimNow(s, a);
    }
  }

  lemma ClaimNow(s: System, a: nat)
    requires s.control.table.mode == Prechilling && !s.control.firing.active
    requires a in s.work && s.work[a].Claiming? && s.work[a].config.blocks != []
    ensures Doomed(s)
  {
    var s' := Next(s, Proceed(a, At(s))).value;
    assert s'.control.claims[|s.control.claims|] == Prechilling;
    DoomedNow(s');
    DoomedBefore(s, Proceed(a, At(s)));
  }

  /** Commands in progress keep the invariant, whatever the interleaving. */
  lemma {:induction false} InvIsSafe(s: System, acts: seq<Action>)
    requires Inv(s) && NoBegin(acts) && After(s, acts).Some?
    ensures !Violates(After(s, acts).value)
    decreases |acts|
  {
    if acts != [] {
      StepKeepsInv(s, acts[0]);
      InvIsSafe(Next(s, acts[0]).value, acts[1..]);
    }
  }

  /** A switch of the state by another client, seen from a command in progress. */
  lemma SwitchLeaves(s: System, client: nat, mode: Mode, a: nat)
    requires client !in s.work && a in s.work
    ensures var s' := Moved(s, client, Dispatch(s.control, SetState(Some(mode))));
            && a in s'.work && s'.work[a] == s.work[a]
            && s'.control.table.mode == mode && s'.control.table.slots == s.control.table.slots
            && s'.control.firing == s.control.firing
  {
  }

  /** A command that is not orderly leaves a state from which a violation can follow. */
  lemma DisorderDooms(s: System, client: nat, command: Command)
    requires Inv(s) && Linked(s) && WiggleMap.Inv(s.control.table.slots)
    requires client !in s.work && !OrderlyCommand(s, command)
    ensures Doomed(Moved(s, client, Dispatch(s.control, command)))
  {
    var s' := Moved(s, client, Dispatch(s.control, command));
    if command == SetState(Some(Hotfire)) {
      var a :| a in s.work && CanStartNext(s.work[a]);
      SwitchLeaves(s, client, Hotfire, a);
      OverlapBreaksExclusion(s', a);
    } else {
      var a :| a in s.work && s.work[a].Claiming?;
      SwitchLeaves(s, client, Prechilling, a);
      BeginKeepsLinked(s, client, command);
      var run :| s.control.firing.active ==> run in s.control.firing.owners;
      OverlapClaimsInPrechilling(s', a, run);
    }
  }

  /**
   The condition is exact: after any orderly run from boot, a command that begins can be continued
   to a violation, by commands in progress alone, if and only if it is not orderly.
   */
  lemma OrderlyIsExact(
    states: seq<System>, acts: seq<Action>, readOnly: bool, testing: bool, client: nat, text: string)
    requires IsRun(states, acts, readOnly, testing) && AllOrderly(states, acts)
    requires client !in states[|acts|].work
    ensures var s := states[|acts|];
            && Next(s, Begin(client, text)).Some?
            && (Doomed(Next(s, Begin(client, text)).value) <==> !Orderly(s, Begin(client, text)))
  {
    var s := states[|acts|];
    ModeExclusion(states, acts, readOnly, testing, |acts|);
    AlwaysLinked(states, acts, readOnly, testing, |acts|);
    TableIsMap(states, acts, readOnly, testing, |acts|);
    if Orderly(s, Begin(client, text)) {
      var s' := Next(s, Begin(client, text)).value;
      StepKeepsInv(s, Begin(client, text));
      forall more | NoBegin(more) && After(s', more).Some? ensures !Violates(After(s', more).value) {
        InvIsSafe(s', more);
      }
    } else {
      DisorderDooms(s, client, Classify(text));
    }
  }

  // ---------------------------------------------------------------- runs from boot

  const IDLE := Env(0, true, true, true)

  lemma AfterFour(s: System, a: Action, b: Action, c: Action, d: Action)
    ensures After(s, [a, b, c, d])
         == var s1 := Next(s, a);
            var s2 := if s1.None? then None else Next(s1.value, b);
            var s3 := if s2.None? then None else Next(s2.value, c);
            if s3.None? then None else Next(s3.value, d)
  {
    assert [a, b, c, d] == [a] + [b, c, d] && [b, c, d] == [b] + [c, d] && [c, d] == [c] + [d] && [d] == [d] + [];
    AfterStep(s, a, [b, c, d]);
    if s1 :| Next(s, a) == Some(s1) {
      AfterStep(s1, b, [c, d]);
      if s2 :| Next(s1, b) == Some(s2) {
        AfterStep(s2, c, [d]);
        if s3 :| Next(s2, c) == Some(s3) {
          AfterStep(s3, d, []);
        }
      }
    }
  }

  lemma BeginStep(s: System, client: nat, text: string, command: Command)
    requires !Silent(s) && client !in s.work && Classify(text) == command
    ensures Next(s, Begin(client, text)) == Some(Moved(s, client, Dispatch(s.control, command)))
  {
  }

  /** A switch to HOTFIRE overtakes a WIGGLE that has passed its check. */
  lemma OvertakenWiggle(s0: System, entries: seq<Option<Request>>)
    returns (s1: System, s2: System, s3: System, s: System)
    requires !Silent(s0) && s0.control.table.mode == Prechilling && s0.work == map[]
    requires |s0.control.table.slots| == MAX_WIGGLES && s0.control.firing.clock == 0
    requires entries != [] && entries[0].Some? && Wiggle.Valid(entries[0].value)
    ensures s1 == Moved(s0, 0, Dispatch(s0.control, WiggleStart(entries)))
    ensures s2 == Moved(s1, 1, Dispatch(s1.control, SetState(Some(Hotfire))))
    ensures !Silent(s1) && 1 !in s1.work
    ensures Next(s2, Proceed(1, IDLE)) == Some(s3) && Next(s3, Proceed(0, IDLE)) == Some(s)
    ensures !Exclusive(s)
  {
    var w := Starting(entries, 0);
    s1 := s0.(work := map[0 := w]);
    s2 := Moved(s1, 1, Dispatch(s1.control, SetState(Some(Hotfire))));
    assert s2.work == map[0 := w, 1 := FinishHot];
    s3 := Next(s2, Proceed(1, IDLE)).value;
    assert s3.work == map[0 := w];
    StartWhileHot(s3, 0, IDLE);
    s := Next(s3, Proceed(0, IDLE)).value;
  }

  lemma {:induction false} RunOvertakenWiggle(wiggle: string, hot: string, entries: seq<Option<Request>>)
    returns (s: System)
    requires Classify(wiggle) == WiggleStart(entries) && Classify(hot) == SetState(Some(Hotfire))
    requires entries != [] && entries[0].Some? && Wiggle.Valid(entries[0].value)
    ensures After(Booted(false, false), [Begin(0, wiggle), Begin(1, hot), Proceed(1, IDLE), Proceed(0, IDLE)])
         == Some(s)
    ensures !Exclusive(s)
  {
    var s0 := Booted(false, false);
    var s1, s2, s3;
    s1, s2, s3, s := OvertakenWiggle(s0, entries);
    BeginStep(s0, 0, wiggle, WiggleStart(entries));
    BeginStep(s1, 1, hot, SetState(Some(Hotfire)));
    AfterFour(s0, Begin(0, wiggle), Begin(1, hot), Proceed(1, IDLE), Proceed(0, IDLE));
  }

  /** Every WIGGLE command with a valid first entry starts it in HOTFIRE in some run from boot. */
  lemma {:induction false} WiggleInHotfireFromBoot(requests: seq<Request>, withTotal: seq<bool>) returns (s: System)
    requires |requests| == |withTotal| > 0 && Wiggle.Valid(requests[0])
    requires forall i :: 0 <= i < |requests| ==> Printable(requests[i]) && (withTotal[i] || requests[i].total == 0)
    ensures After(Booted(false, false),
                  [Begin(0, PrintWiggle(requests, withTotal)), Begin(1, StateText(Hotfire)),
                   Proceed(1, IDLE), Proceed(0, IDLE)]) == Some(s)
    ensures !Exclusive(s)
  {
    WiggleRoundTrip(requests, withTotal);
    ClassifyState(Hotfire);
    s := RunOvertakenWiggle(PrintWiggle(requests, withTotal), StateText(Hotfire), AllSome(requests));
  }

  /** A switch to PRECHILLING overtakes a FIRE that has passed the gate. */
  lemma OvertakenFire(s0: System, blocks: seq<F.Block>)
    returns (s1: System, s2: System, s3: System, s: System)
    requires !Silent(s0) && s0.work == map[] && !s0.control.firing.active && s0.control.firing.clock == 0
    requires blocks != []
    ensures s1 == Moved(s0, 0, Dispatch(s0.control, SetState(Some(Hotfire))))
    ensures s2 == Moved(s1, 1, Dispatch(s1.control, Fire(Some(blocks))))
    ensures s3 == Moved(s2, 2, Dispatch(s2.control, SetState(Some(Prechilling))))
    ensures !Silent(s1) && 1 !in s1.work && !Silent(s2) && 2 !in s2.work
    ensures Next(s3, Proceed(1, IDLE)) == Some(s) && !ClaimsInHotfire(s)
  {
    s1 := Moved(s0, 0, Dispatch(s0.control, SetState(Some(Hotfire))));
    s2 := Moved(s1, 1, Dispatch(s1.control, Fire(Some(blocks))));
    s3 := Moved(s2, 2, Dispatch(s2.control, SetState(Some(Prechilling))));
    assert s3.work[1] == s2.work[1] == Claiming(F.Config(blocks, false));
    s := Next(s3, Proceed(1, IDLE)).value;
    assert s.control.claims[|s0.control.claims|] == Prechilling;
  }

  lemma {:induction false} RunOvertakenFire(hot: string, fire: string, cold: string, blocks: seq<F.Block>)
    returns (s: System)
    requires Classify(hot) == SetState(Some(Hotfire)) && Classify(cold) == SetState(Some(Prechilling))
    requires Classify(fire) == Fire(Some(blocks)) && blocks != []
    ensures After(Booted(false, false), [Begin(0, hot), Begin(1, fire), Begin(2, cold), Proceed(1, IDLE)]) == Some(s)
    ensures !ClaimsInHotfire(s)
  {
    var s0 := Booted(false, false);
    var s1, s2, s3;
    s1, s2, s3, s := OvertakenFire(s0, blocks);
    BeginStep(s0, 0, hot, SetState(Some(Hotfire)));
    BeginStep(s1, 1, fire, Fire(Some(blocks)));
    BeginStep(s2, 2, cold, SetState(Some(Prechilling)));
    AfterFour(s0, Begin(0, hot), Begin(1, fire), Begin(2, cold), Proceed(1, IDLE));
  }

  /** Every FIRE command is claimed in PRECHILLING in some run from boot with three clients. */
  lemma {:induction false} ClaimInPrechillingFromBoot(blocks: seq<F.Block>, withWait: seq<bool>)
    returns (s: System)
    requires 1 <= |blocks| == |withWait| <= FireParser.MAX_FIRING_BLOCKS
    requires forall i :: 0 <= i < |blocks| ==>
               FireParser.Printable(blocks[i]) && (withWait[i] || blocks[i].waitMs == 0)
    ensures After(Booted(false, false),
                  [Begin(0, StateText(Hotfire)), Begin(1, FireParser.PrintCommand(blocks, withWait)),
                   Begin(2, StateText(Prechilling)), Proceed(1, IDLE)]) == Some(s)
    ensures !ClaimsInHotfire(s)
  {
    ClassifyFire(blocks, withWait);
    ClassifyState(Hotfire);
    ClassifyState(Prechilling);
    var fire := FireParser.PrintCommand(blocks, withWait);
    s := RunOvertakenFire(StateText(Hotfire), fire, StateText(Prechilling), blocks);
  }
}
