/** What single texts do to the control state, and what they put on the bus. */
module ServerTexts {
  import opened Base
  import opened Wiggle
  import opened WiggleMap
  import opened WiggleTrace
  import opened Commands
  import opened Server
  import opened ServerFiring
  import opened ServerOverlap
  import opened ServerTwin
  import opened Scan
  import F = FiringProtocol
  import CanCache
  import CanListener

  // ---------------------------------------------------------------- the table in a run of the server

  /** What an action of the server means for the slot table. */
  function TableOps(s: System, a: Action): seq<Op> {
    match a
    case Begin(_, text) =>
      if Silent(s) then []
      else if Classify(text) == SetState(Some(Prechilling)) then [SetMode(Prechilling)]
      else if Classify(text) == SetState(Some(Hotfire)) then [SetMode(Hotfire)]
      else []
    case Proceed(client, env) => if client in s.work then WorkOps(s.work[client], env.now) else []
    case Tick(now) => [Op.Tick(now)]
    case Worker(_, _) => []
    case RaiseStop => []
  }

  /** The stop-all behind STATE#HOTFIRE and ABORT sends exit values. */
  function WorkOps(work: Work, now: nat): seq<Op> {
    match work
    case FinishHot => [StopAll(true)]
    case FinishAbort => [StopAll(true)]
    case Starting(entries, _) => if entries != [] && entries[0].Some? then [Start(entries[0].value, now)] else []
    case Stopping(ids, _) => if ids != [] && ids[0].Some? then [Stop(ids[0].value)] else []
    case _ => []
  }

  function TableLists(states: seq<System>, acts: seq<Action>): (r: seq<seq<Op>>)
    requires |states| == |acts| + 1
    ensures |r| == |acts| && forall k :: 0 <= k < |acts| ==> r[k] == TableOps(states[k], acts[k])
  {
    seq(|acts|, k requires 0 <= k < |acts| => TableOps(states[k], acts[k]))
  }

  function Concat(lists: seq<seq<Op>>): seq<Op> {
    if lists == [] then [] else Concat(lists[..|lists| - 1]) + lists[|lists| - 1]
  }

  lemma ConcatSnoc(lists: seq<seq<Op>>, k: nat)
    requires k < |lists|
    ensures Concat(lists[..k + 1]) == Concat(lists[..k]) + lists[k]
  {
    assert lists[..k + 1][..k] == lists[..k];
  }

  /** What the first `k` actions mean for the slot table. */
  function AllTableOps(states: seq<System>, acts: seq<Action>, k: nat): seq<Op>
    requires k <= |acts| && |states| == |acts| + 1
  {
    Concat(TableLists(states, acts)[..k])
  }

  lemma ContinueTable(c: Control, work: Work, env: Env)
    ensures var ops := WorkOps(work, env.now);
            |ops| <= 1 && Continue(c, work, env).control.table == if ops == [] then c.table else Apply(c.table, ops[0])
  {
  }

  lemma DispatchTable(c: Control, command: Command)
    ensures Dispatch(c, command).control.table
         == if command.SetState? && command.mode.Some? then Apply(c.table, SetMode(command.mode.value)) else c.table
  {
  }

  lemma TableStep(s: System, a: Action)
    requires Next(s, a).Some?
    ensures var ops := TableOps(s, a);
            && |ops| <= 1
            && Next(s, a).value.control.table == if ops == [] then s.control.table else Apply(s.control.table, ops[0])
  {
    match a
    case Begin(client, text) =>
      if !Silent(s) {
        DispatchTable(s.control, Classify(text));
        MovedWork(s, client, Dispatch(s.control, Classify(text)));
      }
    case Proceed(client, env) =>
      ContinueTable(s.control, s.work[client], env);
      MovedWork(s, client, Continue(s.control, s.work[client], env));
    case _ =>
  }

  lemma RunExtends(ops: seq<Op>, more: seq<Op>)
    requires |more| <= 1
    ensures Run(ops + more) == if more == [] then Run(ops) else Apply(Run(ops), more[0])
  {
    if more == [] {
      assert ops + more == ops;
    } else {
      assert (ops + more)[..|ops|] == ops;
    }
  }

  lemma TableRunStep(s: System, a: Action, s': System, ops: seq<Op>)
    requires Next(s, a) == Some(s') && s.control.table == Run(ops)
    ensures s'.control.table == Run(ops + TableOps(s, a))
  {
    TableStep(s, a);
    RunExtends(ops, TableOps(s, a));
  }

  lemma {:induction false} TableRunAt(
    states: seq<System>, acts: seq<Action>, readOnly: bool, testing: bool, k: nat, ops: seq<Op>)
    requires IsRun(states, acts, readOnly, testing) && k < |acts| && states[k].control.table == Run(ops)
    ensures states[k + 1].control.table == Run(ops + TableLists(states, acts)[k])
  {
    assert StepAt(states, acts, k);
    TableRunStep(states[k], acts[k], states[k + 1], ops);
  }

  lemma BootTable(readOnly: bool, testing: bool)
    ensures Booted(readOnly, testing).control.table == Run([])
  {
  }

  /** Every run of the server is a run of its slot table. */
  lemma {:induction false} TableIsARun(
    states: seq<System>, acts: seq<Action>, readOnly: bool, testing: bool, k: nat)
    requires IsRun(states, acts, readOnly, testing) && k < |states|
    ensures states[k].control.table == Run(AllTableOps(states, acts, k))
  {
    if k == 0 {
      BootTable(readOnly, testing);
    } else {
      TableIsARun(states, acts, readOnly, testing, k - 1);
      TableRunAt(states, acts, readOnly, testing, k - 1, AllTableOps(states, acts, k - 1));
      ConcatSnoc(TableLists(states, acts), k - 1);
    }
  }

  /** So the trace grammar holds for what texts and ticks make the server send. */
  lemma ServerSessions(
    states: seq<System>, acts: seq<Action>, readOnly: bool, testing: bool, id: nat) returns (ss: seq<Session>)
    requires IsRun(states, acts, readOnly, testing) && id <= 0x7FF
    ensures Explains(AllTableOps(states, acts, |acts|), id, ss)
    ensures SendsOf(states[|acts|].control.table.tx, id) == RenderAll(ss)
  {
    TableIsARun(states, acts, readOnly, testing, |acts|);
    ss := SessionGrammar(AllTableOps(states, acts, |acts|), id);
  }

  // ---------------------------------------------------------------- STATE#HOTFIRE and ABORT

  /** Nothing runs afterwards, and each id that ran gets its exit value and nothing else. */
  ghost predicate AllExit(t: Table, t': Table) {
    && Abs(t'.slots) == map[]
    && forall id: nat :: id <= 0x7FF ==>
         SendsOf(t'.tx, id)
         == SendsOf(t.tx, id) + if id in Abs(t.slots) then [Abs(t.slots)[id].exitValue] else []
  }

  /** The second lock section of STATE#HOTFIRE and of ABORT. */
  lemma StopAllExits(s: System, client: nat, env: Env)
    requires WiggleMap.Inv(s.control.table.slots) && client in s.work
    requires s.work[client].FinishHot? || s.work[client].FinishAbort?
    requires Next(s, Proceed(client, env)).Some?
    ensures AllExit(s.control.table, Next(s, Proceed(client, env)).value.control.table)
  {
    ContinueTable(s.control, s.work[client], env);
    StopAllRefines(s.control.table, true);
  }

  lemma FinishExits(c: Control, work: Work, envs: nat -> Env)
    requires WiggleMap.Inv(c.table.slots) && (work.FinishHot? || work.FinishAbort?)
    ensures AllExit(c.table, Finish(c, More(work), envs, 0).control.table)
    ensures Finish(c, More(work), envs, 0).control.table.mode == c.table.mode
    ensures Finish(c, More(work), envs, 0).control.firing == c.firing
  {
    FinishShort(c, More(work), envs);
    ContinueTable(c, work, envs(0));
    StopAllRefines(c.table, true);
  }

  /** The text STATE#HOTFIRE, handled alone: the state switches and every wiggle exits. */
  lemma HotfireText(c: Control, envs: nat -> Env)
    requires WiggleMap.Inv(c.table.slots)
    ensures var c' := Handle(c, Classify("STATE#HOTFIRE"), envs).control;
            AllExit(c.table, c'.table) && c'.table.mode == Hotfire
  {
    assert StateText(Hotfire) == "STATE#HOTFIRE";
    ClassifyState(Hotfire);
    var p := Dispatch(c, SetState(Some(Hotfire)));
    FinishExits(p.control, FinishHot, envs);
  }

  /** The text ABORT#8765, handled alone: the sequence is told to end and every wiggle exits. */
  lemma AbortText(c: Control, envs: nat -> Env)
    requires WiggleMap.Inv(c.table.slots)
    ensures var c' := Handle(c, Classify("ABORT#8765"), envs).control;
            AllExit(c.table, c'.table) && c'.table.mode == c.table.mode && c'.firing == c.firing.(abort := true)
  {
    ClassifyAbort("ABORT#8765");
    var p := Dispatch(c, Abort);
    FinishExits(p.control, FinishAbort, envs);
  }

  // ---------------------------------------------------------------- SET_VALVE and raw commands

  /** A SET_VALVE text changes the field it names and nothing else. */
  lemma ValveText(c: Control, change: ValveChange, envs: nat -> Env)
    requires ValveValue(change) < U32
    ensures var c' := Handle(c, Classify(PrintValve(change)), envs).control;
            && c' == c.(valves := c'.valves)
            && c'.valves.mainId == (if change.MainId? && change.id <= 0x7FF then change.id else c.valves.mainId)
            && c'.valves.ventId == (if change.VentId? && change.id <= 0x7FF then change.id else c.valves.ventId)
            && c'.valves.mainOpen
               == (if change.MainOpen? && change.angle <= 0xB4 then change.angle else c.valves.mainOpen)
            && c'.valves.ventClose
               == (if change.VentClose? && change.angle <= 0xB4 then change.angle else c.valves.ventClose)
  {
    ValveRoundTrip(change);
    SetValveAlone(c, if InValveRange(change) then Some(change) else None, envs);
  }

  lemma SetValveAlone(c: Control, change: Option<ValveChange>, envs: nat -> Env)
    ensures Handle(c, SetValve(change), envs).control
         == if change.None? then c else c.(valves := Changed(c.valves, change.value))
  {
  }

  /** A raw text in HOTFIRE puts one frame on the bus if its id allows it; in PRECHILLING it does nothing. */
  lemma RawText(c: Control, raw: CanListener.RawCommand, envs: nat -> Env)
    requires raw.id < U32 && raw.value < U16 && (raw.duration.Some? ==> raw.duration.value < U16)
    ensures var c' := Handle(c, Classify(CanListener.PrintRaw(raw)), envs).control;
            if c.table.mode == Prechilling || raw.id > 0x7FF then c' == c
            else
              && |c'.rawSent| == |c.rawSent| + 1 && c' == c.(rawSent := c'.rawSent) && c.rawSent <= c'.rawSent
              && var f, d := c'.rawSent[|c.rawSent|], if raw.duration.Some? then raw.duration.value else 0;
                 && f.canId == raw.id && f.dlc == 8 && |f.data| == 8
                 && f.data[0] + 256 * f.data[1] == raw.value && f.data[2] + 256 * f.data[3] == d
  {
    ClassifyRaw(raw);
    RawAlone(c, raw, envs);
    CanCache.CommandRoundTrip(raw.id, raw.value, if raw.duration.Some? then raw.duration.value else 0);
  }

  lemma RawAlone(c: Control, raw: CanListener.RawCommand, envs: nat -> Env)
    ensures var duration := if raw.duration.Some? then raw.duration.value else 0;
            var frame := CanCache.CommandFrame(raw.id, raw.value, duration);
            Handle(c, Raw(raw), envs).control
            == if c.table.mode == Prechilling || frame.None? then c
               else c.(rawSent := c.rawSent + [frame.value])
  {
    var p := Dispatch(c, Raw(raw));
    FinishShort(p.control, p.step, envs);
  }

  // ---------------------------------------------------------------- a DROWN from boot

  function WorkerActs(run: nat, ops: seq<F.Op>): (r: seq<Action>)
    ensures |r| == |ops| && forall i :: 0 <= i < |r| ==> r[i] == Worker(run, ops[i])
  {
    seq(|ops|, i requires 0 <= i < |ops| => Worker(run, ops[i]))
  }

  /** The sequence after steps of its worker alone. */
  function FiringAfter(f: F.State, run: nat, ops: seq<F.Op>): Option<F.State>
    decreases |ops|
  {
    if ops == [] then Some(f)
    else
      match F.Next(f, F.Own(run, ops[0]))
      case None => None
      case Some(f') => FiringAfter(f', run, ops[1..])
  }

  /** The actions lead from one state to the other, step by step. */
  ghost predicate Path(states: seq<System>, acts: seq<Action>, s: System, s': System) {
    && |states| == |acts| + 1 && states[0] == s && states[|acts|] == s'
    && forall k :: 0 <= k < |acts| ==> StepAt(states, acts, k)
  }

  ghost predicate Leads(s: System, acts: seq<Action>, s': System) {
    exists states :: Path(states, acts, s, s')
  }

  lemma PathStep(s: System, a: Action, m: System, states: seq<System>, acts: seq<Action>, s': System)
    requires Next(s, a) == Some(m) && Path(states, acts, m, s')
    ensures Path([s] + states, [a] + acts, s, s')
  {
    forall k | 0 <= k < |acts| + 1 ensures StepAt([s] + states, [a] + acts, k) {
      if k > 0 { assert StepAt(states, acts, k - 1); }
    }
  }

  lemma {:induction false} AfterLeads(s: System, acts: seq<Action>, s': System)
    requires After(s, acts) == Some(s')
    ensures Leads(s, acts, s')
    decreases |acts|
  {
    if acts == [] {
      assert Path([s], acts, s, s');
    } else {
      var m := Next(s, acts[0]).value;
      AfterLeads(m, acts[1..], s');
      var states :| Path(states, acts[1..], m, s');
      PathStep(s, acts[0], m, states, acts[1..], s');
      assert acts == [acts[0]] + acts[1..];
    }
  }

  lemma {:induction false} WorkerRuns(s: System, run: nat, ops: seq<F.Op>)
    requires forall i :: 0 <= i < |ops| ==> IsWorkerOp(ops[i])
    requires FiringAfter(s.control.firing, run, ops).Some?
    ensures After(s, WorkerActs(run, ops))
         == Some(s.(control := s.control.(firing := FiringAfter(s.control.firing, run, ops).value)))
    decreases |ops|
  {
    if ops != [] {
      var a := Worker(run, ops[0]);
      assert WorkerActs(run, ops) == [a] + WorkerActs(run, ops[1..]);
      WorkerRuns(Next(s, a).value, run, ops[1..]);
      AfterStep(s, a, WorkerActs(run, ops[1..]));
    }
  }

  /** An owner at `pc` takes a step that does not release it. */
  lemma OwnTakes(f: F.State, run: nat, config: F.Config, pc: F.Pc, op: F.Op, pc': F.Pc)
    requires f.owners == map[run := F.Owner(config, pc)] && !F.Releases(pc, op)
    requires F.NextPc(config, pc, op, f.abort, f.stop) == Some(pc') && F.ReadingOf(op, f.clock) >= f.clock
    ensures F.Next(f, F.Own(run, op))
         == Some(f.(clock := F.ReadingOf(op, f.clock), owners := map[run := F.Owner(config, pc')]))
  {
    assert f.owners[run := F.Owner(config, pc')] == map[run := F.Owner(config, pc')];
  }

  lemma FiringThree(
    f: F.State, f1: F.State, f2: F.State, f3: F.State, run: nat, a: F.Op, b: F.Op, c: F.Op)
    requires F.Next(f, F.Own(run, a)) == Some(f1) && F.Next(f1, F.Own(run, b)) == Some(f2)
    requires F.Next(f2, F.Own(run, c)) == Some(f3)
    ensures FiringAfter(f, run, [a, b, c]) == Some(f3)
  {
    assert [a, b, c][1..] == [b, c] && [b, c][1..] == [c];
    assert FiringAfter(f2, run, [c]) == Some(f3);
    assert FiringAfter(f1, run, [b, c]) == FiringAfter(f2, run, [c]);
  }

  /** Read the deadline at `t`, find it reached at `now`, send. */
  function SendOps(frame: F.Frame, t: nat, now: nat): seq<F.Op> {
    [F.ReadDeadline(t), F.TestClock(now), F.Attempt(frame, true, now)]
  }

  /** The worker sends block `i` the moment its wait is over. */
  lemma BlockGoesOut(f: F.State, run: nat, config: F.Config, i: nat, now: nat)
    requires i < |config.blocks| && config.blocks[i].frame.id <= 0x7FF
    requires f.owners == map[run := F.Owner(config, F.ReadingDeadline(i))]
    requires now == f.clock + F.DelayBefore(config, i)
    ensures var next := if i + 1 < |config.blocks| then F.ReadingDeadline(i + 1) else F.Finishing(F.Completed);
            FiringAfter(f, run, SendOps(config.blocks[i].frame, f.clock, now))
            == Some(f.(clock := now, owners := map[run := F.Owner(config, next)]))
  {
    var next := if i + 1 < |config.blocks| then F.ReadingDeadline(i + 1) else F.Finishing(F.Completed);
    var test, send, frame := F.TestingClock(i, now), F.Sending(i, 0), config.blocks[i].frame;
    OwnTakes(f, run, config, F.ReadingDeadline(i), F.ReadDeadline(f.clock), test);
    var f1 := f.(owners := map[run := F.Owner(config, test)]);
    OwnTakes(f1, run, config, test, F.TestClock(now), send);
    var f2 := f1.(clock := now, owners := map[run := F.Owner(config, send)]);
    OwnTakes(f2, run, config, send, F.Attempt(frame, true, now), next);
    var f3 := f2.(owners := map[run := F.Owner(config, next)]);
    FiringThree(f, f1, f2, f3, run, F.ReadDeadline(f.clock), F.TestClock(now), F.Attempt(frame, true, now));
  }

  /** A server in HOTFIRE whose sequence is free and whose valves can be reached. */
  ghost predicate CanDrown(s: System) {
    && !Silent(s) && s.work == map[] && s.control.table.mode == Hotfire
    && !s.control.firing.active && s.control.firing.owners == map[] && !s.control.firing.stop
    && 0 < s.control.valves.mainId <= 0x7FF && 0 < s.control.valves.ventId <= 0x7FF
  }

  /** A lock section now, in which everything succeeds. */
  function Now(s: System): Env { Env(s.control.firing.clock, true, true, true) }

  /** The claim of a client, which finds the sequence free. */
  lemma ClaimSection(s: System, client: nat, config: F.Config, env: Env) returns (s': System)
    requires client in s.work && s.work[client] == Claiming(config) && config.blocks != []
    requires !s.control.firing.active && s.control.firing.owners == map[] && env.now == s.control.firing.clock
    ensures Next(s, Proceed(client, env)) == Some(s') && s'.replies == s.replies
    ensures client in s'.work && s'.work[client] == Allocating(s.control.firing.nextRun)
    ensures s'.control.firing.owners == map[s.control.firing.nextRun := F.Owner(config, F.Claimed)]
    ensures s'.control.firing.clock == s.control.firing.clock
  {
    s' := Next(s, Proceed(client, env)).value;
  }

  lemma AllocateSection(s: System, client: nat, run: nat, config: F.Config, env: Env) returns (s': System)
    requires client in s.work && s.work[client] == Allocating(run)
    requires s.control.firing.owners == map[run := F.Owner(config, F.Claimed)]
    requires env.now == s.control.firing.clock && env.allocates
    ensures Next(s, Proceed(client, env)) == Some(s') && s'.replies == s.replies
    ensures client in s'.work && s'.work[client] == Spawning(run)
    ensures s'.control.firing.owners == map[run := F.Owner(config, F.Prepared)]
    ensures s'.control.firing.clock == s.control.firing.clock
  {
    s' := Next(s, Proceed(client, env)).value;
    OwnTakes(s.control.firing, run, config, F.Claimed, F.Allocate(true), F.Prepared);
  }

  lemma SpawnSection(s: System, client: nat, run: nat, config: F.Config, env: Env) returns (s': System)
    requires client in s.work && s.work[client] == Spawning(run)
    requires s.control.firing.owners == map[run := F.Owner(config, F.Prepared)]
    requires env.now == s.control.firing.clock && env.spawns
    ensures Next(s, Proceed(client, env)) == Some(s') && s'.replies == s.replies + [Reply(client, true)]
    ensures s'.control.firing.owners == map[run := F.Owner(config, F.ReadingDeadline(0))]
    ensures s'.control.firing.clock == s.control.firing.clock
  {
    s' := Next(s, Proceed(client, env)).value;
    OwnTakes(s.control.firing, run, config, F.Prepared, F.Spawn(true, env.now), F.ReadingDeadline(0));
  }

  lemma DrownDispatched(s: System, client: nat) returns (s1: System, config: F.Config)
    requires CanDrown(s)
    ensures s1 == Moved(s, client, Dispatch(s.control, Drown)) && s1.control == s.control && s1.replies == s.replies
    ensures client in s1.work && s1.work[client] == Claiming(config) && Drowns(s.control.valves, config)
  {
    config := DrownConfig(s.control.valves).value;
    s1 := Moved(s, client, Dispatch(s.control, Drown));
  }

  /** The handler's part of a DROWN: three lock sections. */
  lemma LaunchSteps(s: System, client: nat) returns (s1: System, s2: System, s3: System, s4: System, config: F.Config)
    requires CanDrown(s)
    ensures s1 == Moved(s, client, Dispatch(s.control, Drown))
    ensures Next(s1, Proceed(client, Now(s))) == Some(s2) && Next(s2, Proceed(client, Now(s))) == Some(s3)
    ensures Next(s3, Proceed(client, Now(s))) == Some(s4)
    ensures Drowns(s.control.valves, config) && s4.control.firing.clock == s.control.firing.clock
    ensures s4.control.firing.owners == map[s.control.firing.nextRun := F.Owner(config, F.ReadingDeadline(0))]
    ensures s4.replies == s.replies + [Reply(client, true)]
  {
    var run := s.control.firing.nextRun;
    s1, config := DrownDispatched(s, client);
    s2 := ClaimSection(s1, client, config, Now(s));
    s3 := AllocateSection(s2, client, run, config, Now(s));
    s4 := SpawnSection(s3, client, run, config, Now(s));
  }

  /** The worker's part: the main valve at once, the vent when 100 ms have passed. */
  lemma DrownWorker(f: F.State, run: nat, config: F.Config, v: Valves) returns (f1: F.State, f2: F.State)
    requires Drowns(v, config) && v.mainId <= 0x7FF && v.ventId <= 0x7FF
    requires f.owners == map[run := F.Owner(config, F.ReadingDeadline(0))]
    ensures FiringAfter(f, run, SendOps(F.Frame(v.mainId, v.mainOpen, 0), f.clock, f.clock)) == Some(f1)
    ensures FiringAfter(f1, run, SendOps(F.Frame(v.ventId, v.ventClose, 1000), f.clock, f.clock + 100)) == Some(f2)
    ensures f2.owners == map[run := F.Owner(config, F.Finishing(F.Completed))]
  {
    f1 := f.(owners := map[run := F.Owner(config, F.ReadingDeadline(1))]);
    f2 := f1.(clock := f.clock + 100, owners := map[run := F.Owner(config, F.Finishing(F.Completed))]);
    assert config.blocks[0].frame == F.Frame(v.mainId, v.mainOpen, 0);
    assert config.blocks[1].frame == F.Frame(v.ventId, v.ventClose, 1000);
    BlockGoesOut(f, run, config, 0, f.clock);
    BlockGoesOut(f1, run, config, 1, f.clock + 100);
  }

  /** The worker waits from `t` to `now` and sends, and nothing else happens. */
  ghost predicate Sends(s: System, run: nat, frame: F.Frame, t: nat, now: nat, s': System) {
    Leads(s, WorkerActs(run, SendOps(frame, t, now)), s')
  }

  lemma {:induction false} WorkerSends(s: System, run: nat, frame: F.Frame, t: nat, now: nat, f': F.State)
    requires FiringAfter(s.control.firing, run, SendOps(frame, t, now)) == Some(f')
    ensures Sends(s, run, frame, t, now, s.(control := s.control.(firing := f')))
  {
    WorkerRuns(s, run, SendOps(frame, t, now));
    AfterLeads(s, WorkerActs(run, SendOps(frame, t, now)), s.(control := s.control.(firing := f')));
  }

  /** The text is handled to its end, in a first and three further lock sections. */
  ghost predicate Launches(s: System, client: nat, text: string, s': System) {
    var p := Proceed(client, Now(s));
    Leads(s, [Begin(client, text), p, p, p], s')
  }

  lemma {:induction false} DrownLaunched(s: System, client: nat, text: string) returns (s1: System, config: F.Config)
    requires CanDrown(s) && Classify(text) == Drown
    ensures Launches(s, client, text, s1)
    ensures Drowns(s.control.valves, config) && s1.control.firing.clock == s.control.firing.clock
    ensures s1.control.firing.owners == map[s.control.firing.nextRun := F.Owner(config, F.ReadingDeadline(0))]
    ensures s1.replies == s.replies + [Reply(client, true)]
  {
    var p := Proceed(client, Now(s));
    var a, b, c;
    a, b, c, s1, config := LaunchSteps(s, client);
    BeginStep(s, client, text, Drown);
    AfterFour(s, Begin(client, text), p, p, p);
    AfterLeads(s, [Begin(client, text), p, p, p], s1);
  }

  lemma {:induction false} DrownSends(s: System, run: nat, config: F.Config, v: Valves)
    returns (s': System, s'': System)
    requires Drowns(v, config) && v.mainId <= 0x7FF && v.ventId <= 0x7FF
    requires s.control.firing.owners == map[run := F.Owner(config, F.ReadingDeadline(0))]
    ensures var t := s.control.firing.clock;
            && Sends(s, run, F.Frame(v.mainId, v.mainOpen, 0), t, t, s')
            && Sends(s', run, F.Frame(v.ventId, v.ventClose, 1000), t, t + 100, s'')
    ensures run in s''.control.firing.owners && s''.control.firing.owners[run].pc == F.Finishing(F.Completed)
  {
    var t := s.control.firing.clock;
    var f1, f2 := DrownWorker(s.control.firing, run, config, v);
    s' := s.(control := s.control.(firing := f1));
    s'' := s'.(control := s'.control.(firing := f2));
    WorkerSends(s, run, F.Frame(v.mainId, v.mainOpen, 0), t, t, f1);
    WorkerSends(s', run, F.Frame(v.ventId, v.ventClose, 1000), t, t + 100, f2);
  }

  /**
   A DROWN text on a server that is ready: the handler starts the worker, which opens the main valve
   at once and closes the vent for a second 100 ms later, and the run is complete.
   */
  lemma {:induction false} DrownText(s: System, client: nat, text: string)
    returns (s1: System, s2: System, s3: System)
    requires CanDrown(s) && Classify(text) == Drown
    ensures Launches(s, client, text, s1)
    ensures var t, v, run := s.control.firing.clock, s.control.valves, s.control.firing.nextRun;
            && Sends(s1, run, F.Frame(v.mainId, v.mainOpen, 0), t, t, s2)
            && Sends(s2, run, F.Frame(v.ventId, v.ventClose, 1000), t, t + 100, s3)
    ensures s1.replies == s.replies + [Reply(client, true)]
    ensures s.control.firing.nextRun in s3.control.firing.owners
    ensures s3.control.firing.owners[s.control.firing.nextRun].pc == F.Finishing(F.Completed)
  {
    var config;
    s1, config := DrownLaunched(s, client, text);
    s2, s3 := DrownSends(s1, s.control.firing.nextRun, config, s.control.valves);
  }

  /** The server after boot and STATE#HOTFIRE is ready, with the valves the program starts with. */
  lemma {:induction false} HotfireFromBoot() returns (s: System)
    ensures Leads(Booted(false, false), [Begin(0, StateText(Hotfire)), Proceed(0, IDLE)], s)
    ensures CanDrown(s) && s.control.firing.clock == 0 && s.control.firing.nextRun == 0
    ensures s.control.valves == Valves(0x709, 0x99, 0x702, 0x74)
  {
    ClassifyState(Hotfire);
    var s1;
    s1, s := SwitchSteps(Booted(false, false));
    BeginStep(Booted(false, false), 0, StateText(Hotfire), SetState(Some(Hotfire)));
    LeadsTwo(Booted(false, false), s1, s, Begin(0, StateText(Hotfire)), Proceed(0, IDLE));
  }

  lemma LeadsTwo(s: System, s1: System, s2: System, a: Action, b: Action)
    requires Next(s, a) == Some(s1) && Next(s1, b) == Some(s2)
    ensures Leads(s, [a, b], s2)
  {
    assert Path([s2], [], s2, s2);
    PathStep(s1, b, s2, [s2], [], s2);
    PathStep(s, a, s1, [s1] + [s2], [b] + [], s2);
    assert [a] + ([b] + []) == [a, b];
  }

  lemma SwitchSteps(s0: System) returns (s1: System, s2: System)
    requires s0 == Booted(false, false)
    ensures s1 == Moved(s0, 0, Dispatch(s0.control, SetState(Some(Hotfire))))
    ensures Next(s1, Proceed(0, IDLE)) == Some(s2)
    ensures s2.control.firing == F.INITIAL && s2.control.table.mode == Hotfire && s2.work == map[] && !Silent(s2)
    ensures s2.control.valves == Valves(0x709, 0x99, 0x702, 0x74)
  {
    s1 := Moved(s0, 0, Dispatch(s0.control, SetState(Some(Hotfire))));
    assert s1.work == map[0 := FinishHot];
    s2 := Next(s1, Proceed(0, IDLE)).value;
    assert s2.work == map[];
  }

  /**
   DROWN#8765 from boot: frame 709#0099 with duration 0 at once, frame 702#0074 with duration 1000
   after 100 ms, and the sequence is complete.
   */
  lemma {:induction false} DrownFromBoot() returns (s: System, s1: System, s2: System, s3: System)
    ensures Leads(Booted(false, false), [Begin(0, StateText(Hotfire)), Proceed(0, IDLE)], s)
    ensures Launches(s, 0, DROWN, s1)
    ensures Sends(s1, 0, F.Frame(0x709, 0x99, 0), 0, 0, s2) && Sends(s2, 0, F.Frame(0x702, 0x74, 1000), 0, 100, s3)
    ensures 0 in s3.control.firing.owners && s3.control.firing.owners[0].pc == F.Finishing(F.Completed)
  {
    s := HotfireFromBoot();
    ClassifyDrown();
    s1, s2, s3 := DrownText(s, 0, DROWN);
  }
}
