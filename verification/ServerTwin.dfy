/** Testing mode as a twin of production: what it accepts is what a server that is ready carries out. */
module ServerTwin {
  import opened Base
  import opened Wiggle
  import opened WiggleMap
  import opened Commands
  import opened Server
  import opened ServerOverlap
  import opened ServerFiring
  import F = FiringProtocol
  import CanCache
  import FireParser
  import TestingTwin

  // ---------------------------------------------------------------- a command handled alone

  /** A command is carried to its reply with nothing in between; section `k` finds `envs(k)`. */
  function Finish(c: Control, step: Step, envs: nat -> Env, k: nat): Progress
    decreases Size(step)
  {
    match step
    case Done(_) => Progress(c, step)
    case More(work) =>
      var p := Continue(c, work, envs(k));
      Finish(p.control, p.step, envs, k + 1)
  }

  function Handle(c: Control, command: Command, envs: nat -> Env): Progress {
    var p := Dispatch(c, command);
    Finish(p.control, p.step, envs, 0)
  }

  predicate Succeeds(p: Progress) { p.step == Done(true) }

  /** Commands with at most one further lock section. */
  lemma FinishShort(c: Control, step: Step, envs: nat -> Env)
    requires Size(step) <= 1 && (step.More? ==> !step.work.Starting? && !step.work.Stopping?)
    ensures Finish(c, step, envs, 0) == if step.Done? then Progress(c, step) else Continue(c, step.work, envs(0))
  {
  }

  lemma FinishGivingBack(c: Control, run: nat, envs: nat -> Env, k: nat)
    ensures Finish(c, More(GivingBack(run)), envs, k).step == Done(false)
  {
  }

  lemma FinishSpawning(c: Control, run: nat, envs: nat -> Env, k: nat)
    ensures Finish(c, More(Spawning(run)), envs, k).step == Done(envs(k).spawns)
  {
    var p := Continue(c, Spawning(run), envs(k));
    if !envs(k).spawns { FinishGivingBack(p.control, run, envs, k + 1); }
  }

  lemma FinishAllocating(c: Control, run: nat, envs: nat -> Env, k: nat)
    ensures Finish(c, More(Allocating(run)), envs, k).step == Done(envs(k).allocates && envs(k + 1).spawns)
  {
    var p := Continue(c, Allocating(run), envs(k));
    FinishSpawning(p.control, run, envs, k + 1);
    FinishGivingBack(p.control, run, envs, k + 1);
  }

  /** FIRE and DROWN: claim, allocate, create the thread. */
  lemma FinishClaiming(c: Control, config: F.Config, envs: nat -> Env)
    ensures Finish(c, More(Claiming(config)), envs, 0).step
         == Done(CanClaim(c.firing, config) && envs(1).allocates && envs(2).spawns)
  {
    var p := Continue(c, Claiming(config), envs(0));
    FinishAllocating(p.control, c.firing.nextRun, envs, 1);
  }

  /** The actions of one client that carry its command to the reply. */
  function Proceeds(c: Control, step: Step, client: nat, envs: nat -> Env, k: nat): seq<Action>
    decreases Size(step)
  {
    match step
    case Done(_) => []
    case More(work) =>
      var p := Continue(c, work, envs(k));
      [Proceed(client, envs(k))] + Proceeds(p.control, p.step, client, envs, k + 1)
  }

  /** The clock does not run backwards. */
  ghost predicate Forward(envs: nat -> Env, clock: nat, k: nat) {
    clock <= envs(k).now && forall i: nat, j: nat :: i <= j ==> envs(i).now <= envs(j).now
  }

  lemma ContinueClock(c: Control, work: Work, env: Env)
    requires c.firing.clock <= env.now
    ensures Continue(c, work, env).control.firing.clock <= env.now
  {
  }

  /** `Handle` is what the server does: the same actions lead its state machine to the same reply. */
  lemma {:induction false} HandleIsARun(s: System, client: nat, p: Progress, envs: nat -> Env, k: nat)
    requires Forward(envs, p.control.firing.clock, k)
    ensures After(Moved(s, client, p), Proceeds(p.control, p.step, client, envs, k))
         == Some(Moved(s, client, Finish(p.control, p.step, envs, k)))
    decreases Size(p.step)
  {
    if p.step.More? {
      var s1, p1 := Moved(s, client, p), Continue(p.control, p.step.work, envs(k));
      ContinueClock(p.control, p.step.work, envs(k));
      assert envs(k).now <= envs(k + 1).now;
      HandleIsARun(s, client, p1, envs, k + 1);
      MovedTwice(s, client, p, p1);
      AfterStep(s1, Proceed(client, envs(k)), Proceeds(p1.control, p1.step, client, envs, k + 1));
    }
  }

  lemma MovedTwice(s: System, client: nat, p: Progress, q: Progress)
    requires p.step.More?
    ensures Moved(Moved(s, client, p), client, q) == Moved(s, client, q)
  {
    var w := s.work[client := p.step.work];
    assert w - {client} == s.work - {client};
    if q.step.More? {
      assert w[client := q.step.work] == s.work[client := q.step.work];
    }
  }

  // ---------------------------------------------------------------- the handlers with loops

  function Nows(envs: nat -> Env, k: nat, n: nat): (r: seq<nat>)
    ensures |r| == n && forall i :: 0 <= i < n ==> r[i] == envs(k + i).now
  {
    seq<nat>(n, i requires 0 <= i < n => envs(k + i).now)
  }

  /** A command with a list of entries leaves this table and reports its success. */
  predicate Reports(p: Progress, done: nat, o: Outcome) {
    p.control.table == o.table && p.step == Done(!o.failed && done + o.count > 0)
  }

  /** One more entry is started, after which the rest comes out as `rest`. */
  lemma StartOne(
    c: Control, entries: seq<Option<Request>>, started: nat, envs: nat -> Env, k: nat, p: Progress, rest: Outcome)
    requires FirstStarts(c.table, entries) && p == Continue(c, Starting(entries, started), envs(k))
    requires Reports(Finish(p.control, More(Starting(entries[1..], started + 1)), envs, k + 1), started + 1, rest)
    ensures Reports(Finish(c, More(Starting(entries, started)), envs, k), started, rest.(count := rest.count + 1))
  {
    assert p.step == More(Starting(entries[1..], started + 1));
  }

  lemma StartNone(c: Control, entries: seq<Option<Request>>, started: nat, envs: nat -> Env, k: nat, nows: seq<nat>)
    requires !FirstStarts(c.table, entries) && |nows| == |entries|
    ensures Reports(Finish(c, More(Starting(entries, started)), envs, k), started, StartAll(c.table, entries, nows))
  {
  }

  /** The lock sections of a WIGGLE, one per entry, do what the loop of the handler does. */
  lemma {:induction false} FinishStarting(
    c: Control, entries: seq<Option<Request>>, started: nat, envs: nat -> Env, k: nat)
    ensures Reports(Finish(c, More(Starting(entries, started)), envs, k), started,
                    StartAll(c.table, entries, Nows(envs, k, |entries|)))
    decreases |entries|
  {
    var nows := Nows(envs, k, |entries|);
    if FirstStarts(c.table, entries) {
      var p := Continue(c, Starting(entries, started), envs(k));
      FinishStarting(p.control, entries[1..], started + 1, envs, k + 1);
      assert nows[1..] == Nows(envs, k + 1, |entries| - 1);
      StartOne(c, entries, started, envs, k, p, StartAll(p.control.table, entries[1..], nows[1..]));
    } else {
      StartNone(c, entries, started, envs, k, nows);
    }
  }

  lemma {:induction false} FinishStopping(c: Control, ids: seq<Option<nat>>, stopped: nat, envs: nat -> Env, k: nat)
    ensures Reports(Finish(c, More(Stopping(ids, stopped)), envs, k), stopped, StopEach(c.table, ids))
    decreases |ids|
  {
    if ids != [] && ids[0].Some? {
      var p := Continue(c, Stopping(ids, stopped), envs(k));
      var n := if IsActive(c.table, ids[0].value) then 1 else 0;
      FinishStopping(p.control, ids[1..], stopped + n, envs, k + 1);
    }
  }

  ghost predicate SomeActive(t: Table, ids: seq<Option<nat>>) {
    exists i :: 0 <= i < |ids| && ids[i].Some? && IsActive(t, ids[i].value)
  }

  /** A WIGGLE_STOP reports success iff every id parses and one of them is active. */
  lemma {:induction false} StopReports(t: Table, ids: seq<Option<nat>>)
    ensures !StopEach(t, ids).failed <==> forall i :: 0 <= i < |ids| ==> ids[i].Some?
    ensures !StopEach(t, ids).failed ==> (StopEach(t, ids).count > 0 <==> SomeActive(t, ids))
    decreases |ids|
  {
    if ids != [] && ids[0].Some? {
      StopReports(Apply(t, Stop(ids[0].value)), ids[1..]);
      assert forall i :: 0 <= i < |ids[1..]| ==> ids[1..][i] == ids[i + 1];
      if !IsActive(t, ids[0].value) {
        assert Apply(t, Stop(ids[0].value)) == t;
        assert SomeActive(t, ids) <==> SomeActive(t, ids[1..]) by {
          if i :| 0 <= i < |ids| && ids[i].Some? && IsActive(t, ids[i].value) {
            assert ids[1..][i - 1] == ids[i];
          }
        }
      }
    }
  }

  // ---------------------------------------------------------------- the twin

  /** A FIRE or DROWN finds the sequence free, memory and a thread. */
  predicate CanLaunch(c: Control, envs: nat -> Env) {
    c.table.mode == Hotfire && !c.firing.active && envs(1).allocates && envs(2).spawns
  }

  /** What the state of the server and of the system adds to the parsing of a command. */
  ghost predicate Ready(c: Control, command: Command, envs: nat -> Env) {
    match command
    case WiggleStop(ids) => SomeActive(c.table, ids)
    case WiggleStart(entries) =>
      && c.table.mode == Prechilling
      && |Abs(c.table.slots).Keys + TestingTwin.Requested(entries)| <= 16
    case Drown => CanLaunch(c, envs) && c.valves.mainId != 0 && c.valves.ventId != 0
    case Fire(_) => CanLaunch(c, envs)
    case Raw(_) => c.table.mode == Hotfire && envs(0).bus
    case _ => true
  }

  /**
   Whether production's own parsing and range checks let a command through: `wiggle_start` on an
   empty table for each entry, the loop of `handle_wiggle_stop`, the id check of the bus.
   */
  predicate WellFormed(command: Command) {
    match command
    case ReadToggle(_) => true
    case Abort => true
    case SetState(mode) => mode.Some?
    case SetValve(change) => change.Some?
    case WiggleStop(ids) => ids != [] && !StopEach(Empty(), ids).failed
    case WiggleStart(entries) =>
      entries != [] && forall i :: 0 <= i < |entries| ==> FirstStarts(Empty(), entries[i..])
    case Drown => true
    case Fire(blocks) => blocks.Some? && blocks.value != []
    case Raw(raw) => CanCache.CommandFrame(raw.id, raw.value, 0).Some?
    case Invalid => false
  }

  /** On an empty table only the range checks can refuse a start. */
  lemma EmptyTakesValid(r: Request)
    ensures Starts(Empty().slots, r) <==> Wiggle.Valid(r)
  {
    assert !Empty().slots[0].active;
  }

  lemma WiggleParses(entries: seq<Option<Request>>)
    ensures TestingWiggle(entries) <==> WellFormed(WiggleStart(entries))
  {
    forall i | 0 <= i < |entries|
      ensures FirstStarts(Empty(), entries[i..]) <==> entries[i].Some? && Wiggle.Valid(entries[i].value)
    {
      if entries[i].Some? { EmptyTakesValid(entries[i].value); }
    }
  }

  /** The two SET_VALVE handlers, with their different order of tests, agree. */
  lemma ValvesAgree(rest: string)
    ensures TestingValve(rest) <==> ParseValve(rest).Some?
  {
  }

  lemma {:induction false} StopParses(ids: seq<Option<nat>>)
    ensures TestingStop(ids) <==> WellFormed(WiggleStop(ids))
  {
    StopReports(Empty(), ids);
  }

  lemma {:induction false} FireParses(text: string)
    ensures FireParser.Meaning(text).Some? <==> WellFormed(Fire(FireParser.Meaning(text)))
  {
  }

  lemma {:induction false} RestParses(text: string)
    ensures TestingRest(text) <==> WellFormed(ClassifyRest(text))
  {
    if "WIGGLE_STOP" <= text {
      StopParses(StopIds(text));
    } else if "WIGGLE" <= text {
      WiggleParses(Entries(text));
    } else {
      FireParses(text);
    }
  }

  lemma {:induction false} NormalizedParses(text: string)
    ensures TestingAnswer(text) <==> WellFormed(ClassifyNormalized(text))
  {
    if "SET_VALVE" <= text {
      ValvesAgree(text[9..]);
    }
    RestParses(text);
  }

  /** The testing dispatch accepts a text iff production's parsing and range checks do. */
  lemma {:induction false} TestingParses(text: string)
    requires !Classify(text).ReadToggle?
    ensures TestingAnswer(StripCanPrefix(text)) <==> WellFormed(Classify(text))
  {
    NormalizedParses(StripCanPrefix(text));
  }

  lemma HandleShort(c: Control, command: Command, envs: nat -> Env)
    requires !command.WiggleStart? && !command.WiggleStop? && !command.Drown? && !command.Fire?
    ensures Succeeds(Handle(c, command, envs)) <==> WellFormed(command) && Ready(c, command, envs)
  {
    var p := Dispatch(c, command);
    FinishShort(p.control, p.step, envs);
  }

  lemma HandleLaunch(c: Control, command: Command, envs: nat -> Env)
    requires command.Drown? || command.Fire?
    ensures Succeeds(Handle(c, command, envs)) <==> WellFormed(command) && Ready(c, command, envs)
  {
    var p := Dispatch(c, command);
    if p.step.More? {
      FinishClaiming(p.control, p.step.work.config, envs);
    }
  }

  /** A well-formed command succeeds exactly on a server that is ready for it; another never does. */
  lemma {:induction false} HandleSucceeds(c: Control, command: Command, envs: nat -> Env)
    requires WiggleMap.Inv(c.table.slots)
    ensures Succeeds(Handle(c, command, envs)) <==> WellFormed(command) && Ready(c, command, envs)
  {
    if command.WiggleStart? {
      WiggleParses(command.entries);
      if c.table.mode == Prechilling {
        FinishStarting(c, command.entries, 0, envs, 0);
        TestingTwin.EntriesAgree(c.table, command.entries, Nows(envs, 0, |command.entries|));
      }
    } else if command.WiggleStop? {
      FinishStopping(c, command.ids, 0, envs, 0);
      StopReports(c.table, command.ids);
      StopReports(Empty(), command.ids);
    } else if command.Drown? || command.Fire? {
      HandleLaunch(c, command, envs);
    } else {
      HandleShort(c, command, envs);
    }
  }

  /**
   Testing mode predicts production: for every text, every control state and every course of the
   clock, the bus, allocation and thread creation, production carries the command out with success
   iff the testing handlers accept the text and the server is ready for the command.
   */
  lemma TestingPredictsProduction(c: Control, text: string, envs: nat -> Env)
    requires WiggleMap.Inv(c.table.slots) && !Classify(text).ReadToggle?
    ensures Succeeds(Handle(c, Classify(text), envs))
       <==> SilentReply(true, text) && Ready(c, Classify(text), envs)
  {
    TestingParses(text);
    HandleSucceeds(c, Classify(text), envs);
  }

  lemma DispatchClock(c: Control, command: Command)
    ensures Dispatch(c, command).control.firing.clock == c.firing.clock
  {
    DispatchFiring(c, command);
  }

  lemma FinishReplies(c: Control, step: Step, envs: nat -> Env, k: nat)
    ensures Finish(c, step, envs, k).step.Done?
    decreases Size(step)
  {
    if step.More? {
      var p := Continue(c, step.work, envs(k));
      FinishReplies(p.control, p.step, envs, k + 1);
    }
  }

  /**
   The same in every run of a production server: whatever has happened before, a text that is then
   handled without interruption ends with one reply, and it is a success iff the testing handlers
   accept the text and the server is ready.
   */
  lemma TwinOnEveryRun(states: seq<System>, acts: seq<Action>, client: nat, text: string, envs: nat -> Env)
    returns (s': System, ok: bool)
    requires IsRun(states, acts, false, false) && client !in states[|acts|].work
    requires !Classify(text).ReadToggle? && Forward(envs, states[|acts|].control.firing.clock, 0)
    ensures var s := states[|acts|];
            var p := Dispatch(s.control, Classify(text));
            && After(s, [Begin(client, text)] + Proceeds(p.control, p.step, client, envs, 0)) == Some(s')
            && s'.replies == s.replies + [Reply(client, ok)]
            && (ok <==> SilentReply(true, text) && Ready(s.control, Classify(text), envs))
  {
    var s, command := states[|acts|], Classify(text);
    var p := Dispatch(s.control, command);
    NeverSilent(states, acts, |acts|);
    TableIsMap(states, acts, false, false, |acts|);
    TestingPredictsProduction(s.control, text, envs);
    BeginStep(s, client, text, command);
    DispatchClock(s.control, command);
    HandleIsARun(s, client, p, envs, 0);
    AfterStep(s, Begin(client, text), Proceeds(p.control, p.step, client, envs, 0));
    FinishReplies(p.control, p.step, envs, 0);
    s' := Moved(s, client, Handle(s.control, command, envs));
    ok := Succeeds(Handle(s.control, command, envs));
  }

  // ---------------------------------------------------------------- where the twins differ

  /** The command fits the table and the ids of the bus at all. */
  ghost predicate Possible(command: Command) {
    match command
    case WiggleStart(entries) => |TestingTwin.Requested(entries)| <= 16
    case WiggleStop(ids) => exists i :: 0 <= i < |ids| && ids[i].Some? && ids[i].value <= MAX_CAN_ID
    case _ => true
  }

  lemma ReadyIsPossible(c: Control, command: Command, envs: nat -> Env)
    requires WiggleMap.Inv(c.table.slots) && Ready(c, command, envs)
    ensures Possible(command)
  {
    match command
    case WiggleStart(entries) =>
      var keys, wanted := Abs(c.table.slots).Keys, TestingTwin.Requested(entries);
      assert wanted + keys == keys + wanted;
      TestingTwin.SizeGrows(wanted, keys);
    case WiggleStop(ids) =>
      var i :| 0 <= i < |ids| && ids[i].Some? && IsActive(c.table, ids[i].value);
      assert WiggleMap.GoodSlot(c.table.slots[SlotOf(c.table.slots, ids[i].value)]);
    case _ =>
  }

  lemma TableWith(id: nat) returns (t: Table)
    requires id <= MAX_CAN_ID
    ensures WiggleMap.Inv(t.slots) && IsActive(t, id)
  {
    var r := Request(id, 0, 0, 0, 1, 0);
    EmptyTakesValid(r);
    RunRefines([]);
    t := Apply(Empty(), Start(r, 0));
    StartRefines(Empty(), r, 0);
    assert t.slots[TargetSlot(Empty().slots, id)] == Opened(r, 0);
  }

  /** A server on which a possible command succeeds. */
  lemma ReadyServer(command: Command) returns (c: Control)
    requires Possible(command)
    ensures WiggleMap.Inv(c.table.slots) && Ready(c, command, _ => IDLE)
  {
    RunRefines([]);
    c := if command.WiggleStart? then Rest() else Rest().(table := Empty().(mode := Hotfire));
    match command
    case WiggleStart(entries) =>
      var wanted := TestingTwin.Requested(entries);
      assert Abs(c.table.slots).Keys == {};
      assert Abs(c.table.slots).Keys + wanted == wanted;
    case WiggleStop(ids) =>
      var i :| 0 <= i < |ids| && ids[i].Some? && ids[i].value <= MAX_CAN_ID;
      var t := TableWith(ids[i].value);
      c := Rest().(table := t);
      assert SomeActive(t, ids);
    case _ =>
  }

  /** Some server carries the text out, in some course of things. */
  ghost predicate CarriedOut(text: string) {
    exists c: Control, envs: nat -> Env :: WiggleMap.Inv(c.table.slots) && Succeeds(Handle(c, Classify(text), envs))
  }

  /**
   Exactly which accepted texts no production server carries out: a WIGGLE for more than 16 ids,
   and a WIGGLE_STOP whose ids are all wider than eleven bits.
   */
  lemma AcceptedIsPossible(text: string)
    requires !Classify(text).ReadToggle?
    ensures CarriedOut(text) <==> SilentReply(true, text) && Possible(Classify(text))
  {
    var command := Classify(text);
    if c: Control, envs: nat -> Env :| WiggleMap.Inv(c.table.slots) && Succeeds(Handle(c, command, envs)) {
      TestingPredictsProduction(c, text, envs);
      ReadyIsPossible(c, command, envs);
    }
    if SilentReply(true, text) && Possible(command) {
      var c := ReadyServer(command);
      TestingPredictsProduction(c, text, _ => IDLE);
      assert Succeeds(Handle(c, Classify(text), _ => IDLE));
    }
  }

  /** A DROWN that testing accepts can fail in production: a valve id may have been set to zero. */
  lemma DrownNeedsValves(c: Control, envs: nat -> Env)
    requires CanLaunch(c, envs)
    ensures SilentReply(true, DROWN)
    ensures Succeeds(Handle(c, Classify(DROWN), envs)) <==> c.valves.mainId != 0 && c.valves.ventId != 0
  {
    ClassifyDrown();
    TestingParses(DROWN);
    HandleLaunch(c, Drown, envs);
  }

  /** The control state after a valve id was set to zero and the state to HOTFIRE. */
  lemma DrownRefused(s0: System, change: ValveChange) returns (s1: System, s2: System, s3: System, s: System)
    requires !Silent(s0) && s0.work == map[] && s0.control.firing.clock == 0
    requires change == MainId(0) || change == VentId(0)
    ensures s1 == Moved(s0, 0, Dispatch(s0.control, SetValve(Some(change))))
    ensures s2 == Moved(s1, 0, Dispatch(s1.control, SetState(Some(Hotfire))))
    ensures Next(s2, Proceed(0, IDLE)) == Some(s3)
    ensures s == Moved(s3, 0, Dispatch(s3.control, Drown))
    ensures !Silent(s1) && 0 !in s1.work && !Silent(s3) && 0 !in s3.work
    ensures s.replies == s3.replies + [Reply(0, false)] && s3.control.table.mode == Hotfire
  {
    s1 := Moved(s0, 0, Dispatch(s0.control, SetValve(Some(change))));
    s2 := Moved(s1, 0, Dispatch(s1.control, SetState(Some(Hotfire))));
    assert s2.work[0] == FinishHot;
    s3 := Next(s2, Proceed(0, IDLE)).value;
    s := Moved(s3, 0, Dispatch(s3.control, Drown));
  }

  /** Such a server is reached from boot, and the reply to DROWN is an error there. */
  lemma {:induction false} DrownRefusedFromBoot(change: ValveChange) returns (s: System)
    requires change == MainId(0) || change == VentId(0)
    ensures After(Booted(false, false),
                  [Begin(0, PrintValve(change)), Begin(0, StateText(Hotfire)), Proceed(0, IDLE), Begin(0, DROWN)])
         == Some(s)
    ensures s.replies != [] && s.replies[|s.replies| - 1] == Reply(0, false)
    ensures SilentReply(true, DROWN)
  {
    ValveRoundTrip(change);
    ClassifyState(Hotfire);
    ClassifyDrown();
    TestingParses(DROWN);
    s := RunDrownRefused(PrintValve(change), StateText(Hotfire), DROWN, change);
  }

  lemma {:induction false} RunDrownRefused(valve: string, hot: string, drown: string, change: ValveChange)
    returns (s: System)
    requires Classify(valve) == SetValve(Some(change)) && (change == MainId(0) || change == VentId(0))
    requires Classify(hot) == SetState(Some(Hotfire)) && Classify(drown) == Drown
    ensures After(Booted(false, false), [Begin(0, valve), Begin(0, hot), Proceed(0, IDLE), Begin(0, drown)]) == Some(s)
    ensures s.replies != [] && s.replies[|s.replies| - 1] == Reply(0, false)
  {
    var s0 := Booted(false, false);
    var s1, s2, s3;
    s1, s2, s3, s := DrownRefused(s0, change);
    BeginStep(s0, 0, valve, SetValve(Some(change)));
    BeginStep(s1, 0, hot, SetState(Some(Hotfire)));
    BeginStep(s3, 0, drown, Drown);
    AfterFour(s0, Begin(0, valve), Begin(0, hot), Proceed(0, IDLE), Begin(0, drown));
  }
}
