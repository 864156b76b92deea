/**
 Commands against the rest of the server: the gates of `command_handle_text`, one step per lock
 section.  Timer ticks and the firing worker interleave with the handlers; any number of clients
 may have a command in progress.  Every command ends with one reply.  The firing sequence is the
 state of FiringProtocol: handlers claim, start and abort it, and its worker takes its own steps.
 */
module Server {
  import opened Base
  import opened Wiggle
  import opened Commands
  import WiggleMap
  import FiringProtocol
  import CanListener
  import CanCache

  datatype Valves = Valves(mainId: nat, mainOpen: nat, ventId: nat, ventClose: nat)

  /** What is left to do of a command that has passed its first lock section. */
  datatype Work =
    | FinishHot
    | FinishAbort
    | Starting(entries: seq<Option<Request>>, started: nat)
    | Stopping(ids: seq<Option<nat>>, stopped: nat)
    | Claiming(config: FiringProtocol.Config)
    | Allocating(run: nat)
    | Spawning(run: nat)
    | GivingBack(run: nat)
    | SendingRaw(raw: CanListener.RawCommand)

  /** Everything a command can change: the table with the mode, the sequence, the valves, the bus. */
  datatype Control = Control(
    table: Table, firing: FiringProtocol.State, valves: Valves,
    claims: seq<Mode>, rawSent: seq<CanCache.CanFrame>)

  /** A command goes on, or it has replied; `ok` tells a success from an error. */
  datatype Step = More(work: Work) | Done(ok: bool)

  datatype Progress = Progress(control: Control, step: Step)

  datatype Reply = Reply(client: nat, ok: bool)

  datatype System = System(
    readOnly: bool, testing: bool, control: Control, work: map<nat, Work>, replies: seq<Reply>)

  /** What a lock section finds: the clock, and whether bus, allocation and thread creation succeed. */
  datatype Env = Env(now: nat, bus: bool, allocates: bool, spawns: bool)

  datatype Action =
    | Begin(client: nat, text: string)
    | Proceed(client: nat, env: Env)
    | Tick(now: nat)
    | Worker(run: nat, op: FiringProtocol.Op)
    | RaiseStop

  function Rest(): Control {
    Control(Empty(), FiringProtocol.INITIAL, Valves(0x709, 0x99, 0x702, 0x74), [], [])
  }

  function Booted(readOnly: bool, testing: bool): System { System(readOnly, testing, Rest(), map[], []) }

  function Changed(v: Valves, change: ValveChange): Valves {
    match change
    case MainId(id) => v.(mainId := id)
    case VentId(id) => v.(ventId := id)
    case MainOpen(angle) => v.(mainOpen := angle)
    case VentClose(angle) => v.(ventClose := angle)
  }

  /** `firing_sequence_start_drown`: open the main valve, 100 ms later close the vent. */
  function DrownConfig(v: Valves): Option<FiringProtocol.Config> {
    if v.mainId == 0 || v.ventId == 0 then None
    else Some(FiringProtocol.Config(
                [FiringProtocol.Block(FiringProtocol.Frame(v.mainId, v.mainOpen, 0), 100),
                 FiringProtocol.Block(FiringProtocol.Frame(v.ventId, v.ventClose, 1000), 0)], true))
  }

  /** One step of the firing sequence; a step that is not enabled leaves it as it is. */
  function Does(f: FiringProtocol.State, a: FiringProtocol.Action): FiringProtocol.State {
    match FiringProtocol.Next(f, a)
    case None => f
    case Some(f') => f'
  }

  /** The first lock section of a command, and what remains. */
  function Dispatch(c: Control, command: Command): Progress {
    match command
    case ReadToggle(_) => Progress(c, Done(true))
    case Abort => Progress(c.(firing := Does(c.firing, FiringProtocol.RequestAbort)), More(FinishAbort))
    case SetState(Some(mode)) =>
      Progress(c.(table := Apply(c.table, SetMode(mode))), if mode == Hotfire then More(FinishHot) else Done(true))
    case SetState(None) => Progress(c, Done(false))
    case SetValve(Some(change)) => Progress(c.(valves := Changed(c.valves, change)), Done(true))
    case SetValve(None) => Progress(c, Done(false))
    case WiggleStop(ids) => Progress(c, More(Stopping(ids, 0)))
    case WiggleStart(entries) =>
      Progress(c, if c.table.mode == Prechilling then More(Starting(entries, 0)) else Done(false))
    case _ => if c.table.mode == Prechilling then Progress(c, Done(false)) else Progress(c, DispatchHot(c, command))
  }

  /** The handlers behind the PRECHILLING gate. */
  function DispatchHot(c: Control, command: Command): Step {
    match command
    case Drown => if DrownConfig(c.valves).None? then Done(false) else More(Claiming(DrownConfig(c.valves).value))
    case Fire(Some(blocks)) =>
      if blocks == [] then Done(false) else More(Claiming(FiringProtocol.Config(blocks, false)))
    case Raw(raw) => More(SendingRaw(raw))
    case _ => Done(false)
  }

  function Size(step: Step): nat {
    match step
    case Done(_) => 0
    case More(Starting(entries, _)) => |entries| + 1
    case More(Stopping(ids, _)) => |ids| + 1
    case More(Claiming(_)) => 4
    case More(Allocating(_)) => 3
    case More(Spawning(_)) => 2
    case More(_) => 1
  }

  predicate FirstStarts(t: Table, entries: seq<Option<Request>>) {
    entries != [] && entries[0].Some? && Starts(t.slots, entries[0].value)
  }

  predicate CanClaim(f: FiringProtocol.State, config: FiringProtocol.Config) { !f.active && config.blocks != [] }

  /** What a lock section does to the firing sequence; at least, it sees the clock. */
  function Touches(c: Control, work: Work, env: Env): FiringProtocol.Action {
    match work
    case Starting(entries, _) =>
      FiringProtocol.Elapse(if FirstStarts(c.table, entries) then env.now else c.firing.clock)
    case Claiming(config) =>
      if CanClaim(c.firing, config) then FiringProtocol.Claim(c.firing.nextRun, config)
      else FiringProtocol.Elapse(c.firing.clock)
    case Allocating(run) => FiringProtocol.Own(run, FiringProtocol.Allocate(env.allocates))
    case Spawning(run) => FiringProtocol.Own(run, FiringProtocol.Spawn(env.spawns, env.now))
    case GivingBack(run) => FiringProtocol.Own(run, FiringProtocol.GiveBack)
    case _ => FiringProtocol.Elapse(c.firing.clock)
  }

  /** One further lock section of a command. */
  function Continue(c: Control, work: Work, env: Env): (p: Progress)
    ensures Size(p.step) < Size(More(work))
    ensures p.control.firing == Does(c.firing, Touches(c, work, env))
  {
    var c' := c.(firing := Does(c.firing, Touches(c, work, env)));
    match work
    case FinishHot => Progress(c'.(table := Apply(c.table, StopAll(true))), Done(true))
    case FinishAbort => Progress(c'.(table := Apply(c.table, StopAll(true))), Done(true))
    case Starting(entries, started) =>
      if entries == [] then Progress(c', Done(started > 0))
      else if !FirstStarts(c.table, entries) then Progress(c', Done(false))
      else Progress(c'.(table := Apply(c.table, Start(entries[0].value, env.now))),
                    More(Starting(entries[1..], started + 1)))
    case Stopping(ids, stopped) =>
      if ids == [] then Progress(c', Done(stopped > 0))
      else if ids[0].None? then Progress(c', Done(false))
      else Progress(c'.(table := Apply(c.table, Stop(ids[0].value))),
                    More(Stopping(ids[1..], stopped + if IsActive(c.table, ids[0].value) then 1 else 0)))
    case Claiming(config) =>
      if !CanClaim(c.firing, config) then Progress(c', Done(false))
      else Progress(c'.(claims := c.claims + [c.table.mode]), More(Allocating(c.firing.nextRun)))
    case Allocating(run) => Progress(c', More(if env.allocates then Spawning(run) else GivingBack(run)))
    case Spawning(run) => Progress(c', if env.spawns then Done(true) else More(GivingBack(run)))
    case GivingBack(run) => Progress(c', Done(false))
    case SendingRaw(raw) =>
      var duration := if raw.duration.Some? then raw.duration.value else 0;
      match CanCache.CommandFrame(raw.id, raw.value, duration) {
        case None => Progress(c', Done(false))
        case Some(frame) => Progress(c'.(rawSent := c.rawSent + [frame]), Done(env.bus))
      }
  }

  /** A client's command has made progress. */
  function Moved(s: System, client: nat, p: Progress): System {
    match p.step
    case More(w) => s.(control := p.control, work := s.work[client := w])
    case Done(ok) => s.(control := p.control, work := s.work - {client}, replies := s.replies + [Reply(client, ok)])
  }

  /** Testing mode and read-only mode have handlers of their own. */
  predicate Silent(s: System) { s.readOnly || s.testing }

  /** The reply of a server in testing mode, or else in read-only mode. */
  function SilentReply(testing: bool, text: string): bool {
    if Classify(text).ReadToggle? then true
    else testing && TestingAnswer(StripCanPrefix(text))
  }

  function Next(s: System, a: Action): Option<System> {
    match a
    case Begin(client, text) =>
      if client in s.work then None
      else if Silent(s) then Some(s.(replies := s.replies + [Reply(client, SilentReply(s.testing, text))]))
      else Some(Moved(s, client, Dispatch(s.control, Classify(text))))
    case Proceed(client, env) =>
      if client !in s.work || env.now < s.control.firing.clock then None
      else Some(Moved(s, client, Continue(s.control, s.work[client], env)))
    case Tick(now) =>
      if now < s.control.firing.clock then None
      else Some(s.(control := s.control.(table := Apply(s.control.table, Wiggle.Tick(now)),
                                         firing := Does(s.control.firing, FiringProtocol.Elapse(now)))))
    case Worker(run, op) =>
      var next := FiringProtocol.Next(s.control.firing, FiringProtocol.Own(run, op));
      if !IsWorkerOp(op) || next.None? then None else Some(s.(control := s.control.(firing := next.value)))
    case RaiseStop =>
      Some(s.(control := s.control.(firing := Does(s.control.firing, FiringProtocol.RaiseStop))))
  }

  /** The steps of the worker, not those of the handler that starts it. */
  predicate IsWorkerOp(op: FiringProtocol.Op) { !op.Allocate? && !op.Spawn? && !op.GiveBack? }

  ghost predicate StepAt(states: seq<System>, acts: seq<Action>, k: nat)
    requires k < |acts| && |states| == |acts| + 1
  {
    Next(states[k], acts[k]) == Some(states[k + 1])
  }

  ghost predicate IsRun(states: seq<System>, acts: seq<Action>, readOnly: bool, testing: bool) {
    && |states| == |acts| + 1
    && states[0] == Booted(readOnly, testing)
    && forall k :: 0 <= k < |acts| ==> StepAt(states, acts, k)
  }

  /** A new command begins only when no other is in progress. */
  ghost predicate Serial(states: seq<System>, acts: seq<Action>)
    requires |states| == |acts| + 1
  {
    forall k :: 0 <= k < |acts| && acts[k].Begin? ==> states[k].work == map[]
  }

  /** A WIGGLE that has passed its state check and whose next entry can be started. */
  predicate CanStartNext(w: Work) {
    w.Starting? && w.entries != [] && w.entries[0].Some? && Valid(w.entries[0].value)
  }

  /**
   The weaker condition that is enough, and, as ServerOverlap shows, needed: the state does not
   switch to HOTFIRE while a WIGGLE past its check can still start an entry, nor to PRECHILLING
   while a FIRE or DROWN past the gate has yet to claim.
   */
  ghost predicate Orderly(s: System, a: Action) {
    a.Begin? && !Silent(s) ==> OrderlyCommand(s, Classify(a.text))
  }

  ghost predicate OrderlyCommand(s: System, command: Command) {
    && (command == SetState(Some(Hotfire)) ==> forall c :: c in s.work ==> !CanStartNext(s.work[c]))
    && (command == SetState(Some(Prechilling)) ==> forall c :: c in s.work ==> !s.work[c].Claiming?)
  }

  ghost predicate AllOrderly(states: seq<System>, acts: seq<Action>)
    requires |states| == |acts| + 1
  {
    forall k :: 0 <= k < |acts| ==> Orderly(states[k], acts[k])
  }

  // ---------------------------------------------------------------- mode exclusion

  ghost predicate NoneActive(slots: seq<Slot>) {
    forall i :: 0 <= i < |slots| ==> !slots[i].active
  }

  /** No wiggle runs in HOTFIRE, unless the switch to HOTFIRE has yet to stop them. */
  ghost predicate Exclusive(s: System) {
    s.control.table.mode == Hotfire && (forall c :: c in s.work ==> !s.work[c].FinishHot?)
    ==> NoneActive(s.control.table.slots)
  }

  ghost predicate ClaimsInHotfire(s: System) {
    forall i :: 0 <= i < |s.control.claims| ==> s.control.claims[i] == Hotfire
  }

  ghost predicate Inv(s: System) {
    && Exclusive(s) && ClaimsInHotfire(s)
    && (forall c :: c in s.work && CanStartNext(s.work[c]) ==> s.control.table.mode == Prechilling)
    && (forall c :: c in s.work && s.work[c].Claiming? ==>
          s.control.table.mode == Hotfire && s.work[c].config.blocks != [])
  }

  lemma QuietTable(t: Table, op: Op)
    requires NoneActive(t.slots) && (op.Tick? || op.StopAll? || op.Stop?)
    ensures NoneActive(Apply(t, op).slots)
  {
  }

  /** What dispatching does to the mode, and what it leaves to be done in which mode. */
  lemma DispatchModes(c: Control, command: Command)
    ensures var p := Dispatch(c, command);
            && p.control.table.slots == c.table.slots && p.control.claims == c.claims
            && (p.control.table.mode == c.table.mode || command == SetState(Some(p.control.table.mode)))
            && (p.step.More? && p.step.work.Starting? ==> p.control.table.mode == Prechilling)
            && (p.step.More? && p.step.work.Claiming? ==>
                  p.control.table.mode == Hotfire && p.step.work.config.blocks != [])
            && (command == SetState(Some(Hotfire)) ==> p.step == More(FinishHot))
  {
  }

  lemma DispatchKeepsInv(s: System, client: nat, command: Command)
    requires Inv(s) && client !in s.work && OrderlyCommand(s, command)
    ensures Inv(Moved(s, client, Dispatch(s.control, command)))
  {
    var s' := Moved(s, client, Dispatch(s.control, command));
    DispatchModes(s.control, command);
    assert forall c :: c in s'.work && c != client ==> c in s.work && s'.work[c] == s.work[c];
    assert forall c :: c in s.work ==> c in s'.work && s'.work[c] == s.work[c];
    if command == SetState(Some(Hotfire)) {
      assert s'.work[client] == FinishHot;
    }
  }

  /** One lock section of a command that does not start a wiggle only ever quiets the table. */
  lemma ContinueKeeps(c: Control, work: Work, env: Env)
    ensures var p := Continue(c, work, env);
            && p.control.table.mode == c.table.mode
            && (work.FinishHot? || work.FinishAbort? ==> NoneActive(p.control.table.slots))
            && (NoneActive(c.table.slots) && !CanStartNext(work) ==> NoneActive(p.control.table.slots))
            && (p.step.More? && p.step.work.Starting? ==> CanStartNext(work))
            && (p.step.More? ==> !p.step.work.FinishHot? && !p.step.work.Claiming?)
            && (p.control.claims == c.claims || (work.Claiming? && p.control.claims == c.claims + [c.table.mode]))
  {
    match work
    case Stopping(ids, _) =>
      if ids != [] && ids[0].Some? && NoneActive(c.table.slots) {
        QuietTable(c.table, Stop(ids[0].value));
      }
    case _ =>
  }

  lemma ProceedKeepsInv(s: System, client: nat, env: Env)
    requires Inv(s) && client in s.work
    ensures Inv(Moved(s, client, Continue(s.control, s.work[client], env)))
  {
    var s' := Moved(s, client, Continue(s.control, s.work[client], env));
    ContinueKeeps(s.control, s.work[client], env);
    assert forall c :: c in s'.work && c != client ==> c in s.work && s'.work[c] == s.work[c];
    assert forall c :: c in s.work && c != client ==> c in s'.work && s'.work[c] == s.work[c];
  }

  lemma StepKeepsInv(s: System, a: Action)
    requires Inv(s) && Orderly(s, a) && Next(s, a).Some?
    ensures Inv(Next(s, a).value)
  {
    match a
    case Begin(client, text) =>
      if !Silent(s) { DispatchKeepsInv(s, client, Classify(text)); }
    case Proceed(client, env) => ProceedKeepsInv(s, client, env);
    case Tick(now) =>
      if NoneActive(s.control.table.slots) {
        QuietTable(s.control.table, Wiggle.Tick(now));
      }
    case Worker(_, _) =>
    case RaiseStop =>
  }

  // ---------------------------------------------------------------- the table in every run

  lemma TableAfter(t: Table, op: Op)
    requires WiggleMap.Inv(t.slots)
    ensures WiggleMap.Inv(Apply(t, op).slots)
  {
    WiggleMap.StepRefines(t, op);
  }

  lemma ContinueKeepsTable(c: Control, work: Work, env: Env)
    requires WiggleMap.Inv(c.table.slots)
    ensures WiggleMap.Inv(Continue(c, work, env).control.table.slots)
  {
    match work
    case Starting(entries, _) =>
      if FirstStarts(c.table, entries) { TableAfter(c.table, Start(entries[0].value, env.now)); }
    case Stopping(ids, _) =>
      if ids != [] && ids[0].Some? { TableAfter(c.table, Stop(ids[0].value)); }
    case _ =>
      TableAfter(c.table, StopAll(true));
  }

  lemma StepKeepsTable(s: System, a: Action)
    requires WiggleMap.Inv(s.control.table.slots) && Next(s, a).Some?
    ensures WiggleMap.Inv(Next(s, a).value.control.table.slots)
  {
    match a
    case Begin(_, text) => DispatchModes(s.control, Classify(text));
    case Proceed(client, env) => ContinueKeepsTable(s.control, s.work[client], env);
    case Tick(now) => TableAfter(s.control.table, Wiggle.Tick(now));
    case Worker(_, _) =>
    case RaiseStop =>
  }

  /** In every run, orderly or not, the slot table of the server is a map of at most 16 sessions. */
  lemma {:induction false} TableIsMap(
    states: seq<System>, acts: seq<Action>, readOnly: bool, testing: bool, k: nat)
    requires IsRun(states, acts, readOnly, testing) && k < |states|
    ensures WiggleMap.Inv(states[k].control.table.slots)
  {
    if k > 0 {
      TableIsMap(states, acts, readOnly, testing, k - 1);
      assert StepAt(states, acts, k - 1);
      StepKeepsTable(states[k - 1], acts[k - 1]);
    }
  }

  lemma BootKeepsInv(readOnly: bool, testing: bool)
    ensures Inv(Booted(readOnly, testing))
  {
  }

  /**
   Mode exclusion over whole runs: whenever the state is HOTFIRE and no switch to it is in
   progress, no wiggle is active, and every FIRE or DROWN claim happened in HOTFIRE.
   */
  lemma {:induction false} ModeExclusion(
    states: seq<System>, acts: seq<Action>, readOnly: bool, testing: bool, k: nat)
    requires IsRun(states, acts, readOnly, testing) && AllOrderly(states, acts) && k < |states|
    ensures Inv(states[k])
    ensures Exclusive(states[k]) && ClaimsInHotfire(states[k])
  {
    if k == 0 {
      BootKeepsInv(readOnly, testing);
    } else {
      ModeExclusion(states, acts, readOnly, testing, k - 1);
      assert StepAt(states, acts, k - 1) && Orderly(states[k - 1], acts[k - 1]);
      StepKeepsInv(states[k - 1], acts[k - 1]);
    }
  }

  /** Handling commands one at a time is orderly. */
  lemma SerialIsOrderly(states: seq<System>, acts: seq<Action>)
    requires |states| == |acts| + 1 && Serial(states, acts)
    ensures AllOrderly(states, acts)
  {
  }

  // ---------------------------------------------------------------- read-only and testing mode

  lemma EmptyTableIsQuiet(now: nat)
    ensures Apply(Empty(), Wiggle.Tick(now)) == Empty()
  {
    var slots := Empty().slots;
    assert TickSlots(slots, now) == slots;
    NoSends(slots, now);
  }

  lemma {:induction false} NoSends(slots: seq<Slot>, now: nat)
    requires NoneActive(slots)
    ensures TickSends(slots, now) == []
  {
    if slots != [] {
      NoSends(slots[..|slots| - 1], now);
    }
  }

  /** The replies a silent server gives to the commands among `acts`. */
  function SilentReplies(testing: bool, acts: seq<Action>): seq<Reply> {
    if acts == [] then []
    else
      var before, last := SilentReplies(testing, acts[..|acts| - 1]), acts[|acts| - 1];
      if last.Begin? then before + [Reply(last.client, SilentReply(testing, last.text))] else before
  }

  /** The control state at boot, but for the clock that has gone on and a stop that was raised. */
  ghost predicate AtRest(c: Control) {
    c == Rest().(firing := FiringProtocol.INITIAL.(clock := c.firing.clock, stop := c.firing.stop))
  }

  /**
   In read-only or testing mode no command, in any order and number, changes the control state or
   puts a frame on the bus; every text is answered at once, by its parsing alone.
   */
  lemma {:induction false} SilentModesChangeNothing(
    states: seq<System>, acts: seq<Action>, readOnly: bool, testing: bool, k: nat)
    requires IsRun(states, acts, readOnly, testing) && (readOnly || testing) && k < |states|
    ensures AtRest(states[k].control) && states[k].control.firing.owners == map[]
    ensures states[k] == System(readOnly, testing, states[k].control, map[], SilentReplies(testing, acts[..k]))
    ensures states[k].control.table.tx == [] && states[k].control.rawSent == [] && states[k].control.claims == []
  {
    if k > 0 {
      SilentModesChangeNothing(states, acts, readOnly, testing, k - 1);
      assert StepAt(states, acts, k - 1);
      assert acts[..k][..k - 1] == acts[..k - 1];
      if acts[k - 1].Tick? {
        EmptyTableIsQuiet(acts[k - 1].now);
      }
    }
  }
}
