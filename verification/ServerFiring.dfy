/**
 The firing sequence inside the server: every run of the server is a run of the firing protocol, so
 the guarantees about claims, aborts and frames hold for the texts that clients send.
 */
module ServerFiring {
  import opened Base
  import opened Commands
  import opened Server
  import F = FiringProtocol
  import FiringOwnership
  import FiringAbort
  import FiringFrames
  import FiringTiming

  // ---------------------------------------------------------------- projection

  /** What an action of the server means for the firing sequence. */
  function Meant(s: System, a: Action): F.Action {
    match a
    case Begin(_, text) =>
      if !Silent(s) && Classify(text).Abort? then F.RequestAbort else F.Elapse(s.control.firing.clock)
    case Proceed(client, env) =>
      if client in s.work then Touches(s.control, s.work[client], env) else F.Elapse(s.control.firing.clock)
    case Tick(now) => F.Elapse(now)
    case Worker(run, op) => F.Own(run, op)
    case RaiseStop => F.RaiseStop
  }

  /** The same, or nothing at all where that step is not enabled. */
  function Shadow(s: System, a: Action): F.Action {
    if F.Next(s.control.firing, Meant(s, a)).Some? then Meant(s, a) else F.Elapse(s.control.firing.clock)
  }

  function Firings(states: seq<System>): (r: seq<F.State>)
    ensures |r| == |states| && forall k :: 0 <= k < |r| ==> r[k] == states[k].control.firing
  {
    seq(|states|, k requires 0 <= k < |states| => states[k].control.firing)
  }

  function Shadows(states: seq<System>, acts: seq<Action>): (r: seq<F.Action>)
    requires |states| == |acts| + 1
    ensures |r| == |acts| && forall k :: 0 <= k < |r| ==> r[k] == Shadow(states[k], acts[k])
  {
    seq(|acts|, k requires 0 <= k < |acts| => Shadow(states[k], acts[k]))
  }

  lemma DispatchFiring(c: Control, command: Command)
    ensures Dispatch(c, command).control.firing == if command.Abort? then Does(c.firing, F.RequestAbort) else c.firing
  {
  }

  lemma DoesIsStep(f: F.State, a: F.Action)
    ensures F.Next(f, if F.Next(f, a).Some? then a else F.Elapse(f.clock)) == Some(Does(f, a))
  {
  }

  lemma MeantIsDone(s: System, a: Action)
    requires Next(s, a).Some?
    ensures Next(s, a).value.control.firing == Does(s.control.firing, Meant(s, a))
  {
    if a.Begin? && !Silent(s) {
      DispatchFiring(s.control, Classify(a.text));
    }
  }

  /** One action of the server is one step of the protocol. */
  lemma ShadowStep(s: System, a: Action)
    requires Next(s, a).Some?
    ensures F.Next(s.control.firing, Shadow(s, a)) == Some(Next(s, a).value.control.firing)
  {
    MeantIsDone(s, a);
    DoesIsStep(s.control.firing, Meant(s, a));
  }

  /** Every run of the server, whatever its clients send, is a run of the firing protocol. */
  lemma {:induction false} FiringIsARun(states: seq<System>, acts: seq<Action>, readOnly: bool, testing: bool)
    requires IsRun(states, acts, readOnly, testing)
    ensures F.IsRun(Firings(states), Shadows(states, acts))
  {
    forall k | 0 <= k < |acts| ensures F.StepAt(Firings(states), Shadows(states, acts), k) {
      assert StepAt(states, acts, k);
      ShadowStep(states[k], acts[k]);
    }
  }

  // ---------------------------------------------------------------- where a claim comes from

  /**
   The sequence a DROWN stands for, with the valves as they are: open the main valve at once, 100 ms
   later close the vent for a second.
   */
  predicate Drowns(v: Valves, config: F.Config) {
    && config.drown && |config.blocks| == 2 && v.mainId != 0 && v.ventId != 0
    && config.blocks[0].frame.id == v.mainId && config.blocks[0].frame.value == v.mainOpen
    && config.blocks[0].frame.durationMs == 0 && config.blocks[0].waitMs == 100
    && config.blocks[1].frame.id == v.ventId && config.blocks[1].frame.value == v.ventClose
    && config.blocks[1].frame.durationMs == 1000
  }

  /** The text that began at step `b` orders this sequence, and was let through in HOTFIRE. */
  ghost predicate Orders(states: seq<System>, acts: seq<Action>, b: nat, config: F.Config)
    requires b < |acts| && |states| == |acts| + 1
  {
    && acts[b].Begin? && !Silent(states[b]) && states[b].control.table.mode == Wiggle.Hotfire
    && (|| (Classify(acts[b].text) == Fire(Some(config.blocks)) && !config.drown)
        || (Classify(acts[b].text) == Drown && Drowns(states[b].control.valves, config)))
  }

  lemma DispatchClaims(c: Control, command: Command)
    requires Dispatch(c, command).step.More? && Dispatch(c, command).step.work.Claiming?
    ensures c.table.mode == Wiggle.Hotfire
    ensures var config := Dispatch(c, command).step.work.config;
            || (command == Fire(Some(config.blocks)) && !config.drown)
            || (command == Drown && Drowns(c.valves, config))
  {
  }

  lemma ContinueClaims(c: Control, work: Work, env: Env)
    ensures Continue(c, work, env).step.More? ==> !Continue(c, work, env).step.work.Claiming?
  {
  }

  /** A pending claim goes back to the text its client sent. */
  lemma {:induction false} ClaimingHasText(
    states: seq<System>, acts: seq<Action>, readOnly: bool, testing: bool, k: nat, client: nat) returns (b: nat)
    requires IsRun(states, acts, readOnly, testing) && k < |states|
    requires client in states[k].work && states[k].work[client].Claiming?
    ensures b < k && acts[b].Begin? && acts[b].client == client
    ensures Orders(states, acts, b, states[k].work[client].config)
    decreases k
  {
    assert k > 0;
    assert StepAt(states, acts, k - 1);
    var s, a := states[k - 1], acts[k - 1];
    if client in s.work && s.work[client] == states[k].work[client] {
      b := ClaimingHasText(states, acts, readOnly, testing, k - 1, client);
    } else if a.Proceed? {
      ContinueClaims(s.control, s.work[a.client], a.env);
      assert false;
    } else {
      b := k - 1;
      assert a.Begin? && a.client == client && !Silent(s);
      DispatchClaims(s.control, Classify(a.text));
    }
  }

  /** Every claim of the sequence was ordered by a text that passed the gate in HOTFIRE. */
  lemma {:induction false} ClaimHasText(
    states: seq<System>, acts: seq<Action>, readOnly: bool, testing: bool, k: nat, run: nat, config: F.Config)
    returns (b: nat)
    requires IsRun(states, acts, readOnly, testing) && k < |acts|
    requires Shadow(states[k], acts[k]) == F.Claim(run, config)
    ensures b < k && Orders(states, acts, b, config)
  {
    assert StepAt(states, acts, k);
    assert acts[k].Proceed? && states[k].work[acts[k].client] == Claiming(config);
    b := ClaimingHasText(states, acts, readOnly, testing, k, acts[k].client);
  }

  // ---------------------------------------------------------------- what reaches the bus

  /** An owner of the sequence has claimed it, with the configuration it holds. */
  lemma {:induction false} FindClaim(states: seq<F.State>, acts: seq<F.Action>, k: nat, run: nat) returns (c: nat)
    requires F.IsRun(states, acts) && k < |states| && run in states[k].owners
    ensures c < k && acts[c] == F.Claim(run, states[k].owners[run].config)
    decreases k
  {
    assert k > 0;
    assert F.StepAt(states, acts, k - 1);
    if run in states[k - 1].owners {
      c := FindClaim(states, acts, k - 1, run);
      FiringOwnership.OwnerStep(states, acts, k - 1, run);
    } else {
      c := k - 1;
    }
  }

  /**
   From the text to the bus: every frame the worker attempts, in any run of the server, is the first
   block not yet sent of a FIRE or DROWN text that began before in HOTFIRE, and the blocks before it
   went out in order.
   */
  lemma {:induction false} FrameHasText(
    states: seq<System>, acts: seq<Action>, readOnly: bool, testing: bool, k: nat, run: nat, op: F.Op)
    returns (b: nat, config: F.Config)
    requires IsRun(states, acts, readOnly, testing) && k < |acts|
    requires acts[k] == Worker(run, op) && op.Attempt?
    ensures b < k && Orders(states, acts, b, config)
    ensures run in states[k].control.firing.owners && config == states[k].control.firing.owners[run].config
    ensures var sent := FiringFrames.Successes(Shadows(states, acts)[..k], run);
            && FiringFrames.SentPrefix(config, sent) && |sent| < |config.blocks|
            && op.frame == config.blocks[|sent|].frame
  {
    var fs, fa := Firings(states), Shadows(states, acts);
    FiringIsARun(states, acts, readOnly, testing);
    assert StepAt(states, acts, k);
    var c := FindClaim(fs, fa, k, run);
    config := fs[k].owners[run].config;
    b := ClaimHasText(states, acts, readOnly, testing, c, run, config);
    FiringFrames.AttemptIsNextBlock(fs, fa, c, k, run, config);
  }

  lemma {:induction false} SuccessesGrow(acts: seq<F.Action>, a: nat, k: nat, run: nat)
    requires a <= k <= |acts|
    ensures |FiringFrames.Successes(acts[..a], run)| <= |FiringFrames.Successes(acts[..k], run)|
    decreases k
  {
    if a < k {
      SuccessesGrow(acts, a, k - 1, run);
      FiringFrames.HistorySnoc(acts, k - 1, run);
    }
  }

  /**
   What a DROWN text puts on the bus, in terms of the valves when the text came: first the main valve
   opens, then the vent closes, at least 100 ms after the first frame went out, and nothing follows.
   */
  lemma {:induction false} DrownFrames(
    states: seq<System>, acts: seq<Action>, readOnly: bool, testing: bool, k: nat, run: nat, op: F.Op)
    returns (b: nat)
    requires IsRun(states, acts, readOnly, testing) && k < |acts| && acts[k] == Worker(run, op) && op.Attempt?
    requires run in states[k].control.firing.owners && states[k].control.firing.owners[run].config.drown
    ensures b < k && acts[b].Begin? && Classify(acts[b].text) == Drown
    ensures var v, n := states[b].control.valves, |FiringFrames.Successes(Shadows(states, acts)[..k], run)|;
            && n < 2
            && (n == 0 ==> op.frame == F.Frame(v.mainId, v.mainOpen, 0))
            && (n == 1 ==> op.frame == F.Frame(v.ventId, v.ventClose, 1000))
            && (n == 1 ==> forall a, first ::
                  0 <= a < k && acts[a] == Worker(run, first) && first.Attempt? && first.ok ==>
                  op.now >= first.now + 100)
  {
    var config;
    b, config := FrameHasText(states, acts, readOnly, testing, k, run, op);
    var fs, fa := Firings(states), Shadows(states, acts);
    FiringIsARun(states, acts, readOnly, testing);
    if |FiringFrames.Successes(fa[..k], run)| == 1 {
      forall a, first | 0 <= a < k && acts[a] == Worker(run, first) && first.Attempt? && first.ok
        ensures op.now >= first.now + 100
      {
        assert StepAt(states, acts, a) && StepAt(states, acts, k);
        FiringFrames.HistorySnoc(fa, a, run);
        SuccessesGrow(fa, a + 1, k, run);
        FiringTiming.GapBetweenBlocks(fs, fa, a, k, run);
      }
    }
  }

  // ---------------------------------------------------------------- what an ABORT text does

  /** An ABORT text raises the flag at once, for the run that owns the sequence then. */
  lemma {:induction false} AbortTextHalts(
    states: seq<System>, acts: seq<Action>, readOnly: bool, testing: bool, j: nat, run: nat)
    requires IsRun(states, acts, readOnly, testing) && j < |acts| && !readOnly && !testing
    requires acts[j].Begin? && Classify(acts[j].text) == Abort && run in states[j].control.firing.owners
    ensures F.IsRun(Firings(states), Shadows(states, acts))
    ensures FiringAbort.Halting(states[j + 1].control.firing)
    ensures run in states[j + 1].control.firing.owners
    ensures states[j + 1].control.firing.owners[run] == states[j].control.firing.owners[run]
  {
    FiringIsARun(states, acts, readOnly, testing);
    NeverSilent(states, acts, j);
    assert StepAt(states, acts, j);
    FiringAbort.HaltTakesEffect(Firings(states), Shadows(states, acts), j, run);
  }

  lemma {:induction false} NeverSilent(states: seq<System>, acts: seq<Action>, k: nat)
    requires IsRun(states, acts, false, false) && k < |states|
    ensures !Silent(states[k])
  {
    if k > 0 {
      NeverSilent(states, acts, k - 1);
      assert StepAt(states, acts, k - 1);
    }
  }

  /** The scheduling assumption of FiringAbort, for a run of the server. */
  ghost predicate WaitsEnter(states: seq<System>, acts: seq<Action>, run: nat)
    requires |states| == |acts| + 1
  {
    F.IsRun(Firings(states), Shadows(states, acts))
    && FiringAbort.PositiveWaitsEnter(Firings(states), Shadows(states, acts), run)
  }

  lemma {:induction false} ShadowOfWorker(states: seq<System>, acts: seq<Action>, k: nat, run: nat, op: F.Op)
    requires IsRun(states, acts, false, false) && k < |acts| && acts[k] == Worker(run, op)
    ensures Shadows(states, acts)[k] == F.Own(run, op)
  {
    assert StepAt(states, acts, k);
  }

  /**
   Bounded overrun, for texts: after an ABORT text at step j, a frame is still attempted for the run
   that owned the sequence only if every wait up to its block that had not begun is zero.
   */
  lemma {:induction false} AbortTextBoundsOverrun(
    states: seq<System>, acts: seq<Action>, j: nat, k: nat, run: nat, op: F.Op)
    requires IsRun(states, acts, false, false) && j < k < |acts| && WaitsEnter(states, acts, run)
    requires acts[j].Begin? && Classify(acts[j].text) == Abort && run in states[j].control.firing.owners
    requires acts[k] == Worker(run, op) && op.Attempt?
    ensures run in states[k].control.firing.owners && states[k].control.firing.owners[run].pc.Sending?
    ensures var o, i := states[j].control.firing.owners[run], states[k].control.firing.owners[run].pc.block;
            && i < |o.config.blocks| && op.frame == o.config.blocks[i].frame
            && forall x: nat :: x <= i && FiringAbort.Rank(o.pc) <= 2 * x ==> F.DelayBefore(o.config, x) == 0
  {
    var o := states[j].control.firing.owners[run];
    AbortTextHalts(states, acts, false, false, j, run);
    ShadowOfWorker(states, acts, k, run, op);
    OverrunOf(Firings(states), Shadows(states, acts), j + 1, k, run, op, o);
  }

  lemma {:induction false} OverrunOf(
    fs: seq<F.State>, fa: seq<F.Action>, j: nat, k: nat, run: nat, op: F.Op, o: F.Owner)
    requires F.IsRun(fs, fa) && FiringAbort.PositiveWaitsEnter(fs, fa, run)
    requires j <= k < |fa| && FiringAbort.Halting(fs[j]) && run in fs[j].owners && fs[j].owners[run] == o
    requires fa[k] == F.Own(run, op) && op.Attempt?
    ensures run in fs[k].owners && fs[k].owners[run].pc.Sending?
    ensures var i := fs[k].owners[run].pc.block;
            && i < |o.config.blocks| && op.frame == o.config.blocks[i].frame
            && forall x: nat :: x <= i && FiringAbort.Rank(o.pc) <= 2 * x ==> F.DelayBefore(o.config, x) == 0
  {
    FiringAbort.BoundedOverrun(fs, fa, j, k, run);
  }

  /** And the run it found ends, within a bounded number of its own steps. */
  lemma {:induction false} AbortTextEndsRun(states: seq<System>, acts: seq<Action>, j: nat, k: nat, run: nat)
    requires IsRun(states, acts, false, false) && j < k < |states|
    requires acts[j].Begin? && Classify(acts[j].text) == Abort && run in states[j].control.firing.owners
    ensures FiringAbort.OwnSteps(Shadows(states, acts)[j + 1..k], run)
         <= 5 * |states[j].control.firing.owners[run].config.blocks| + 3
    ensures run in states[k].control.firing.owners ==>
              exists op :: F.Next(states[k].control.firing, F.Own(run, op)).Some?
  {
    AbortTextHalts(states, acts, false, false, j, run);
    FiringAbort.AbortedRunEnds(Firings(states), Shadows(states, acts), j + 1, k, run);
  }

  // ---------------------------------------------------------------- handlers and owners

  /** The place of the owner that a handler between claim and hand-over answers for. */
  function PlaceOf(w: Work): Option<F.Pc> {
    match w
    case Allocating(_) => Some(F.Claimed)
    case Spawning(_) => Some(F.Prepared)
    case GivingBack(_) => Some(F.GivingBack)
    case _ => None
  }

  predicate Holds(w: Work) { w.Allocating? || w.Spawning? || w.GivingBack? }

  predicate InHandler(pc: F.Pc) { pc.Claimed? || pc.Prepared? || pc.GivingBack? }

  /** Places a worker can be in: the block exists and attempts are left. */
  predicate Sound(o: F.Owner) {
    && (o.pc.AtBlock() ==> o.pc.block < |o.config.blocks|)
    && (o.pc.Sending? ==> o.pc.tries < F.CAN_SEND_ATTEMPTS)
    && o.config.blocks != []
  }

  ghost predicate AllSound(f: F.State) {
    forall run :: run in f.owners ==> Sound(f.owners[run])
  }

  ghost predicate Fine(f: F.State) { FiringOwnership.SingleOwner(f) && AllSound(f) }

  /** The handler answers for an owner that stands where the handler has brought it. */
  predicate Answers(f: F.State, w: Work) {
    Holds(w) ==> w.run in f.owners && PlaceOf(w) == Some(f.owners[w.run].pc)
  }

  ghost predicate OneHolder(work: map<nat, Work>) {
    forall c, d :: c in work && d in work && Holds(work[c]) && Holds(work[d]) ==> c == d
  }

  ghost predicate SomeHolder(work: map<nat, Work>) {
    exists c :: c in work && Holds(work[c])
  }

  ghost predicate OwnerInHandler(f: F.State) {
    exists run :: run in f.owners && InHandler(f.owners[run].pc)
  }

  /** Handlers between claim and hand-over and owners of the sequence agree. */
  ghost predicate Agree(f: F.State, work: map<nat, Work>) {
    && Fine(f)
    && (forall c :: c in work ==> Answers(f, work[c]))
    && OneHolder(work)
    && (OwnerInHandler(f) ==> SomeHolder(work))
  }

  ghost predicate Linked(s: System) { Agree(s.control.firing, s.work) }

  /** What a step of the protocol makes of sound owners. */
  lemma SoundStep(f: F.State, a: F.Action)
    requires AllSound(f) && F.Next(f, a).Some?
    ensures AllSound(F.Next(f, a).value)
  {
  }

  /** The works in progress, after a client's step. */
  function WorkAfter(work: map<nat, Work>, client: nat, step: Step): map<nat, Work> {
    if step.More? then work[client := step.work] else work - {client}
  }

  /** A client that holds nothing before and after does not matter. */
  lemma OutsiderAgrees(f: F.State, f': F.State, work: map<nat, Work>, client: nat, step: Step)
    requires Agree(f, work) && FiringOwnership.SingleOwner(f') && f'.owners == f.owners
    requires client in work ==> !Holds(work[client])
    requires step.More? ==> !Holds(step.work)
    ensures Agree(f', WorkAfter(work, client, step))
  {
    var work' := WorkAfter(work, client, step);
    assert forall c :: c in work' && c != client ==> c in work && work'[c] == work[c];
    if OwnerInHandler(f') {
      assert OwnerInHandler(f);
      var c :| c in work && Holds(work[c]);
      assert c in work' && Holds(work'[c]);
    }
  }

  /** The protocol moves while no handler holds anything. */
  lemma WorkerAgrees(f: F.State, f': F.State, work: map<nat, Work>)
    requires FiringOwnership.SingleOwner(f') && AllSound(f') && !OwnerInHandler(f') && !SomeHolder(work)
    ensures Agree(f', work)
  {
  }

  /** The only holder takes a step with its owner. */
  lemma HolderAgrees(f': F.State, work: map<nat, Work>, client: nat, step: Step)
    requires FiringOwnership.SingleOwner(f') && AllSound(f')
    requires forall c :: c in work && Holds(work[c]) ==> c == client
    requires if step.More? then Holds(step.work) && Answers(f', step.work) else !OwnerInHandler(f')
    ensures Agree(f', WorkAfter(work, client, step))
  {
    var work' := WorkAfter(work, client, step);
    assert forall c :: c in work' && c != client ==> c in work && work'[c] == work[c];
    if step.More? {
      assert client in work' && Holds(work'[client]);
    }
  }

  /** What a step of the only owner makes of it. */
  lemma OwnMoves(f: F.State, run: nat, op: F.Op)
    requires FiringOwnership.SingleOwner(f) && AllSound(f) && F.Next(f, F.Own(run, op)).Some?
    ensures run in f.owners
    ensures var f' := F.Next(f, F.Own(run, op)).value;
            && FiringOwnership.SingleOwner(f') && AllSound(f')
            && if F.Releases(f.owners[run].pc, op) then f'.owners == map[]
               else
                 && f'.owners.Keys == {run}
                 && F.NextPc(f.owners[run].config, f.owners[run].pc, op, f.abort, f.stop)
                    == Some(f'.owners[run].pc)
  {
    FiringOwnership.OnlyOwner(f, run, run);
    FiringOwnership.StepKeepsSingleOwner(f, F.Own(run, op));
    SoundStep(f, F.Own(run, op));
  }

  lemma AllocateMoves(f: F.State, run: nat, ok: bool)
    requires Fine(f) && run in f.owners && f.owners[run].pc.Claimed?
    ensures var f' := Does(f, F.Own(run, F.Allocate(ok)));
            Fine(f') && run in f'.owners && f'.owners[run].pc == if ok then F.Prepared else F.GivingBack
  {
    assert F.Next(f, F.Own(run, F.Allocate(ok))).Some?;
    OwnMoves(f, run, F.Allocate(ok));
  }

  lemma SpawnMoves(f: F.State, run: nat, ok: bool, now: nat)
    requires Fine(f) && run in f.owners && f.owners[run].pc.Prepared? && now >= f.clock
    ensures var f' := Does(f, F.Own(run, F.Spawn(ok, now)));
            && Fine(f') && f'.owners.Keys == {run}
            && f'.owners[run].pc == if ok then F.ReadingDeadline(0) else F.GivingBack
  {
    assert F.Next(f, F.Own(run, F.Spawn(ok, now))).Some?;
    OwnMoves(f, run, F.Spawn(ok, now));
  }

  lemma GiveBackMoves(f: F.State, run: nat)
    requires Fine(f) && run in f.owners && f.owners[run].pc.GivingBack?
    ensures var f' := Does(f, F.Own(run, F.GiveBack)); Fine(f') && f'.owners == map[]
  {
    assert F.Next(f, F.Own(run, F.GiveBack)).Some?;
    OwnMoves(f, run, F.GiveBack);
  }

  /** What the lock section of a holder does to its owner. */
  lemma HolderStep(c: Control, w: Work, env: Env)
    requires Fine(c.firing) && Holds(w) && Answers(c.firing, w) && env.now >= c.firing.clock
    ensures var f' := Does(c.firing, Touches(c, w, env));
            && Fine(f')
            && (w.Allocating? ==> Answers(f', if env.allocates then Spawning(w.run) else GivingBack(w.run)))
            && (w.Spawning? ==> if env.spawns then !OwnerInHandler(f') else Answers(f', GivingBack(w.run)))
            && (w.GivingBack? ==> !OwnerInHandler(f'))
  {
    match w
    case Allocating(run) => AllocateMoves(c.firing, run, env.allocates);
    case Spawning(run) => SpawnMoves(c.firing, run, env.spawns, env.now);
    case GivingBack(run) => GiveBackMoves(c.firing, run);
  }

  lemma ClaimStep(c: Control, config: F.Config, env: Env)
    requires FiringOwnership.SingleOwner(c.firing) && AllSound(c.firing) && CanClaim(c.firing, config)
    ensures var p := Continue(c, Claiming(config), env);
            && FiringOwnership.SingleOwner(p.control.firing) && AllSound(p.control.firing)
            && p.step == More(Allocating(c.firing.nextRun)) && Answers(p.control.firing, p.step.work)
  {
    FiringOwnership.StepKeepsSingleOwner(c.firing, F.Claim(c.firing.nextRun, config));
    SoundStep(c.firing, F.Claim(c.firing.nextRun, config));
  }

  lemma OtherStep(c: Control, w: Work, env: Env)
    requires FiringOwnership.SingleOwner(c.firing)
    requires !Holds(w) && (w.Claiming? ==> !CanClaim(c.firing, w.config))
    ensures var p := Continue(c, w, env);
            && FiringOwnership.SingleOwner(p.control.firing) && p.control.firing.owners == c.firing.owners
            && (p.step.More? ==> !Holds(p.step.work))
  {
  }

  lemma WorkerPlaces(config: F.Config, pc: F.Pc, op: F.Op, abort: bool, stop: bool)
    requires IsWorkerOp(op)
    ensures F.Releases(pc, op) ==> !InHandler(pc)
    ensures var next := F.NextPc(config, pc, op, abort, stop);
            next.Some? ==> !InHandler(pc) && !InHandler(next.value)
  {
  }

  /** A worker's step is enabled only when no handler answers for the owner. */
  lemma WorkerStep(f: F.State, work: map<nat, Work>, run: nat, op: F.Op)
    requires Agree(f, work) && IsWorkerOp(op) && F.Next(f, F.Own(run, op)).Some?
    ensures Agree(F.Next(f, F.Own(run, op)).value, work)
  {
    var f' := F.Next(f, F.Own(run, op)).value;
    OwnMoves(f, run, op);
    FiringOwnership.OnlyOwner(f, run, run);
    WorkerPlaces(f.owners[run].config, f.owners[run].pc, op, f.abort, f.stop);
    forall c | c in work ensures !Holds(work[c]) {
      assert Answers(f, work[c]);
    }
    WorkerAgrees(f, f', work);
  }

  lemma MovedWork(s: System, client: nat, p: Progress)
    ensures Moved(s, client, p).work == WorkAfter(s.work, client, p.step)
    ensures Moved(s, client, p).control == p.control
  {
  }

  lemma ProceedKeepsLinked(s: System, client: nat, env: Env)
    requires Linked(s) && client in s.work && env.now >= s.control.firing.clock
    ensures Linked(Moved(s, client, Continue(s.control, s.work[client], env)))
  {
    var c, w, p := s.control, s.work[client], Continue(s.control, s.work[client], env);
    MovedWork(s, client, p);
    assert Answers(c.firing, w);
    if Holds(w) {
      HolderStep(c, w, env);
      HolderAgrees(p.control.firing, s.work, client, p.step);
    } else if w.Claiming? && CanClaim(c.firing, w.config) {
      ClaimStep(c, w.config, env);
      NobodyHolds(c.firing, s.work);
      HolderAgrees(p.control.firing, s.work, client, p.step);
    } else {
      OtherStep(c, w, env);
      OutsiderAgrees(c.firing, p.control.firing, s.work, client, p.step);
    }
  }

  lemma NobodyHolds(f: F.State, work: map<nat, Work>)
    requires Agree(f, work) && !f.active
    ensures forall c :: c in work ==> !Holds(work[c])
  {
    forall c | c in work ensures !Holds(work[c]) {
      assert Answers(f, work[c]);
    }
  }

  lemma DispatchHoldsNothing(c: Control, command: Command)
    ensures Dispatch(c, command).step.More? ==> !Holds(Dispatch(c, command).step.work)
  {
  }

  lemma BeginKeepsLinked(s: System, client: nat, command: Command)
    requires Linked(s) && client !in s.work
    ensures Linked(Moved(s, client, Dispatch(s.control, command)))
  {
    var p := Dispatch(s.control, command);
    MovedWork(s, client, p);
    DispatchFiring(s.control, command);
    DispatchHoldsNothing(s.control, command);
    OutsiderAgrees(s.control.firing, p.control.firing, s.work, client, p.step);
  }

  lemma SameWork(f: F.State, f': F.State, work: map<nat, Work>)
    requires Agree(f, work) && FiringOwnership.SingleOwner(f') && f'.owners == f.owners
    ensures Agree(f', work)
  {
    if OwnerInHandler(f') { assert OwnerInHandler(f); }
  }

  lemma StepKeepsLinked(s: System, a: Action)
    requires Linked(s) && Next(s, a).Some?
    ensures Linked(Next(s, a).value)
  {
    match a
    case Begin(client, text) =>
      if !Silent(s) { BeginKeepsLinked(s, client, Classify(text)); }
    case Proceed(client, env) => ProceedKeepsLinked(s, client, env);
    case Tick(now) => SameWork(s.control.firing, Does(s.control.firing, F.Elapse(now)), s.work);
    case Worker(run, op) => WorkerStep(s.control.firing, s.work, run, op);
    case RaiseStop => SameWork(s.control.firing, Does(s.control.firing, F.RaiseStop), s.work);
  }

  lemma BootLinked(readOnly: bool, testing: bool)
    ensures Linked(Booted(readOnly, testing))
  {
  }

  /** In every run of the server a handler between claim and hand-over and the owner it answers for agree. */
  lemma {:induction false} AlwaysLinked(states: seq<System>, acts: seq<Action>, readOnly: bool, testing: bool, k: nat)
    requires IsRun(states, acts, readOnly, testing) && k < |states|
    ensures Linked(states[k])
  {
    if k == 0 {
      BootLinked(readOnly, testing);
    } else {
      AlwaysLinked(states, acts, readOnly, testing, k - 1);
      assert StepAt(states, acts, k - 1);
      StepKeepsLinked(states[k - 1], acts[k - 1]);
    }
  }
}
