/** Who holds the claim on the firing sequence, in every reachable state. */
module FiringOwnership {
  import opened Base
  import opened FiringProtocol

  /** `sequence_active` is set exactly when there is one owner. */
  ghost predicate SingleOwner(s: State) {
    && (s.active <==> |s.owners| == 1)
    && (!s.active <==> s.owners == map[])
    && (forall run :: run in s.owners ==> run < s.nextRun)
  }

  lemma OnlyOwner(s: State, a: nat, b: nat)
    requires SingleOwner(s) && a in s.owners && b in s.owners
    ensures a == b && s.active && s.owners.Keys == {a}
  {
    assert |s.owners.Keys - {a}| == 0;
    assert s.owners.Keys == {a};
  }

  lemma StepKeepsSingleOwner(s: State, a: Action)
    requires SingleOwner(s) && Next(s, a).Some?
    ensures SingleOwner(Next(s, a).value)
  {
  }

  /** Safety over whole runs: no two starters or workers ever hold the claim together. */
  lemma {:induction false} AlwaysSingleOwner(states: seq<State>, acts: seq<Action>, k: nat)
    requires IsRun(states, acts) && k < |states|
    ensures SingleOwner(states[k])
    ensures forall a, b :: a in states[k].owners && b in states[k].owners ==> a == b
  {
    if k > 0 {
      AlwaysSingleOwner(states, acts, k - 1);
      assert StepAt(states, acts, k - 1);
      StepKeepsSingleOwner(states[k - 1], acts[k - 1]);
    }
    forall a, b | a in states[k].owners && b in states[k].owners ensures a == b {
      OnlyOwner(states[k], a, b);
    }
  }

  /** What one action of the system does to the owner of the claim. */
  lemma OwnerStep(states: seq<State>, acts: seq<Action>, k: nat, run: nat)
    requires IsRun(states, acts) && k < |acts| && run in states[k].owners
    ensures var s, s', o := states[k], states[k + 1], states[k].owners[run];
            if !acts[k].Own? then
              run in s'.owners && s'.owners[run] == o && s'.clock >= s.clock && (s.abort ==> s'.abort)
            else if Releases(o.pc, acts[k].op) then
              acts[k].run == run && run !in s'.owners && !s'.active && !s'.abort
            else
              && acts[k].run == run && run in s'.owners && s'.owners[run].config == o.config
              && NextPc(o.config, o.pc, acts[k].op, s.abort, s.stop) == Some(s'.owners[run].pc)
              && s'.clock == ReadingOf(acts[k].op, s.clock) >= s.clock && s'.abort == s.abort
  {
    AlwaysSingleOwner(states, acts, k);
    OnlyOwner(states[k], run, run);
    assert StepAt(states, acts, k);
  }

  /** A run that has given its claim back never owns anything again. */
  lemma {:induction false} GoneStaysGone(states: seq<State>, acts: seq<Action>, m: nat, k: nat, run: nat)
    requires IsRun(states, acts) && m <= k < |states|
    requires run < states[m].nextRun && run !in states[m].owners
    ensures run < states[k].nextRun && run !in states[k].owners
    decreases k
  {
    if m < k {
      GoneStaysGone(states, acts, m, k - 1, run);
      assert StepAt(states, acts, k - 1);
    }
  }

  /** Ownership is one unbroken stretch of the run. */
  lemma OwnsInBetween(states: seq<State>, acts: seq<Action>, j: nat, m: nat, k: nat, run: nat)
    requires IsRun(states, acts) && j <= m <= k < |states|
    requires run in states[j].owners && run in states[k].owners
    ensures run in states[m].owners
    decreases m
  {
    AlwaysSingleOwner(states, acts, j);
    if j < m {
      OwnsInBetween(states, acts, j, m - 1, k, run);
      AlwaysSingleOwner(states, acts, m - 1);
      assert StepAt(states, acts, m - 1);
      if run !in states[m].owners {
        GoneStaysGone(states, acts, m, k, run);
      }
    }
  }

  function ClaimCount(acts: seq<Action>, run: nat): nat {
    if acts == [] then 0
    else
      var last := acts[|acts| - 1];
      ClaimCount(acts[..|acts| - 1], run) + if last.Claim? && last.run == run then 1 else 0
  }

  function ReleaseCount(acts: seq<Action>, run: nat): nat {
    if acts == [] then 0
    else
      var last := acts[|acts| - 1];
      ReleaseCount(acts[..|acts| - 1], run)
      + if last.Own? && last.run == run && (last.op.GiveBack? || last.op.Finish?) then 1 else 0
  }

  /**
   Every claim is given back at most once, and a run is out of the owner table exactly when it
   has given its claim back: allocation failure, thread-creation failure, abort, send failure
   and completion all release once.
   */
  lemma {:induction false} ClaimsBalance(states: seq<State>, acts: seq<Action>, k: nat, run: nat)
    requires IsRun(states, acts) && k < |states|
    ensures ClaimCount(acts[..k], run) == if run < states[k].nextRun then 1 else 0
    ensures ClaimCount(acts[..k], run)
         == ReleaseCount(acts[..k], run) + if run in states[k].owners then 1 else 0
  {
    if k > 0 {
      ClaimsBalance(states, acts, k - 1, run);
      AlwaysSingleOwner(states, acts, k - 1);
      assert acts[..k][..k - 1] == acts[..k - 1];
      assert StepAt(states, acts, k - 1);
    }
  }
}
