/** The testing-mode WIGGLE handler agrees with the production handler, up to the table size. */
module TestingTwin {
  import opened Base
  import opened Wiggle
  import opened WiggleMap
  import opened Commands

  predicate Good(entry: Option<Request>) { entry.Some? && Valid(entry.value) }

  /** What `handle_wiggle` reports as success. */
  predicate ReportsSuccess(o: Outcome) { !o.failed && o.count > 0 }

  function Requested(entries: seq<Option<Request>>): set<nat> {
    if entries == [] then {}
    else (if entries[0].Some? then {entries[0].value.id} else {}) + Requested(entries[1..])
  }

  /** Starting entries one after the other, all of them accepted. */
  function AllStarted(t: Table, entries: seq<Option<Request>>, nows: seq<nat>): Table
    requires |nows| == |entries| && forall i :: 0 <= i < |entries| ==> entries[i].Some?
    decreases |entries|
  {
    if entries == [] then t
    else AllStarted(Apply(t, Start(entries[0].value, nows[0])), entries[1..], nows[1..])
  }

  lemma StartKeys(t: Table, r: Request, now: nat)
    requires Inv(t.slots)
    ensures Starts(t.slots, r) <==> Valid(r) && (r.id in Abs(t.slots).Keys || |Abs(t.slots).Keys| < MAX_WIGGLES)
    ensures |Abs(t.slots).Keys| <= MAX_WIGGLES
    ensures Inv(Apply(t, Start(r, now)).slots)
    ensures Starts(t.slots, r) ==> Abs(Apply(t, Start(r, now)).slots).Keys == Abs(t.slots).Keys + {r.id}
  {
    StartIffRoom(t.slots, r);
    FreeIffRoom(t.slots);
    assert |Abs(t.slots)| == |Abs(t.slots).Keys|;
    if Starts(t.slots, r) {
      StartKeepsInv(t.slots, r, now);
      StartMap(t.slots, r, now);
    }
  }

  lemma SizeGrows(a: set<nat>, b: set<nat>)
    ensures |a| <= |a + b|
  {
    assert a + b == a + (b - a) && a !! (b - a);
  }

  /** The ids alone: each entry is good and finds its id or a place. */
  predicate Fit(keys: set<nat>, entries: seq<Option<Request>>)
    decreases |entries|
  {
    entries == [] ||
    (&& Good(entries[0])
     && (entries[0].value.id in keys || |keys| < MAX_WIGGLES)
     && Fit(keys + {entries[0].value.id}, entries[1..]))
  }

  lemma RequestedStep(keys: set<nat>, entries: seq<Option<Request>>)
    requires entries != [] && entries[0].Some?
    ensures (keys + {entries[0].value.id}) + Requested(entries[1..]) == keys + Requested(entries)
  {
  }

  lemma {:induction false} FitIffSmall(keys: set<nat>, entries: seq<Option<Request>>)
    requires |keys| <= MAX_WIGGLES
    ensures Fit(keys, entries) <==>
              && (forall i :: 0 <= i < |entries| ==> Good(entries[i]))
              && |keys + Requested(entries)| <= MAX_WIGGLES
    decreases |entries|
  {
    if entries == [] {
      assert keys + Requested(entries) == keys;
    } else if Good(entries[0]) {
      var id := entries[0].value.id;
      RequestedStep(keys, entries);
      if id in keys {
        assert keys + {id} == keys;
      }
      if id in keys || |keys| < MAX_WIGGLES {
        FitIffSmall(keys + {id}, entries[1..]);
      } else {
        SizeGrows(keys + {id}, Requested(entries[1..]));
      }
    }
  }

  lemma {:induction false} StartAllFits(t: Table, entries: seq<Option<Request>>, nows: seq<nat>)
    requires Inv(t.slots) && |nows| == |entries|
    ensures !StartAll(t, entries, nows).failed <==> Fit(Abs(t.slots).Keys, entries)
    decreases |entries|
  {
    if entries != [] && entries[0].Some? {
      var r, keys := entries[0].value, Abs(t.slots).Keys;
      StartKeys(t, r, nows[0]);
      if Starts(t.slots, r) {
        var t' := Apply(t, Start(r, nows[0]));
        StartAllFits(t', entries[1..], nows[1..]);
        assert StartAll(t, entries, nows).failed == StartAll(t', entries[1..], nows[1..]).failed;
        assert Fit(keys, entries) == Fit(keys + {r.id}, entries[1..]);
      } else {
        assert StartAll(t, entries, nows).failed && !Fit(keys, entries);
      }
    }
  }

  /** The whole command goes through exactly when every entry is good and the ids fit the table. */
  lemma {:induction false} AllGoThrough(t: Table, entries: seq<Option<Request>>, nows: seq<nat>)
    requires Inv(t.slots) && |nows| == |entries|
    ensures !StartAll(t, entries, nows).failed <==>
              && (forall i :: 0 <= i < |entries| ==> Good(entries[i]))
              && |Abs(t.slots).Keys + Requested(entries)| <= MAX_WIGGLES
  {
    FreeIffRoom(t.slots);
    StartAllFits(t, entries, nows);
    FitIffSmall(Abs(t.slots).Keys, entries);
  }

  /** Why entry `o.count` was not started. */
  ghost predicate Fails(o: Outcome, entry: Option<Request>) {
    || !Good(entry)
    || (|Abs(o.table.slots)| == MAX_WIGGLES && entry.value.id !in Abs(o.table.slots))
  }

  /** Exactly the entries before the first failing one have been started. */
  ghost predicate StartedPrefix(t: Table, entries: seq<Option<Request>>, nows: seq<nat>, o: Outcome)
    requires |nows| == |entries|
  {
    && o.count <= |entries|
    && (forall i :: 0 <= i < o.count ==> Good(entries[i]))
    && o.table == AllStarted(t, entries[..o.count], nows[..o.count])
    && (o.failed <==> o.count < |entries|)
    && (o.failed ==> Fails(o, entries[o.count]))
  }

  lemma StartedPrefixStep(t: Table, entries: seq<Option<Request>>, nows: seq<nat>, rest: Outcome)
    requires |nows| == |entries| > 0 && Good(entries[0])
    requires StartedPrefix(Apply(t, Start(entries[0].value, nows[0])), entries[1..], nows[1..], rest)
    ensures StartedPrefix(t, entries, nows, rest.(count := rest.count + 1))
  {
    var n := rest.count;
    assert entries[..n + 1][1..] == entries[1..][..n] && nows[..n + 1][1..] == nows[1..][..n];
    forall i | 0 <= i < n + 1 ensures Good(entries[i]) {
      if i > 0 { assert entries[i] == entries[1..][i - 1]; }
    }
  }

  lemma NothingStarted(t: Table, entries: seq<Option<Request>>, nows: seq<nat>)
    requires Inv(t.slots) && |nows| == |entries|
    requires entries != [] && entries[0].Some? ==> !Starts(t.slots, entries[0].value)
    ensures StartedPrefix(t, entries, nows, Outcome(t, 0, entries != []))
  {
    if entries != [] && entries[0].Some? {
      StartKeys(t, entries[0].value, nows[0]);
      assert |Abs(t.slots)| == |Abs(t.slots).Keys|;
    }
  }

  lemma {:induction false} PrefixStarted(t: Table, entries: seq<Option<Request>>, nows: seq<nat>)
    requires Inv(t.slots) && |nows| == |entries|
    ensures StartedPrefix(t, entries, nows, StartAll(t, entries, nows))
    decreases |entries|
  {
    if entries != [] && entries[0].Some? && Starts(t.slots, entries[0].value) {
      StartKeys(t, entries[0].value, nows[0]);
      var t' := Apply(t, Start(entries[0].value, nows[0]));
      PrefixStarted(t', entries[1..], nows[1..]);
      StartedPrefixStep(t, entries, nows, StartAll(t', entries[1..], nows[1..]));
    } else {
      NothingStarted(t, entries, nows);
    }
  }

  /** A list of entries: success iff all are good and the ids fit, and what was started otherwise. */
  lemma {:induction false} EntriesAgree(t: Table, entries: seq<Option<Request>>, nows: seq<nat>)
    requires Inv(t.slots) && |nows| == |entries|
    ensures var o := StartAll(t, entries, nows);
            && (ReportsSuccess(o) <==>
                  TestingWiggle(entries) && |Abs(t.slots).Keys + Requested(entries)| <= 16)
            && StartedPrefix(t, entries, nows, o)
  {
    AllGoThrough(t, entries, nows);
    PrefixStarted(t, entries, nows);
  }

  /**
   The twin: for every WIGGLE text in PRECHILLING and any table, production reports success iff the
   testing handler accepts and active and requested ids together are at most 16; otherwise exactly
   the entries before the first failing one have been started.
   */
  lemma {:induction false} TestingAgrees(text: string, t: Table, nows: seq<nat>)
    requires Inv(t.slots) && |nows| == |Entries(text)|
    ensures var entries := Entries(text);
            var o := StartAll(t, entries, nows);
            && (ReportsSuccess(o) <==>
                  TestingWiggle(entries) && |Abs(t.slots).Keys + Requested(entries)| <= 16)
            && StartedPrefix(t, entries, nows, o)
  {
    EntriesAgree(t, Entries(text), nows);
  }

  // ---------------------------------------------------------------- WIGGLE_STOP

  /** The ids in front of the first that does not parse. */
  function Named(ids: seq<Option<nat>>): set<nat> {
    if ids == [] || ids[0].None? then {} else {ids[0].value} + Named(ids[1..])
  }

  lemma {:induction false} StopOne(t: Table, id: nat)
    requires Inv(t.slots)
    ensures Inv(Apply(t, Stop(id)).slots) && Abs(Apply(t, Stop(id)).slots) == Abs(t.slots) - {id}
  {
    StepRefines(t, Stop(id));
  }

  lemma WithoutBoth(m: map<nat, Slot>, id: nat, ids: set<nat>)
    ensures (m - {id}) - ids == m - ({id} + ids)
  {
  }

  /** A WIGGLE_STOP ends exactly the sessions of the ids it names, and keeps the others. */
  lemma {:induction false} StopsNamed(t: Table, ids: seq<Option<nat>>)
    requires Inv(t.slots)
    ensures Inv(StopEach(t, ids).table.slots)
    ensures Abs(StopEach(t, ids).table.slots) == Abs(t.slots) - Named(ids)
    decreases |ids|
  {
    if ids != [] && ids[0].Some? {
      var id := ids[0].value;
      StopOne(t, id);
      StopsNamed(Apply(t, Stop(id)), ids[1..]);
      WithoutBoth(Abs(t.slots), id, Named(ids[1..]));
    }
  }
}
