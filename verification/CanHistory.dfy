/** What the cache and its listener hold, in terms of the frames that arrived. */
module CanHistory {
  import opened CanCache
  import opened CanListener

  ghost predicate AllWellFormed(events: seq<Event>) {
    forall i :: 0 <= i < |events| && events[i].Rx? ==> WellFormed(events[i].frame)
  }

  /** A frame without error, remote or extended flag, whose low eleven bits are `id`. */
  predicate IsFor(e: Event, id: nat) {
    e.Rx? && e.frame.canId < 0x2000_0000 && e.frame.canId % 0x800 == id
  }

  /** The first two bytes, low byte first; frames shorter than that count as zero. */
  function ValueIn(e: Event): nat
    requires e.Rx? && WellFormed(e.frame)
  {
    if e.frame.dlc < 2 then 0 else e.frame.data[0] + 256 * e.frame.data[1]
  }

  /** The frame at `k` is the last one for `id`. */
  ghost predicate LastFor(events: seq<Event>, k: int, id: nat) {
    && 0 <= k < |events| && IsFor(events[k], id)
    && forall j :: k < j < |events| ==> !IsFor(events[j], id)
  }

  ghost predicate NoneFor(events: seq<Event>, id: nat) {
    forall k :: 0 <= k < |events| ==> !IsFor(events[k], id)
  }

  /** One frame: its id takes the value and becomes dirty, every other id stays as it is. */
  lemma FrameStored(w: World, e: Event, id: nat)
    requires Valid(w.cache) && e.Rx? && WellFormed(e.frame) && id < 0x800
    ensures var c, c' := w.cache, Step(w, e).cache;
            && |c'.values| == |c'.dirty| == 0x800
            && (IsFor(e, id) ==> c'.values[id] == ValueIn(e) && c'.dirty[id])
            && (!IsFor(e, id) ==> c'.values[id] == c.values[id] && c'.dirty[id] == c.dirty[id])
    ensures Step(w, e).listener == w.listener
  {
  }

  lemma RunSnoc(events: seq<Event>, e: Event)
    requires AllWellFormed(events + [e])
    ensures AllWellFormed(events) && Run(events + [e]) == Step(Run(events), e)
  {
    assert forall i :: 0 <= i < |events| ==> (events + [e])[i] == events[i];
    assert (events + [e])[..|events|] == events;
  }

  lemma LastOfInit(events: seq<Event>, e: Event, k: int, id: nat)
    requires !IsFor(e, id) && LastFor(events + [e], k, id)
    ensures LastFor(events, k, id)
  {
    assert forall i :: 0 <= i < |events| ==> (events + [e])[i] == events[i];
  }

  lemma NoneOfInit(events: seq<Event>, e: Event, id: nat)
    requires NoneFor(events + [e], id)
    ensures NoneFor(events, id) && !IsFor(e, id)
  {
    assert forall i :: 0 <= i < |events| ==> (events + [e])[i] == events[i];
    assert (events + [e])[|events|] == e;
  }

  /**
   The cache holds the last value received: after any mix of frames and flushes an id has the value
   of the last unflagged frame for it, and -1 if there was none.
   */
  lemma {:induction false} CacheHoldsLast(events: seq<Event>, id: nat)
    requires AllWellFormed(events) && id < 0x800
    ensures NoneFor(events, id) ==> Run(events).cache.values[id] == -1
    ensures forall k :: LastFor(events, k, id) ==> Run(events).cache.values[id] == ValueIn(events[k])
  {
    if events != [] {
      var before, e := events[..|events| - 1], events[|events| - 1];
      assert events == before + [e];
      RunSnoc(before, e);
      CacheHoldsLast(before, id);
      ListenerAgrees(before);
      ValueKept(Run(before), e, id);
      if NoneFor(events, id) { NoneOfInit(before, e, id); }
      forall k | LastFor(events, k, id) ensures Run(events).cache.values[id] == ValueIn(events[k]) {
        if IsFor(e, id) {
          assert k == |events| - 1;
        } else {
          LastOfInit(before, e, k, id);
        }
      }
    }
  }

  /** A flush changes no value. */
  lemma ValueKept(w: World, e: Event, id: nat)
    requires Valid(w.cache) && (e.Rx? ==> WellFormed(e.frame)) && id < 0x800
    ensures Step(w, e).cache.values[id] == if IsFor(e, id) then ValueIn(e) else w.cache.values[id]
  {
    if e.Rx? { FrameStored(w, e, id); }
  }

  function Flushes(n: nat): (r: seq<Event>)
    ensures |r| == n && forall i :: 0 <= i < n ==> r[i] == Flush
  {
    seq(n, _ => Flush)
  }

  lemma FlushesSnoc(events: seq<Event>, k: nat)
    requires k > 0
    ensures events + Flushes(k) == (events + Flushes(k - 1)) + [Flush]
  {
  }

  lemma FlushesWellFormed(events: seq<Event>, k: nat)
    requires AllWellFormed(events)
    ensures AllWellFormed(events + Flushes(k))
  {
    var all := events + Flushes(k);
    assert forall i :: 0 <= i < |all| ==> all[i] == if i < |events| then events[i] else Flush;
  }

  /** One more flush at the end. */
  lemma FlushLast(all: seq<Event>, fewer: seq<Event>, c: Cache, k: nat)
    requires AllWellFormed(all) && all == fewer + [Flush] && k > 0 && |c.values| == |c.dirty|
    requires AllWellFormed(fewer) ==> Run(fewer).cache == FlushTimes(c, k - 1)
    ensures Run(all).cache == FlushTimes(c, k)
  {
    RunSnoc(fewer, Flush);
  }

  lemma {:induction false} RunOfFlushes(events: seq<Event>, k: nat)
    requires AllWellFormed(events)
    ensures AllWellFormed(events + Flushes(k)) && Run(events + Flushes(k)).cache == FlushTimes(Run(events).cache, k)
  {
    FlushesWellFormed(events, k);
    if k == 0 {
      assert events + Flushes(0) == events;
    } else {
      RunOfFlushes(events, k - 1);
      FlushesSnoc(events, k);
      FlushLast(events + Flushes(k), events + Flushes(k - 1), Run(events).cache, k);
    }
  }

  lemma FlushesReceiveNothing(events: seq<Event>, n: nat, id: nat)
    ensures NoneFor(events + Flushes(n), id) <==> NoneFor(events, id)
    ensures forall k :: LastFor(events, k, id) ==> LastFor(events + Flushes(n), k, id)
  {
    var all := events + Flushes(n);
    assert forall i :: 0 <= i < |events| ==> all[i] == events[i];
    assert forall i :: |events| <= i < |all| ==> all[i] == Flush;
  }

  /**
   From the bus to the listener: three flushes after the last frame, a listener that applied every
   flushed text holds exactly the ids that were received, each with its last value.
   */
  lemma DrainedListenerHoldsLast(events: seq<Event>, id: nat)
    requires AllWellFormed(events) && id < 0x800
    ensures AllWellFormed(events + Flushes(3))
    ensures var l := Run(events + Flushes(3)).listener;
            && (NoneFor(events, id) ==> id !in l)
            && forall k :: LastFor(events, k, id) ==> id in l && l[id] == ValueIn(events[k])
  {
    var all := events + Flushes(3);
    RunOfFlushes(events, 3);
    ListenerAgrees(events);
    ListenerAgrees(all);
    ThreeFlushesDrain(Run(events).cache);
    FlushesReceiveNothing(events, 3, id);
    CacheHoldsLast(all, id);
    assert !Run(all).cache.dirty[id];
    forall k | LastFor(events, k, id)
      ensures id in Run(all).listener && Run(all).listener[id] == ValueIn(events[k])
    {
      assert LastFor(all, k, id) && all[k] == events[k];
    }
  }
}
