/** The availability watcher over runs of the whole bridge: its callbacks against the snapshots the pollers merged
    (application/service/availability_manager.go). */
module Watcher {
  import opened Words
  import opened Snapshots
  import opened Machine
  import opened Invariants
  import opened Bridge
  import opened Histories
  import opened Availability

  predicate IsPeeked(e: Event) {
    e.Noted? && e.note.Peeked?
  }

  predicate IsTicked(e: Event) {
    e.Noted? && e.note.Ticked?
  }

  /** The watcher's ticks, in order. */
  function TicksIn(tr: seq<Event>): seq<Tick> {
    if tr == [] then []
    else TicksIn(tr[..|tr| - 1]) + if IsTicked(tr[|tr| - 1]) then [tr[|tr| - 1].note.tick] else []
  }

  /** The callbacks the watcher made, in order. */
  function FiredIn(tr: seq<Event>): seq<Callback> {
    if tr == [] then []
    else
      var e := tr[|tr| - 1];
      FiredIn(tr[..|tr| - 1]) + if IsTicked(e) && e.note.fired.Some? then [e.note.fired.value] else []
  }

  lemma TicksSnoc(tr: seq<Event>, e: Event)
    ensures TicksIn(tr + [e]) == TicksIn(tr) + if IsTicked(e) then [e.note.tick] else []
    ensures FiredIn(tr + [e])
            == FiredIn(tr) + if IsTicked(e) && e.note.fired.Some? then [e.note.fired.value] else []
  {
    Snoc(tr, e);
  }

  // ----- What every step keeps

  /** tr[p] is the reading of the snapshot that belongs to the tick at tr[j]. */
  ghost predicate PeekOf(tr: seq<Event>, p: nat, j: nat) {
    && p < j < |tr| && IsPeeked(tr[p]) && IsTicked(tr[j]) && tr[p].note.polledAt == tr[j].note.tick.polledAt
    && forall k :: p < k < j ==> !IsTicked(tr[k])
  }

  /** tr[p] is the reading the next tick will use. */
  ghost predicate PendingPeek(tr: seq<Event>, p: nat, polledAt: Time) {
    && p < |tr| && IsPeeked(tr[p]) && tr[p].note.polledAt == polledAt
    && forall k :: p < k < |tr| ==> !IsTicked(tr[k])
  }

  /** A reading sees the timestamp of the last merge; a tick uses the reading before it, and fires on the edge between
      the ticks before it and its own staleness. */
  ghost predicate EventFits(threshold: int, tr: seq<Event>, j: nat)
    requires j < |tr|
  {
    && (IsPeeked(tr[j]) ==> tr[j].note.polledAt == LastPolledAt(MergesIn(tr[..j])))
    && (IsTicked(tr[j]) ==>
          && tr[j].note.fired == Change(OfflineAfter(threshold, TicksIn(tr[..j])), Stale(threshold, tr[j].note.tick))
          && exists p: nat :: PeekOf(tr, p, j))
  }

  ghost predicate WatchInv(cfg: Settings, b: System) {
    && b.isOffline == OfflineAfter(cfg.staleAfter, TicksIn(b.core.trace))
    && (forall j: nat :: j < |b.core.trace| ==> EventFits(cfg.staleAfter, b.core.trace, j))
    && (PendingAt(b).Some? ==> exists p: nat :: PendingPeek(b.core.trace, p, PendingAt(b).value))
  }

  lemma EventsStay(threshold: int, tr: seq<Event>, e: Event, j: nat)
    requires j < |tr| && EventFits(threshold, tr, j)
    ensures EventFits(threshold, tr + [e], j)
  {
    var tr' := tr + [e];
    assert tr'[..j] == tr[..j] && forall k :: 0 <= k < |tr| ==> tr'[k] == tr[k];
    if IsTicked(tr[j]) {
      var p: nat :| PeekOf(tr, p, j);
      assert PeekOf(tr', p, j);
    }
  }

  lemma PeekStays(tr: seq<Event>, e: Event, p: nat, polledAt: Time)
    requires PendingPeek(tr, p, polledAt)
    ensures !IsTicked(e) ==> PendingPeek(tr + [e], p, polledAt)
    ensures IsTicked(e) && e.note.tick.polledAt == polledAt ==> PeekOf(tr + [e], p, |tr|)
  {
    var tr' := tr + [e];
    assert tr'[|tr|] == e && forall k :: 0 <= k < |tr| ==> tr'[k] == tr[k];
  }

  /** A history and its watcher after one more event. */
  lemma WatchSnoc(threshold: int, tr: seq<Event>, e: Event, isOffline: bool, isOffline': bool, peek: Option<Time>)
    requires isOffline == OfflineAfter(threshold, TicksIn(tr))
    requires forall j: nat :: j < |tr| ==> EventFits(threshold, tr, j)
    requires peek.Some? ==> exists p: nat :: PendingPeek(tr, p, peek.value)
    requires IsPeeked(e) ==> e.note.polledAt == LastPolledAt(MergesIn(tr))
    requires if IsTicked(e) then
               && peek == Some(e.note.tick.polledAt)
               && e.note.fired == Change(isOffline, Stale(threshold, e.note.tick))
               && isOffline' == Stale(threshold, e.note.tick)
             else isOffline' == isOffline
    ensures isOffline' == OfflineAfter(threshold, TicksIn(tr + [e]))
    ensures forall j: nat :: j < |tr + [e]| ==> EventFits(threshold, tr + [e], j)
    ensures !IsTicked(e) && peek.Some? ==> exists p: nat :: PendingPeek(tr + [e], p, peek.value)
    ensures IsPeeked(e) ==> PendingPeek(tr + [e], |tr|, e.note.polledAt)
  {
    var tr' := tr + [e];
    TicksSnoc(tr, e);
    if peek.Some? {
      var p: nat :| PendingPeek(tr, p, peek.value);
      PeekStays(tr, e, p, peek.value);
    }
    forall j: nat | j < |tr'| ensures EventFits(threshold, tr', j) {
      if j < |tr| {
        EventsStay(threshold, tr, e, j);
      } else {
        assert tr'[..j] == tr;
      }
    }
  }

  /** What a step does to the watcher, and its event, if any. */
  lemma WatcherMoves(cfg: Settings, b: System, st: Step) returns (es: seq<Event>)
    requires Possible(cfg, b, st)
    ensures |es| <= 1 && After(cfg, b, st).core.trace == b.core.trace + es
    ensures var b' := After(cfg, b, st);
            && (st.Peek? ==> es == [Noted(WATCHER, Peeked(b.latest.polledAt))] && b'.isOffline == b.isOffline
                             && PendingAt(b') == Some(b.latest.polledAt))
            && (st.Watch? ==> es == [Noted(WATCHER, Ticked(TickOf(b), Fired(cfg, b)))]
                              && b'.isOffline == Stale(cfg.staleAfter, TickOf(b)) && PendingAt(b').None?)
            && (!st.Peek? && !st.Watch? ==>
                  && (forall e :: e in es ==> !IsPeeked(e) && !IsTicked(e))
                  && b'.isOffline == b.isOffline && (PendingAt(b').Some? ==> PendingAt(b') == PendingAt(b)))
  {
    TraceExtends(cfg, b, st);
    match CoreAction(cfg, b, st) {
      case None => es := [];
      case Some(a) => es := EventsOf(cfg.core, b.core, a);
    }
  }

  /** The reading that waits for its tick, if there is one. */
  function PendingAt(b: System): Option<Time> {
    if WATCHER in b.tasks && b.tasks[WATCHER].Watching? then Some(b.tasks[WATCHER].polledAt) else None
  }

  lemma WatchKept(cfg: Settings, b: System, st: Step)
    requires Possible(cfg, b, st) && LatestInv(b) && WatchInv(cfg, b)
    ensures WatchInv(cfg, After(cfg, b, st))
  {
    var es := WatcherMoves(cfg, b, st);
    if es == [] {
      assert After(cfg, b, st).core.trace == b.core.trace;
    } else {
      assert es == [es[0]] && es[0] in es;
      MergeRefinement(MergesIn(b.core.trace));
      WatchSnoc(cfg.staleAfter, b.core.trace, es[0], b.isOffline, After(cfg, b, st).isOffline, PendingAt(b));
    }
  }

  // ----- What follows for a history

  /** The callbacks are those of the ticks. */
  lemma {:induction false} FiredAreCallbacks(threshold: int, tr: seq<Event>)
    requires forall j: nat :: j < |tr| ==> EventFits(threshold, tr, j)
    ensures FiredIn(tr) == Callbacks(threshold, TicksIn(tr))
  {
    if tr != [] {
      var before, e := tr[..|tr| - 1], tr[|tr| - 1];
      assert tr == before + [e];
      forall j: nat | j < |before| ensures EventFits(threshold, before, j) {
        PrefixFits(threshold, tr, |before|, j);
      }
      FiredAreCallbacks(threshold, before);
      assert EventFits(threshold, tr, |before|);
      if IsTicked(e) {
        CallbacksSnoc(threshold, TicksIn(before), e.note.tick, true, true);
      } else {
        assert TicksIn(before) + [] == TicksIn(before);
      }
    }
  }

  lemma PrefixFits(threshold: int, tr: seq<Event>, n: nat, j: nat)
    requires j < n <= |tr| && EventFits(threshold, tr, j)
    ensures EventFits(threshold, tr[..n], j)
  {
    assert tr[..n][..j] == tr[..j];
    if IsTicked(tr[j]) {
      var p: nat :| PeekOf(tr, p, j);
      assert PeekOf(tr[..n], p, j);
    }
  }

  /** The last publication of a history that has one. */
  lemma {:induction false} LastPublication(tr: seq<Event>) returns (i: nat)
    requires MergesIn(tr) != []
    ensures i < |tr| && IsPublished(tr[i]) && forall k :: i < k < |tr| ==> !IsPublished(tr[k])
    ensures tr[i].note.merged == MergesIn(tr)[|MergesIn(tr)| - 1]
  {
    i := |tr| - 1;
    if !IsPublished(tr[i]) {
      i := LastPublication(tr[..i]);
    }
  }

  /** Without a publication in between, the last merge stays the last. */
  lemma {:induction false} NoNewerMerge(tr: seq<Event>, n: nat)
    requires n <= |tr| && forall k :: n <= k < |tr| ==> !IsPublished(tr[k])
    ensures MergesIn(tr) == MergesIn(tr[..n])
  {
    if n < |tr| {
      NoNewerMerge(tr[..|tr| - 1], n);
      assert tr[..|tr| - 1][..n] == tr[..n];
    } else {
      assert tr[..n] == tr;
    }
  }

  /** The merge behind an online callback. */
  lemma BackedBy(threshold: int, tr: seq<Event>, j: nat) returns (i: nat, p: nat)
    requires forall k: nat :: k < |tr| ==> EventFits(threshold, tr, k)
    requires j < |tr| && IsTicked(tr[j]) && tr[j].note.fired == Some(Online)
    ensures i < p < j && IsPublished(tr[i]) && PeekOf(tr, p, j)
    ensures forall k :: i < k < p ==> !IsPublished(tr[k])
    ensures tr[i].note.merged.partial.polledAt == tr[j].note.tick.polledAt
    ensures tr[j].note.tick.now - tr[j].note.tick.polledAt <= threshold
  {
    assert EventFits(threshold, tr, j);
    p :| PeekOf(tr, p, j);
    assert EventFits(threshold, tr, p);
    i := LastPublication(tr[..p]);
    assert forall k :: 0 <= k < p ==> tr[..p][k] == tr[k];
  }

  // ----- Offline in time

  /** Consecutive ticks between tr[i] and tr[l] are at most gap apart. */
  ghost predicate TickGaps(tr: seq<Event>, i: nat, l: nat, gap: int)
    requires l < |tr|
  {
    forall a: nat, c: nat :: i <= a < c <= l && NextTick(tr, a, c) ==> tr[c].note.tick.now <= tr[a].note.tick.now + gap
  }

  /** tr[c] is the tick after the one at tr[a]. */
  predicate NextTick(tr: seq<Event>, a: nat, c: nat) {
    a < c < |tr| && IsTicked(tr[a]) && IsTicked(tr[c]) && forall k :: a < k < c ==> !IsTicked(tr[k])
  }

  /** A tick at or after tr[i] that saw the last merge before tr[i] sees the same timestamp. */
  lemma SameReading(threshold: int, tr: seq<Event>, i: nat, j: nat)
    requires i < j < |tr| && IsTicked(tr[i]) && IsTicked(tr[j])
    requires EventFits(threshold, tr, j) && forall p: nat :: p < |tr| ==> EventFits(threshold, tr, p)
    requires tr[i].note.tick.polledAt == LastPolledAt(MergesIn(tr[..i]))
    requires forall k :: i < k < j ==> !IsPublished(tr[k])
    ensures tr[j].note.tick.polledAt == tr[i].note.tick.polledAt
  {
    var p: nat :| PeekOf(tr, p, j);
    assert i < p && EventFits(threshold, tr, p);
    NoNewerMerge(tr[..p], i);
    assert tr[..p][..i] == tr[..i];
  }

  /** The state before a tick is the staleness of the tick before it. */
  lemma {:induction false} TickBefore(tr: seq<Event>, i: nat) returns (a: nat)
    requires i < |tr| && IsTicked(tr[i])
    ensures i <= a < |tr| && IsTicked(tr[a]) && forall k :: a < k < |tr| ==> !IsTicked(tr[k])
    ensures TicksIn(tr) != [] && TicksIn(tr)[|TicksIn(tr)| - 1] == tr[a].note.tick
  {
    a := |tr| - 1;
    if !IsTicked(tr[a]) {
      a := TickBefore(tr[..a], i);
    }
  }

  /** The first tick past the deadline finds the watcher online and fires offline. */
  lemma {:induction false} OfflineFires(threshold: int, tr: seq<Event>, i: nat, l: nat, gap: int) returns (j: nat)
    requires forall p: nat :: p < |tr| ==> EventFits(threshold, tr, p)
    requires i < l < |tr| && IsTicked(tr[i]) && IsTicked(tr[l]) && TickGaps(tr, i, l, gap)
    requires IsFresh(threshold, tr[i].note.tick)
    requires tr[i].note.tick.polledAt == LastPolledAt(MergesIn(tr[..i]))
    requires forall k :: i < k < l ==> !IsPublished(tr[k])
    requires tr[l].note.tick.now > tr[i].note.tick.polledAt + threshold
    ensures i < j <= l && IsTicked(tr[j]) && tr[j].note.fired == Some(Offline)
    ensures var due := tr[i].note.tick.polledAt + threshold; due < tr[j].note.tick.now <= due + gap
    decreases l
  {
    var a := TickBefore(tr[..l], i);
    assert NextTick(tr, a, l);
    SameReading(threshold, tr, i, l);
    if a > i {
      SameReading(threshold, tr, i, a);
    }
    assert EventFits(threshold, tr, l);
    if tr[a].note.tick.now > tr[i].note.tick.polledAt + threshold {
      j := OfflineFires(threshold, tr, i, a, gap);
    } else {
      j := l;
    }
  }
}
