/** The availability watcher (application/service/availability_manager.go). */
module Availability {
  import opened Words
  import opened Snapshots

  datatype Callback = Online | Offline

  /** What one tick sees: the clock, and the latest snapshot's timestamp. */
  datatype Tick = Tick(now: Time, polledAt: Time)

  predicate Stale(threshold: int, k: Tick) {
    k.polledAt == ZERO_TIME || k.now - k.polledAt > threshold
  }

  class AvailabilityManager {
    const threshold: int
    var isOffline: bool
    var onOnline: bool     // whether a callback is installed
    var onOffline: bool

    constructor (threshold: int)
      ensures this.threshold == threshold && isOffline && !onOnline && !onOffline
    {
      this.threshold := threshold;
      isOffline := true;
      onOnline := false;
      onOffline := false;
    }

    method SetCallbacks(onOnline: bool, onOffline: bool)
      modifies this
      ensures this.onOnline == onOnline && this.onOffline == onOffline && isOffline == old(isOffline)
    {
      this.onOnline := onOnline;
      this.onOffline := onOffline;
    }

    method DoTick(k: Tick) returns (fired: Option<Callback>)
      modifies this`isOffline
      ensures isOffline <==> k.polledAt == 0 || k.now > k.polledAt + threshold
      ensures fired == match Change(old(isOffline), isOffline)
                       case Some(Online) => if onOnline then Some(Online) else None
                       case Some(Offline) => if onOffline then Some(Offline) else None
                       case None => None
    {
      var stale := k.polledAt == ZERO_TIME || k.now - k.polledAt > threshold;
      var transition := false;
      if stale && !isOffline {
        isOffline := true;
        transition := true;
      } else if !stale && isOffline {
        isOffline := false;
        transition := true;
      }
      fired := None;
      if !transition {
        return;
      }
      if isOffline {
        if onOffline {
          fired := Some(Offline);
        }
      } else if onOnline {
        fired := Some(Online);
      }
    }

    /** The goroutine's loop over the ticks it gets before it is cancelled. A callback that is not installed is left
        out; the state follows the ticks all the same. */
    method Run(ticks: seq<Tick>) returns (log: seq<Callback>)
      requires isOffline
      modifies this`isOffline
      ensures log == Installed(Callbacks(threshold, ticks), onOnline, onOffline)
      ensures isOffline == OfflineAfter(threshold, ticks)
    {
      log := [];
      for i := 0 to |ticks|
        invariant log == Installed(Callbacks(threshold, ticks[..i]), onOnline, onOffline)
        invariant isOffline == OfflineAfter(threshold, ticks[..i])
      {
        assert ticks[..i + 1][..i] == ticks[..i];
        var fired := DoTick(ticks[i]);
        if fired.Some? {
          log := log + [fired.value];
        }
        CallbacksSnoc(threshold, ticks[..i], ticks[i], onOnline, onOffline);
        assert ticks[..i] + [ticks[i]] == ticks[..i + 1];
      }
      assert ticks[..|ticks|] == ticks;
    }
  }

  // ----- The callbacks as a function of the ticks

  function OfflineAfter(threshold: int, ticks: seq<Tick>): bool {
    ticks == [] || Stale(threshold, ticks[|ticks| - 1])
  }

  function Change(before: bool, after: bool): Option<Callback> {
    if before == after then None else Some(if after then Offline else Online)
  }

  /** The callback of the i-th tick: the change of staleness since the tick before, stale at the start. */
  function FiredAt(threshold: int, ticks: seq<Tick>, i: nat): Option<Callback>
    requires i < |ticks|
  {
    Change(OfflineAfter(threshold, ticks[..i]), Stale(threshold, ticks[i]))
  }

  function Callbacks(threshold: int, ticks: seq<Tick>): seq<Callback> {
    if ticks == [] then []
    else
      var fired := FiredAt(threshold, ticks, |ticks| - 1);
      Callbacks(threshold, ticks[..|ticks| - 1]) + if fired.Some? then [fired.value] else []
  }

  /** The callbacks of a log that are installed. */
  function Installed(log: seq<Callback>, onOnline: bool, onOffline: bool): seq<Callback> {
    if log == [] then []
    else
      var last := log[|log| - 1];
      Installed(log[..|log| - 1], onOnline, onOffline)
      + if (if last.Online? then onOnline else onOffline) then [last] else []
  }

  lemma CallbacksSnoc(threshold: int, ticks: seq<Tick>, k: Tick, onOnline: bool, onOffline: bool)
    ensures Callbacks(threshold, ticks + [k])
            == Callbacks(threshold, ticks) + (match Change(OfflineAfter(threshold, ticks), Stale(threshold, k))
                                              case Some(c) => [c]
                                              case None => [])
    ensures Installed(Callbacks(threshold, ticks + [k]), onOnline, onOffline)
            == Installed(Callbacks(threshold, ticks), onOnline, onOffline)
               + (match Change(OfflineAfter(threshold, ticks), Stale(threshold, k))
                  case Some(c) => if (if c.Online? then onOnline else onOffline) then [c] else []
                  case None => [])
  {
    assert (ticks + [k])[..|ticks|] == ticks;
    var log := Callbacks(threshold, ticks);
    assert log + [] == log;
    match Change(OfflineAfter(threshold, ticks), Stale(threshold, k)) {
      case Some(c) => assert (log + [c])[..|log|] == log;
      case None =>
    }
  }

  /** A tick that sees a poll no older than the threshold. */
  predicate IsFresh(threshold: int, k: Tick) {
    k.polledAt != 0 && k.now <= k.polledAt + threshold
  }

  /** Online fires at a tick that sees a fresh poll when the one before did not, or there was none before; offline at
      one that does not when the one before did. */
  lemma CallbackMeans(threshold: int, ticks: seq<Tick>, i: nat)
    requires i < |ticks|
    ensures FiredAt(threshold, ticks, i) == Some(Online)
            <==> IsFresh(threshold, ticks[i]) && (i == 0 || !IsFresh(threshold, ticks[i - 1]))
    ensures FiredAt(threshold, ticks, i) == Some(Offline)
            <==> i > 0 && IsFresh(threshold, ticks[i - 1]) && !IsFresh(threshold, ticks[i])
    ensures OfflineAfter(threshold, ticks[..i + 1]) <==> !IsFresh(threshold, ticks[i])
  {
    assert i > 0 ==> ticks[..i][|ticks[..i]| - 1] == ticks[i - 1];
    assert ticks[..i + 1][|ticks[..i + 1]| - 1] == ticks[i];
  }

  /** Callbacks alternate, starting with online, and the last one tells the state. */
  lemma {:induction false} CallbacksAlternate(threshold: int, ticks: seq<Tick>)
    ensures var log := Callbacks(threshold, ticks);
            && (forall i :: 0 <= i < |log| ==> log[i] == if i % 2 == 0 then Online else Offline)
            && (OfflineAfter(threshold, ticks) <==> |log| % 2 == 0)
  {
    if ticks != [] {
      CallbacksAlternate(threshold, ticks[..|ticks| - 1]);
    }
  }

  /** Ticks in order, at most gap apart. */
  predicate Regular(ticks: seq<Tick>, gap: int) {
    forall i :: 0 < i < |ticks| ==> ticks[i - 1].now <= ticks[i].now <= ticks[i - 1].now + gap
  }

  /** If the watcher is online at tick i and no newer poll is merged after it, then as soon as some later tick is past
      the threshold, offline has fired, at a tick no later than one gap after the threshold ran out. */
  lemma {:induction false} OfflineInTime(threshold: int, ticks: seq<Tick>, gap: int, i: nat) returns (j: nat)
    requires Regular(ticks, gap) && i < |ticks| - 1
    requires IsFresh(threshold, ticks[i])
    requires forall k :: i < k < |ticks| ==> ticks[k].polledAt == ticks[i].polledAt
    requires ticks[|ticks| - 1].now > ticks[i].polledAt + threshold
    ensures i < j < |ticks| && FiredAt(threshold, ticks, j) == Some(Offline)
    ensures ticks[i].polledAt + threshold < ticks[j].now <= ticks[i].polledAt + threshold + gap
  {
    j := |ticks| - 1;
    while j > i + 1 && ticks[j - 1].now > ticks[i].polledAt + threshold
      invariant i < j < |ticks| && ticks[j].now > ticks[i].polledAt + threshold
    {
      j := j - 1;
    }
    assert ticks[..j][|ticks[..j]| - 1] == ticks[j - 1];
  }
}
