/** Theorems about every run of the whole bridge: any MQTT messages, any poll timing, any interleaving, any
    pattern of faults, cancellations and reconnects. */
module Guarantees {
  import opened Words
  import opened Values
  import opened Snapshots
  import opened Modbus
  import opened Commands
  import opened Machine
  import opened Invariants
  import opened Transactions
  import opened Bridge
  import opened Calls
  import opened Histories
  import opened Handling
  import opened Watcher
  import Availability
  import Safety

  /** Everything the steps keep; m0 is the controller's memory at the start. */
  ghost predicate BridgeInv(cfg: Settings, m0: Memory, b: System) {
    && Safety.Inv(cfg.core, m0, b.core)
    && TasksInv(cfg, b)
    && AlwaysLawful(cfg, b)
    && WireInv(m0, b.tasks.Keys, b.core.trace)
    && NotesInv(b.tasks.Keys, b.core.trace)
    && LatestInv(b) && ConsultsLatest(b.core.trace)
    && PollStampInv(b)
    && HeedInv(b) && AlwaysHeeded(b) && MessageInv(b.core.trace) && ResultInv(b)
    && WatchInv(cfg, b)
  }

  lemma BridgeInvInit(cfg: Settings, b: System)
    requires cfg.core.Valid() && Initial(b)
    ensures BridgeInv(cfg, b.core.link.memory, b)
  {
    Safety.InvInit(cfg.core, b.core);
    assert b.core.trace[..0] == [];
  }

  lemma BridgeInvKept(cfg: Settings, m0: Memory, b: System, st: Step)
    requires BridgeInv(cfg, m0, b) && Possible(cfg, b, st)
    ensures BridgeInv(cfg, m0, After(cfg, b, st))
  {
    CoreInvKept(cfg, m0, b, st);
    TasksKept(cfg, b, st);
    AlwaysLawfulKept(cfg, b, st);
    WireKept(cfg, m0, b, st);
    NotesKept(cfg, b, st);
    LatestKept(cfg, b, st);
    ConsultKept(cfg, b, st);
    PollStampKept(cfg, b, st);
    HeedKept(cfg, b, st);
    AlwaysHeededKept(cfg, b, st);
    MessageKept(cfg, b, st);
    ResultKept(cfg, b, st);
    WatchKept(cfg, b, st);
  }

  lemma CoreInvKept(cfg: Settings, m0: Memory, b: System, st: Step)
    requires Safety.Inv(cfg.core, m0, b.core) && Possible(cfg, b, st)
    ensures Safety.Inv(cfg.core, m0, After(cfg, b, st).core)
  {
    CoreAfter(cfg, b, st);
    match CoreAction(cfg, b, st) {
      case None =>
      case Some(a) => Safety.InvKept(cfg.core, m0, b.core, a);
    }
  }

  lemma {:induction false} BridgeInvAlways(cfg: Settings, b: System, steps: seq<Step>)
    requires cfg.core.Valid() && Initial(b) && Follows(cfg, b, steps)
    ensures BridgeInv(cfg, b.core.link.memory, Final(cfg, b, steps))
  {
    if steps == [] {
      BridgeInvInit(cfg, b);
    } else {
      BridgeInvAlways(cfg, b, steps[..|steps| - 1]);
      BridgeInvKept(cfg, b.core.link.memory, Final(cfg, b, steps[..|steps| - 1]), steps[|steps| - 1]);
    }
  }

  // ----- Where a thread's own events are in the history

  /** The positions of Own's events. */
  function OwnAt(tr: seq<Event>, t: Tid): seq<nat> {
    if tr == [] then []
    else
      var n: nat := |tr| - 1;
      if Opens(tr[n], t) then [n]
      else if IsOwn(tr[n], t) then OwnAt(tr[..n], t) + [n]
      else OwnAt(tr[..n], t)
  }

  lemma {:induction false} OwnPositions(tr: seq<Event>, t: Tid)
    ensures |OwnAt(tr, t)| == |Own(tr, t)|
    ensures forall i :: 0 <= i < |OwnAt(tr, t)| ==> OwnAt(tr, t)[i] < |tr| && tr[OwnAt(tr, t)[i]] == Own(tr, t)[i]
    ensures forall i, j :: 0 <= i < j < |OwnAt(tr, t)| ==> OwnAt(tr, t)[i] < OwnAt(tr, t)[j]
  {
    if tr != [] {
      OwnPositions(tr[..|tr| - 1], t);
    }
  }

  /** Nothing of the thread's own is missing between its first and its last position. */
  lemma {:induction false} OwnComplete(tr: seq<Event>, t: Tid, n: nat)
    requires n < |tr| && IsOwn(tr[n], t) && OwnAt(tr, t) != [] && OwnAt(tr, t)[0] <= n
    ensures n in OwnAt(tr, t)
  {
    var last: nat := |tr| - 1;
    if !Opens(tr[last], t) && n < last {
      OwnComplete(tr[..last], t, n);
    }
  }

  // ----- Messages

  /** At every moment of every run, the commands a thread has begun since its latest message are the first of that
      message's commands, in order, each begun only after the one before it had succeeded. */
  lemma {:induction false} MessagesAreHeeded(cfg: Settings, b: System, steps: seq<Step>, t: Tid, p: nat)
    requires cfg.core.Valid() && Initial(b) && Follows(cfg, b, steps)
    requires t in b.tasks && p <= |Final(cfg, b, steps).core.trace|
    ensures Heeds(Heeded(Final(cfg, b, steps).core.trace[..p], t))
  {
    BridgeInvAlways(cfg, b, steps);
    TasksStay(cfg, b, steps);
  }

  /** No message is dropped half way: a worker comes to rest only after all the commands of its latest message have
      ended in success, in order, or after one of them has failed. */
  lemma {:induction false} MessagesAreCarriedOut(cfg: Settings, b: System, steps: seq<Step>, t: Tid)
    requires cfg.core.Valid() && Initial(b) && Follows(cfg, b, steps) && t in b.tasks
    ensures var b' := Final(cfg, b, steps);
            var h := Heeded(b'.core.trace, t);
            && t in b'.tasks
            && (b'.tasks[t].AtRest? && h != [] ==>
                  && h[0].Heard?
                  && (|| h[|h| - 1] == Ended(false)
                      || (var cmds := CommandsOf(h[0].message);
                          && |h| == 1 + 2 * |cmds|
                          && forall k :: 0 <= k < |cmds| ==>
                               h[2 * k + 1].Began? && h[2 * k + 1].cmd == cmds[k] && h[2 * k + 2] == Ended(true))))
  {
    BridgeInvAlways(cfg, b, steps);
    TasksStay(cfg, b, steps);
    var b' := Final(cfg, b, steps);
    var h := Heeded(b'.core.trace, t);
    assert HeedFits(t, b'.tasks[t], h);
    if b'.tasks[t].AtRest? && h != [] && h[|h| - 1] != Ended(false) {
      AllEnded(h);
    }
  }

  lemma AllEnded(h: seq<Note>)
    requires Heeds(h) && Concluded(h) && h[|h| - 1] != Ended(false)
    ensures var cmds := CommandsOf(h[0].message);
            && |h| == 1 + 2 * |cmds|
            && forall k :: 0 <= k < |cmds| ==>
                 h[2 * k + 1].Began? && h[2 * k + 1].cmd == cmds[k] && h[2 * k + 2] == Ended(true)
  {
    var cmds, rest := CommandsOf(h[0].message), h[1..];
    forall k | 0 <= k < |cmds|
      ensures h[2 * k + 1].Began? && h[2 * k + 1].cmd == cmds[k] && h[2 * k + 2] == Ended(true)
    {
      assert ObeysAt(cmds, rest, 2 * k) && ObeysAt(cmds, rest, 2 * k + 1);
      if k + 1 < |cmds| {
        assert ObeysAt(cmds, rest, 2 * k + 2);
      }
    }
  }

  /** A command reports failure exactly when, since it began, the snapshot showed a transition, one of its requests was
      counted as failed, or its dwell was cancelled, which only happens to an OFF command between its acknowledged 1 and
      its 0. A poll ends without a publication only if one of its reads was counted as failed or answered by another
      number of registers. */
  lemma {:induction false} FailuresHaveCauses(cfg: Settings, b: System, steps: seq<Step>, p: nat)
    requires cfg.core.Valid() && Initial(b) && Follows(cfg, b, steps)
    requires p < |Final(cfg, b, steps).core.trace| && Final(cfg, b, steps).core.trace[p].Noted?
    ensures var tr := Final(cfg, b, steps).core.trace;
            var t, note := tr[p].t, tr[p].note;
            && (note.Ended? && TierOf(t).None? ==> (note.ok <==> !Troubled(tr[..p], t)))
            && (note.Ended? && TierOf(t).Some? ==> Troubled(tr[..p], t) || EndsShort(Own(tr[..p], t)))
            && (note.GaveUp? ==> Owes(Own(tr[..p], t)))
  {
    BridgeInvAlways(cfg, b, steps);
    assert ResultFits(Final(cfg, b, steps).core.trace, p);
  }

  /** Every write on the wire is one that the latest message of its thread asks for, through a command begun since. */
  lemma {:induction false} WritesAreLegal(cfg: Settings, b: System, steps: seq<Step>, j: nat)
    requires cfg.core.Valid() && Initial(b) && Follows(cfg, b, steps)
    requires j < |Final(cfg, b, steps).core.trace|
    ensures var tr := Final(cfg, b, steps).core.trace;
            tr[j].Exchanged? && AccessOf(tr[j].req, tr[j].leg).WriteRegister? ==>
              var h := Heeded(tr[..j], tr[j].t);
              |h| > 1 && h[0].Heard? && LegalWrite(h[0].message, tr[j])
  {
    BridgeInvAlways(cfg, b, steps);
    var tr := Final(cfg, b, steps).core.trace;
    if tr[j].Exchanged? && AccessOf(tr[j].req, tr[j].leg).WriteRegister? {
      var h := Heeded(tr[..j], tr[j].t);
      AskedIsLegal(h[0].message, tr[j], h[|h| - 1].cmd);
    }
  }

  // ----- Availability

  /** The watcher's callbacks strictly alternate, starting with online, and are the change points of the staleness of
      its ticks. */
  lemma {:induction false} AvailabilityAlternates(cfg: Settings, b: System, steps: seq<Step>)
    requires cfg.core.Valid() && Initial(b) && Follows(cfg, b, steps)
    ensures var b' := Final(cfg, b, steps);
            var log := FiredIn(b'.core.trace);
            && log == Availability.Callbacks(cfg.staleAfter, TicksIn(b'.core.trace))
            && (forall i :: 0 <= i < |log| ==>
                  log[i] == if i % 2 == 0 then Availability.Online else Availability.Offline)
            && (b'.isOffline <==> |log| % 2 == 0)
  {
    BridgeInvAlways(cfg, b, steps);
    var tr := Final(cfg, b, steps).core.trace;
    FiredAreCallbacks(cfg.staleAfter, tr);
    Availability.CallbacksAlternate(cfg.staleAfter, TicksIn(tr));
  }

  /** The watcher is online after a tick exactly when a poll had been merged before the reading of that tick, at tr[p],
      and the last one merged was no older than the threshold; and a callback fires exactly when that changed. An even
      number of callbacks means offline. */
  lemma {:induction false} WatcherFollows(cfg: Settings, b: System, steps: seq<Step>, j: nat) returns (p: nat)
    requires cfg.core.Valid() && Initial(b) && Follows(cfg, b, steps)
    requires j < |Final(cfg, b, steps).core.trace| && IsTicked(Final(cfg, b, steps).core.trace[j])
    ensures var tr := Final(cfg, b, steps).core.trace;
            && PeekOf(tr, p, j)
            && var merges, before := MergesIn(tr[..p]), |FiredIn(tr[..j])| % 2 == 1;
               var online := merges != [] && tr[j].note.tick.now <= LastPolledAt(merges) + cfg.staleAfter;
               && (|FiredIn(tr[..j + 1])| % 2 == 1 <==> online)
               && tr[j].note.fired == if online == before then None
                                      else Some(if online then Availability.Online else Availability.Offline)
  {
    BridgeInvAlways(cfg, b, steps);
    var tr := Final(cfg, b, steps).core.trace;
    p := TickFollows(cfg.staleAfter, tr, j);
    if MergesIn(tr[..p]) != [] {
      var i := LastPublication(tr[..p]);
      assert 0 < StampOf(tr[i]);
    }
  }

  lemma TickFollows(threshold: int, tr: seq<Event>, j: nat) returns (p: nat)
    requires j < |tr| && IsTicked(tr[j]) && forall k: nat :: k < |tr| ==> EventFits(threshold, tr, k)
    ensures PeekOf(tr, p, j)
    ensures var polledAt, before := LastPolledAt(MergesIn(tr[..p])), |FiredIn(tr[..j])| % 2 == 1;
            var online := polledAt != 0 && tr[j].note.tick.now <= polledAt + threshold;
            && (|FiredIn(tr[..j + 1])| % 2 == 1 <==> online)
            && tr[j].note.fired == if online == before then None
                                   else Some(if online then Availability.Online else Availability.Offline)
  {
    assert EventFits(threshold, tr, j);
    p :| PeekOf(tr, p, j);
    assert EventFits(threshold, tr, p);
    forall k: nat | k < j ensures EventFits(threshold, tr[..j], k) {
      PrefixFits(threshold, tr, j, k);
    }
    FiredAreCallbacks(threshold, tr[..j]);
    Availability.CallbacksAlternate(threshold, TicksIn(tr[..j]));
    assert tr[..j + 1] == tr[..j] + [tr[j]];
    TicksSnoc(tr[..j], tr[j]);
  }

  /** Clock readings do not go back: a call is made, and a tick is, no earlier than any call or tick before it, than the
      end of any wire operation before it, and than the stamp of any poll published before it. */
  lemma {:induction false} ClockIsRead(cfg: Settings, b: System, steps: seq<Step>, k: nat, j: nat)
    requires cfg.core.Valid() && Initial(b) && Follows(cfg, b, steps)
    requires k < j < |Final(cfg, b, steps).core.trace|
    ensures var tr := Final(cfg, b, steps).core.trace;
            IsReading(tr[j]) && Moment(tr[k]).Some? ==> Moment(tr[k]).value <= Moment(tr[j]).value
  {
    assert ReadingsInOrder(Final(cfg, b, steps).core.trace) by {
      BridgeInvAlways(cfg, b, steps);
    }
    ReadLater(Final(cfg, b, steps).core.trace, k, j);
  }

  lemma ReadLater(tr: seq<Event>, k: nat, j: nat)
    requires k < j < |tr| && ReadingsInOrder(tr)
    ensures IsReading(tr[j]) && Moment(tr[k]).Some? ==> Moment(tr[k]).value <= Moment(tr[j]).value
  {
    assert tr[..j][k] == tr[k];
  }

  /** Every online callback is backed by a merged poll: the tick at tr[j] read the snapshot at tr[p], the last merge
      before that was published at tr[i], and its poll is no older than the threshold at the tick. */
  lemma {:induction false} OnlineIsBacked(cfg: Settings, b: System, steps: seq<Step>, j: nat) returns (i: nat, p: nat)
    requires cfg.core.Valid() && Initial(b) && Follows(cfg, b, steps)
    requires var tr := Final(cfg, b, steps).core.trace;
             j < |tr| && IsTicked(tr[j]) && tr[j].note.fired == Some(Availability.Online)
    ensures var tr := Final(cfg, b, steps).core.trace;
            && i < p < j && IsPublished(tr[i]) && PeekOf(tr, p, j)
            && (forall k :: i < k < p ==> !IsPublished(tr[k]))
            && tr[j].note.tick.now - tr[i].note.merged.partial.polledAt <= cfg.staleAfter
  {
    BridgeInvAlways(cfg, b, steps);
    i, p := BackedBy(cfg.staleAfter, Final(cfg, b, steps).core.trace, j);
  }

  /** If the tick at tr[i] found the watcher's snapshot fresh, and up to date, and no poll was merged since, then once a
      later tick is past the deadline, offline has fired: at a tick past the deadline by at most the gap between
      ticks. */
  lemma {:induction false} OfflineInTime(cfg: Settings, b: System, steps: seq<Step>, i: nat, l: nat, gap: int)
      returns (j: nat)
    requires cfg.core.Valid() && Initial(b) && Follows(cfg, b, steps)
    requires var tr := Final(cfg, b, steps).core.trace;
             && i < l < |tr| && IsTicked(tr[i]) && IsTicked(tr[l]) && TickGaps(tr, i, l, gap)
             && Availability.IsFresh(cfg.staleAfter, tr[i].note.tick)
             && tr[i].note.tick.polledAt == LastPolledAt(MergesIn(tr[..i]))
             && (forall k :: i < k < l ==> !IsPublished(tr[k]))
             && tr[l].note.tick.now > tr[i].note.tick.polledAt + cfg.staleAfter
    ensures var tr := Final(cfg, b, steps).core.trace;
            var due := tr[i].note.tick.polledAt + cfg.staleAfter;
            && i < j <= l && IsTicked(tr[j]) && tr[j].note.fired == Some(Availability.Offline)
            && due < tr[j].note.tick.now <= due + gap
  {
    assert WatchInv(cfg, Final(cfg, b, steps)) by {
      BridgeInvAlways(cfg, b, steps);
    }
    j := OfflineFires(cfg.staleAfter, Final(cfg, b, steps).core.trace, i, l, gap);
  }

  // ----- Commands and polls

  /** At every moment of a run, each thread's latest command or poll has put on the wire a prefix of what it may: a
      command its script, a poll its batches, each step only after the one before it went through. */
  lemma {:induction false} CommandsAreLawful(cfg: Settings, b: System, steps: seq<Step>, t: Tid, p: nat)
    requires cfg.core.Valid() && Initial(b) && Follows(cfg, b, steps)
    requires t in b.tasks && p <= |Final(cfg, b, steps).core.trace|
    ensures Lawful(cfg, t, Own(Final(cfg, b, steps).core.trace[..p], t))
  {
    BridgeInvAlways(cfg, b, steps);
    TasksStay(cfg, b, steps);
  }

  lemma {:induction false} TasksStay(cfg: Settings, b: System, steps: seq<Step>)
    requires Initial(b) && Follows(cfg, b, steps)
    ensures Final(cfg, b, steps).tasks.Keys == b.tasks.Keys
    ensures Final(cfg, b, steps).core.threads.Keys == b.tasks.Keys
  {
    if steps != [] {
      TasksStay(cfg, b, steps[..|steps| - 1]);
      KeysKept(cfg, Final(cfg, b, steps[..|steps| - 1]), steps[|steps| - 1]);
    }
  }

  // ----- Mode bits

  /** Bits 2..15 of Dev_Keys_2 never change, whatever commands, faults and reconnects the run has. */
  lemma {:induction false} ModeWritesKeepOtherBits(cfg: Settings, b: System, steps: seq<Step>)
    requires cfg.core.Valid() && Initial(b) && Follows(cfg, b, steps)
    ensures UpperBits(Final(cfg, b, steps).core.link.memory.holding[DEV_KEYS_2])
            == UpperBits(b.core.link.memory.holding[DEV_KEYS_2])
  {
    BridgeInvAlways(cfg, b, steps);
    var m0, tr := b.core.link.memory, Final(cfg, b, steps).core.trace;
    RegisterIsComposed(m0, tr, DEV_KEYS_2);
    ComposedKeepsBits(m0, tr, m0.holding[DEV_KEYS_2]);
  }

  lemma {:induction false} ComposedKeepsBits(m0: Memory, tr: seq<Event>, initial: Word)
    requires forall j: nat :: j < |tr| && tr[j].Exchanged? ==> LegalRequest(tr[j].req)
    ensures UpperBits(Composed(tr, DEV_KEYS_2, initial)) == UpperBits(initial)
  {
    if tr != [] {
      var before, e := tr[..|tr| - 1], tr[|tr| - 1];
      ComposedKeepsBits(m0, before, initial);
      if e.Exchanged? && e.req.Modify? {
        var mode :| e.req == Modify(DEV_KEYS_2, ModeUpdate(mode));
        ModeFieldUpdate(Composed(before, DEV_KEYS_2, initial), mode);
      }
    }
  }

  // ----- The power edges

  /** tr[j] is the falling edge of the call whose acknowledged rising edge is tr[i]: the same thread, nothing
      else of its own in between, the dwell kept. */
  ghost predicate EdgePair(cfg: Settings, tr: seq<Event>, i: nat, j: nat) {
    && i < j < |tr| && IsRising(tr[i]) && IsFalling(tr[j]) && tr[i].t == tr[j].t
    && tr[i].end + cfg.powerOffPause <= tr[j].start
    && forall k :: i < k < j ==> !IsOwn(tr[k], tr[j].t)
  }

  /** A thread's history that ends with a falling edge. */
  lemma FallingShape(cfg: Settings, t: Tid, own: seq<Event>)
    requires Lawful(cfg, t, own) && own != [] && IsFalling(own[|own| - 1]) && own[|own| - 1].t == t
    requires LegalRequest(own[|own| - 1].req)
    ensures |own| == 3
    ensures IsRising(own[1]) && own[1].t == t && own[1].end + cfg.powerOffPause <= own[2].start
    ensures own[0].Noted? && own[0].note.Began? && own[0].note.cmd == SetPower(false)
  {
    var e := own[|own| - 1];
    if PollShape(t, own) {
      FallingIsNoRead(t, own);
    } else {
      var cmd, op :| Validated(cmd) && CommandShape(cfg, t, own, cmd, op);
      assert WireFits(cfg.powerOffPause, t, cmd, op, own[1..]);
      assert own[1..][|own| - 2] == e;
    }
  }

  lemma FallingIsNoRead(t: Tid, own: seq<Event>)
    requires PollShape(t, own) && own != []
    ensures !IsFalling(own[|own| - 1])
  {
    var e := own[|own| - 1];
    if tier :| UnpublishedPoll(t, tier, own) {
      assert |own| > 1 ==> own[1..][|own| - 2] == e;
    }
  }

  /** The position of the rising edge of a falling edge's call. */
  lemma RisingPosition(cfg: Settings, tr: seq<Event>, j: nat) returns (i: nat)
    requires j < |tr| && IsFalling(tr[j]) && LegalRequest(tr[j].req)
    requires Lawful(cfg, tr[j].t, Own(tr[..j + 1], tr[j].t))
    ensures EdgePair(cfg, tr, i, j)
    ensures Owes(Own(tr[..j], tr[j].t))
  {
    var t, p := tr[j].t, tr[..j + 1];
    assert p == tr[..j] + [tr[j]];
    OwnSnoc(tr[..j], t, tr[j]);
    FallingShape(cfg, t, Own(p, t));
    OwnPositions(p, t);
    i := OwnAt(p, t)[1];
    assert tr[i] == Own(p, t)[1] && OwnAt(p, t)[2] == j by {
      LastOwn(p, t);
    }
    forall k | i < k < j ensures !IsOwn(tr[k], t) {
      if IsOwn(tr[k], t) {
        OwnComplete(p, t, k);
      }
    }
  }

  lemma LastOwn(tr: seq<Event>, t: Tid)
    requires tr != [] && IsOwn(tr[|tr| - 1], t)
    ensures OwnAt(tr, t) != [] && OwnAt(tr, t)[|OwnAt(tr, t)| - 1] == |tr| - 1
  {
  }

  /** Each 0 written to Power_Dev, acknowledged or not, follows an acknowledged 1 of the same call by at least
      the dwell. */
  lemma {:induction false} FallingFollowsRising(cfg: Settings, b: System, steps: seq<Step>, j: nat) returns (i: nat)
    requires cfg.core.Valid() && Initial(b) && Follows(cfg, b, steps)
    requires j < |Final(cfg, b, steps).core.trace| && IsFalling(Final(cfg, b, steps).core.trace[j])
    ensures EdgePair(cfg, Final(cfg, b, steps).core.trace, i, j)
  {
    BridgeInvAlways(cfg, b, steps);
    i := RisingPosition(cfg, Final(cfg, b, steps).core.trace, j);
  }

  ghost function Owing(tr: seq<Event>, ts: set<Tid>): set<Tid> {
    set t | t in ts && Owes(Own(tr, t))
  }

  /** In every prefix of the run, the 0s written to Power_Dev, plus the OFF commands in their dwell, are no more
      than the acknowledged 1s. */
  lemma {:induction false} EdgesBalance(cfg: Settings, tr: seq<Event>, ts: set<Tid>)
    requires forall j: nat :: j < |tr| && IsFalling(tr[j]) ==>
               tr[j].t in ts && LegalRequest(tr[j].req) && Lawful(cfg, tr[j].t, Own(tr[..j + 1], tr[j].t))
    ensures Tally(tr, IsFalling) + |Owing(tr, ts)| <= Tally(tr, IsRising)
  {
    if tr == [] {
      assert Owing(tr, ts) == {};
    } else {
      var before, e := tr[..|tr| - 1], tr[|tr| - 1];
      assert tr == before + [e];
      forall j: nat | j < |before| && IsFalling(before[j])
        ensures before[j].t in ts && LegalRequest(before[j].req)
        ensures Lawful(cfg, before[j].t, Own(before[..j + 1], before[j].t))
      {
        assert before[..j + 1] == tr[..j + 1] && before[j] == tr[j];
      }
      EdgesBalance(cfg, before, ts);
      assert tr[..|tr| - 1 + 1] == tr;
      OwingMoves(cfg, tr, ts);
    }
  }

  lemma OwingMoves(cfg: Settings, tr: seq<Event>, ts: set<Tid>)
    requires tr != []
    requires var e := tr[|tr| - 1];
             IsFalling(e) ==> e.t in ts && LegalRequest(e.req) && Lawful(cfg, e.t, Own(tr, e.t))
    ensures var before, e := tr[..|tr| - 1], tr[|tr| - 1];
            |Owing(tr, ts)| <= |Owing(before, ts)|
                               + (if IsRising(e) then 1 else 0) - (if IsFalling(e) then 1 else 0)
  {
    var before, e := tr[..|tr| - 1], tr[|tr| - 1];
    assert tr == before + [e];
    forall t
      ensures Own(tr, t)
              == if Opens(e, t) then [e] else if IsOwn(e, t) then Own(before, t) + [e] else Own(before, t)
    {
      OwnSnoc(before, t, e);
    }
    if IsFalling(e) {
      assert tr[..|tr| - 1 + 1] == tr;
      var i := RisingPosition(cfg, tr, |tr| - 1);
      assert Owing(tr, ts) <= Owing(before, ts) - {e.t};
      Subsets(Owing(tr, ts), Owing(before, ts) - {e.t});
    } else if IsRising(e) {
      assert Owing(tr, ts) <= Owing(before, ts) + {e.t};
      Subsets(Owing(tr, ts), Owing(before, ts) + {e.t});
    } else {
      assert Owing(tr, ts) <= Owing(before, ts);
      Subsets(Owing(tr, ts), Owing(before, ts));
    }
  }

  lemma {:induction false} Subsets<T>(a: set<T>, b: set<T>)
    requires a <= b
    ensures |a| <= |b|
  {
    assert b == a + (b - a);
  }

  /** In every prefix of the run, the 0s written to Power_Dev, acknowledged or not, are no more than the
      acknowledged 1s. */
  lemma {:induction false} FallingsNeverLead(cfg: Settings, b: System, steps: seq<Step>, p: nat)
    requires cfg.core.Valid() && Initial(b) && Follows(cfg, b, steps)
    requires p <= |Final(cfg, b, steps).core.trace|
    ensures var tr := Final(cfg, b, steps).core.trace[..p];
            Tally(tr, IsFalling) <= Tally(tr, IsRising)
  {
    BridgeInvAlways(cfg, b, steps);
    PrefixBalances(cfg, b.core.link.memory, Final(cfg, b, steps), p);
  }

  lemma PrefixBalances(cfg: Settings, m0: Memory, b: System, p: nat)
    requires AlwaysLawful(cfg, b) && WireInv(m0, b.tasks.Keys, b.core.trace) && p <= |b.core.trace|
    ensures Tally(b.core.trace[..p], IsFalling) <= Tally(b.core.trace[..p], IsRising)
  {
    var tr := b.core.trace;
    forall j: nat | j < p && IsFalling(tr[j])
      ensures tr[j].t in b.tasks && LegalRequest(tr[j].req) && Lawful(cfg, tr[j].t, Own(tr[..p][..j + 1], tr[j].t))
    {
      assert tr[..p][..j + 1] == tr[..j + 1];
    }
    EdgesBalance(cfg, tr[..p], b.tasks.Keys);
  }
}
