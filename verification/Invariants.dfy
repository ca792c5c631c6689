/** What every step of the machine keeps, and what follows for every run. */
module Invariants {
  import opened Snapshots
  import opened Modbus
  import opened Machine

  // ----- Shape of a run

  /** The event an action writes to the history, if any. */
  function EventsOf(cfg: Config, s: State, a: Action): (es: seq<Event>)
    requires Enabled(cfg, s, a)
    ensures |es| <= 1
  {
    match a
    case Drift(input) => [Drifted(input)]
    case Call(t, req) => [Called(t, req, s.link.now)]
    case Answer(t, reply, end) =>
      [Exchanged(t, s.threads[t].req, s.threads[t].leg, s.threads[t].start, end, reply)]
    case Record(t) => [Recorded(t, s.threads[t].res.Ok?)]
    case Trigger(t) => [Triggered(t)]
    case Jot(t, note) => [Noted(t, note)]
    case SupDialed(ok, _) => if s.link.connected then [DialSkipped] else [Dialed(ok)]
    case SupReceive => [Received]
    case SupClose(_) => [ForceClosed(s.link.connected)]
    case _ => []
  }

  lemma TraceGrows(cfg: Config, s: State, a: Action)
    requires Enabled(cfg, s, a)
    ensures Next(cfg, s, a).trace == s.trace + EventsOf(cfg, s, a)
    ensures Next(cfg, s, a).threads.Keys == s.threads.Keys
  {
  }

  lemma Snoc<T>(s: seq<T>, e: T)
    ensures (s + [e])[..|s + [e]| - 1] == s && (s + [e])[|s + [e]| - 1] == e
  {
  }

  // ----- The mutex

  predicate HoldsMutex(pc: Pc) {
    pc.Locked? || pc.Gate? || pc.Asleep? || pc.OnWire? || pc.Unlocking?
  }

  /** Between the connected check and the reply. */
  predicate UnderWay(pc: Pc) {
    pc.Gate? || pc.Asleep? || pc.OnWire?
  }

  /** The mutex has the holder its threads and the supervisor say it has. */
  ghost predicate OwnerInv(s: State) {
    && (forall t :: t in s.threads ==> (HoldsMutex(s.threads[t]) <==> s.owner == ByThread(t)))
    && (s.owner.ByThread? ==> s.owner.t in s.threads)
    && (s.sup.Dialing? <==> s.owner == BySupervisor)
  }

  /** An operation under way has a live connection. */
  ghost predicate LiveInv(s: State) {
    forall t :: t in s.threads && UnderWay(s.threads[t]) ==> s.link.connected
  }

  ghost predicate MutexInv(s: State) {
    OwnerInv(s) && LiveInv(s)
  }

  lemma MutexKept(cfg: Config, s: State, a: Action)
    requires MutexInv(s) && Enabled(cfg, s, a)
    ensures MutexInv(Next(cfg, s, a))
  {
    LiveKept(cfg, s, a);
    OwnerKept(cfg, s, a);
  }

  lemma LiveKept(cfg: Config, s: State, a: Action)
    requires MutexInv(s) && Enabled(cfg, s, a)
    ensures LiveInv(Next(cfg, s, a))
  {
  }

  lemma OwnerKept(cfg: Config, s: State, a: Action)
    requires MutexInv(s) && Enabled(cfg, s, a)
    ensures OwnerInv(Next(cfg, s, a))
  {
  }

  /** The supervisor is between giving the transport up and having a new one. */
  predicate Reconnecting(sup: Supervisor) {
    sup.WantsDial? || sup.Dialing? || sup.Resting?
  }

  ghost predicate SupInv(s: State) {
    Reconnecting(s.sup) ==> !s.link.connected
  }

  lemma SupKept(cfg: Config, s: State, a: Action)
    requires MutexInv(s) && SupInv(s) && Enabled(cfg, s, a)
    ensures SupInv(Next(cfg, s, a))
  {
  }

  // ----- Guard spacing

  predicate IsOpening(e: Event) {
    e.Dialed? && e.ok
  }

  predicate NoOpening(tr: seq<Event>, i: nat, j: nat)
    requires j <= |tr|
  {
    forall k :: i < k < j ==> !IsOpening(tr[k])
  }

  /** tr[i] is a wire operation of the transport that was opened last. */
  predicate InSession(tr: seq<Event>, i: nat) {
    i < |tr| && tr[i].Exchanged? && NoOpening(tr, i, |tr|)
  }

  /** Any two wire operations between two successful opens, whoever did them, are a guard interval apart
      from the end of the first to the start of the second. */
  predicate Spaced(cfg: Config, tr: seq<Event>) {
    forall i: nat, j: nat :: i < j < |tr| && tr[i].Exchanged? && tr[j].Exchanged? && NoOpening(tr, i, j) ==>
      tr[i].end + cfg.guard <= tr[j].start
  }

  /** lastOpAt is not before any wire operation of the open transport. */
  ghost predicate StampInv(s: State) {
    && 0 <= s.link.lastOpAt <= s.link.now && 0 < s.link.now
    && forall i: nat :: InSession(s.trace, i) ==> ZERO_TIME != s.link.lastOpAt && s.trace[i].end <= s.link.lastOpAt
  }

  /** A thread asleep will have waited long enough; a thread on the wire has. */
  ghost predicate Waited(cfg: Config, s: State, t: Tid)
    requires t in s.threads
  {
    var pc := s.threads[t];
    && (pc.Asleep? ==> pc.until == s.link.lastOpAt + cfg.guard)
    && (pc.OnWire? ==>
          && pc.start <= s.link.now
          && forall i: nat :: InSession(s.trace, i) ==> s.trace[i].end + cfg.guard <= pc.start)
  }

  ghost predicate WaitInv(cfg: Config, s: State) {
    forall t :: t in s.threads ==> Waited(cfg, s, t)
  }

  ghost predicate ClockInv(cfg: Config, s: State) {
    StampInv(s) && WaitInv(cfg, s)
  }

  ghost predicate GuardInv(cfg: Config, s: State) {
    ClockInv(cfg, s) && Spaced(cfg, s.trace)
  }

  lemma SessionSnoc(tr: seq<Event>, e: Event, i: nat)
    ensures InSession(tr + [e], i) <==>
              if i < |tr| then InSession(tr, i) && !IsOpening(e) else i == |tr| && e.Exchanged?
  {
    var tr' := tr + [e];
    if i < |tr| {
      assert NoOpening(tr', i, |tr'|) <==> NoOpening(tr, i, |tr|) && !IsOpening(e) by {
        assert tr'[|tr|] == e;
        assert forall k :: i < k < |tr| ==> tr'[k] == tr[k];
      }
    }
  }

  lemma SpacedSnoc(cfg: Config, tr: seq<Event>, e: Event)
    requires Spaced(cfg, tr)
    requires e.Exchanged? ==> forall i: nat :: InSession(tr, i) ==> tr[i].end + cfg.guard <= e.start
    ensures Spaced(cfg, tr + [e])
  {
    var tr' := tr + [e];
    forall i: nat, j: nat | i < j < |tr'| && tr'[i].Exchanged? && tr'[j].Exchanged? && NoOpening(tr', i, j)
      ensures tr'[i].end + cfg.guard <= tr'[j].start
    {
      assert forall k :: i < k < j ==> tr'[k] == tr[k];
      if j < |tr| {
        assert NoOpening(tr, i, j);
      } else {
        assert InSession(tr, i);
      }
    }
  }

  /** The operations of the open transport after a step. */
  lemma SessionAfter(cfg: Config, s: State, a: Action)
    requires Enabled(cfg, s, a)
    ensures var s', es := Next(cfg, s, a), EventsOf(cfg, s, a);
            if es == [] then s'.trace == s.trace
            else forall i: nat :: InSession(s'.trace, i) <==>
                   if i < |s.trace| then s'.trace[i] == s.trace[i] && InSession(s.trace, i) && !IsOpening(es[0])
                   else i == |s.trace| && s'.trace[i] == es[0] && es[0].Exchanged?
  {
    TraceGrows(cfg, s, a);
    var s', es := Next(cfg, s, a), EventsOf(cfg, s, a);
    if es == [] {
      assert s'.trace == s.trace;
    } else {
      forall i: nat {
        SessionSnoc(s.trace, es[0], i);
      }
    }
  }

  lemma StampKept(cfg: Config, s: State, a: Action)
    requires MutexInv(s) && ClockInv(cfg, s) && Enabled(cfg, s, a)
    ensures StampInv(Next(cfg, s, a))
  {
    SessionAfter(cfg, s, a);
  }

  lemma WaitedKept(cfg: Config, s: State, a: Action, t: Tid)
    requires MutexInv(s) && StampInv(s) && Enabled(cfg, s, a) && t in s.threads && Waited(cfg, s, t)
    ensures Waited(cfg, Next(cfg, s, a), t)
  {
    SessionAfter(cfg, s, a);
  }

  lemma WaitKept(cfg: Config, s: State, a: Action)
    requires MutexInv(s) && ClockInv(cfg, s) && Enabled(cfg, s, a)
    ensures WaitInv(cfg, Next(cfg, s, a))
  {
    TraceGrows(cfg, s, a);
    forall t | t in Next(cfg, s, a).threads ensures Waited(cfg, Next(cfg, s, a), t) {
      WaitedKept(cfg, s, a, t);
    }
  }

  lemma GuardKept(cfg: Config, s: State, a: Action)
    requires MutexInv(s) && GuardInv(cfg, s) && Enabled(cfg, s, a)
    ensures GuardInv(cfg, Next(cfg, s, a))
  {
    StampKept(cfg, s, a);
    WaitKept(cfg, s, a);
    TraceGrows(cfg, s, a);
    var es := EventsOf(cfg, s, a);
    if es == [] {
      assert Next(cfg, s, a).trace == s.trace;
    } else {
      SpacedSnoc(cfg, s.trace, es[0]);
    }
  }

  // ----- Guard spacing across reconnects

  /** Any two wire operations of the run, on whichever transports, are a guard interval apart from the end of the
      first to the start of the second. */
  predicate AllSpaced(cfg: Config, tr: seq<Event>) {
    forall i: nat, j: nat :: i < j < |tr| && tr[i].Exchanged? && tr[j].Exchanged? ==>
      tr[i].end + cfg.guard <= tr[j].start
  }

  /** Every wire operation ended by then. */
  predicate EndedBy(tr: seq<Event>, at: Time) {
    forall i: nat :: i < |tr| && tr[i].Exchanged? ==> tr[i].end <= at
  }

  /** The supervisor dials a guard interval after the last operation; a connected client knows when that was. */
  ghost predicate RestInv(cfg: Config, s: State) {
    var tr, link := s.trace, s.link;
    && EndedBy(tr, link.now)
    && (s.sup.Resting? ==> EndedBy(tr, s.sup.until - cfg.guard))
    && (s.sup.WantsDial? || s.sup.Dialing? ==> EndedBy(tr, link.now - cfg.guard))
    && (link.connected ==>
          EndedBy(tr, if link.lastOpAt == ZERO_TIME then link.now - cfg.guard else link.lastOpAt))
  }

  /** An operation on the wire started a guard interval after the last one ended. */
  ghost predicate StartInv(cfg: Config, s: State) {
    forall t :: t in s.threads && s.threads[t].OnWire? ==> EndedBy(s.trace, s.threads[t].start - cfg.guard)
  }

  ghost predicate SpacingInv(cfg: Config, s: State) {
    RestInv(cfg, s) && StartInv(cfg, s) && AllSpaced(cfg, s.trace)
  }

  /** The supervisor waits a guard interval after a teardown. */
  predicate IsPatient(cfg: Config, a: Action) {
    a.SupClose? ==> a.delay >= cfg.guard
  }

  lemma EndedSnoc(tr: seq<Event>, e: Event, at: Time)
    ensures EndedBy(tr + [e], at) <==> EndedBy(tr, at) && (e.Exchanged? ==> e.end <= at)
  {
    var tr' := tr + [e];
    assert tr'[|tr|] == e && forall i :: 0 <= i < |tr| ==> tr'[i] == tr[i];
  }

  lemma AllSpacedSnoc(cfg: Config, tr: seq<Event>, e: Event)
    requires AllSpaced(cfg, tr) && (e.Exchanged? ==> EndedBy(tr, e.start - cfg.guard))
    ensures AllSpaced(cfg, tr + [e])
  {
  }

  /** The operations of a step: none, or the one that was on the wire. */
  lemma EndedAfter(cfg: Config, s: State, a: Action, at: Time)
    requires Enabled(cfg, s, a)
    ensures EndedBy(Next(cfg, s, a).trace, at) <==> EndedBy(s.trace, at) && (a.Answer? ==> a.end <= at)
  {
    TraceGrows(cfg, s, a);
    var es := EventsOf(cfg, s, a);
    if es == [] {
      assert Next(cfg, s, a).trace == s.trace;
    } else {
      EndedSnoc(s.trace, es[0], at);
    }
  }

  lemma RestKept(cfg: Config, s: State, a: Action)
    requires MutexInv(s) && SupInv(s) && ClockInv(cfg, s) && RestInv(cfg, s) && Enabled(cfg, s, a) && IsPatient(cfg, a)
    ensures RestInv(cfg, Next(cfg, s, a))
  {
    var s' := Next(cfg, s, a);
    forall at: Time
      ensures EndedBy(s'.trace, at) <==> EndedBy(s.trace, at) && (a.Answer? ==> a.end <= at)
    {
      EndedAfter(cfg, s, a, at);
    }
  }

  lemma StartKept(cfg: Config, s: State, a: Action)
    requires MutexInv(s) && ClockInv(cfg, s) && RestInv(cfg, s) && StartInv(cfg, s) && Enabled(cfg, s, a)
    ensures StartInv(cfg, Next(cfg, s, a))
  {
    var s' := Next(cfg, s, a);
    forall t | t in s'.threads && s'.threads[t].OnWire?
      ensures EndedBy(s'.trace, s'.threads[t].start - cfg.guard)
    {
      EndedAfter(cfg, s, a, s'.threads[t].start - cfg.guard);
      if a.Go? && a.t == t {
        assert Waited(cfg, s, t);
      }
    }
  }

  lemma SpacingKept(cfg: Config, s: State, a: Action)
    requires MutexInv(s) && SupInv(s) && ClockInv(cfg, s) && SpacingInv(cfg, s) && Enabled(cfg, s, a)
    requires IsPatient(cfg, a)
    ensures SpacingInv(cfg, Next(cfg, s, a))
  {
    RestKept(cfg, s, a);
    StartKept(cfg, s, a);
    TraceGrows(cfg, s, a);
    var es := EventsOf(cfg, s, a);
    if es == [] {
      assert Next(cfg, s, a).trace == s.trace;
    } else {
      AllSpacedSnoc(cfg, s.trace, es[0]);
    }
  }

  // ----- Transports

  function Tally(tr: seq<Event>, p: Event -> bool): nat {
    if tr == [] then 0 else Tally(tr[..|tr| - 1], p) + if p(tr[|tr| - 1]) then 1 else 0
  }

  lemma TallySnoc(tr: seq<Event>, e: Event, p: Event -> bool)
    ensures Tally(tr + [e], p) == Tally(tr, p) + if p(e) then 1 else 0
  {
    Snoc(tr, e);
  }

  predicate IsClosing(e: Event) {
    e.ForceClosed? && e.live
  }

  predicate IsBreaking(e: Event) {
    e.Exchanged? && e.reply.Fault? && IsNetworkFault(e.reply.raw)
  }

  /** Transports opened and not torn down by ForceClose. */
  function StillOpen(tr: seq<Event>): int {
    Tally(tr, IsOpening) - Tally(tr, IsClosing)
  }

  ghost predicate TransportInv(s: State) {
    StillOpen(s.trace) == Tally(s.trace, IsBreaking) + if s.link.connected then 1 else 0
  }

  lemma TransportSnoc(tr: seq<Event>, e: Event)
    ensures StillOpen(tr + [e]) == StillOpen(tr) + (if IsOpening(e) then 1 else 0) - (if IsClosing(e) then 1 else 0)
    ensures Tally(tr + [e], IsBreaking) == Tally(tr, IsBreaking) + if IsBreaking(e) then 1 else 0
  {
    TallySnoc(tr, e, IsOpening);
    TallySnoc(tr, e, IsClosing);
    TallySnoc(tr, e, IsBreaking);
  }

  /** What an event says about the connected flag. */
  lemma ConnectionMoves(cfg: Config, s: State, a: Action)
    requires MutexInv(s) && Enabled(cfg, s, a)
    ensures var s', es := Next(cfg, s, a), EventsOf(cfg, s, a);
            if es == [] then s'.link.connected == s.link.connected
            else
              && (IsOpening(es[0]) ==> !s.link.connected && s'.link.connected)
              && (IsClosing(es[0]) ==> s.link.connected && !s'.link.connected)
              && (IsBreaking(es[0]) ==> s.link.connected && !s'.link.connected)
              && (!IsOpening(es[0]) && !IsClosing(es[0]) && !IsBreaking(es[0]) ==>
                    s'.link.connected == s.link.connected)
  {
  }

  lemma TransportKept(cfg: Config, s: State, a: Action)
    requires MutexInv(s) && TransportInv(s) && Enabled(cfg, s, a)
    ensures TransportInv(Next(cfg, s, a))
  {
    var s', es := Next(cfg, s, a), EventsOf(cfg, s, a);
    assert s'.trace == s.trace + es by {
      TraceGrows(cfg, s, a);
    }
    ConnectionMoves(cfg, s, a);
    if es == [] {
      assert s'.trace == s.trace;
    } else {
      TransportSnoc(s.trace, es[0]);
    }
  }

  // ----- The failure counter

  /** The outcomes the dispatcher recorded, in order; true is success. */
  function Outcomes(tr: seq<Event>): seq<bool> {
    if tr == [] then []
    else Outcomes(tr[..|tr| - 1]) + if tr[|tr| - 1].Recorded? then [tr[|tr| - 1].ok] else []
  }

  /** n is the length of the run of failures at the end. */
  predicate IsTrailingRun(outcomes: seq<bool>, n: nat) {
    && n <= |outcomes|
    && (forall i :: |outcomes| - n <= i < |outcomes| ==> !outcomes[i])
    && (n < |outcomes| ==> outcomes[|outcomes| - n - 1])
  }

  /** The failures that end a run of at least the threshold. */
  function Due(outcomes: seq<bool>, threshold: nat): nat {
    if outcomes == [] then 0
    else Due(outcomes[..|outcomes| - 1], threshold)
         + if threshold <= |outcomes| && (forall i :: |outcomes| - threshold <= i < |outcomes| ==> !outcomes[i])
           then 1 else 0
  }

  predicate IsTrigger(e: Event) {
    e.Triggered?
  }

  /** The threads that have yet to make the Trigger call they decided on. */
  function Signalling(s: State): set<Tid> {
    set t | t in s.threads && s.threads[t].Signal?
  }

  ghost predicate CounterInv(cfg: Config, s: State)
    requires cfg.Valid()
  {
    && IsTrailingRun(Outcomes(s.trace), s.errs)
    && Tally(s.trace, IsTrigger) + |Signalling(s)| == Due(Outcomes(s.trace), cfg.threshold)
  }

  /** One more outcome, counted both ways. */
  lemma OutcomeCounts(o: seq<bool>, n: nat, ok: bool, threshold: nat)
    requires threshold > 0 && IsTrailingRun(o, n)
    ensures IsTrailingRun(o + [ok], if ok then 0 else n + 1)
    ensures Due(o + [ok], threshold) == Due(o, threshold) + if !ok && n + 1 >= threshold then 1 else 0
  {
  }

  lemma SignallingMoves(cfg: Config, s: State, a: Action)
    requires Enabled(cfg, s, a)
    ensures Signalling(Next(cfg, s, a))
            == match a
               case Record(t) =>
                 if s.threads[t].res.Err? && s.errs + 1 >= cfg.threshold then Signalling(s) + {t} else Signalling(s)
               case Trigger(t) => Signalling(s) - {t}
               case _ => Signalling(s)
  {
  }

  lemma HistorySnoc(tr: seq<Event>, e: Event)
    ensures Outcomes(tr + [e]) == Outcomes(tr) + if e.Recorded? then [e.ok] else []
    ensures Tally(tr + [e], IsTrigger) == Tally(tr, IsTrigger) + if e.Triggered? then 1 else 0
  {
  }

  /** One event, counted. */
  lemma CounterStep(tr: seq<Event>, e: Event, n: nat, n': nat, calling: set<Tid>, calling': set<Tid>, threshold: nat)
    requires threshold > 0
    requires IsTrailingRun(Outcomes(tr), n) && Tally(tr, IsTrigger) + |calling| == Due(Outcomes(tr), threshold)
    requires match e
             case Recorded(t, ok) =>
               && n' == (if ok then 0 else n + 1)
               && t !in calling
               && calling' == if !ok && n + 1 >= threshold then calling + {t} else calling
             case Triggered(t) => n' == n && t in calling && calling' == calling - {t}
             case _ => n' == n && calling' == calling
    ensures IsTrailingRun(Outcomes(tr + [e]), n')
    ensures Tally(tr + [e], IsTrigger) + |calling'| == Due(Outcomes(tr + [e]), threshold)
  {
    HistorySnoc(tr, e);
    if e.Recorded? {
      OutcomeCounts(Outcomes(tr), n, e.ok, threshold);
    } else {
      assert Outcomes(tr) + [] == Outcomes(tr);
    }
  }

  /** What an event says about the counter. */
  lemma CounterMoves(cfg: Config, s: State, a: Action)
    requires Enabled(cfg, s, a)
    ensures var s', es := Next(cfg, s, a), EventsOf(cfg, s, a);
            if es != [] && es[0].Recorded? then
              a.Record? && es[0].t == a.t && s'.errs == if es[0].ok then 0 else s.errs + 1
            else s'.errs == s.errs && (es != [] && es[0].Triggered? ==> a.Trigger? && es[0].t == a.t)
    ensures a.Record? ==> EventsOf(cfg, s, a) == [Recorded(a.t, s.threads[a.t].res.Ok?)]
    ensures a.Trigger? ==> EventsOf(cfg, s, a) == [Triggered(a.t)]
  {
  }

  lemma CounterKept(cfg: Config, s: State, a: Action)
    requires cfg.Valid() && CounterInv(cfg, s) && Enabled(cfg, s, a)
    ensures CounterInv(cfg, Next(cfg, s, a))
  {
    var s', es := Next(cfg, s, a), EventsOf(cfg, s, a);
    assert s'.trace == s.trace + es by {
      TraceGrows(cfg, s, a);
    }
    SignallingMoves(cfg, s, a);
    CounterMoves(cfg, s, a);
    if es == [] {
      assert s'.trace == s.trace;
    } else {
      CounterStep(s.trace, es[0], s.errs, s'.errs, Signalling(s), Signalling(s'), cfg.threshold);
    }
  }

  // ----- The token

  /** Some Trigger came after the last receive. */
  predicate TriggerPending(tr: seq<Event>) {
    exists i :: 0 <= i < |tr| && tr[i].Triggered? && forall k :: i < k < |tr| ==> !tr[k].Received?
  }

  predicate IsReceipt(e: Event) {
    e.Received?
  }

  ghost predicate TokenInv(s: State) {
    && (s.token <==> TriggerPending(s.trace))
    && Tally(s.trace, IsReceipt) + (if s.token then 1 else 0) <= Tally(s.trace, IsTrigger)
  }

  lemma PendingSnoc(tr: seq<Event>, e: Event)
    ensures TriggerPending(tr + [e]) <==> e.Triggered? || (TriggerPending(tr) && !e.Received?)
  {
    var tr' := tr + [e];
    assert tr'[|tr|] == e && forall k :: 0 <= k < |tr| ==> tr'[k] == tr[k];
  }

  lemma TokenSnoc(tr: seq<Event>, e: Event)
    ensures Tally(tr + [e], IsReceipt) == Tally(tr, IsReceipt) + if e.Received? then 1 else 0
    ensures Tally(tr + [e], IsTrigger) == Tally(tr, IsTrigger) + if e.Triggered? then 1 else 0
    ensures TriggerPending(tr + [e]) <==> e.Triggered? || (TriggerPending(tr) && !e.Received?)
  {
    TallySnoc(tr, e, IsReceipt);
    TallySnoc(tr, e, IsTrigger);
    PendingSnoc(tr, e);
  }

  /** What an event says about the token. */
  lemma TokenMoves(cfg: Config, s: State, a: Action)
    requires Enabled(cfg, s, a)
    ensures var s', es := Next(cfg, s, a), EventsOf(cfg, s, a);
            && (es == [] ==> s'.token == s.token)
            && (es != [] ==> s'.token == (es[0].Triggered? || (s.token && !es[0].Received?)))
            && (es != [] && es[0].Received? ==> s.token)
  {
  }

  lemma TokenKept(cfg: Config, s: State, a: Action)
    requires TokenInv(s) && Enabled(cfg, s, a)
    ensures TokenInv(Next(cfg, s, a))
  {
    var s', es := Next(cfg, s, a), EventsOf(cfg, s, a);
    assert s'.trace == s.trace + es by {
      TraceGrows(cfg, s, a);
    }
    TokenMoves(cfg, s, a);
    if es == [] {
      assert s'.trace == s.trace;
    } else {
      TokenSnoc(s.trace, es[0]);
    }
  }

  // ----- No stuck-disconnected state

  /** A caller that still owes the counter a failure, or the supervisor a Trigger. */
  predicate OwesFailure(pc: Pc) {
    || ((pc.Unlocking? || pc.Report?) && pc.res.Err?)
    || pc.Signal?
  }

  ghost predicate AlarmInv(cfg: Config, s: State) {
    s.sup.Listening? && !s.link.connected && s.errs >= cfg.threshold ==>
      s.token || exists t :: t in s.threads && OwesFailure(s.threads[t])
  }

  lemma AlarmKept(cfg: Config, s: State, a: Action)
    requires cfg.Valid() && MutexInv(s) && AlarmInv(cfg, s) && Enabled(cfg, s, a)
    ensures AlarmInv(cfg, Next(cfg, s, a))
  {
    var s' := Next(cfg, s, a);
    if s'.sup.Listening? && !s'.link.connected && s'.errs >= cfg.threshold && !s'.token {
      if a.Answer? && s.link.connected {
        assert OwesFailure(s'.threads[a.t]);
      } else if a.Record? {
        assert OwesFailure(s'.threads[a.t]);
      } else {
        var t :| t in s.threads && OwesFailure(s.threads[t]);
        assert OwesFailure(s'.threads[t]);
      }
    }
  }

  // ----- The supervisor's protocol

  predicate IsSupervisorEvent(e: Event) {
    e.Dialed? || e.DialSkipped? || e.ForceClosed? || e.Received?
  }

  /** The supervisor's own log. */
  function SupervisorLog(tr: seq<Event>): seq<Event> {
    if tr == [] then []
    else SupervisorLog(tr[..|tr| - 1]) + if IsSupervisorEvent(tr[|tr| - 1]) then [tr[|tr| - 1]] else []
  }

  /** ConnectFail* */
  predicate Failures(log: seq<Event>) {
    forall i :: 0 <= i < |log| ==> log[i].Dialed? && !log[i].ok
  }

  /** ConnectFail* ConnectOk */
  predicate Session(log: seq<Event>) {
    log != [] && Failures(log[..|log| - 1]) && IsOpening(log[|log| - 1])
  }

  /** log[k..] starts a repair: Receive ForceClose ... */
  predicate RepairAt(log: seq<Event>, k: nat) {
    k + 2 <= |log| && log[k].Received? && log[k + 1].ForceClosed?
  }

  /** ConnectFail* ConnectOk (Receive ForceClose ConnectFail* ConnectOk)* */
  predicate Protocol(log: seq<Event>) {
    Session(log)
    || exists k: nat :: k < |log| && RepairAt(log, k) && Protocol(log[..k]) && Session(log[k + 2..])
  }

  /** Inside a repair, still without a transport. */
  predicate Repairing(log: seq<Event>) {
    exists k: nat :: k < |log| && RepairAt(log, k) && Protocol(log[..k]) && Failures(log[k + 2..])
  }

  /** A repair announced, the teardown not yet done. */
  predicate Announced(log: seq<Event>) {
    log != [] && log[|log| - 1].Received? && Protocol(log[..|log| - 1])
  }

  predicate ProtocolPrefix(log: seq<Event>) {
    Failures(log) || Protocol(log) || Announced(log) || Repairing(log)
  }

  predicate LogFits(sup: Supervisor, log: seq<Event>) {
    match sup
    case WantsDial(boot) => if boot then Failures(log) else Repairing(log)
    case Dialing(boot) => if boot then Failures(log) else Repairing(log)
    case Resting(boot, _) => if boot then Failures(log) else Repairing(log)
    case Listening => Protocol(log)
    case Closing => Announced(log)
    case Stopped => ProtocolPrefix(log)
  }

  predicate IsTeardown(e: Event) {
    e.ForceClosed?
  }

  predicate ProtocolInv(s: State) {
    && LogFits(s.sup, SupervisorLog(s.trace))
    && Tally(s.trace, IsTeardown) + (if s.sup.Closing? then 1 else 0) == Tally(s.trace, IsReceipt)
  }

  lemma LogSnoc(tr: seq<Event>, e: Event)
    ensures SupervisorLog(tr + [e]) == SupervisorLog(tr) + if IsSupervisorEvent(e) then [e] else []
  {
  }

  lemma FailuresGoOn(log: seq<Event>, e: Event)
    requires Failures(log) && e.Dialed?
    ensures if e.ok then Session(log + [e]) else Failures(log + [e])
  {
  }

  lemma RepairGoesOn(log: seq<Event>, e: Event)
    requires Repairing(log) && e.Dialed?
    ensures if e.ok then Protocol(log + [e]) else Repairing(log + [e])
  {
    var k: nat :| k < |log| && RepairAt(log, k) && Protocol(log[..k]) && Failures(log[k + 2..]);
    FailuresGoOn(log[k + 2..], e);
    var log' := log + [e];
    assert log'[..k] == log[..k] && log'[k + 2..] == log[k + 2..] + [e];
    assert RepairAt(log', k);
  }

  lemma RepairStarts(log: seq<Event>, e: Event)
    requires Announced(log) && e.ForceClosed?
    ensures Repairing(log + [e])
  {
    var k: nat := |log| - 1;
    var log' := log + [e];
    assert log'[..k] == log[..k] && log'[k + 2..] == [];
    assert RepairAt(log', k);
  }

  /** What a step without an event of its own does to the supervisor. */
  lemma SupervisorMoves(cfg: Config, s: State, a: Action)
    requires Enabled(cfg, s, a)
    ensures var s', es := Next(cfg, s, a), EventsOf(cfg, s, a);
            && (es == [] || !IsSupervisorEvent(es[0]) ==>
                  (forall log :: LogFits(s.sup, log) ==> LogFits(s'.sup, log)) && s'.sup.Closing? == s.sup.Closing?)
            && (es != [] && IsSupervisorEvent(es[0]) ==>
                  s'.sup.Closing? == es[0].Received? && s.sup.Closing? == es[0].ForceClosed?)
  {
  }

  lemma {:induction false} ProtocolKept(cfg: Config, s: State, a: Action)
    requires SupInv(s) && ProtocolInv(s) && Enabled(cfg, s, a)
    ensures ProtocolInv(Next(cfg, s, a))
  {
    var s', es := Next(cfg, s, a), EventsOf(cfg, s, a);
    assert s'.trace == s.trace + es by {
      TraceGrows(cfg, s, a);
    }
    SupervisorMoves(cfg, s, a);
    if es == [] {
      assert s'.trace == s.trace;
    } else {
      TallySnoc(s.trace, es[0], IsTeardown);
      TallySnoc(s.trace, es[0], IsReceipt);
      LogSnoc(s.trace, es[0]);
      LogKept(cfg, s, a, es[0]);
    }
  }

  /** An event of the supervisor's extends the log to where its new state says. */
  lemma LogKept(cfg: Config, s: State, a: Action, e: Event)
    requires SupInv(s) && LogFits(s.sup, SupervisorLog(s.trace)) && Enabled(cfg, s, a) && EventsOf(cfg, s, a) == [e]
    ensures LogFits(Next(cfg, s, a).sup, SupervisorLog(s.trace) + if IsSupervisorEvent(e) then [e] else [])
  {
    var log := SupervisorLog(s.trace);
    Snoc(log, e);
    if !IsSupervisorEvent(e) {
      assert log + [] == log;
    } else if a.SupDialed? {
      if s.sup.boot {
        FailuresGoOn(log, e);
      } else {
        RepairGoesOn(log, e);
      }
    } else if a.SupClose? {
      RepairStarts(log, e);
    }
  }

  /** The log is cut from one the protocol describes. */
  ghost predicate Completes(log: seq<Event>) {
    exists rest :: Protocol(log + rest)
  }

  lemma PrefixCompletes(log: seq<Event>)
    requires ProtocolPrefix(log)
    ensures Completes(log)
  {
    var ok := Dialed(true);
    if Protocol(log) {
      assert log + [] == log;
    } else if Failures(log) {
      FailuresGoOn(log, ok);
    } else if Repairing(log) {
      RepairGoesOn(log, ok);
    } else {
      RepairStarts(log, ForceClosed(true));
      RepairGoesOn(log + [ForceClosed(true)], ok);
      assert log + [ForceClosed(true)] + [ok] == log + [ForceClosed(true), ok];
    }
  }
}
