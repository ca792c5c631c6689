/** Theorems about every run of the client, dispatcher and supervisor, for any callers and any schedule. */
module Safety {
  import opened Words
  import opened Snapshots
  import opened Modbus
  import opened Machine
  import opened Invariants
  import opened Transactions

  /** Everything the steps keep; m0 is the controller's memory at the start. */
  ghost predicate Inv(cfg: Config, m0: Memory, s: State) {
    && cfg.Valid()
    && MutexInv(s)
    && SupInv(s)
    && GuardInv(cfg, s)
    && TransportInv(s)
    && CounterInv(cfg, s)
    && TokenInv(s)
    && AlarmInv(cfg, s)
    && ProtocolInv(s)
    && MemoryInv(m0, s)
    && TrailInv(s)
    && UpdateInv(m0, s)
  }

  lemma InvInit(cfg: Config, s: State)
    requires cfg.Valid() && Init(s)
    ensures Inv(cfg, s.link.memory, s)
  {
  }

  lemma {:induction false} InvKept(cfg: Config, m0: Memory, s: State, a: Action)
    requires Inv(cfg, m0, s) && Enabled(cfg, s, a)
    ensures Inv(cfg, m0, Next(cfg, s, a))
  {
    MutexKept(cfg, s, a);
    SupKept(cfg, s, a);
    GuardKept(cfg, s, a);
    TransportKept(cfg, s, a);
    CounterKept(cfg, s, a);
    TokenKept(cfg, s, a);
    AlarmKept(cfg, s, a);
    ProtocolKept(cfg, s, a);
    MemoryKept(m0, cfg, s, a);
    TrailKept(cfg, s, a);
    UpdateKept(m0, cfg, s, a);
  }

  lemma {:induction false} InvAlways(cfg: Config, s: State, acts: seq<Action>)
    requires cfg.Valid() && Init(s) && Runs(cfg, s, acts)
    ensures Inv(cfg, s.link.memory, Exec(cfg, s, acts))
  {
    if acts == [] {
      InvInit(cfg, s);
    } else {
      InvAlways(cfg, s, acts[..|acts| - 1]);
      InvKept(cfg, s.link.memory, Exec(cfg, s, acts[..|acts| - 1]), acts[|acts| - 1]);
    }
  }

  // ----- Theorems

  /** Between two successful opens of the transport, any two wire operations of any threads, and the two
      halves of one modify, are at least GuardInterval apart. */
  lemma {:induction false} GuardSpacing(cfg: Config, s: State, acts: seq<Action>)
    requires cfg.Valid() && Init(s) && Runs(cfg, s, acts)
    ensures Spaced(cfg, Exec(cfg, s, acts).trace)
  {
    InvAlways(cfg, s, acts);
  }

  lemma {:induction false} SpacingAlways(cfg: Config, s: State, acts: seq<Action>)
    requires cfg.Valid() && Init(s) && Runs(cfg, s, acts) && forall i :: 0 <= i < |acts| ==> IsPatient(cfg, acts[i])
    ensures SpacingInv(cfg, Exec(cfg, s, acts))
  {
    if acts != [] {
      var before := acts[..|acts| - 1];
      SpacingAlways(cfg, s, before);
      InvAlways(cfg, s, before);
      SpacingKept(cfg, Exec(cfg, s, before), acts[|acts| - 1]);
    }
  }

  /** In every run whose supervisor waits at least a guard interval after each teardown, any two wire operations are a
      guard interval apart, also when the transport was lost, torn down and opened again in between. */
  lemma {:induction false} SpacedAcrossReconnects(cfg: Config, s: State, acts: seq<Action>)
    requires cfg.Valid() && Init(s) && Runs(cfg, s, acts)
    requires forall i :: 0 <= i < |acts| && acts[i].SupClose? ==> acts[i].delay >= cfg.guard
    ensures AllSpaced(cfg, Exec(cfg, s, acts).trace)
  {
    SpacingAlways(cfg, s, acts);
  }

  /** Opens are torn down by ForceClose, lost to a transport error, or the one in use. So there is at most one open
      transport exactly when the transport errors so far, plus one for a live connection, are at most one. */
  lemma {:induction false} TransportConservation(cfg: Config, s: State, acts: seq<Action>)
    requires cfg.Valid() && Init(s) && Runs(cfg, s, acts)
    ensures var s' := Exec(cfg, s, acts);
            && Tally(s'.trace, IsOpening) == Tally(s'.trace, IsClosing) + Tally(s'.trace, IsBreaking)
                                             + (if s'.link.connected then 1 else 0)
            && StillOpen(s'.trace) >= 0
            && (StillOpen(s'.trace) <= 1 <==> Tally(s'.trace, IsBreaking) + (if s'.link.connected then 1 else 0) <= 1)
  {
    InvAlways(cfg, s, acts);
  }

  /** The dispatcher's counter is the length of the trailing run of failures; and once no thread is on its way
      to Trigger, the Trigger calls made are exactly the failures whose run had reached the threshold. */
  lemma {:induction false} CounterIsHistory(cfg: Config, s: State, acts: seq<Action>)
    requires cfg.Valid() && Init(s) && Runs(cfg, s, acts)
    ensures var s' := Exec(cfg, s, acts);
            && IsTrailingRun(Outcomes(s'.trace), s'.errs)
            && Tally(s'.trace, IsTrigger) <= Due(Outcomes(s'.trace), cfg.threshold)
            && ((forall t :: t in s'.threads ==> !s'.threads[t].Signal?) ==>
                  Tally(s'.trace, IsTrigger) == Due(Outcomes(s'.trace), cfg.threshold))
  {
    InvAlways(cfg, s, acts);
    var s' := Exec(cfg, s, acts);
    if forall t :: t in s'.threads ==> !s'.threads[t].Signal? {
      assert Signalling(s') == {};
    }
  }

  /** The channel is full exactly when a Trigger came after the last receive, so none is lost; and there are
      never more teardowns than Triggers. */
  lemma {:induction false} NoTriggerLost(cfg: Config, s: State, acts: seq<Action>)
    requires cfg.Valid() && Init(s) && Runs(cfg, s, acts)
    ensures var s' := Exec(cfg, s, acts);
            && (s'.token <==> TriggerPending(s'.trace))
            && Tally(s'.trace, IsTeardown) <= Tally(s'.trace, IsReceipt) <= Tally(s'.trace, IsTrigger)
  {
    InvAlways(cfg, s, acts);
  }

  /** The supervisor's log is cut from ConnectFail* ConnectOk (Receive ForceClose ConnectFail* ConnectOk)*.
      Connect's already-connected shortcut is never taken, so each ConnectOk opens a transport, and the client
      stays disconnected until it does. */
  lemma {:induction false} SupervisorFollowsProtocol(cfg: Config, s: State, acts: seq<Action>)
    requires cfg.Valid() && Init(s) && Runs(cfg, s, acts)
    ensures var s' := Exec(cfg, s, acts);
            && Completes(SupervisorLog(s'.trace))
            && (s'.sup.Listening? ==> Protocol(SupervisorLog(s'.trace)))
            && (forall i :: 0 <= i < |s'.trace| ==> !s'.trace[i].DialSkipped?)
            && (Reconnecting(s'.sup) ==> !s'.link.connected)
  {
    InvAlways(cfg, s, acts);
    var s' := Exec(cfg, s, acts);
    PrefixCompletes(SupervisorLog(s'.trace));
    NoSkips(s'.trace);
  }

  lemma {:induction false} NoSkips(tr: seq<Event>)
    requires ProtocolPrefix(SupervisorLog(tr))
    ensures forall i :: 0 <= i < |tr| ==> !tr[i].DialSkipped?
  {
    var log := SupervisorLog(tr);
    PrefixCompletes(log);
    var rest :| Protocol(log + rest);
    ProtocolHasNoSkip(log + rest);
    forall i | 0 <= i < |log| ensures !log[i].DialSkipped? {
      assert (log + rest)[i] == log[i];
    }
    LogKeepsSkips(tr);
  }

  lemma {:induction false} LogKeepsSkips(tr: seq<Event>)
    ensures forall i :: 0 <= i < |tr| && tr[i].DialSkipped? ==> tr[i] in SupervisorLog(tr)
  {
    if tr != [] {
      LogKeepsSkips(tr[..|tr| - 1]);
    }
  }

  predicate HasNoSkip(log: seq<Event>) {
    forall i :: 0 <= i < |log| ==> !log[i].DialSkipped?
  }

  lemma {:induction false} ProtocolHasNoSkip(log: seq<Event>)
    requires Protocol(log)
    ensures HasNoSkip(log)
  {
    if Session(log) {
      SessionHasNoSkip(log);
    } else {
      var k: nat :| k < |log| && RepairAt(log, k) && Protocol(log[..k]) && Session(log[k + 2..]);
      ProtocolHasNoSkip(log[..k]);
      SessionHasNoSkip(log[k + 2..]);
      RepairHasNoSkip(log, k);
    }
  }

  lemma RepairHasNoSkip(log: seq<Event>, k: nat)
    requires RepairAt(log, k) && HasNoSkip(log[..k]) && HasNoSkip(log[k + 2..])
    ensures HasNoSkip(log)
  {
    forall i | 0 <= i < |log| ensures !log[i].DialSkipped? {
      if i < k {
        assert log[i] == log[..k][i];
      } else if i >= k + 2 {
        assert log[i] == log[k + 2..][i - k - 2];
      }
    }
  }

  lemma SessionHasNoSkip(log: seq<Event>)
    requires Session(log)
    ensures HasNoSkip(log)
  {
    assert forall i :: 0 <= i < |log| - 1 ==> log[..|log| - 1][i] == log[i];
  }

  /** No stuck-disconnected state: if the supervisor is idle with no token while the client is disconnected,
      and no caller still owes a failure or a Trigger, the counter is below the threshold. */
  lemma {:induction false} NeverStuckDisconnected(cfg: Config, s: State, acts: seq<Action>)
    requires cfg.Valid() && Init(s) && Runs(cfg, s, acts)
    ensures var s' := Exec(cfg, s, acts);
            s'.sup.Listening? && !s'.link.connected && !s'.token
            && (forall t :: t in s'.threads ==> !OwesFailure(s'.threads[t]))
            ==> s'.errs < cfg.threshold
  {
    InvAlways(cfg, s, acts);
  }

  // ----- From such a state, failing calls force a Trigger

  predicate SupervisorActs(a: Action) {
    a.SupLock? || a.SupDialed? || a.SupWake? || a.SupReceive? || a.SupClose? || a.SupStop?
  }

  /** Disconnected, with an idle supervisor. */
  predicate Cut(s: State) {
    s.sup.Listening? && !s.link.connected
  }

  /** Operations that succeeded before the connection was lost and are not counted yet. */
  function LateSuccesses(s: State): set<Tid> {
    set t | t in s.threads && (s.threads[t].Unlocking? || s.threads[t].Report?) && s.threads[t].res.Ok?
  }

  predicate IsSuccess(e: Event) {
    e.Recorded? && e.ok
  }

  predicate IsFailure(e: Event) {
    e.Recorded? && !e.ok
  }

  /** The alarm has been raised, or a thread is about to raise it. */
  ghost predicate Alarmed(s: State) {
    s.token || exists t :: t in s.threads && s.threads[t].Signal?
  }

  lemma LateMoves(cfg: Config, s: State, a: Action)
    requires MutexInv(s) && Cut(s) && Enabled(cfg, s, a) && !SupervisorActs(a)
    ensures Cut(Next(cfg, s, a))
    ensures LateSuccesses(Next(cfg, s, a)) == if a.Record? then LateSuccesses(s) - {a.t} else LateSuccesses(s)
    ensures a.Record? && s.threads[a.t].res.Ok? ==> a.t in LateSuccesses(s)
    ensures a.Record? && s.threads[a.t].res.Err? ==> a.t !in LateSuccesses(s)
  {
  }

  lemma AlarmRings(cfg: Config, s: State, a: Action)
    requires cfg.Valid() && Enabled(cfg, s, a) && !SupervisorActs(a)
    requires s.errs >= cfg.threshold ==> Alarmed(s)
    requires Next(cfg, s, a).errs >= cfg.threshold
    ensures Alarmed(Next(cfg, s, a))
  {
    var s' := Next(cfg, s, a);
    if !s'.token {
      if a.Record? {
        assert s'.threads[a.t].Signal?;
      } else {
        var t :| t in s.threads && s.threads[t].Signal?;
        assert s'.threads[t].Signal?;
      }
    }
  }

  /** What a step records. */
  lemma RecordsMove(cfg: Config, s: State, a: Action)
    requires Enabled(cfg, s, a)
    ensures var s' := Next(cfg, s, a);
            && Tally(s'.trace, IsSuccess)
               == Tally(s.trace, IsSuccess) + (if a.Record? && s.threads[a.t].res.Ok? then 1 else 0)
            && Tally(s'.trace, IsFailure)
               == Tally(s.trace, IsFailure) + (if a.Record? && s.threads[a.t].res.Err? then 1 else 0)
  {
    var s', es := Next(cfg, s, a), EventsOf(cfg, s, a);
    assert s'.trace == s.trace + es by {
      TraceGrows(cfg, s, a);
    }
    CounterMoves(cfg, s, a);
    if es == [] {
      assert s'.trace == s.trace;
    } else {
      TallySnoc(s.trace, es[0], IsSuccess);
      TallySnoc(s.trace, es[0], IsFailure);
    }
  }

  /** From s to s', while the supervisor does nothing: the only successes counted are those of operations that had
      succeeded before; without such, the counter grows by the failures counted. */
  ghost predicate Starves(s: State, s': State) {
    var successes := Tally(s'.trace, IsSuccess) - Tally(s.trace, IsSuccess);
    var failures := Tally(s'.trace, IsFailure) - Tally(s.trace, IsFailure);
    && Cut(s') && LateSuccesses(s') <= LateSuccesses(s)
    && successes + |LateSuccesses(s')| == |LateSuccesses(s)|
    && (LateSuccesses(s) == {} ==> s'.errs == s.errs + failures)
  }

  lemma {:induction false} InvFollows(cfg: Config, m0: Memory, s: State, acts: seq<Action>)
    requires Inv(cfg, m0, s) && Runs(cfg, s, acts)
    ensures Inv(cfg, m0, Exec(cfg, s, acts))
  {
    if acts != [] {
      InvFollows(cfg, m0, s, acts[..|acts| - 1]);
      InvKept(cfg, m0, Exec(cfg, s, acts[..|acts| - 1]), acts[|acts| - 1]);
    }
  }

  lemma {:induction false} StarvesAndRings(cfg: Config, m0: Memory, s: State, acts: seq<Action>)
    requires Inv(cfg, m0, s) && Cut(s) && s.errs < cfg.threshold
    requires Runs(cfg, s, acts) && forall i :: 0 <= i < |acts| ==> !SupervisorActs(acts[i])
    ensures Starves(s, Exec(cfg, s, acts))
    ensures Exec(cfg, s, acts).errs >= cfg.threshold ==> Alarmed(Exec(cfg, s, acts))
  {
    if acts != [] {
      var before, a := acts[..|acts| - 1], acts[|acts| - 1];
      StarvesAndRings(cfg, m0, s, before);
      var s1 := Exec(cfg, s, before);
      assert MutexInv(s1) && cfg.Valid() by {
        InvFollows(cfg, m0, s, before);
      }
      LateMoves(cfg, s1, a);
      RecordsMove(cfg, s1, a);
      CounterMoves(cfg, s1, a);
      if Next(cfg, s1, a).errs >= cfg.threshold {
        AlarmRings(cfg, s1, a);
      }
    }
  }

  /** Starting disconnected and below the threshold, and until the supervisor reacts: the only successes counted are
      those of operations that had succeeded before; the counter is the run of failures since the last success; and
      when it reaches the threshold, the token is in the channel or a thread is at its Trigger call. With no late
      success that takes threshold - errs further failures. */
  lemma {:induction false} FailuresForceTrigger(cfg: Config, m0: Memory, s: State, acts: seq<Action>)
    requires Inv(cfg, m0, s) && Cut(s) && s.errs < cfg.threshold
    requires Runs(cfg, s, acts) && forall i :: 0 <= i < |acts| ==> !SupervisorActs(acts[i])
    ensures var s' := Exec(cfg, s, acts);
            && Starves(s, s')
            && IsTrailingRun(Outcomes(s'.trace), s'.errs)
            && (s'.errs >= cfg.threshold ==> Alarmed(s'))
  {
    StarvesAndRings(cfg, m0, s, acts);
    InvFollows(cfg, m0, s, acts);
  }

  // ----- Read-modify-write

  /** No update is lost, whatever the interleaving, the faults and the reconnects: the write half of a modify
      immediately follows its read half and writes the update of the register's value at that moment; so
      every holding register is the composition, in wire order, of the writes and updates that reached it. */
  lemma {:induction false} UpdatesCompose(cfg: Config, s: State, acts: seq<Action>, addr: Addr)
    requires cfg.Valid() && Init(s) && Runs(cfg, s, acts)
    ensures var s' := Exec(cfg, s, acts);
            && NoLostUpdate(s.link.memory, s'.trace)
            && s'.link.memory.holding[addr] == Composed(s'.trace, addr, s.link.memory.holding[addr])
  {
    InvAlways(cfg, s, acts);
    RegisterIsComposed(s.link.memory, Exec(cfg, s, acts).trace, addr);
  }

  /** While a thread holds the client's mutex, no other step touches the connection state, the guard clock, or
      the holding registers; and the supervisor cannot act on the transport. */
  lemma MutexProtects(cfg: Config, m0: Memory, s: State, a: Action, t: Tid)
    requires Inv(cfg, m0, s) && Enabled(cfg, s, a)
    requires s.owner == ByThread(t) && Mover(a) != Some(t)
    ensures var s' := Next(cfg, s, a);
            && s'.owner == s.owner && s'.threads[t] == s.threads[t]
            && s'.link.connected == s.link.connected && s'.link.lastOpAt == s.link.lastOpAt
            && s'.link.memory.holding == s.link.memory.holding
            && (forall e :: e in EventsOf(cfg, s, a) ==> !e.Exchanged? && !e.Dialed? && !e.ForceClosed?)
  {
    HolderExcludes(cfg, s, a, t);
  }

  lemma HolderExcludes(cfg: Config, s: State, a: Action, t: Tid)
    requires MutexInv(s) && Enabled(cfg, s, a) && s.owner == ByThread(t) && Mover(a) != Some(t)
    ensures !a.Lock? && !a.Answer? && !a.Unlock? && !a.SupLock? && !a.SupDialed? && !a.SupClose?
    ensures t in s.threads
  {
  }

  // ----- Nothing deadlocks

  /** Steps left at most until the holder gives the mutex back. */
  function Burden(pc: Pc): nat {
    match pc
    case Locked(_) => 5
    case Gate(_, _) => 4
    case Asleep(_, _, _) => 3
    case OnWire(_, _, _) => 2
    case Unlocking(_, _) => 1
    case _ => 0
  }

  /** The mutex is always given back: its holder has a step of its own, if need be after time passes, that brings
      the release closer. */
  lemma HolderCanStep(cfg: Config, s: State) returns (wait: Time, a: Action)
    requires MutexInv(s) && ClockInv(cfg, s) && s.owner != Nobody
    ensures Enabled(cfg, s, Tick(wait)) && Enabled(cfg, Next(cfg, s, Tick(wait)), a)
    ensures s.owner.ByThread? ==>
              var t := s.owner.t;
              && Mover(a) == Some(t) && !a.Call? && !a.Record? && !a.Trigger?
              && Burden(Next(cfg, Next(cfg, s, Tick(wait)), a).threads[t]) < Burden(s.threads[t])
    ensures s.owner == BySupervisor ==> a.SupDialed? && a.ok
  {
    wait := s.link.now;
    if s.owner == BySupervisor {
      a := SupDialed(true, 0);
    } else {
      var t := s.owner.t;
      match s.threads[t] {
        case Locked(_) => a := Check(t);
        case Gate(_, _) => a := if GuardOver(cfg, s.link) then Go(t) else Sleep(t);
        case Asleep(_, _, until) =>
          wait := if until > s.link.now then until else s.link.now;
          a := Go(t);
        case OnWire(req, leg, start) => a := Answer(t, Fault(RawError(true, false, false, None), false), s.link.now);
        case Unlocking(_, _) => a := Unlock(t);
      }
    }
  }
}
