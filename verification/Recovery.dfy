/** The self-healing loop can always heal: no reachable state traps the bridge without a connection. And what a repair
    leaves behind: open transports, and a guard interval only as long as its wait. */
module Recovery {
  import opened Words
  import opened Modbus
  import opened Snapshots
  import opened Machine
  import opened Invariants
  import opened Client
  import opened Transactions
  import Safety
  import B = Backoff

  /** The invariants that keep the mutex's holder moving. */
  ghost predicate Sound(cfg: Config, s: State) {
    cfg.Valid() && MutexInv(s) && GuardInv(cfg, s)
  }

  /** One more step of a run that keeps the invariants. */
  lemma Extend(cfg: Config, r: Run, a: Action) returns (r': Run)
    requires IsRun(cfg, r) && Sound(cfg, r.cur) && Enabled(cfg, r.cur, a)
    ensures IsRun(cfg, r') && Sound(cfg, r'.cur) && r'.start == r.start && r'.cur == Next(cfg, r.cur, a)
    ensures r'.acts == r.acts + [a]
  {
    MutexKept(cfg, r.cur, a);
    GuardKept(cfg, r.cur, a);
    Snoc(r.acts, a);
    r' := Run(r.start, r.acts + [a], Next(cfg, r.cur, a));
  }

  /** r' goes on from r, with the same threads, and the supervisor alive. */
  ghost predicate LivesOn(cfg: Config, r: Run, r': Run) {
    && IsRun(cfg, r') && Sound(cfg, r'.cur) && r'.start == r.start && r.acts <= r'.acts
    && r'.cur.threads.Keys == r.cur.threads.Keys && !r'.cur.sup.Stopped? && r.cur.link.now <= r'.cur.link.now
  }

  /** Also, no transport is torn down. */
  ghost predicate GoesOn(cfg: Config, r: Run, r': Run) {
    LivesOn(cfg, r, r') && forall i :: |r.acts| <= i < |r'.acts| ==> !r'.acts[i].SupClose?
  }

  /** Also, no call begins or returns. */
  ghost predicate GoesQuietly(cfg: Config, r: Run, r': Run) {
    GoesOn(cfg, r, r') && forall i :: |r.acts| <= i < |r'.acts| ==> IsInternal(r'.acts[i])
  }

  /** The wait after each teardown is pause. */
  predicate Pauses(acts: seq<Action>, from: nat, pause: nat) {
    forall i :: from <= i < |acts| && acts[i].SupClose? ==> acts[i].delay == pause
  }

  /** r' goes on from r; transports may be torn down. */
  ghost predicate Mends(cfg: Config, pause: nat, r: Run, r': Run) {
    LivesOn(cfg, r, r') && Pauses(r'.acts, |r.acts|, pause)
  }

  /** One more quiet step. */
  lemma Quiet(cfg: Config, r: Run, r1: Run, a: Action) returns (r': Run)
    requires GoesQuietly(cfg, r, r1) && Enabled(cfg, r1.cur, a) && IsInternal(a) && !a.SupStop? && !a.SupClose?
    ensures GoesQuietly(cfg, r, r') && r'.cur == Next(cfg, r1.cur, a)
  {
    r' := Extend(cfg, r1, a);
    TraceGrows(cfg, r1.cur, a);
  }

  lemma QuietlyOn(cfg: Config, r: Run, r1: Run, r2: Run)
    requires GoesQuietly(cfg, r, r1) && GoesQuietly(cfg, r1, r2)
    ensures GoesQuietly(cfg, r, r2)
  {
  }

  ghost predicate Healed(s: State) {
    s.sup.Listening? && s.link.connected
  }

  // ----- The mutex comes free

  /** A step of the thread that holds the mutex. */
  lemma HolderStep(cfg: Config, s: State, a: Action, t: Tid)
    requires MutexInv(s) && Enabled(cfg, s, a) && s.owner == ByThread(t)
    requires Mover(a) == Some(t) && !a.Call? && !a.Record? && !a.Trigger?
    ensures IsInternal(a) && !a.SupStop? && !a.SupClose?
    ensures var s' := Next(cfg, s, a);
            && s'.errs == s.errs && s'.token == s.token && s'.sup == s.sup && s'.threads.Keys == s.threads.Keys
            && (forall u :: u in s.threads && u != t ==> s'.threads[u] == s.threads[u])
            && (s'.owner == s.owner || (s'.owner == Nobody && s'.threads[t].Report?))
  {
  }

  lemma {:induction false} HolderLeaves(cfg: Config, r: Run, t: Tid) returns (r': Run)
    requires IsRun(cfg, r) && Sound(cfg, r.cur) && !r.cur.sup.Stopped?
    requires r.cur.owner == ByThread(t)
    ensures GoesQuietly(cfg, r, r') && r'.cur.owner == Nobody && r'.cur.sup == r.cur.sup
    ensures r'.cur.errs == r.cur.errs && r'.cur.token == r.cur.token
    ensures t in r.cur.threads && r'.cur.threads[t].Report?
    decreases Safety.Burden(r.cur.threads[t])
  {
    var wait, a := Safety.HolderCanStep(cfg, r.cur);
    var r1 := Quiet(cfg, r, r, Tick(wait));
    HolderStep(cfg, r1.cur, a, t);
    r' := Quiet(cfg, r, r1, a);
    if r'.cur.owner != Nobody {
      var r2 := r';
      r' := HolderLeaves(cfg, r2, t);
      QuietlyOn(cfg, r, r2, r');
    }
  }

  /** Whoever holds the mutex, it comes free; if the supervisor does, with a connection. */
  lemma MutexComesFree(cfg: Config, r: Run) returns (r': Run)
    requires IsRun(cfg, r) && Sound(cfg, r.cur) && !r.cur.sup.Stopped?
    ensures GoesQuietly(cfg, r, r') && r'.cur.owner == Nobody
    ensures r.cur.owner == BySupervisor ==> Healed(r'.cur)
  {
    r' := r;
    if r.cur.owner == BySupervisor {
      r' := Quiet(cfg, r, r, SupDialed(true, 0));
    } else if r.cur.owner.ByThread? {
      r' := HolderLeaves(cfg, r', r.cur.owner.t);
    }
  }

  // ----- A thread's call comes to its end

  /** A waiting thread gets the mutex, and through. */
  lemma CallReports(cfg: Config, r: Run, t: Tid) returns (r': Run)
    requires IsRun(cfg, r) && Sound(cfg, r.cur) && !r.cur.sup.Stopped?
    requires t in r.cur.threads && r.cur.threads[t].Want? && r.cur.owner == Nobody
    ensures GoesQuietly(cfg, r, r') && r'.cur.owner == Nobody && r'.cur.sup == r.cur.sup
    ensures r'.cur.threads[t].Report?
  {
    var r1 := Quiet(cfg, r, r, Lock(t));
    r' := HolderLeaves(cfg, r1, t);
    QuietlyOn(cfg, r, r1, r');
  }

  /** The outcome is counted, and signalled if it has to be. */
  lemma CallCounted(cfg: Config, r: Run, t: Tid) returns (r': Run)
    requires IsRun(cfg, r) && Sound(cfg, r.cur) && !r.cur.sup.Stopped?
    requires t in r.cur.threads && r.cur.threads[t].Report?
    ensures GoesQuietly(cfg, r, r') && r'.cur.owner == r.cur.owner && r'.cur.sup == r.cur.sup
    ensures r'.cur.link == r.cur.link
    ensures r'.cur.threads[t] == Done(r.cur.threads[t].req, r.cur.threads[t].res)
    ensures r'.cur.errs == if r.cur.threads[t].res.Ok? then 0 else r.cur.errs + 1
    ensures r.cur.threads[t].res.Err? && r'.cur.errs >= cfg.threshold ==> r'.cur.token
  {
    r' := Quiet(cfg, r, r, Record(t));
    if r'.cur.threads[t].Signal? {
      r' := Quiet(cfg, r, r', Trigger(t));
    }
  }

  /** Up to its return. */
  lemma CallConcluded(cfg: Config, r: Run, t: Tid) returns (r': Run)
    requires IsRun(cfg, r) && Sound(cfg, r.cur) && !r.cur.sup.Stopped?
    requires t in r.cur.threads && !r.cur.threads[t].Idle? && r.cur.owner == Nobody
    ensures GoesQuietly(cfg, r, r') && r'.cur.owner == Nobody && r'.cur.sup == r.cur.sup
    ensures r'.cur.threads[t].Done?
  {
    match r.cur.threads[t] {
      case Want(_) =>
        var r1 := CallReports(cfg, r, t);
        r' := CallCounted(cfg, r1, t);
        QuietlyOn(cfg, r, r1, r');
      case Report(_, _) => r' := CallCounted(cfg, r, t);
      case Signal(_, _) => r' := Quiet(cfg, r, r, Trigger(t));
      case Done(_, _) => r' := r;
    }
  }

  lemma CallEnds(cfg: Config, r: Run, t: Tid) returns (r': Run)
    requires IsRun(cfg, r) && Sound(cfg, r.cur) && !r.cur.sup.Stopped?
    requires t in r.cur.threads && r.cur.owner == Nobody
    ensures GoesOn(cfg, r, r') && r'.cur.owner == Nobody && r'.cur.sup == r.cur.sup
    ensures r'.cur.threads[t].Idle?
  {
    r' := r;
    if !r.cur.threads[t].Idle? {
      r' := CallConcluded(cfg, r, t);
      r' := Extend(cfg, r', Return(t));
    }
  }

  // ----- The supervisor repairs

  lemma SupervisorRepairs(cfg: Config, r: Run, pause: nat) returns (r': Run)
    requires IsRun(cfg, r) && Sound(cfg, r.cur) && !r.cur.sup.Stopped? && r.cur.owner == Nobody
    requires r.cur.sup.Listening? ==> r.cur.token || r.cur.link.connected
    ensures Mends(cfg, pause, r, r') && Healed(r'.cur)
    ensures forall i :: |r.acts| <= i < |r'.acts| ==> IsInternal(r'.acts[i])
    ensures r'.cur.owner == Nobody && r'.cur.threads == r.cur.threads
    ensures Safety.Cut(r.cur) ==>
              r'.cur.link.now == r.cur.link.now + pause && r'.cur.link.lastOpAt == ZERO_TIME
  {
    r' := r;
    if !Healed(r.cur) {
      if r'.cur.sup.Listening? {
        r' := Quiet(cfg, r, r', SupReceive);
      }
      if r'.cur.sup.Closing? {
        r' := Closes(cfg, r', pause);
      }
      r' := Redials(cfg, r');
    }
  }

  lemma Closes(cfg: Config, r: Run, pause: nat) returns (r': Run)
    requires IsRun(cfg, r) && Sound(cfg, r.cur) && r.cur.owner == Nobody && r.cur.sup.Closing?
    ensures Mends(cfg, pause, r, r') && r'.cur.owner == Nobody && r'.cur.threads == r.cur.threads
    ensures r'.acts == r.acts + [SupClose(pause)]
    ensures r'.cur.sup == Resting(false, r.cur.link.now + pause) && r'.cur.link.now == r.cur.link.now
  {
    r' := Extend(cfg, r, SupClose(pause));
  }

  /** When the supervisor can dial. */
  function WokenAt(s: State): Time {
    if s.sup.Resting? && s.sup.until > s.link.now then s.sup.until else s.link.now
  }

  lemma Wakes(cfg: Config, r: Run) returns (r': Run)
    requires IsRun(cfg, r) && Sound(cfg, r.cur) && r.cur.owner == Nobody && r.cur.sup.Resting?
    ensures GoesQuietly(cfg, r, r') && r'.cur.owner == Nobody && r'.cur.sup.WantsDial?
    ensures r'.cur.threads == r.cur.threads && r'.cur.link == r.cur.link.(now := WokenAt(r.cur))
  {
    r' := Quiet(cfg, r, r, Tick(WokenAt(r.cur)));
    r' := Quiet(cfg, r, r', SupWake);
  }

  lemma Redials(cfg: Config, r: Run) returns (r': Run)
    requires IsRun(cfg, r) && Sound(cfg, r.cur) && r.cur.owner == Nobody
    requires r.cur.sup.Resting? || r.cur.sup.WantsDial?
    ensures GoesQuietly(cfg, r, r') && Healed(r'.cur)
    ensures r'.cur.owner == Nobody && r'.cur.threads == r.cur.threads
    ensures !r.cur.link.connected ==> r'.cur.link.now == WokenAt(r.cur) && r'.cur.link.lastOpAt == ZERO_TIME
  {
    r' := r;
    if r'.cur.sup.Resting? {
      r' := Wakes(cfg, r');
    }
    r' := Quiet(cfg, r, r', SupLock);
    r' := Quiet(cfg, r, r', SupDialed(true, 0));
  }

  // ----- Failing calls wake an idle supervisor

  /** A call while disconnected fails and counts. */
  lemma CallCounts(cfg: Config, r: Run, t: Tid, req: Request) returns (r': Run)
    requires IsRun(cfg, r) && Sound(cfg, r.cur) && r.cur.owner == Nobody && !r.cur.sup.Stopped?
    requires !r.cur.link.connected && t in r.cur.threads && r.cur.threads[t] == Want(req)
    ensures GoesQuietly(cfg, r, r') && r'.cur.owner == Nobody && r'.cur.sup == r.cur.sup
    ensures r'.cur.link == r.cur.link && r'.cur.threads[t] == Done(req, Err(NotConnected))
    ensures r'.cur.errs == r.cur.errs + 1 && (r'.cur.errs >= cfg.threshold ==> r'.cur.token)
  {
    var r1 := CallRefused(cfg, r, t, req);
    r' := CallCounted(cfg, r1, t);
    QuietlyOn(cfg, r, r1, r');
  }

  lemma CallRefused(cfg: Config, r: Run, t: Tid, req: Request) returns (r': Run)
    requires IsRun(cfg, r) && Sound(cfg, r.cur) && r.cur.owner == Nobody && !r.cur.sup.Stopped?
    requires !r.cur.link.connected && t in r.cur.threads && r.cur.threads[t] == Want(req)
    ensures GoesQuietly(cfg, r, r') && r'.cur.owner == Nobody && r'.cur.sup == r.cur.sup
    ensures r'.cur.link == r.cur.link && r'.cur.errs == r.cur.errs
    ensures r'.cur.threads[t] == Report(req, Err(NotConnected))
  {
    r' := Quiet(cfg, r, r, Lock(t));
    r' := Quiet(cfg, r, r', Check(t));
    r' := Quiet(cfg, r, r', Unlock(t));
  }

  lemma CallFails(cfg: Config, r: Run, t: Tid, req: Request) returns (r': Run)
    requires IsRun(cfg, r) && Sound(cfg, r.cur) && r.cur.owner == Nobody && !r.cur.sup.Stopped?
    requires !r.cur.link.connected && t in r.cur.threads && r.cur.threads[t].Idle? && ValidCount(req)
    ensures GoesOn(cfg, r, r') && r'.cur.owner == Nobody && r'.cur.sup == r.cur.sup
    ensures r'.cur.link == r.cur.link && r'.cur.threads[t].Idle?
    ensures r'.cur.errs == r.cur.errs + 1 && (r'.cur.errs >= cfg.threshold ==> r'.cur.token)
  {
    r' := Extend(cfg, r, Call(t, req));
    r' := CallCounts(cfg, r', t, req);
    r' := Extend(cfg, r', Return(t));
  }

  lemma {:induction false} FailuresHeal(cfg: Config, r: Run, t: Tid, req: Request, pause: nat) returns (r': Run)
    requires IsRun(cfg, r) && Sound(cfg, r.cur) && r.cur.owner == Nobody && r.cur.sup.Listening?
    requires !r.cur.link.connected && t in r.cur.threads && r.cur.threads[t].Idle? && ValidCount(req)
    ensures Mends(cfg, pause, r, r') && Healed(r'.cur) && r'.cur.owner == Nobody && r'.cur.threads[t].Idle?
    ensures r'.cur.link.now == r.cur.link.now + pause && r'.cur.link.lastOpAt == ZERO_TIME
    decreases if r.cur.errs < cfg.threshold then cfg.threshold - r.cur.errs else 0
  {
    r' := CallFails(cfg, r, t, req);
    if r'.cur.token {
      r' := SupervisorRepairs(cfg, r', pause);
    } else {
      r' := FailuresHeal(cfg, r', t, req, pause);
    }
  }

  // ----- The theorem

  /** From every reachable state in which the supervisor runs, and some thread can call, the run can go on to a
      connected client and an idle supervisor: whoever holds the mutex, whatever was lost, however many failures
      were counted, whatever request the thread makes, and however long the supervisor waits after a teardown. */
  lemma AlwaysRecoverable(cfg: Config, s: State, acts: seq<Action>, t: Tid, req: Request, pause: nat)
      returns (more: seq<Action>)
    requires cfg.Valid() && Init(s) && Runs(cfg, s, acts)
    requires t in Exec(cfg, s, acts).threads && !Exec(cfg, s, acts).sup.Stopped? && ValidCount(req)
    ensures Runs(cfg, s, acts + more) && Healed(Exec(cfg, s, acts + more)) && Pauses(acts + more, |acts|, pause)
  {
    Safety.InvAlways(cfg, s, acts);
    var r := Recovers(cfg, Run(s, acts, Exec(cfg, s, acts)), t, req, pause);
    more := r.acts[|acts|..];
    assert acts + more == r.acts;
  }

  lemma Recovers(cfg: Config, r: Run, t: Tid, req: Request, pause: nat) returns (r': Run)
    requires IsRun(cfg, r) && Sound(cfg, r.cur) && !r.cur.sup.Stopped? && t in r.cur.threads && ValidCount(req)
    ensures Mends(cfg, pause, r, r') && Healed(r'.cur)
  {
    r' := MutexComesFree(cfg, r);
    if !Healed(r'.cur) {
      r' := CallEnds(cfg, r', t);
      if r'.cur.sup.Listening? && !r'.cur.token && !r'.cur.link.connected {
        r' := FailuresHeal(cfg, r', t, req, pause);
      } else {
        r' := SupervisorRepairs(cfg, r', pause);
      }
    }
  }

  // ----- Healing is inevitable

  /** The supervisor's steps left to a repaired connection, if its next dial succeeds. */
  function Rank(sup: Supervisor): nat {
    match sup
    case Listening => 5
    case Closing => 4
    case Resting(_, _) => 3
    case WantsDial(_) => 2
    case Dialing(_) => 1
    case Stopped => 0
  }

  predicate IsFailedDial(a: Action) {
    a.SupDialed? && !a.ok
  }

  function CountActions(acts: seq<Action>, p: Action -> bool): nat {
    if acts == [] then 0 else CountActions(acts[..|acts| - 1], p) + if p(acts[|acts| - 1]) then 1 else 0
  }

  /** One step: the supervisor's own bring it closer, but a failed dial takes it back to its wait. */
  lemma RankMoves(cfg: Config, s: State, a: Action)
    requires Enabled(cfg, s, a) && !a.SupStop? && !s.sup.Stopped?
    ensures var s' := Next(cfg, s, a);
            && !s'.sup.Stopped?
            && (Healed(s')
                || Rank(s'.sup) + (if Safety.SupervisorActs(a) then 1 else 0)
                   == Rank(s.sup) + (if IsFailedDial(a) then 3 else 0))
  {
  }

  /** The moment of healing, or how far the supervisor has come. */
  lemma {:induction false} HealsOrRanks(cfg: Config, s: State, acts: seq<Action>) returns (n: nat)
    requires !s.sup.Stopped? && Runs(cfg, s, acts) && forall i :: 0 <= i < |acts| ==> !acts[i].SupStop?
    ensures n <= |acts| && Runs(cfg, s, acts[..n]) && !Exec(cfg, s, acts).sup.Stopped?
    ensures Healed(Exec(cfg, s, acts[..n]))
            || CountActions(acts, Safety.SupervisorActs) + Rank(Exec(cfg, s, acts).sup)
               == Rank(s.sup) + 3 * CountActions(acts, IsFailedDial)
  {
    n := |acts|;
    assert acts[..n] == acts;
    if acts != [] {
      var before := acts[..|acts| - 1];
      var m := HealsOrRanks(cfg, s, before);
      RankMoves(cfg, Exec(cfg, s, before), acts[|acts| - 1]);
      if Healed(Exec(cfg, s, before[..m])) {
        assert before[..m] == acts[..m];
        n := m;
      }
    }
  }

  /** Every run in which the supervisor is not stopped and takes five steps of its own, and three more for each dial
      that failed, passes through a healed state, whatever the callers and the clock do in between. */
  lemma {:induction false} HealingIsInevitable(cfg: Config, s: State, acts: seq<Action>) returns (n: nat)
    requires !s.sup.Stopped? && Runs(cfg, s, acts) && forall i :: 0 <= i < |acts| ==> !acts[i].SupStop?
    requires CountActions(acts, Safety.SupervisorActs) >= Rank(s.sup) + 3 * CountActions(acts, IsFailedDial)
    ensures n <= |acts| && Runs(cfg, s, acts[..n]) && Healed(Exec(cfg, s, acts[..n]))
  {
    n := HealsOrRanks(cfg, s, acts);
  }

  /** And those steps can be taken: once the mutex is free and, if the supervisor is idle, the token is there, time
      passing enables a step of its own. */
  lemma SupervisorCanStep(cfg: Config, s: State) returns (wait: Time, a: Action)
    requires MutexInv(s) && !s.sup.Stopped? && (s.owner == Nobody || s.owner == BySupervisor)
    requires s.sup.Listening? ==> s.token
    ensures Enabled(cfg, s, Tick(wait)) && Enabled(cfg, Next(cfg, s, Tick(wait)), a)
    ensures Safety.SupervisorActs(a) && !a.SupStop? && !IsFailedDial(a)
    ensures var s' := Next(cfg, Next(cfg, s, Tick(wait)), a);
            Healed(s') || Rank(s'.sup) < Rank(s.sup)
  {
    wait := WokenAt(s);
    match s.sup {
      case Listening => a := SupReceive;
      case Closing => a := SupClose(0);
      case Resting(_, _) => a := SupWake;
      case WantsDial(_) => a := SupLock;
      case Dialing(_) => a := SupDialed(true, 0);
    }
  }

  // ----- What a repair leaves behind

  /** A history only grows. */
  lemma {:induction false} TraceStays(cfg: Config, r: Run, r': Run)
    requires IsRun(cfg, r) && IsRun(cfg, r') && r'.start == r.start && r.acts <= r'.acts
    ensures r.cur.trace <= r'.cur.trace
    decreases |r'.acts|
  {
    if |r.acts| < |r'.acts| {
      var before, a := r'.acts[..|r'.acts| - 1], r'.acts[|r'.acts| - 1];
      var r1 := Run(r'.start, before, Exec(cfg, r'.start, before));
      TraceStays(cfg, r, r1);
      TraceGrows(cfg, r1.cur, a);
    } else {
      assert r.acts == r'.acts;
    }
  }

  /** Transport errors stay in the history. */
  lemma {:induction false} BreaksStay(cfg: Config, r: Run, r': Run)
    requires IsRun(cfg, r) && IsRun(cfg, r') && r'.start == r.start && r.acts <= r'.acts
    ensures Tally(r.cur.trace, IsBreaking) <= Tally(r'.cur.trace, IsBreaking)
    decreases |r'.acts|
  {
    if |r.acts| < |r'.acts| {
      var before, a := r'.acts[..|r'.acts| - 1], r'.acts[|r'.acts| - 1];
      var r1 := Run(r'.start, before, Exec(cfg, r'.start, before));
      BreaksStay(cfg, r, r1);
      TraceGrows(cfg, r1.cur, a);
      if EventsOf(cfg, r1.cur, a) == [] {
        assert r'.cur.trace == r1.cur.trace;
      } else {
        TallySnoc(r1.cur.trace, EventsOf(cfg, r1.cur, a)[0], IsBreaking);
      }
    } else {
      assert r.acts == r'.acts;
    }
  }

  /** A thread reaches the wire of a connected client. */
  lemma CallReachesWire(cfg: Config, r: Run, t: Tid) returns (r': Run)
    requires IsRun(cfg, r) && Sound(cfg, r.cur) && Healed(r.cur) && r.cur.owner == Nobody
    requires t in r.cur.threads && r.cur.threads[t].Want?
    ensures GoesQuietly(cfg, r, r') && Healed(r'.cur) && r'.cur.owner == ByThread(t)
    ensures r'.cur.threads[t] == OnWire(r.cur.threads[t].req, First, r'.cur.link.now)
    ensures GuardOver(cfg, r.cur.link) ==> r'.cur.link == r.cur.link
    ensures r'.cur.link.memory == r.cur.link.memory
  {
    r' := Quiet(cfg, r, r, Lock(t));
    r' := Quiet(cfg, r, r', Check(t));
    if !GuardOver(cfg, r'.cur.link) {
      r' := Quiet(cfg, r, r', Tick(r.cur.link.lastOpAt + cfg.guard));
    }
    r' := Quiet(cfg, r, r', Action.Go(t));
  }

  /** Its read is answered in full. */
  lemma ReadSucceeds(cfg: Config, r: Run, t: Tid, words: seq<Word>) returns (r': Run)
    requires IsRun(cfg, r) && Sound(cfg, r.cur) && Healed(r.cur) && r.cur.owner == ByThread(t)
    requires t in r.cur.threads && r.cur.threads[t].OnWire? && r.cur.threads[t].start <= r.cur.link.now
    requires var req := r.cur.threads[t].req;
             && req.Read? && req.start + req.count <= BANK_SIZE
             && words == Slice(r.cur.link.memory, req.bank, req.start, req.count)
    ensures GoesQuietly(cfg, r, r') && Healed(r'.cur) && r'.cur.owner == Nobody
    ensures r'.cur.threads[t] == Report(r.cur.threads[t].req, Ok(words))
    ensures r'.cur.link.memory == r.cur.link.memory
  {
    DecodeAfterEncode(words);
    var reply := Data(Encode(words));
    r' := Quiet(cfg, r, r, Answer(t, reply, r.cur.link.now));
    r' := Quiet(cfg, r, r', Unlock(t));
  }

  /** A read of a connected client can be answered in full. */
  lemma ReadInFull(cfg: Config, r: Run, t: Tid) returns (r': Run, words: seq<Word>)
    requires IsRun(cfg, r) && Sound(cfg, r.cur) && Healed(r.cur) && r.cur.owner == Nobody
    requires t in r.cur.threads && r.cur.threads[t].Want?
    requires var req := r.cur.threads[t].req; req.Read? && req.start + req.count <= BANK_SIZE
    ensures GoesQuietly(cfg, r, r') && Healed(r'.cur) && r'.cur.owner == Nobody
    ensures r'.cur.threads[t] == Done(r.cur.threads[t].req, Ok(words)) && |words| == r.cur.threads[t].req.count
    ensures r'.cur.link.memory == r.cur.link.memory
    ensures var req := r.cur.threads[t].req; words == Slice(r.cur.link.memory, req.bank, req.start, req.count)
  {
    var r1 := CallReachesWire(cfg, r, t);
    var req := r.cur.threads[t].req;
    words := Slice(r1.cur.link.memory, req.bank, req.start, req.count);
    var r2 := ReadSucceeds(cfg, r1, t, words);
    r' := CallCounted(cfg, r2, t);
    QuietlyOn(cfg, r1, r2, r');
    QuietlyOn(cfg, r, r1, r');
  }

  // ----- A call of a connected client can succeed

  /** What a request that succeeds leaves in the holding registers. */
  function Written(req: Request, holding: Bank): Bank {
    match req
    case Read(_, _, _) => holding
    case Write(addr, value) => holding[addr := value]
    case Modify(addr, update) => holding[addr := update(holding[addr]).GetOr(holding[addr])]
  }

  /** An operation on the wire that writes is acknowledged, and its call reports success. */
  lemma Acknowledged(cfg: Config, r: Run, t: Tid) returns (r': Run)
    requires IsRun(cfg, r) && Sound(cfg, r.cur) && Healed(r.cur) && r.cur.owner == ByThread(t)
    requires t in r.cur.threads && r.cur.threads[t].OnWire? && r.cur.threads[t].start <= r.cur.link.now
    requires AccessOf(r.cur.threads[t].req, r.cur.threads[t].leg).WriteRegister?
    ensures GoesQuietly(cfg, r, r') && Healed(r'.cur) && r'.cur.owner == Nobody
    ensures r'.cur.threads[t] == Report(r.cur.threads[t].req, Ok([]))
    ensures var access := AccessOf(r.cur.threads[t].req, r.cur.threads[t].leg);
            r'.cur.link.memory.holding == r.cur.link.memory.holding[access.addr := access.value]
  {
    r' := Quiet(cfg, r, r, Answer(t, Ack, r.cur.link.now));
    r' := Quiet(cfg, r, r', Unlock(t));
  }

  /** The read half of a modify is answered, and its write half reaches the wire. */
  lemma ModifyGoesOn(cfg: Config, r: Run, t: Tid) returns (r': Run)
    requires IsRun(cfg, r) && Sound(cfg, r.cur) && Healed(r.cur) && r.cur.owner == ByThread(t)
    requires t in r.cur.threads && r.cur.threads[t].OnWire? && r.cur.threads[t].start <= r.cur.link.now
    requires r.cur.threads[t].req.Modify? && r.cur.threads[t].leg.First?
    requires var req := r.cur.threads[t].req; req.update(r.cur.link.memory.holding[req.addr]).Some?
    ensures GoesQuietly(cfg, r, r') && Healed(r'.cur) && r'.cur.owner == ByThread(t)
    ensures r'.cur.link.memory == r.cur.link.memory
    ensures var req := r.cur.threads[t].req;
            r'.cur.threads[t] == OnWire(req, Second(req.update(r.cur.link.memory.holding[req.addr]).value),
                                        r'.cur.link.now)
  {
    var r1 := ReadHalf(cfg, r, t);
    r' := r1;
    if !GuardOver(cfg, r'.cur.link) {
      r' := Quiet(cfg, r, r', Tick(r'.cur.link.lastOpAt + cfg.guard));
    }
    r' := Quiet(cfg, r, r', Action.Go(t));
  }

  lemma ReadHalf(cfg: Config, r: Run, t: Tid) returns (r': Run)
    requires IsRun(cfg, r) && Sound(cfg, r.cur) && Healed(r.cur) && r.cur.owner == ByThread(t)
    requires t in r.cur.threads && r.cur.threads[t].OnWire? && r.cur.threads[t].start <= r.cur.link.now
    requires r.cur.threads[t].req.Modify? && r.cur.threads[t].leg.First?
    requires var req := r.cur.threads[t].req; req.update(r.cur.link.memory.holding[req.addr]).Some?
    ensures GoesQuietly(cfg, r, r') && Healed(r'.cur) && r'.cur.owner == ByThread(t)
    ensures r'.cur.link.memory == r.cur.link.memory && r'.cur.link.lastOpAt == r'.cur.link.now
    ensures var req := r.cur.threads[t].req;
            r'.cur.threads[t] == Gate(req, Second(req.update(r.cur.link.memory.holding[req.addr]).value))
  {
    var req := r.cur.threads[t].req;
    var value := r.cur.link.memory.holding[req.addr];
    DecodeAfterEncode([value]);
    assert Slice(r.cur.link.memory, HoldingRegisters, req.addr, 1) == [value];
    r' := Quiet(cfg, r, r, Answer(t, Data(Encode([value])), r.cur.link.now));
  }

  /** A write or modify of a connected client can succeed. */
  lemma CallSucceeds(cfg: Config, r: Run, t: Tid) returns (r': Run)
    requires IsRun(cfg, r) && Sound(cfg, r.cur) && Healed(r.cur) && r.cur.owner == Nobody
    requires t in r.cur.threads && r.cur.threads[t].Want? && !r.cur.threads[t].req.Read?
    requires var req := r.cur.threads[t].req;
             req.Modify? ==> req.update(r.cur.link.memory.holding[req.addr]).Some?
    ensures GoesQuietly(cfg, r, r') && Healed(r'.cur) && r'.cur.owner == Nobody
    ensures r'.cur.threads[t] == Done(r.cur.threads[t].req, Ok([]))
    ensures r'.cur.link.memory.holding == Written(r.cur.threads[t].req, r.cur.link.memory.holding)
  {
    var r1 := CallReachesWire(cfg, r, t);
    var r2 := r1;
    if r.cur.threads[t].req.Modify? {
      r2 := ModifyGoesOn(cfg, r1, t);
    }
    var r3 := Acknowledged(cfg, r2, t);
    r' := CallCounted(cfg, r3, t);
    QuietlyOn(cfg, r2, r3, r');
    QuietlyOn(cfg, r1, r2, r');
    QuietlyOn(cfg, r, r1, r');
  }

  const TIMED_OUT := Fault(RawError(true, false, false, None), false)

  /** The history ends with a wire operation. */
  predicate EndsExchanged(tr: seq<Event>) {
    tr != [] && tr[|tr| - 1].Exchanged?
  }

  /** A timeout on the wire is one more transport error. */
  lemma TimeoutBreaks(cfg: Config, s: State, t: Tid)
    requires t in s.threads && Enabled(cfg, s, Answer(t, TIMED_OUT, s.link.now))
    ensures var tr, tr' := s.trace, Next(cfg, s, Answer(t, TIMED_OUT, s.link.now)).trace;
            && EndsExchanged(tr') && |tr'| > |tr| && Tally(tr', IsBreaking) == Tally(tr, IsBreaking) + 1
            && tr'[|tr'| - 1].start == s.threads[t].start && tr'[|tr'| - 1].end == s.link.now
  {
    var pc := s.threads[t];
    TallySnoc(s.trace, Exchanged(t, pc.req, pc.leg, pc.start, s.link.now, TIMED_OUT), IsBreaking);
    TraceGrows(cfg, s, Answer(t, TIMED_OUT, s.link.now));
  }

  /** Its operation times out: the connection is dropped, the transport is not closed. */
  lemma CallTimesOut(cfg: Config, r: Run, t: Tid) returns (r': Run)
    requires IsRun(cfg, r) && Sound(cfg, r.cur) && r.cur.sup.Listening? && r.cur.owner == ByThread(t)
    requires t in r.cur.threads && r.cur.threads[t].OnWire? && r.cur.threads[t].start <= r.cur.link.now
    ensures GoesOn(cfg, r, r') && r'.cur.sup.Listening? && !r'.cur.link.connected && r'.cur.owner == ByThread(t)
    ensures r'.cur.threads[t].Unlocking? && r'.cur.link.now == r.cur.link.now
    ensures Enabled(cfg, r.cur, Answer(t, TIMED_OUT, r.cur.link.now))
    ensures r'.cur == Next(cfg, r.cur, Answer(t, TIMED_OUT, r.cur.link.now))
  {
    r' := Extend(cfg, r, Answer(t, TIMED_OUT, r.cur.link.now));
  }

  /** A call that times out: one more transport error. */
  lemma CallLost(cfg: Config, r: Run, t: Tid, req: Request) returns (r': Run)
    requires IsRun(cfg, r) && Sound(cfg, r.cur) && Healed(r.cur) && r.cur.owner == Nobody
    requires t in r.cur.threads && r.cur.threads[t].Idle? && ValidCount(req)
    ensures GoesOn(cfg, r, r') && r'.cur.sup.Listening? && !r'.cur.link.connected && r'.cur.owner == ByThread(t)
    ensures r'.cur.threads[t].Unlocking?
    ensures var tr, tr' := r.cur.trace, r'.cur.trace;
            && EndsExchanged(tr') && |tr'| > |tr| && Tally(tr', IsBreaking) > Tally(tr, IsBreaking)
            && tr'[|tr'| - 1].end == r'.cur.link.now
            && (GuardOver(cfg, r.cur.link) ==> tr'[|tr'| - 1].start == r.cur.link.now)
  {
    var r1 := CallGoesOut(cfg, r, t, req);
    r' := CallTimesOut(cfg, r1, t);
    TimeoutBreaks(cfg, r1.cur, t);
  }

  /** A call reaches the wire of a connected client. */
  lemma CallGoesOut(cfg: Config, r: Run, t: Tid, req: Request) returns (r': Run)
    requires IsRun(cfg, r) && Sound(cfg, r.cur) && Healed(r.cur) && r.cur.owner == Nobody
    requires t in r.cur.threads && r.cur.threads[t].Idle? && ValidCount(req)
    ensures GoesOn(cfg, r, r') && r'.cur.sup.Listening? && r'.cur.owner == ByThread(t)
    ensures r'.cur.threads[t].OnWire? && r'.cur.threads[t].start == r'.cur.link.now
    ensures GuardOver(cfg, r.cur.link) ==> r'.cur.link == r.cur.link
    ensures |r'.cur.trace| >= |r.cur.trace| && Tally(r'.cur.trace, IsBreaking) >= Tally(r.cur.trace, IsBreaking)
  {
    var r1 := Extend(cfg, r, Call(t, req));
    r' := CallReachesWire(cfg, r1, t);
    BreaksStay(cfg, r, r');
    TraceStays(cfg, r, r');
  }

  /** The failed call comes to its end. */
  lemma CallFailed(cfg: Config, r: Run, t: Tid) returns (r': Run)
    requires IsRun(cfg, r) && Sound(cfg, r.cur) && r.cur.sup.Listening? && r.cur.owner == ByThread(t)
    requires !r.cur.link.connected && t in r.cur.threads && r.cur.threads[t].Unlocking?
    ensures GoesOn(cfg, r, r') && r'.cur.sup.Listening? && r'.cur.link == r.cur.link && r'.cur.owner == Nobody
    ensures r'.cur.threads[t].Idle?
  {
    var r1 := Extend(cfg, r, Unlock(t));
    var r2 := CallCounted(cfg, r1, t);
    r' := Extend(cfg, r2, Return(t));
  }

  lemma CutHeals(cfg: Config, r: Run, t: Tid, req: Request, pause: nat) returns (r': Run)
    requires IsRun(cfg, r) && Sound(cfg, r.cur) && r.cur.owner == Nobody && r.cur.sup.Listening?
    requires !r.cur.link.connected && t in r.cur.threads && r.cur.threads[t].Idle? && ValidCount(req)
    ensures Mends(cfg, pause, r, r') && Healed(r'.cur) && r'.cur.owner == Nobody && r'.cur.threads[t].Idle?
    ensures r'.cur.link.now == r.cur.link.now + pause && r'.cur.link.lastOpAt == ZERO_TIME
  {
    if r.cur.token {
      r' := SupervisorRepairs(cfg, r, pause);
    } else {
      r' := FailuresHeal(cfg, r, t, req, pause);
    }
  }

  /** One failed operation, then failing calls, then the repair: one more transport is open than before. */
  lemma LeakOnce(cfg: Config, r: Run, t: Tid, req: Request, pause: nat) returns (r': Run)
    requires IsRun(cfg, r) && Sound(cfg, r.cur) && Healed(r.cur) && r.cur.owner == Nobody
    requires t in r.cur.threads && r.cur.threads[t].Idle? && ValidCount(req)
    ensures Mends(cfg, pause, r, r') && Healed(r'.cur) && r'.cur.owner == Nobody && r'.cur.threads[t].Idle?
    ensures Tally(r'.cur.trace, IsBreaking) > Tally(r.cur.trace, IsBreaking)
  {
    var r1 := CallLost(cfg, r, t, req);
    var r2 := CallFailed(cfg, r1, t);
    r' := CutHeals(cfg, r2, t, req, pause);
    BreaksStay(cfg, r1, r');
  }

  /** "Exactly one TCP connection" fails without bound: a transport error drops the connection without closing it, and
      ForceClose then finds nothing to close. For every n some run ends connected with more than n open transports,
      however long the supervisor waits after each teardown. */
  lemma {:induction false} TransportsLeak(cfg: Config, s: State, t: Tid, req: Request, n: nat, pause: nat)
      returns (r: Run)
    requires cfg.Valid() && Init(s) && t in s.threads && ValidCount(req)
    ensures IsRun(cfg, r) && r.start == s && Sound(cfg, r.cur) && Healed(r.cur) && Pauses(r.acts, 0, pause)
    ensures r.cur.owner == Nobody && t in r.cur.threads && r.cur.threads[t].Idle?
    ensures Tally(r.cur.trace, IsBreaking) >= n
    ensures StillOpen(r.cur.trace) > n
  {
    if n == 0 {
      Safety.InvInit(cfg, s);
      r := Redials(cfg, Run(s, [], s));
    } else {
      var r1 := TransportsLeak(cfg, s, t, req, n - 1, pause);
      r := LeakOnce(cfg, r1, t, req, pause);
    }
    Safety.InvAlways(cfg, s, r.acts);
  }

  // ----- A repair that comes too soon

  /** The first connect, and a call that times out and returns. */
  lemma FirstCallLost(cfg: Config, s: State, t: Tid, req: Request) returns (r: Run)
    requires cfg.Valid() && Init(s) && t in s.threads && ValidCount(req)
    ensures IsRun(cfg, r) && r.start == s && Sound(cfg, r.cur) && Safety.Cut(r.cur) && r.cur.owner == Nobody
    ensures t in r.cur.threads && r.cur.threads[t].Idle? && forall i :: 0 <= i < |r.acts| ==> !r.acts[i].SupClose?
    ensures exists i: nat :: i < |r.cur.trace| && r.cur.trace[i].Exchanged? && r.cur.trace[i].end == r.cur.link.now
  {
    Safety.InvInit(cfg, s);
    var r0 := Redials(cfg, Run(s, [], s));
    var r1 := CallLost(cfg, r0, t, req);
    r := CallFailed(cfg, r1, t);
    TraceStays(cfg, r1, r);
    assert r.cur.trace[|r1.cur.trace| - 1] == r1.cur.trace[|r1.cur.trace| - 1];
  }

  /** Connect clears lastOpAt, so the first operation on a new transport does not wait. For every wait shorter than the
      guard interval there is a run, of any requests, with an operation sooner than a guard interval after another: one
      times out, the failed calls have the supervisor reconnect, and the next call is on the wire at once. */
  lemma ShortWaitBreaks(cfg: Config, s: State, t: Tid, req: Request, pause: nat) returns (acts: seq<Action>)
    requires cfg.Valid() && Init(s) && t in s.threads && ValidCount(req) && pause < cfg.guard
    ensures Runs(cfg, s, acts) && Pauses(acts, 0, pause)
    ensures !AllSpaced(cfg, Exec(cfg, s, acts).trace)
  {
    var r1 := FirstCallLost(cfg, s, t, req);
    var i: nat :| i < |r1.cur.trace| && r1.cur.trace[i].Exchanged? && r1.cur.trace[i].end == r1.cur.link.now;
    var r2 := CutHeals(cfg, r1, t, req, pause);
    var r3 := CallLost(cfg, r2, t, req);
    TraceStays(cfg, r1, r2);
    acts := r3.acts;
    assert r3.cur.trace[i] == r1.cur.trace[i] by {
      TraceStays(cfg, r1, r3);
    }
  }

  /** So the supervisor's wait decides: the interval is kept in all runs exactly when the wait is no shorter. */
  lemma WaitDecides(cfg: Config, s: State, t: Tid, pause: nat)
    requires cfg.Valid() && Init(s) && t in s.threads
    ensures (forall acts :: Runs(cfg, s, acts) && Pauses(acts, 0, pause) ==>
               AllSpaced(cfg, Exec(cfg, s, acts).trace))
            <==> cfg.guard <= pause
  {
    if cfg.guard <= pause {
      forall acts: seq<Action> | Runs(cfg, s, acts) && Pauses(acts, 0, pause)
        ensures AllSpaced(cfg, Exec(cfg, s, acts).trace)
      {
        Safety.SpacedAcrossReconnects(cfg, s, acts);
      }
    } else {
      var acts := ShortWaitBreaks(cfg, s, t, Read(InputRegisters, 0, 1), pause);
    }
  }

  /** Each teardown's wait is the first delay of a backoff, which every connect has reset, for some random sample. */
  ghost predicate BacksOff(backoff: B.Config, acts: seq<Action>)
    requires backoff.Valid()
  {
    forall i :: 0 <= i < |acts| && acts[i].SupClose? ==>
      exists random: B.Sample :: acts[i].delay == B.Wait(backoff, 0, random)
  }

  lemma LongWaitsSuffice(cfg: Config, backoff: B.Config, s: State, acts: seq<Action>)
    requires cfg.Valid() && backoff.Valid() && Init(s) && Runs(cfg, s, acts) && BacksOff(backoff, acts)
    requires cfg.guard <= B.ShortestWait(backoff)
    ensures AllSpaced(cfg, Exec(cfg, s, acts).trace)
  {
    forall i | 0 <= i < |acts| && acts[i].SupClose? ensures acts[i].delay >= cfg.guard {
      var random: B.Sample :| acts[i].delay == B.Wait(backoff, 0, random);
      B.WaitAtLeast(backoff, random);
    }
    Safety.SpacedAcrossReconnects(cfg, s, acts);
  }

  lemma ShortestWaitBreaks(cfg: Config, backoff: B.Config, s: State, t: Tid) returns (acts: seq<Action>)
    requires cfg.Valid() && backoff.Valid() && Init(s) && t in s.threads && B.ShortestWait(backoff) < cfg.guard
    ensures Runs(cfg, s, acts) && BacksOff(backoff, acts) && !AllSpaced(cfg, Exec(cfg, s, acts).trace)
  {
    B.WaitAtLeast(backoff, 0.0);
    acts := ShortWaitBreaks(cfg, s, t, Read(InputRegisters, 0, 1), B.Wait(backoff, 0, 0.0));
  }

  /** Every run with this configuration keeps the interval. */
  ghost predicate KeepsInterval(cfg: Config, backoff: B.Config, s: State)
    requires backoff.Valid()
  {
    forall acts :: Runs(cfg, s, acts) && BacksOff(backoff, acts) ==> AllSpaced(cfg, Exec(cfg, s, acts).trace)
  }

  /** The guard interval is kept across reconnects, in all runs, exactly for the configurations whose shortest wait,
      min * (1 - jitter) truncated, is no shorter. */
  lemma ConfigurationDecides(cfg: Config, backoff: B.Config, s: State, t: Tid)
    requires cfg.Valid() && backoff.Valid() && Init(s) && t in s.threads
    ensures KeepsInterval(cfg, backoff, s) <==> cfg.guard <= B.ShortestWait(backoff)
  {
    if cfg.guard <= B.ShortestWait(backoff) {
      forall acts: seq<Action> | Runs(cfg, s, acts) && BacksOff(backoff, acts)
        ensures AllSpaced(cfg, Exec(cfg, s, acts).trace)
      {
        LongWaitsSuffice(cfg, backoff, s, acts);
      }
    } else {
      var acts := ShortestWaitBreaks(cfg, backoff, s, t);
    }
  }

  const MILLISECOND := 1_000_000

  /** The defaults are among them: a guard interval of 100 ms against waits of at least 0.8 s. */
  lemma DefaultsAreSpaced(cfg: Config, backoff: B.Config, s: State)
    requires cfg.Valid() && backoff.Valid() && Init(s)
    requires cfg.guard == 100 * MILLISECOND && backoff.min == 1000 * MILLISECOND && backoff.jitter == 0.2
    ensures KeepsInterval(cfg, backoff, s)
  {
    assert B.ShortestWait(backoff) == 800 * MILLISECOND;
    forall acts: seq<Action> | Runs(cfg, s, acts) && BacksOff(backoff, acts)
      ensures AllSpaced(cfg, Exec(cfg, s, acts).trace)
    {
      LongWaitsSuffice(cfg, backoff, s, acts);
    }
  }
}
