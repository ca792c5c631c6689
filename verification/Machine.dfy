/** The client, its callers, the dispatcher's failure counter and the supervisor as one stepped system.
    Any number of threads call the client through the dispatcher; every step below is one that another
    goroutine could run between.
    (infrastructure/modbus/client.go, application/service/command_dispatcher.go,
    application/service/connection_supervisor.go) */
module Machine {
  import opened Words
  import opened Values
  import opened Snapshots
  import opened Modbus
  import opened Commands
  import Availability

  type Tid = nat

  /** Any GuardInterval; NewCommandDispatcher panics unless the threshold is positive. */
  datatype Config = Config(guard: int, threshold: int) {
    predicate Valid() {
      threshold > 0
    }
  }

  // ----- State

  /** What c.mu protects, plus the clock and the controller's memory. */
  datatype Link = Link(now: Time, connected: bool, lastOpAt: Time, memory: Memory)

  /** Who holds c.mu. */
  datatype Owner = Nobody | ByThread(t: Tid) | BySupervisor

  /** Where a thread is in one dispatcher call. */
  datatype Pc =
    | Idle
    | Want(req: Request)                               // at c.mu.Lock()
    | Locked(req: Request)                             // before the connected check
    | Gate(req: Request, leg: Leg)                     // entering waitGuardInterval
    | Asleep(req: Request, leg: Leg, until: Time)      // in its select
    | OnWire(req: Request, leg: Leg, start: Time)      // in the transport library
    | Unlocking(req: Request, res: Result)             // at the deferred Unlock
    | Report(req: Request, res: Result)                // at recordOutcome
    | Signal(req: Request, res: Result)                // at notifier.Trigger()
    | Done(req: Request, res: Result)

  /** Where the supervisor is; boot tells initialConnect from reconnectLoop. */
  datatype Supervisor =
    | WantsDial(boot: bool)
    | Dialing(boot: bool)
    | Resting(boot: bool, until: Time)
    | Listening
    | Closing
    | Stopped

  /** What a thread does between dispatcher calls and that other properties speak of. */
  datatype Note =
    | Heard(message: Message)
    | Began(cmd: Command, operation: OperatingState)
    | GaveUp
    | Ended(ok: bool)
    | PollBegan(tier: Tier)
    | Published(merged: Merged, snapshot: Snapshot)
    | Delivered(subscriber: nat, snapshot: Snapshot)
    | Peeked(polledAt: Time)
    | Ticked(tick: Availability.Tick, fired: Option<Availability.Callback>)

  /** The history of a run. */
  datatype Event =
    | Dialed(ok: bool)
    | DialSkipped
    | ForceClosed(live: bool)
    | Received
    | Called(t: Tid, req: Request, at: Time)
    | Exchanged(t: Tid, req: Request, leg: Leg, start: Time, end: Time, reply: Reply)
    | Recorded(t: Tid, ok: bool)
    | Triggered(t: Tid)
    | Drifted(input: Bank)
    | Noted(t: Tid, note: Note)

  datatype State = State(
    link: Link,
    owner: Owner,
    threads: map<Tid, Pc>,
    errs: nat,
    token: bool,
    sup: Supervisor,
    trace: seq<Event>)

  ghost predicate Init(s: State) {
    && s.link.now > 0 && !s.link.connected && s.link.lastOpAt == ZERO_TIME
    && s.owner == Nobody
    && (forall t :: t in s.threads ==> s.threads[t].Idle?)
    && s.errs == 0 && !s.token
    && s.sup == WantsDial(true)
    && s.trace == []
  }

  // ----- Steps

  datatype Action =
    | Tick(now: Time)
    | Drift(input: Bank)                 // the controller updates its input registers
    | Call(t: Tid, req: Request)
    | Lock(t: Tid)
    | Check(t: Tid)
    | Sleep(t: Tid)
    | Go(t: Tid)
    | Cancel(t: Tid)
    | Answer(t: Tid, reply: Reply, end: Time)
    | Unlock(t: Tid)
    | Record(t: Tid)
    | Trigger(t: Tid)
    | Return(t: Tid)
    | Jot(t: Tid, note: Note)
    | SupLock
    | SupDialed(ok: bool, delay: nat)
    | SupWake
    | SupReceive
    | SupClose(delay: nat)
    | SupStop

  /** Not a thread's own business between its dispatcher calls. */
  predicate IsInternal(a: Action) {
    !a.Call? && !a.Return? && !a.Jot?
  }

  /** waitGuardInterval's early return. */
  predicate GuardOver(cfg: Config, link: Link) {
    link.lastOpAt == ZERO_TIME || cfg.guard <= 0 || link.now - link.lastOpAt >= cfg.guard
  }

  predicate Enabled(cfg: Config, s: State, a: Action) {
    match a
    case Tick(now) => s.link.now <= now
    case Drift(_) => true
    case Call(t, _) => t in s.threads && s.threads[t].Idle?
    case Lock(t) => t in s.threads && s.threads[t].Want? && s.owner == Nobody
    case Check(t) => t in s.threads && s.threads[t].Locked?
    case Sleep(t) => t in s.threads && s.threads[t].Gate? && !GuardOver(cfg, s.link)
    case Go(t) =>
      && t in s.threads
      && (|| (s.threads[t].Gate? && GuardOver(cfg, s.link))
          || (s.threads[t].Asleep? && s.threads[t].until <= s.link.now))
    case Cancel(t) => t in s.threads && s.threads[t].Asleep?
    case Answer(t, reply, end) =>
      && t in s.threads && s.threads[t].OnWire?
      && s.threads[t].start <= end <= s.link.now
      && MayReply(s.link.memory, AccessOf(s.threads[t].req, s.threads[t].leg), reply)
    case Unlock(t) => t in s.threads && s.threads[t].Unlocking?
    case Record(t) => t in s.threads && s.threads[t].Report?
    case Trigger(t) => t in s.threads && s.threads[t].Signal?
    case Return(t) => t in s.threads && s.threads[t].Done?
    case Jot(t, _) => t in s.threads && s.threads[t].Idle?
    case SupLock => s.sup.WantsDial? && s.owner == Nobody
    case SupDialed(_, _) => s.sup.Dialing?
    case SupWake => s.sup.Resting? && s.sup.until <= s.link.now
    case SupReceive => s.sup.Listening? && s.token
    case SupClose(_) => s.sup.Closing? && s.owner == Nobody
    case SupStop => s.sup.Resting? || s.sup.Listening?
  }

  /** Moves thread t. */
  function At(s: State, t: Tid, pc: Pc): State {
    s.(threads := s.threads[t := pc])
  }

  function Log(s: State, e: Event): State {
    s.(trace := s.trace + [e])
  }

  function Next(cfg: Config, s: State, a: Action): State
    requires Enabled(cfg, s, a)
  {
    match a
    case Tick(now) => s.(link := s.link.(now := now))
    case Drift(input) =>
      Log(s.(link := s.link.(memory := s.link.memory.(input := input))), Drifted(input))
    case Call(t, req) =>
      Log(At(s, t, if ValidCount(req) then Want(req) else Report(req, Err(BadCount))), Called(t, req, s.link.now))
    case Lock(t) => At(s, t, Locked(s.threads[t].req)).(owner := ByThread(t))
    case Check(t) =>
      var req := s.threads[t].req;
      At(s, t, if s.link.connected then Gate(req, First) else Unlocking(req, Err(NotConnected)))
    case Sleep(t) => At(s, t, Asleep(s.threads[t].req, s.threads[t].leg, s.link.lastOpAt + cfg.guard))
    case Go(t) => At(s, t, OnWire(s.threads[t].req, s.threads[t].leg, s.link.now))
    case Cancel(t) => At(s, t, Unlocking(s.threads[t].req, Err(GuardCancelled)))
    case Answer(t, reply, end) => Answered(s, t, reply, end)
    case Unlock(t) => At(s, t, Report(s.threads[t].req, s.threads[t].res)).(owner := Nobody)
    case Record(t) => Recording(cfg, s, t)
    case Trigger(t) =>
      Log(At(s, t, Done(s.threads[t].req, s.threads[t].res)).(token := true), Triggered(t))
    case Return(t) => At(s, t, Idle)
    case Jot(t, note) => Log(s, Noted(t, note))
    case SupLock => s.(owner := BySupervisor, sup := Dialing(s.sup.boot))
    case SupDialed(ok, delay) => Dial(s, ok, delay)
    case SupWake => s.(sup := WantsDial(s.sup.boot))
    case SupReceive => Log(s.(token := false, sup := Closing), Received)
    case SupClose(delay) =>
      Log(s.(link := s.link.(connected := false), sup := Resting(false, s.link.now + delay)),
          ForceClosed(s.link.connected))
    case SupStop => s.(sup := Stopped)
  }

  /** The transport library returns: the memory changes, lastOpAt is stamped, a transport error drops the
      connection, and the request finishes or goes on to its second leg. */
  function Answered(s: State, t: Tid, reply: Reply, end: Time): State
    requires t in s.threads && s.threads[t].OnWire?
  {
    var pc := s.threads[t];
    var link := s.link.(memory := AfterAccess(s.link.memory, AccessOf(pc.req, pc.leg), reply),
                        lastOpAt := s.link.now,
                        connected := s.link.connected && !DropsConnection(reply));
    var pc' := match Judge(pc.req, pc.leg, reply)
      case Finished(res) => Unlocking(pc.req, res)
      case Continue(v) => Gate(pc.req, Second(v));
    Log(At(s.(link := link), t, pc'), Exchanged(t, pc.req, pc.leg, pc.start, end, reply))
  }

  /** recordOutcome's critical section. */
  function Recording(cfg: Config, s: State, t: Tid): State
    requires t in s.threads && s.threads[t].Report?
  {
    var pc := s.threads[t];
    var errs := if pc.res.Ok? then 0 else s.errs + 1;
    var pc' := if pc.res.Err? && errs >= cfg.threshold then Signal(pc.req, pc.res) else Done(pc.req, pc.res);
    Log(At(s, t, pc').(errs := errs), Recorded(t, pc.res.Ok?))
  }

  /** The end of Connect, and what the supervisor does next. */
  function Dial(s: State, ok: bool, delay: nat): State
    requires s.sup.Dialing?
  {
    if s.link.connected then
      Log(s.(owner := Nobody, sup := Listening), DialSkipped)
    else if ok then
      Log(s.(owner := Nobody, sup := Listening, link := s.link.(connected := true, lastOpAt := ZERO_TIME)),
          Dialed(true))
    else
      Log(s.(owner := Nobody, sup := Resting(s.sup.boot, s.link.now + delay)), Dialed(false))
  }

  // ----- Runs

  /** acts is a schedule the system can follow from s. */
  predicate Runs(cfg: Config, s: State, acts: seq<Action>)
    decreases |acts|, 0
  {
    acts == [] || (Runs(cfg, s, acts[..|acts| - 1])
                   && Enabled(cfg, Exec(cfg, s, acts[..|acts| - 1]), acts[|acts| - 1]))
  }

  function Exec(cfg: Config, s: State, acts: seq<Action>): State
    requires Runs(cfg, s, acts)
    decreases |acts|, 1
  {
    if acts == [] then s else Next(cfg, Exec(cfg, s, acts[..|acts| - 1]), acts[|acts| - 1])
  }
}
