/** The whole bridge as one stepped system: MQTT handlers applying commands, the three pollers and the availability
    watcher, over the client, dispatcher and supervisor of Machine.
    (interface/mqtt/command_subscriber.go, application/usecase/apply_command.go,
    application/usecase/poll_controller.go, application/service/poller.go,
    application/service/availability_manager.go) */
module Bridge {
  import opened Words
  import opened Values
  import opened Snapshots
  import opened Modbus
  import opened Commands
  import opened Machine
  import opened Transactions
  import Availability

  /** staleAfter is the availability threshold. */
  datatype Settings = Settings(core: Config, powerOffPause: nat, staleAfter: int)

  /** Where Apply is: at the transition guard, at or inside its k-th dispatcher request, in the dwell before
      its k-th request, or about to return. */
  datatype Phase = Consulting | Issuing(k: nat) | Pausing(k: nat, until: Time) | Ending(ok: bool)

  /** What a thread is doing. past is history kept for the proofs: the thread's events of this command or
      poll, up to its current dispatcher request. */
  datatype Task =
    | AtRest
    | Applying(cmd: Command, rest: seq<Command>, phase: Phase, past: seq<Event>)
    | Polling(tier: Tier, got: seq<seq<Word>>, past: seq<Event>)
    | Abandoning(tier: Tier)
    | Merging(tier: Tier, got: seq<seq<Word>>, at: Time, past: seq<Event>)
    | Copying(snapshot: Snapshot)
    | Notifying(snapshot: Snapshot, next: nat, upTo: nat)
    | Watching(polledAt: Time)

  datatype System =
    System(core: State, tasks: map<Tid, Task>, latest: Snapshot, subscribers: nat, isOffline: bool)

  /** The availability watcher's goroutine. */
  const WATCHER: Tid := 3

  /** The poller's three goroutines; every other thread but the watcher is one of the MQTT client's workers. */
  function TierOf(t: Tid): Option<Tier> {
    if t == 0 then Some(Hot) else if t == 1 then Some(Medium) else if t == 2 then Some(Slow) else None
  }

  ghost predicate Initial(b: System) {
    && Init(b.core)
    && b.tasks.Keys == b.core.threads.Keys
    && (forall t :: t in b.tasks ==> b.tasks[t] == AtRest)
    && b.latest == EMPTY && b.isOffline
  }

  datatype Step =
    | Core(a: Action)
    | Receive(t: Tid, m: Message)
    | Consult(t: Tid)
    | Issue(t: Tid)
    | Finish(t: Tid)
    | Resume(t: Tid)
    | GiveUp(t: Tid)                 // ctx cancelled during the dwell
    | Close(t: Tid)
    | StartPoll(t: Tid)
    | Publish(t: Tid)
    | CopySubscribers(t: Tid)
    | Deliver(t: Tid)
    | Leave(t: Tid)
    | Subscribe
    | Peek                           // the watcher's tick reads the snapshot
    | Watch                          // and then the clock

  function BatchRequest(tier: Tier, k: nat): Request
    requires k < 3
  {
    var b := Batches(tier)[k];
    Read(b.bank, b.start, b.count)
  }

  /** The dispatcher request a task is at, if it is at one. */
  function RequestOf(task: Task): Option<Request> {
    match task
    case Applying(cmd, _, Issuing(k), _) => if k < |Script(cmd)| then Some(Script(cmd)[k]) else None
    case Polling(tier, got, _) => if |got| < 3 then Some(BatchRequest(tier, |got|)) else None
    case _ => None
  }

  predicate Possible(cfg: Settings, b: System, st: Step) {
    match st
    case Core(a) => IsInternal(a) && Enabled(cfg.core, b.core, a)
    case Subscribe => true
    case Receive(t, _) => Has(b, t) && TierOf(t).None? && t != WATCHER && b.tasks[t].AtRest?
    case Consult(t) => Has(b, t) && b.tasks[t].Applying? && b.tasks[t].phase.Consulting?
    case Issue(t) => Has(b, t) && RequestOf(b.tasks[t]).Some?
    case Finish(t) =>
      && t in b.tasks && t in b.core.threads && b.core.threads[t].Done? && RequestOf(b.tasks[t]).Some?
    case Resume(t) =>
      Has(b, t) && b.tasks[t].Applying? && b.tasks[t].phase.Pausing? && b.tasks[t].phase.until <= b.core.link.now
    case GiveUp(t) => Has(b, t) && b.tasks[t].Applying? && b.tasks[t].phase.Pausing?
    case Close(t) =>
      Has(b, t) && (b.tasks[t].Abandoning? || (b.tasks[t].Applying? && b.tasks[t].phase.Ending?))
    case StartPoll(t) => Has(b, t) && TierOf(t).Some? && b.tasks[t].AtRest?
    case Publish(t) => Has(b, t) && b.tasks[t].Merging? && FullReplies(b.tasks[t].tier, b.tasks[t].got)
    case CopySubscribers(t) => Has(b, t) && b.tasks[t].Copying?
    case Deliver(t) => Has(b, t) && b.tasks[t].Notifying? && b.tasks[t].next < b.tasks[t].upTo
    case Leave(t) => Has(b, t) && b.tasks[t].Notifying? && b.tasks[t].next == b.tasks[t].upTo
    case Peek => Has(b, WATCHER) && b.tasks[WATCHER].AtRest?
    case Watch => Has(b, WATCHER) && b.tasks[WATCHER].Watching?
  }

  /** Thread t exists and is not inside a dispatcher call. */
  predicate Has(b: System, t: Tid) {
    t in b.tasks && t in b.core.threads && b.core.threads[t].Idle?
  }

  /** The step of Machine inside a step of the bridge, if any. */
  function CoreAction(cfg: Settings, b: System, st: Step): Option<Action>
    requires Possible(cfg, b, st)
  {
    match st
    case Core(a) => Some(a)
    case Receive(t, m) => Some(Jot(t, Heard(m)))
    case Consult(t) => Some(Jot(t, Began(b.tasks[t].cmd, b.latest.operation)))
    case Issue(t) => Some(Call(t, RequestOf(b.tasks[t]).value))
    case Finish(t) => Some(Return(t))
    case GiveUp(t) => Some(Jot(t, GaveUp))
    case Close(t) => Some(Jot(t, Ended(b.tasks[t].Applying? && b.tasks[t].phase.ok)))
    case StartPoll(t) => Some(Jot(t, PollBegan(TierOf(t).value)))
    case Publish(t) => Some(Jot(t, Published(MergedBy(b.tasks[t]), NewLatest(b, b.tasks[t]))))
    case Deliver(t) => Some(Jot(t, Delivered(b.tasks[t].next, b.tasks[t].snapshot)))
    case Peek => Some(Jot(WATCHER, Peeked(b.latest.polledAt)))
    case Watch => Some(Jot(WATCHER, Ticked(TickOf(b), Fired(cfg, b))))
    case _ => None
  }

  /** What the watcher's tick sees. */
  function TickOf(b: System): Availability.Tick
    requires Has(b, WATCHER) && b.tasks[WATCHER].Watching?
  {
    Availability.Tick(b.core.link.now, b.tasks[WATCHER].polledAt)
  }

  /** The callback it makes: the edge between its state and the tick's staleness. */
  function Fired(cfg: Settings, b: System): Option<Availability.Callback>
    requires Has(b, WATCHER) && b.tasks[WATCHER].Watching?
  {
    Availability.Change(b.isOffline, Availability.Stale(cfg.staleAfter, TickOf(b)))
  }

  function MergedBy(task: Task): Merged
    requires task.Merging? && FullReplies(task.tier, task.got)
  {
    Merged(task.tier, Assemble(task.tier, task.got, task.at))
  }

  function NewLatest(b: System, task: Task): Snapshot
    requires task.Merging? && FullReplies(task.tier, task.got)
  {
    Merge(task.tier, b.latest, MergedBy(task).partial)
  }

  /** The thread whose task a step changes. */
  function Actor(st: Step): Option<Tid> {
    match st
    case Core(_) => None
    case Subscribe => None
    case Receive(t, _) => Some(t)
    case Consult(t) => Some(t)
    case Issue(t) => Some(t)
    case Finish(t) => Some(t)
    case Resume(t) => Some(t)
    case GiveUp(t) => Some(t)
    case Close(t) => Some(t)
    case StartPoll(t) => Some(t)
    case Publish(t) => Some(t)
    case CopySubscribers(t) => Some(t)
    case Deliver(t) => Some(t)
    case Leave(t) => Some(t)
    case Peek => Some(WATCHER)
    case Watch => Some(WATCHER)
  }

  /** A thread's task after a step of its own. */
  function TaskAfter(cfg: Settings, b: System, st: Step): Task
    requires Possible(cfg, b, st) && Actor(st).Some?
  {
    var t := Actor(st).value;
    var task := b.tasks[t];
    match st
    case Receive(_, m) =>
      if CommandsOf(m) == [] then AtRest else Applying(CommandsOf(m)[0], CommandsOf(m)[1..], Consulting, [])
    case Consult(_) =>
      task.(phase := if IsTransitional(b.latest.operation) then Ending(false) else Issuing(0),
            past := [Noted(t, Began(task.cmd, b.latest.operation))])
    case Issue(_) => task
    case Finish(_) => Advance(cfg, b, t)
    case Resume(_) => task.(phase := Issuing(task.phase.k))
    case GiveUp(_) => task.(phase := Ending(false))
    case Close(_) =>
      if task.Applying? && task.phase.ok && task.rest != [] then
        Applying(task.rest[0], task.rest[1..], Consulting, [])
      else AtRest
    case StartPoll(_) => Polling(TierOf(t).value, [], [Noted(t, PollBegan(TierOf(t).value))])
    case Publish(_) => Copying(NewLatest(b, task))
    case CopySubscribers(_) => Notifying(task.snapshot, 0, b.subscribers)
    case Deliver(_) => task.(next := task.next + 1)
    case Leave(_) => AtRest
    case Peek => Watching(b.latest.polledAt)
    case Watch => AtRest
  }

  /** The caller's code after a dispatcher request returned. */
  function Advance(cfg: Settings, b: System, t: Tid): Task
    requires t in b.tasks && t in b.core.threads && b.core.threads[t].Done? && RequestOf(b.tasks[t]).Some?
  {
    var res := b.core.threads[t].res;
    match b.tasks[t]
    case Applying(cmd, rest, phase, past) =>
      if res.Err? then Applying(cmd, rest, Ending(false), past)
      else if phase.k + 1 < |Script(cmd)| then
        Applying(cmd, rest, Pausing(phase.k + 1, b.core.link.now + cfg.powerOffPause),
                 past + Trail(b.core.trace, t))
      else Applying(cmd, rest, Ending(true), past)
    case Polling(tier, got, past) =>
      if res.Err? || |res.words| != Batches(tier)[|got|].count then Abandoning(tier)
      else
        var got', past' := got + [res.words], past + Trail(b.core.trace, t);
        if |got'| < 3 then Polling(tier, got', past') else Merging(tier, got', b.core.link.now, past')
  }

  function After(cfg: Settings, b: System, st: Step): System
    requires Possible(cfg, b, st)
  {
    var core := match CoreAction(cfg, b, st)
      case Some(a) => Next(cfg.core, b.core, a)
      case None => b.core;
    var tasks := match Actor(st)
      case Some(t) => b.tasks[t := TaskAfter(cfg, b, st)]
      case None => b.tasks;
    System(core, tasks,
          if st.Publish? then NewLatest(b, b.tasks[st.t]) else b.latest,
          if st.Subscribe? then b.subscribers + 1 else b.subscribers,
          if st.Watch? then Availability.Stale(cfg.staleAfter, TickOf(b)) else b.isOffline)
  }

  // ----- Runs

  ghost predicate Follows(cfg: Settings, b: System, steps: seq<Step>)
    decreases |steps|, 0
  {
    steps == [] || (Follows(cfg, b, steps[..|steps| - 1])
                    && Possible(cfg, Final(cfg, b, steps[..|steps| - 1]), steps[|steps| - 1]))
  }

  ghost function Final(cfg: Settings, b: System, steps: seq<Step>): System
    requires Follows(cfg, b, steps)
    decreases |steps|, 1
  {
    if steps == [] then b else After(cfg, Final(cfg, b, steps[..|steps| - 1]), steps[|steps| - 1])
  }
}
