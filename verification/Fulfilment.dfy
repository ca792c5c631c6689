/** What the bridge can always still get done: carry a message out, and tell Home Assistant whether it is online
    (interface/mqtt/command_subscriber.go, application/usecase/apply_command.go,
    application/service/availability_manager.go). */
module Fulfilment {
  import opened Words
  import opened Snapshots
  import opened Modbus
  import opened Commands
  import opened Machine
  import opened Client
  import opened Bridge
  import opened Calls
  import opened Handling
  import opened Guarantees
  import opened Recovery
  import opened Revival
  import opened Watcher
  import Availability

  // ----- Steps, and what they add to a worker's dealings with its message

  /** Steps inside the machine add nothing. */
  lemma {:induction false} CoreLeavesHeeded(cfg: Settings, t: Tid, w: Trip, w': Trip)
    requires IsTrip(cfg, w) && IsTrip(cfg, w') && w'.start == w.start && w.steps <= w'.steps
    requires forall i :: |w.steps| <= i < |w'.steps| ==> w'.steps[i].Core?
    ensures Heeded(w'.cur.core.trace, t) == Heeded(w.cur.core.trace, t)
    decreases |w'.steps|
  {
    if |w.steps| < |w'.steps| {
      var before, st := w'.steps[..|w'.steps| - 1], w'.steps[|w'.steps| - 1];
      var w1 := TripOf(cfg, w'.start, before);
      CoreLeavesHeeded(cfg, t, w, w1);
      HeededAfter(cfg, w1.cur, st, t);
    } else {
      assert w.steps == w'.steps;
    }
  }

  /** A step of the worker's own. */
  lemma WorkerStep(cfg: Settings, t: Tid, w: Trip, st: Step) returns (w': Trip)
    requires IsTrip(cfg, w) && Possible(cfg, w.cur, st) && Actor(st) == Some(t) && !w.cur.core.sup.Stopped?
    requires !st.Publish?
    ensures Rides(cfg, t, w, w') && Beside(w.cur.core, w'.cur.core) && w'.cur.latest == w.cur.latest
    ensures t in w.cur.core.threads && t in w'.cur.core.threads && t in w'.cur.tasks
    ensures w'.cur.tasks[t] == TaskAfter(cfg, w.cur, st)
    ensures w'.cur.core.threads[t] == if st.Issue? then Want(RequestOf(w.cur.tasks[t]).value)
                                      else if st.Finish? then Idle else w.cur.core.threads[t]
    ensures w'.steps == w.steps + [st]
    ensures var h := Heeded(w.cur.core.trace, t);
            Heeded(w'.cur.core.trace, t)
            == match CoreAction(cfg, w.cur, st)
               case Some(Jot(_, note)) => HeedWith(h, note)
               case _ => h
  {
    w' := ActorStep(cfg, t, w, st);
    ActsByItself(cfg, w.cur, st, t);
    HeededAfter(cfg, w.cur, st, t);
    AfterIsNext(cfg, w, w', st);
  }

  lemma ActsByItself(cfg: Settings, b: System, st: Step, t: Tid)
    requires Possible(cfg, b, st) && Actor(st) == Some(t)
    ensures match CoreAction(cfg, b, st)
            case Some(a) => a.Jot? ==> a.t == t
            case None => true
  {
  }

  lemma AfterIsNext(cfg: Settings, w: Trip, w': Trip, st: Step)
    requires IsTrip(cfg, w) && IsTrip(cfg, w') && w'.start == w.start && w'.steps == w.steps + [st]
    requires Possible(cfg, w.cur, st)
    ensures w'.cur == After(cfg, w.cur, st)
  {
    assert w'.steps[..|w'.steps| - 1] == w.steps;
  }

  // ----- Carrying a message out

  /** A worker may be served: connected, the mutex free, the snapshot showing no transition. */
  ghost predicate Serving(cfg: Settings, t: Tid, w: Trip) {
    && IsTrip(cfg, w) && w.cur.core.owner == Nobody && Healed(w.cur.core)
    && t in w.cur.tasks && t in w.cur.core.threads && w.cur.core.threads[t].Idle?
    && TierOf(t).None? && t != WATCHER && !(1 <= w.cur.latest.operation <= 12)
  }

  ghost predicate Serves(cfg: Settings, t: Tid, w: Trip, w': Trip) {
    Rides(cfg, t, w, w') && Serving(cfg, t, w') && w'.cur.latest == w.cur.latest
  }

  lemma ServesOn(cfg: Settings, t: Tid, w: Trip, w1: Trip, w2: Trip)
    requires Serves(cfg, t, w, w1) && Serves(cfg, t, w1, w2)
    ensures Serves(cfg, t, w, w2)
  {
    RidesOn(cfg, t, w, w1, w2);
  }

  lemma RequestWrites(cmd: Command, k: nat, holding: Bank)
    requires k < |Script(cmd)|
    ensures !Script(cmd)[k].Read?
    ensures Script(cmd)[k].Modify? ==> Script(cmd)[k].update(holding[Script(cmd)[k].addr]).Some?
  {
  }

  /** The worker's request goes through. */
  lemma RequestDone(cfg: Settings, t: Tid, w: Trip) returns (w': Trip)
    requires Serving(cfg, t, w) && w.cur.tasks[t].Applying? && w.cur.tasks[t].phase.Issuing?
    requires w.cur.tasks[t].phase.k < |Script(w.cur.tasks[t].cmd)|
    ensures Serves(cfg, t, w, w') && Heeded(w'.cur.core.trace, t) == Heeded(w.cur.core.trace, t)
    ensures var task, task' := w.cur.tasks[t], w'.cur.tasks[t];
            && task'.Applying? && task'.cmd == task.cmd && task'.rest == task.rest
            && (if task.phase.k + 1 < |Script(task.cmd)| then
                  task'.phase == Pausing(task.phase.k + 1, w'.cur.core.link.now + cfg.powerOffPause)
                else task'.phase == Ending(true))
            && w'.cur.core.link.memory.holding
               == Written(Script(task.cmd)[task.phase.k], w.cur.core.link.memory.holding)
  {
    var w1 := RequestAnswered(cfg, t, w);
    w' := RequestFinishes(cfg, t, w1);
    RidesOn(cfg, t, w, w1, w');
  }

  /** Its successful call returns. */
  lemma RequestFinishes(cfg: Settings, t: Tid, w: Trip) returns (w': Trip)
    requires IsTrip(cfg, w) && t in w.cur.tasks && t in w.cur.core.threads && !w.cur.core.sup.Stopped?
    requires w.cur.tasks[t].Applying? && w.cur.tasks[t].phase.Issuing?
    requires w.cur.tasks[t].phase.k < |Script(w.cur.tasks[t].cmd)|
    requires w.cur.core.threads[t].Done? && w.cur.core.threads[t].res == Ok([])
    ensures Rides(cfg, t, w, w') && Beside(w.cur.core, w'.cur.core) && w'.cur.latest == w.cur.latest
    ensures Heeded(w'.cur.core.trace, t) == Heeded(w.cur.core.trace, t)
    ensures t in w'.cur.tasks && t in w'.cur.core.threads && w'.cur.core.threads[t].Idle?
    ensures var task, task' := w.cur.tasks[t], w'.cur.tasks[t];
            && task'.Applying? && task'.cmd == task.cmd && task'.rest == task.rest
            && task'.phase == if task.phase.k + 1 < |Script(task.cmd)| then
                                Pausing(task.phase.k + 1, w.cur.core.link.now + cfg.powerOffPause)
                              else Ending(true)
  {
    w' := WorkerStep(cfg, t, w, Finish(t));
  }

  /** Its call is made and answered. */
  lemma RequestAnswered(cfg: Settings, t: Tid, w: Trip) returns (w': Trip)
    requires Serving(cfg, t, w) && w.cur.tasks[t].Applying? && w.cur.tasks[t].phase.Issuing?
    requires w.cur.tasks[t].phase.k < |Script(w.cur.tasks[t].cmd)|
    ensures Rides(cfg, t, w, w') && w'.cur.core.owner == Nobody && Healed(w'.cur.core)
    ensures w'.cur.latest == w.cur.latest && Heeded(w'.cur.core.trace, t) == Heeded(w.cur.core.trace, t)
    ensures t in w'.cur.tasks && w'.cur.tasks[t] == w.cur.tasks[t] && t in w'.cur.core.threads
    ensures var req := Script(w.cur.tasks[t].cmd)[w.cur.tasks[t].phase.k];
            && w'.cur.core.threads[t] == Done(req, Ok([]))
            && w'.cur.core.link.memory.holding == Written(req, w.cur.core.link.memory.holding)
  {
    var req := Script(w.cur.tasks[t].cmd)[w.cur.tasks[t].phase.k];
    RequestWrites(w.cur.tasks[t].cmd, w.cur.tasks[t].phase.k, w.cur.core.link.memory.holding);
    var w1 := WorkerStep(cfg, t, w, Issue(t));
    w' := Answered(cfg, t, w1, req);
    RidesOn(cfg, t, w, w1, w');
  }

  lemma Answered(cfg: Settings, t: Tid, w: Trip, req: Request) returns (w': Trip)
    requires IsTrip(cfg, w) && w.cur.core.owner == Nobody && Healed(w.cur.core)
    requires t in w.cur.core.threads && w.cur.core.threads[t] == Want(req) && !req.Read?
    requires req.Modify? ==> req.update(w.cur.core.link.memory.holding[req.addr]).Some?
    ensures Rides(cfg, t, w, w') && w'.cur.core.owner == Nobody && Healed(w'.cur.core)
    ensures w'.cur.tasks == w.cur.tasks && w'.cur.latest == w.cur.latest
    ensures t in w'.cur.core.threads && w'.cur.core.threads[t] == Done(req, Ok([]))
    ensures Heeded(w'.cur.core.trace, t) == Heeded(w.cur.core.trace, t)
    ensures w'.cur.core.link.memory.holding == Written(req, w.cur.core.link.memory.holding)
  {
    TripIsSound(cfg, w);
    var r := CallSucceeds(cfg.core, w.core, t);
    w' := Quietly(cfg, t, w, r);
    CoreLeavesHeeded(cfg, t, w, w');
  }

  /** The dwell passes. */
  lemma DwellPasses(cfg: Settings, t: Tid, w: Trip) returns (w': Trip)
    requires Serving(cfg, t, w) && w.cur.tasks[t].Applying? && w.cur.tasks[t].phase.Pausing?
    ensures Serves(cfg, t, w, w') && Heeded(w'.cur.core.trace, t) == Heeded(w.cur.core.trace, t)
    ensures w'.cur.tasks[t] == w.cur.tasks[t].(phase := Issuing(w.cur.tasks[t].phase.k))
    ensures w'.cur.core.link.memory == w.cur.core.link.memory
  {
    var until, now := w.cur.tasks[t].phase.until, w.cur.core.link.now;
    var w1 := TimePasses(cfg, t, w, if until > now then until else now);
    w' := WorkerStep(cfg, t, w1, Resume(t));
    RidesOn(cfg, t, w, w1, w');
  }

  lemma TimePasses(cfg: Settings, t: Tid, w: Trip, now: Time) returns (w': Trip)
    requires IsTrip(cfg, w) && w.cur.core.link.now <= now && !w.cur.core.sup.Stopped?
    ensures Rides(cfg, t, w, w') && w'.cur == w.cur.(core := w.cur.core.(link := w.cur.core.link.(now := now)))
    ensures Heeded(w'.cur.core.trace, t) == Heeded(w.cur.core.trace, t)
  {
    w' := Ride(cfg, w, Core(Tick(now)));
  }

  /** A command succeeds. */
  lemma CommandDone(cfg: Settings, t: Tid, w: Trip) returns (w': Trip)
    requires Serving(cfg, t, w) && w.cur.tasks[t].Applying? && w.cur.tasks[t].phase.Consulting?
    requires Heeded(w.cur.core.trace, t) != []
    ensures Serves(cfg, t, w, w')
    ensures var task := w.cur.tasks[t];
            && w'.cur.tasks[t] == (if task.rest == [] then AtRest
                                   else Applying(task.rest[0], task.rest[1..], Consulting, []))
            && Heeded(w'.cur.core.trace, t)
               == Heeded(w.cur.core.trace, t) + [Began(task.cmd, w.cur.latest.operation), Ended(true)]
            && w'.cur.core.link.memory.holding == AllAchieved([task.cmd], w.cur.core.link.memory.holding)
  {
    var task := w.cur.tasks[t];
    var w1 := CommandWritten(cfg, t, w);
    w' := WorkerStep(cfg, t, w1, Close(t));
    RidesOn(cfg, t, w, w1, w');
  }

  /** It passes the transition guard, and its requests go through. */
  lemma CommandWritten(cfg: Settings, t: Tid, w: Trip) returns (w': Trip)
    requires Serving(cfg, t, w) && w.cur.tasks[t].Applying? && w.cur.tasks[t].phase.Consulting?
    requires Heeded(w.cur.core.trace, t) != []
    ensures Serves(cfg, t, w, w')
    ensures var task, task' := w.cur.tasks[t], w'.cur.tasks[t];
            && task'.Applying? && task'.cmd == task.cmd && task'.rest == task.rest && task'.phase == Ending(true)
            && Heeded(w'.cur.core.trace, t)
               == Heeded(w.cur.core.trace, t) + [Began(task.cmd, w.cur.latest.operation)]
            && w'.cur.core.link.memory.holding == AllAchieved([task.cmd], w.cur.core.link.memory.holding)
  {
    var w1 := CommandBegins(cfg, t, w);
    w' := RequestsDone(cfg, t, w1);
    ServesOn(cfg, t, w, w1, w');
    ScriptAchieves(w.cur.tasks[t].cmd, w.cur.core.link.memory.holding);
  }

  /** No transition holds it up. */
  lemma CommandBegins(cfg: Settings, t: Tid, w: Trip) returns (w': Trip)
    requires Serving(cfg, t, w) && w.cur.tasks[t].Applying? && w.cur.tasks[t].phase.Consulting?
    requires Heeded(w.cur.core.trace, t) != []
    ensures Serves(cfg, t, w, w') && w'.cur.core.link.memory == w.cur.core.link.memory
    ensures var task, task' := w.cur.tasks[t], w'.cur.tasks[t];
            && task'.Applying? && task'.cmd == task.cmd && task'.rest == task.rest && task'.phase == Issuing(0)
            && Heeded(w'.cur.core.trace, t)
               == Heeded(w.cur.core.trace, t) + [Began(task.cmd, w.cur.latest.operation)]
  {
    w' := WorkerStep(cfg, t, w, Consult(t));
  }

  /** All requests of a command that has begun go through. */
  lemma RequestsDone(cfg: Settings, t: Tid, w: Trip) returns (w': Trip)
    requires Serving(cfg, t, w) && w.cur.tasks[t].Applying? && w.cur.tasks[t].phase == Issuing(0)
    ensures Serves(cfg, t, w, w') && Heeded(w'.cur.core.trace, t) == Heeded(w.cur.core.trace, t)
    ensures var task, task', holding := w.cur.tasks[t], w'.cur.tasks[t], w.cur.core.link.memory.holding;
            && task'.Applying? && task'.cmd == task.cmd && task'.rest == task.rest && task'.phase == Ending(true)
            && w'.cur.core.link.memory.holding == AllWritten(Script(task.cmd), holding)
  {
    w' := RequestDone(cfg, t, w);
    if |Script(w.cur.tasks[t].cmd)| == 2 {
      var w1 := w';
      var w2 := DwellPasses(cfg, t, w1);
      w' := RequestDone(cfg, t, w2);
      ServesOn(cfg, t, w, w1, w2);
      ServesOn(cfg, t, w, w2, w');
    }
  }

  /** What one or two requests leave. */
  function AllWritten(requests: seq<Request>, holding: Bank): Bank
    requires 1 <= |requests| <= 2
  {
    var first := Written(requests[0], holding);
    if |requests| == 2 then Written(requests[1], first) else first
  }

  lemma ScriptAchieves(cmd: Command, holding: Bank)
    ensures AllWritten(Script(cmd), holding) == AllAchieved([cmd], holding)
  {
    assert [cmd][1..] == [];
  }

  lemma AchievedOn(cmd: Command, rest: seq<Command>, holding: Bank)
    ensures AllAchieved([cmd] + rest, holding) == AllAchieved(rest, AllAchieved([cmd], holding))
  {
    assert ([cmd] + rest)[1..] == rest && [cmd][1..] == [];
  }

  /** The commands left succeed in turn. */
  lemma {:induction false} CommandsDone(cfg: Settings, t: Tid, w: Trip) returns (w': Trip)
    requires Serving(cfg, t, w) && w.cur.tasks[t].Applying? && w.cur.tasks[t].phase.Consulting?
    requires Heeded(w.cur.core.trace, t) != []
    ensures Serves(cfg, t, w, w') && w'.cur.tasks[t].AtRest?
    ensures var h, h' := Heeded(w.cur.core.trace, t), Heeded(w'.cur.core.trace, t);
            h' != [] && h'[0] == h[0] && h'[|h'| - 1] == Ended(true)
    ensures var task := w.cur.tasks[t];
            w'.cur.core.link.memory.holding == AllAchieved([task.cmd] + task.rest, w.cur.core.link.memory.holding)
    decreases |w.cur.tasks[t].rest|
  {
    var task := w.cur.tasks[t];
    w' := CommandDone(cfg, t, w);
    AchievedOn(task.cmd, task.rest, w.cur.core.link.memory.holding);
    if task.rest != [] {
      assert task.rest == [task.rest[0]] + task.rest[1..];
      var w1 := w';
      w' := CommandsDone(cfg, t, w1);
      ServesOn(cfg, t, w, w1, w');
    }
  }

  /** A worker at rest receives a message that asks for something. */
  lemma MessageReceived(cfg: Settings, t: Tid, w: Trip, m: Message) returns (w': Trip)
    requires Serving(cfg, t, w) && w.cur.tasks[t].AtRest? && CommandsOf(m) != []
    ensures Serves(cfg, t, w, w') && w'.steps == w.steps + [Receive(t, m)]
    ensures w'.cur.tasks[t] == Applying(CommandsOf(m)[0], CommandsOf(m)[1..], Consulting, [])
    ensures Heeded(w'.cur.core.trace, t) == [Heard(m)]
    ensures w'.cur.core.link.memory == w.cur.core.link.memory
  {
    w' := WorkerStep(cfg, t, w, Receive(t, m));
  }

  /** It carries it out. */
  lemma MessageDone(cfg: Settings, t: Tid, w: Trip, m: Message) returns (w': Trip)
    requires Serving(cfg, t, w) && w.cur.tasks[t].AtRest?
    ensures Rides(cfg, t, w, w') && |w.steps| < |w'.steps| && w'.steps[|w.steps|] == Receive(t, m)
    ensures t in w'.cur.tasks && w'.cur.tasks[t].AtRest?
    ensures var h := Heeded(w'.cur.core.trace, t);
            h != [] && h[0] == Heard(m) && h[|h| - 1] != Ended(false)
    ensures w'.cur.core.link.memory.holding == AllAchieved(CommandsOf(m), w.cur.core.link.memory.holding)
  {
    if CommandsOf(m) == [] {
      w' := WorkerStep(cfg, t, w, Receive(t, m));
    } else {
      var w1 := MessageReceived(cfg, t, w, m);
      w' := CommandsDone(cfg, t, w1);
      RidesOn(cfg, t, w, w1, w');
      assert CommandsOf(m) == [CommandsOf(m)[0]] + CommandsOf(m)[1..];
    }
  }

  // ----- An OFF that stops half way

  /** A worker at rest receives an OFF, writes its 1, and its context is cancelled in the dwell. */
  lemma OffStops(cfg: Settings, t: Tid, w: Trip, m: Message) returns (w': Trip)
    requires Serving(cfg, t, w) && w.cur.tasks[t].AtRest? && CommandsOf(m) == [SetPower(false)]
    ensures Rides(cfg, t, w, w') && |w.steps| < |w'.steps| && w'.steps[|w.steps|] == Receive(t, m)
    ensures t in w'.cur.tasks && w'.cur.tasks[t].AtRest?
    ensures var h := Heeded(w'.cur.core.trace, t); |h| == 3 && h[0] == Heard(m) && h[2] == Ended(false)
    ensures w'.cur.core.link.memory.holding == w.cur.core.link.memory.holding[2 := 1]
  {
    var w1 := OffRises(cfg, t, w, m);
    w' := GivesUp(cfg, t, w1);
    RidesOn(cfg, t, w, w1, w');
  }

  lemma OffRises(cfg: Settings, t: Tid, w: Trip, m: Message) returns (w': Trip)
    requires Serving(cfg, t, w) && w.cur.tasks[t].AtRest? && CommandsOf(m) == [SetPower(false)]
    ensures Serves(cfg, t, w, w') && |w.steps| < |w'.steps| && w'.steps[|w.steps|] == Receive(t, m)
    ensures w'.cur.tasks[t].Applying? && w'.cur.tasks[t].phase.Pausing?
    ensures var h := Heeded(w'.cur.core.trace, t); |h| == 2 && h[0] == Heard(m)
    ensures w'.cur.core.link.memory.holding == w.cur.core.link.memory.holding[2 := 1]
  {
    var w1 := OffBegins(cfg, t, w, m);
    w' := RequestDone(cfg, t, w1);
    ServesOn(cfg, t, w, w1, w');
  }

  lemma OffBegins(cfg: Settings, t: Tid, w: Trip, m: Message) returns (w': Trip)
    requires Serving(cfg, t, w) && w.cur.tasks[t].AtRest? && CommandsOf(m) == [SetPower(false)]
    ensures Serves(cfg, t, w, w') && |w.steps| < |w'.steps| && w'.steps[|w.steps|] == Receive(t, m)
    ensures var task := w'.cur.tasks[t]; task.Applying? && task.cmd == SetPower(false) && task.phase == Issuing(0)
    ensures var h := Heeded(w'.cur.core.trace, t); |h| == 2 && h[0] == Heard(m)
    ensures w'.cur.core.link.memory.holding == w.cur.core.link.memory.holding
  {
    var w1 := MessageReceived(cfg, t, w, m);
    w' := CommandBegins(cfg, t, w1);
    ServesOn(cfg, t, w, w1, w');
  }

  lemma GivesUp(cfg: Settings, t: Tid, w: Trip) returns (w': Trip)
    requires Serving(cfg, t, w) && w.cur.tasks[t].Applying? && w.cur.tasks[t].phase.Pausing?
    requires Heeded(w.cur.core.trace, t) != []
    ensures Rides(cfg, t, w, w') && t in w'.cur.tasks && w'.cur.tasks[t].AtRest?
    ensures Heeded(w'.cur.core.trace, t) == Heeded(w.cur.core.trace, t) + [Ended(false)]
    ensures w'.cur.core.link.memory == w.cur.core.link.memory
  {
    var w1 := WorkerStep(cfg, t, w, GiveUp(t));
    w' := WorkerStep(cfg, t, w1, Close(t));
    RidesOn(cfg, t, w, w1, w');
  }

  // ----- The snapshot comes to show an idle controller

  /** The hot poller reads a controller whose State_1 says idle. */
  lemma ShowsIdle(cfg: Settings, w: Trip) returns (w': Trip)
    requires HasPoller(cfg, 0, w) && Bright(0, w.cur)
    ensures Rides(cfg, 0, w, w') && Healed(w'.cur.core) && w'.cur.core.owner == Nobody && w'.cur.latest.operation == 0
  {
    var input := w.cur.core.link.memory.input[STATE_1 := 0];
    var w1 := ComesToIdle(cfg, w, input);
    var w2 := PollReads(cfg, 0, w1);
    assert w2.cur.tasks[0].got[0][1] == SliceOf(w1.cur.core.link.memory, Batches(Hot)[0])[1] == 0;
    FieldDecoders(0);
    w' := PollPublishes(cfg, 0, w2);
    RidesOn(cfg, 0, w, w1, w2);
    RidesOn(cfg, 0, w, w2, w');
  }

  /** The controller changes its input registers. */
  lemma ComesToIdle(cfg: Settings, w: Trip, input: Bank) returns (w': Trip)
    requires HasPoller(cfg, 0, w) && Bright(0, w.cur)
    ensures Rides(cfg, 0, w, w') && Bright(0, w'.cur) && HasPoller(cfg, 0, w') && w'.cur.core.link.memory.input == input
  {
    w' := Ride(cfg, w, Core(Drift(input)));
  }

  // ----- The theorems

  /** From every reachable state with a running supervisor, a hot poller and a worker at rest, whatever message the
      worker receives: the run can go on, by steps of the hot poller and the worker, inside calls and of the supervisor,
      and the controller coming to idle, so that it receives the message, carries all of it out, and leaves the
      registers as the message asks. */
  lemma {:induction false} MessageCanBeCarriedOut(cfg: Settings, b: System, steps: seq<Step>, t: Tid, m: Message)
      returns (more: seq<Step>, k: nat)
    requires cfg.core.Valid() && Initial(b) && Follows(cfg, b, steps)
    requires 0 in b.tasks && t in b.tasks && TierOf(t).None? && t != WATCHER
    requires var b' := Final(cfg, b, steps);
             !b'.core.sup.Stopped? && t in b'.tasks && b'.tasks[t].AtRest?
    ensures forall st :: st in more ==> st.Core? || Actor(st) == Some(0) || Actor(st) == Some(t)
    ensures k < |more| && more[k] == Receive(t, m)
    ensures Follows(cfg, b, steps + more) && Follows(cfg, b, steps + more[..k])
    ensures var b' := Final(cfg, b, steps + more);
            var h := Heeded(b'.core.trace, t);
            && t in b'.tasks && b'.tasks[t].AtRest? && h != [] && h[0] == Heard(m) && h[|h| - 1] != Ended(false)
            && b'.core.link.memory.holding
               == AllAchieved(CommandsOf(m), Final(cfg, b, steps + more[..k]).core.link.memory.holding)
  {
    var w := TripOf(cfg, b, steps);
    TasksStay(cfg, b, steps);
    var w1 := Serviceable(cfg, t, w);
    var w2 := MessageDone(cfg, t, w1, m);
    more, k := TwoLegs(cfg, 0, t, w, w1, w2);
  }

  /** An OFF is not all or nothing: from every such state, and whatever message asks for it, the run can go on so that
      the worker carries out half of it, is cancelled in the dwell, and leaves the 1 in the power register. */
  lemma {:induction false} OffCanStopHalfWay(cfg: Settings, b: System, steps: seq<Step>, t: Tid, m: Message)
      returns (more: seq<Step>, k: nat)
    requires cfg.core.Valid() && Initial(b) && Follows(cfg, b, steps)
    requires 0 in b.tasks && t in b.tasks && TierOf(t).None? && t != WATCHER
    requires var b' := Final(cfg, b, steps);
             !b'.core.sup.Stopped? && t in b'.tasks && b'.tasks[t].AtRest?
    requires CommandsOf(m) == [SetPower(false)]
    ensures k < |more| && more[k] == Receive(t, m)
    ensures Follows(cfg, b, steps + more) && Follows(cfg, b, steps + more[..k])
    ensures var b' := Final(cfg, b, steps + more);
            var h := Heeded(b'.core.trace, t);
            && t in b'.tasks && b'.tasks[t].AtRest? && |h| == 3 && h[0] == Heard(m) && h[2] == Ended(false)
            && b'.core.link.memory.holding
               == Final(cfg, b, steps + more[..k]).core.link.memory.holding[2 := 1]
  {
    var w := TripOf(cfg, b, steps);
    TasksStay(cfg, b, steps);
    var w1 := Serviceable(cfg, t, w);
    var w2 := OffStops(cfg, t, w1, m);
    more, k := TwoLegs(cfg, 0, t, w, w1, w2);
  }

  lemma Serviceable(cfg: Settings, t: Tid, w: Trip) returns (w': Trip)
    requires HasPoller(cfg, 0, w) && !w.cur.core.sup.Stopped?
    requires t in w.cur.tasks && w.cur.tasks[t].AtRest? && TierOf(t).None? && t != WATCHER
    ensures Rides(cfg, 0, w, w') && Serving(cfg, t, w') && w'.cur.tasks[t].AtRest?
  {
    var w1 := ComesFree(cfg, 0, w);
    var w2 := Heals(cfg, 0, w1);
    w' := ShowsIdle(cfg, w2);
    RidesOn(cfg, 0, w, w1, w2);
    RidesOn(cfg, 0, w, w2, w');
    RestIsIdle(cfg, t, w');
  }

  lemma RestIsIdle(cfg: Settings, t: Tid, w: Trip)
    requires IsTrip(cfg, w) && t in w.cur.tasks && (w.cur.tasks[t].AtRest? || w.cur.tasks[t].Watching?)
    ensures t in w.cur.core.threads && w.cur.core.threads[t].Idle?
  {
    TripHasTasks(cfg, w);
    assert TaskFits(cfg, w.cur, t);
  }

  // ----- The watcher

  /** The watcher finishes the tick it is in, if any. */
  lemma WatcherRests(cfg: Settings, w: Trip) returns (w': Trip)
    requires IsTrip(cfg, w) && WATCHER in w.cur.tasks && !w.cur.core.sup.Stopped?
    ensures Rides(cfg, WATCHER, w, w') && Beside(w.cur.core, w'.cur.core) && w'.cur.latest == w.cur.latest
    ensures WATCHER in w'.cur.tasks && w'.cur.tasks[WATCHER].AtRest?
  {
    WatcherWatches(cfg, w);
    w' := w;
    if w.cur.tasks[WATCHER].Watching? {
      w' := WorkerStep(cfg, WATCHER, w, Watch);
    }
  }

  lemma WatcherWatches(cfg: Settings, w: Trip)
    requires IsTrip(cfg, w) && WATCHER in w.cur.tasks
    ensures w.cur.tasks[WATCHER].AtRest? || w.cur.tasks[WATCHER].Watching?
    ensures WATCHER in w.cur.core.threads && w.cur.core.threads[WATCHER].Idle?
  {
    TripHasTasks(cfg, w);
    assert HeedFits(WATCHER, w.cur.tasks[WATCHER], Heeded(w.cur.core.trace, WATCHER));
    RestIsIdle(cfg, WATCHER, w);
  }

  /** Its next tick. */
  lemma WatcherTicks(cfg: Settings, w: Trip) returns (w': Trip)
    requires IsTrip(cfg, w) && WATCHER in w.cur.tasks && w.cur.tasks[WATCHER].AtRest? && !w.cur.core.sup.Stopped?
    ensures Rides(cfg, WATCHER, w, w')
    ensures w'.cur.isOffline
            <==> w.cur.latest.polledAt == 0 || w.cur.core.link.now > w.cur.latest.polledAt + cfg.staleAfter
  {
    WatcherWatches(cfg, w);
    var w1 := WorkerStep(cfg, WATCHER, w, Peek);
    w' := WorkerStep(cfg, WATCHER, w1, Watch);
    AfterIsNext(cfg, w1, w', Watch);
    RidesOn(cfg, WATCHER, w, w1, w');
  }

  /** The callbacks so far, an odd number of them after online. */
  ghost predicate SaidOnline(b: System) {
    |FiredIn(b.core.trace)| % 2 == 1
  }

  lemma CallbacksTell(cfg: Settings, w: Trip)
    requires IsTrip(cfg, w)
    ensures SaidOnline(w.cur) <==> !w.cur.isOffline
  {
    AvailabilityAlternates(cfg, w.start, w.steps);
  }

  /** A poll comes through, and the watcher sees it in time. */
  lemma TurnsOnline(cfg: Settings, h: Tid, w: Trip) returns (w1: Trip, w2: Trip)
    requires HasPoller(cfg, h, w) && WATCHER in w.cur.tasks && !w.cur.core.sup.Stopped? && 0 <= cfg.staleAfter
    ensures Rides(cfg, h, w, w1) && Rides(cfg, WATCHER, w1, w2) && SaidOnline(w2.cur)
  {
    w1 := PollsNow(cfg, h, w);
    var rested := WatcherRests(cfg, w1);
    w2 := WatcherTicks(cfg, rested);
    RidesOn(cfg, WATCHER, w1, rested, w2);
    CallbacksTell(cfg, w2);
  }

  /** A poll that is published the moment it has read. */
  lemma PollsNow(cfg: Settings, h: Tid, w: Trip) returns (w': Trip)
    requires HasPoller(cfg, h, w) && !w.cur.core.sup.Stopped?
    ensures Rides(cfg, h, w, w') && w'.cur.latest.polledAt == w'.cur.core.link.now > 0
  {
    var w1 := ComesFree(cfg, h, w);
    var w2 := Heals(cfg, h, w1);
    var w3 := PollReads(cfg, h, w2);
    w' := PollPublishes(cfg, h, w3);
    RidesOn(cfg, h, w, w1, w2);
    RidesOn(cfg, h, w, w2, w3);
    RidesOn(cfg, h, w, w3, w');
    TripIsSound(cfg, w');
  }

  /** No poll is merged until the threshold has passed. */
  lemma TurnsOffline(cfg: Settings, w: Trip) returns (w': Trip)
    requires IsTrip(cfg, w) && WATCHER in w.cur.tasks && !w.cur.core.sup.Stopped?
    ensures Rides(cfg, WATCHER, w, w') && !SaidOnline(w'.cur)
  {
    var due, now := w.cur.latest.polledAt + cfg.staleAfter + 1, w.cur.core.link.now;
    var w1 := TimePasses(cfg, WATCHER, w, if due > now then due else now);
    var w2 := WatcherRests(cfg, w1);
    w' := WatcherTicks(cfg, w2);
    RidesOn(cfg, WATCHER, w, w1, w2);
    RidesOn(cfg, WATCHER, w, w2, w');
    CallbacksTell(cfg, w');
  }

  /** From every reachable state with a running supervisor, a poller and the watcher, the run can go on to the watcher
      having said offline, whatever it said before; and to it having said online, exactly when the threshold is not
      negative. */
  lemma {:induction false} WatcherCanTurn(cfg: Settings, b: System, steps: seq<Step>, h: Tid)
      returns (down: seq<Step>)
    requires cfg.core.Valid() && Initial(b) && Follows(cfg, b, steps)
    requires TierOf(h).Some? && h in b.tasks && WATCHER in b.tasks && !Final(cfg, b, steps).core.sup.Stopped?
    ensures forall st :: st in down ==> st.Core? || Actor(st) == Some(WATCHER)
    ensures Follows(cfg, b, steps + down) && !SaidOnline(Final(cfg, b, steps + down))
    ensures CanSayOnline(cfg, b, steps) <==> 0 <= cfg.staleAfter
  {
    var w := TripOf(cfg, b, steps);
    TasksStay(cfg, b, steps);
    var w' := TurnsOffline(cfg, w);
    down := Onward(cfg, WATCHER, w, w');
    if 0 <= cfg.staleAfter {
      ComesOnline(cfg, h, w);
    } else {
      NeverSaysOnline(cfg, b, steps);
    }
  }

  lemma ComesOnline(cfg: Settings, h: Tid, w: Trip)
    requires HasPoller(cfg, h, w) && WATCHER in w.cur.tasks && !w.cur.core.sup.Stopped? && 0 <= cfg.staleAfter
    ensures CanSayOnline(cfg, w.start, w.steps)
  {
    var w1, w2 := TurnsOnline(cfg, h, w);
    var up, _ := TwoLegs(cfg, h, WATCHER, w, w1, w2);
    assert Follows(cfg, w.start, w.steps + up);
  }

  lemma NeverSaysOnline(cfg: Settings, b: System, steps: seq<Step>)
    requires cfg.core.Valid() && Initial(b) && cfg.staleAfter < 0
    ensures !CanSayOnline(cfg, b, steps)
  {
    if CanSayOnline(cfg, b, steps) {
      var up :| Follows(cfg, b, steps + up) && SaidOnline(Final(cfg, b, steps + up));
      NeverOnline(cfg, b, steps + up);
    }
  }

  /** The steps from w to w2, of which the first k lead to w1. */
  lemma TwoLegs(cfg: Settings, h: Tid, t: Tid, w: Trip, w1: Trip, w2: Trip) returns (more: seq<Step>, k: nat)
    requires Rides(cfg, h, w, w1) && Rides(cfg, t, w1, w2)
    ensures w.steps + more == w2.steps && k <= |more| && w.steps + more[..k] == w1.steps
    ensures forall st :: st in more ==> st.Core? || Actor(st) == Some(h) || Actor(st) == Some(t)
    ensures |w1.steps| < |w2.steps| ==> k < |more| && more[k] == w2.steps[|w1.steps|]
  {
    var first := Onward(cfg, h, w, w1);
    var second := Onward(cfg, t, w1, w2);
    more, k := first + second, |first|;
    assert more[..k] == first;
  }

  /** The steps from w to w'. */
  lemma Onward(cfg: Settings, h: Tid, w: Trip, w': Trip) returns (more: seq<Step>)
    requires Rides(cfg, h, w, w')
    ensures w.steps + more == w'.steps && forall st :: st in more ==> st.Core? || Actor(st) == Some(h)
  {
    more := w'.steps[|w.steps|..];
  }

  ghost predicate CanSayOnline(cfg: Settings, b: System, steps: seq<Step>) {
    exists up: seq<Step> :: Follows(cfg, b, steps + up) && SaidOnline(Final(cfg, b, steps + up))
  }

  /** A negative threshold leaves every poll stale. */
  lemma NeverOnline(cfg: Settings, b: System, steps: seq<Step>)
    requires cfg.core.Valid() && Initial(b) && Follows(cfg, b, steps) && cfg.staleAfter < 0
    ensures FiredIn(Final(cfg, b, steps).core.trace) == []
  {
    AvailabilityAlternates(cfg, b, steps);
    if FiredIn(Final(cfg, b, steps).core.trace) != [] {
      var j := FirstFired(Final(cfg, b, steps).core.trace);
      OnlineNeedsThreshold(cfg, b, steps, j);
    }
  }

  lemma OnlineNeedsThreshold(cfg: Settings, b: System, steps: seq<Step>, j: nat)
    requires cfg.core.Valid() && Initial(b) && Follows(cfg, b, steps)
    requires var tr := Final(cfg, b, steps).core.trace;
             j < |tr| && IsTicked(tr[j]) && tr[j].note.fired == Some(Availability.Online)
    ensures 0 <= cfg.staleAfter
  {
    var i, _ := OnlineIsBacked(cfg, b, steps, j);
    ClockIsRead(cfg, b, steps, i, j);
  }

  /** The tick of the first callback. */
  lemma {:induction false} FirstFired(tr: seq<Event>) returns (j: nat)
    requires FiredIn(tr) != []
    ensures j < |tr| && IsTicked(tr[j]) && tr[j].note.fired == Some(FiredIn(tr)[0])
  {
    j := |tr| - 1;
    if FiredIn(tr[..j]) != [] {
      j := FirstFired(tr[..j]);
    }
  }
}
