/** Recovery of the whole bridge: from every reachable state its polls alone bring back a connected client and a fresh
    publication. */
module Revival {
  import opened Words
  import opened Values
  import opened Snapshots
  import opened Modbus
  import opened Machine
  import opened Invariants
  import opened Transactions
  import opened Client
  import opened Bridge
  import opened Calls
  import opened Histories
  import opened Handling
  import opened Guarantees
  import opened Recovery
  import Safety

  /** A run of the bridge, and the run of the machine inside it. */
  datatype Trip = Trip(start: System, steps: seq<Step>, cur: System, core: Run)

  ghost predicate IsTrip(cfg: Settings, w: Trip) {
    && cfg.core.Valid() && Initial(w.start) && Follows(cfg, w.start, w.steps) && w.cur == Final(cfg, w.start, w.steps)
    && IsRun(cfg.core, w.core) && w.core.start == w.start.core && w.core.cur == w.cur.core
  }

  /** h is the goroutine of one of the tiers. */
  ghost predicate HasPoller(cfg: Settings, h: Tid, w: Trip) {
    IsTrip(cfg, w) && TierOf(h).Some? && h in w.cur.tasks
  }

  /** w' goes on from w by steps of poller h and inside dispatcher calls and the supervisor, which stays alive. */
  ghost predicate Rides(cfg: Settings, h: Tid, w: Trip, w': Trip) {
    && IsTrip(cfg, w') && w'.start == w.start && w.steps <= w'.steps
    && (forall t :: t in w.cur.tasks && t in w'.cur.tasks && t != h ==> w'.cur.tasks[t] == w.cur.tasks[t])
    && w.cur.core.link.now <= w'.cur.core.link.now
    && (forall i :: |w.steps| <= i < |w'.steps| ==> w'.steps[i].Core? || Actor(w'.steps[i]) == Some(h))
    && w'.cur.tasks.Keys == w.cur.tasks.Keys && !w'.cur.core.sup.Stopped?
  }

  lemma RidesOn(cfg: Settings, h: Tid, w: Trip, w1: Trip, w2: Trip)
    requires Rides(cfg, h, w, w1) && Rides(cfg, h, w1, w2)
    ensures Rides(cfg, h, w, w2)
  {
  }

  lemma TripIsSound(cfg: Settings, w: Trip)
    requires IsTrip(cfg, w)
    ensures Sound(cfg.core, w.cur.core)
  {
    BridgeInvAlways(cfg, w.start, w.steps);
  }

  lemma TripHasTasks(cfg: Settings, w: Trip)
    requires IsTrip(cfg, w)
    ensures TasksInv(cfg, w.cur) && HeedInv(w.cur)
  {
    BridgeInvAlways(cfg, w.start, w.steps);
  }

  lemma TripHasKeys(cfg: Settings, w: Trip)
    requires IsTrip(cfg, w)
    ensures w.cur.tasks.Keys == w.cur.core.threads.Keys
  {
    TripHasTasks(cfg, w);
  }

  /** One step. */
  lemma Ride(cfg: Settings, w: Trip, st: Step) returns (w': Trip)
    requires IsTrip(cfg, w) && Possible(cfg, w.cur, st)
    ensures IsTrip(cfg, w') && w'.start == w.start && w'.steps == w.steps + [st] && w'.cur == After(cfg, w.cur, st)
  {
    Snoc(w.steps, st);
    CoreAfter(cfg, w.cur, st);
    TripIsSound(cfg, w);
    var core := w.core;
    match CoreAction(cfg, w.cur, st) {
      case None =>
      case Some(a) => core := Extend(cfg.core, w.core, a);
    }
    w' := Trip(w.start, w.steps + [st], After(cfg, w.cur, st), core);
  }

  /** A call, a return or a note moves nothing but the thread. */
  lemma OutsideCalls(cfg: Config, s: State, a: Action)
    requires Enabled(cfg, s, a) && !IsInternal(a)
    ensures var s' := Next(cfg, s, a);
            && s'.sup == s.sup && s'.owner == s.owner && s'.link == s.link && s'.errs == s.errs && s'.token == s.token
            && (a.Call? ==> s'.threads == s.threads[a.t := if ValidCount(a.req) then Want(a.req)
                                                           else Report(a.req, Err(BadCount))])
            && (a.Return? ==> s'.threads == s.threads[a.t := Idle])
            && (a.Jot? ==> s'.threads == s.threads)
  {
  }

  /** What a step outside the machine leaves of it. */
  ghost predicate Beside(s: State, s': State) {
    s'.sup == s.sup && s'.owner == s.owner && s'.link == s.link && s'.errs == s.errs && s'.token == s.token
  }

  lemma ActorMoves(cfg: Settings, h: Tid, b: System, st: Step)
    requires Possible(cfg, b, st) && Actor(st) == Some(h) && h in b.core.threads
    ensures var b' := After(cfg, b, st);
            && Beside(b.core, b'.core) && h in b'.core.threads
            && h in b'.tasks && b'.tasks[h] == TaskAfter(cfg, b, st)
            && b'.core.threads[h] == if st.Issue? then Want(RequestOf(b.tasks[h]).value)
                                       else if st.Finish? then Idle else b.core.threads[h]
  {
    ActorTask(cfg, b, st, h);
    CoreAfter(cfg, b, st);
    if st.Issue? {
      RequestIsValid(b.tasks[h]);
    }
    match CoreAction(cfg, b, st) {
      case None =>
      case Some(a) => OutsideCalls(cfg.core, b.core, a);
    }
  }

  lemma RequestIsValid(task: Task)
    requires RequestOf(task).Some?
    ensures ValidCount(RequestOf(task).value)
  {
  }

  /** A step of thread h's. */
  lemma ActorStep(cfg: Settings, h: Tid, w: Trip, st: Step) returns (w': Trip)
    requires IsTrip(cfg, w) && Possible(cfg, w.cur, st) && Actor(st) == Some(h) && !w.cur.core.sup.Stopped?
    ensures Rides(cfg, h, w, w') && Beside(w.cur.core, w'.cur.core)
    ensures h in w.cur.core.threads && h in w'.cur.core.threads && h in w'.cur.tasks
    ensures w'.cur.tasks[h] == TaskAfter(cfg, w.cur, st)
    ensures w'.cur.core.threads[h] == if st.Issue? then Want(RequestOf(w.cur.tasks[h]).value)
                                      else if st.Finish? then Idle else w.cur.core.threads[h]
    ensures w'.steps == w.steps + [st] && (!st.Publish? ==> w'.cur.latest == w.cur.latest)
  {
    TripHasKeys(cfg, w);
    ActorMoves(cfg, h, w.cur, st);
    KeysKept(cfg, w.cur, st);
    w' := Ride(cfg, w, st);
  }

  /** A quiet run of the machine is a run of the bridge. */
  lemma {:induction false} Lift(cfg: Settings, w: Trip, r': Run) returns (w': Trip)
    requires IsTrip(cfg, w) && IsRun(cfg.core, r') && r'.start == w.core.start && w.core.acts <= r'.acts
    requires forall i :: |w.core.acts| <= i < |r'.acts| ==> IsInternal(r'.acts[i])
    ensures IsTrip(cfg, w') && w'.start == w.start && w.steps <= w'.steps
    ensures forall i :: |w.steps| <= i < |w'.steps| ==> w'.steps[i].Core?
    ensures w'.cur == w.cur.(core := r'.cur)
    decreases |r'.acts|
  {
    if |w.core.acts| < |r'.acts| {
      var before, a := r'.acts[..|r'.acts| - 1], r'.acts[|r'.acts| - 1];
      var r1 := Run(r'.start, before, Exec(cfg.core, r'.start, before));
      var w1 := Lift(cfg, w, r1);
      w' := Ride(cfg, w1, Core(a));
    } else {
      assert r'.acts == w.core.acts;
      w' := w;
    }
  }

  lemma Quietly(cfg: Settings, h: Tid, w: Trip, r': Run) returns (w': Trip)
    requires IsTrip(cfg, w) && LivesOn(cfg.core, w.core, r')
    requires forall i :: |w.core.acts| <= i < |r'.acts| ==> IsInternal(r'.acts[i])
    ensures Rides(cfg, h, w, w') && w'.cur == w.cur.(core := r'.cur)
    ensures forall i :: |w.steps| <= i < |w'.steps| ==> w'.steps[i].Core?
  {
    w' := Lift(cfg, w, r');
  }

  // ----- A poller comes to rest

  /** How far a poller is from its next tick. */
  function Distance(task: Task, idle: bool): (nat, nat) {
    match task
    case Polling(_, got, _) => ((if |got| < 3 then 4 + 2 * (3 - |got|) else 4) + (if idle then 1 else 0), 0)
    case Merging(_, _, _, _) => (3, 0)
    case Copying(_) => (2, 0)
    case Notifying(_, next, upTo) => (1, if next <= upTo then upTo - next else 0)
    case Abandoning(_) => (1, 0)
    case _ => (0, 0)
  }

  ghost predicate Nearer(h: Tid, b: System, b': System)
    requires h in b.tasks && h in b.core.threads && h in b'.tasks && h in b'.core.threads
  {
    var d, d' := Distance(b.tasks[h], b.core.threads[h].Idle?), Distance(b'.tasks[h], b'.core.threads[h].Idle?);
    d'.0 < d.0 || (d'.0 == d.0 && d'.1 < d.1)
  }

  /** The poller's next step of its own. */
  function StepOf(h: Tid, task: Task): Step {
    match task
    case Polling(_, _, _) => Issue(h)
    case Merging(_, _, _, _) => Publish(h)
    case Copying(_) => CopySubscribers(h)
    case Notifying(_, next, upTo) => if next < upTo then Deliver(h) else Leave(h)
    case _ => Close(h)
  }

  /** What a poller's task says of its thread. */
  ghost predicate IsPollersOwn(task: Task, pc: Pc) {
    && !task.Applying? && !task.Watching?
    && (!task.Polling? ==> pc.Idle?)
    && (task.Polling? ==> |task.got| < 3 && (pc.Idle? || pc.req == BatchRequest(task.tier, |task.got|)))
    && (task.Merging? ==> FullReplies(task.tier, task.got))
    && (task.Notifying? ==> task.next <= task.upTo)
  }

  lemma PollersTask(cfg: Settings, t: Tid, task: Task, pc: Pc, own: seq<Event>, trail: seq<Event>, now: Time,
                    h: seq<Note>)
    requires Fits(cfg, t, task, pc, own, trail, now) && HeedFits(t, task, h) && TierOf(t).Some?
    ensures IsPollersOwn(task, pc)
  {
  }

  /** A poller holds no call, or is in one of its reads. */
  lemma PollerIsPolling(cfg: Settings, h: Tid, w: Trip)
    requires HasPoller(cfg, h, w)
    ensures h in w.cur.core.threads && IsPollersOwn(w.cur.tasks[h], w.cur.core.threads[h])
  {
    TripHasTasks(cfg, w);
    assert TaskFits(cfg, w.cur, h) && HeedFits(h, w.cur.tasks[h], Heeded(w.cur.core.trace, h));
    PollersTask(cfg, h, w.cur.tasks[h], w.cur.core.threads[h], Own(w.cur.core.trace, h),
                Trail(w.cur.core.trace, h), w.cur.core.link.now, Heeded(w.cur.core.trace, h));
  }

  /** A read under way comes back. */
  lemma ReadReturns(cfg: Settings, h: Tid, w: Trip) returns (w': Trip)
    requires HasPoller(cfg, h, w) && !w.cur.core.sup.Stopped? && w.cur.core.owner == Nobody
    requires h in w.cur.core.threads && w.cur.tasks[h].Polling? && !w.cur.core.threads[h].Idle?
    requires |w.cur.tasks[h].got| < 3
    ensures Rides(cfg, h, w, w') && w'.cur.core.owner == Nobody
    ensures h in w'.cur.tasks && h in w'.cur.core.threads && w'.cur.core.threads[h].Idle?
    ensures w'.cur.tasks[h].Abandoning? || w'.cur.tasks[h].Merging?
            || (w'.cur.tasks[h].Polling? && |w'.cur.tasks[h].got| == |w.cur.tasks[h].got| + 1 < 3)
  {
    TripIsSound(cfg, w);
    var r1 := CallConcluded(cfg.core, w.core, h);
    var w1 := Quietly(cfg, h, w, r1);
    w' := ActorStep(cfg, h, w1, Finish(h));
    RidesOn(cfg, h, w, w1, w');
  }

  lemma StepIsPossible(cfg: Settings, h: Tid, b: System)
    requires h in b.tasks && h in b.core.threads && !b.tasks[h].AtRest?
    requires b.core.threads[h].Idle? && IsPollersOwn(b.tasks[h], b.core.threads[h])
    ensures Possible(cfg, b, StepOf(h, b.tasks[h])) && Actor(StepOf(h, b.tasks[h])) == Some(h)
  {
  }

  /** One step towards rest. */
  lemma Approach(cfg: Settings, h: Tid, w: Trip) returns (w': Trip)
    requires HasPoller(cfg, h, w) && !w.cur.core.sup.Stopped? && w.cur.core.owner == Nobody
    requires !w.cur.tasks[h].AtRest?
    ensures Rides(cfg, h, w, w') && w'.cur.core.owner == Nobody
    ensures h in w.cur.core.threads && h in w'.cur.tasks && h in w'.cur.core.threads && Nearer(h, w.cur, w'.cur)
  {
    PollerIsPolling(cfg, h, w);
    var task := w.cur.tasks[h];
    if task.Polling? && !w.cur.core.threads[h].Idle? {
      w' := ReadReturns(cfg, h, w);
    } else {
      StepIsPossible(cfg, h, w.cur);
      w' := ActorStep(cfg, h, w, StepOf(h, task));
    }
  }

  lemma {:induction false} ComesToRest(cfg: Settings, h: Tid, w: Trip) returns (w': Trip)
    requires HasPoller(cfg, h, w) && !w.cur.core.sup.Stopped? && w.cur.core.owner == Nobody
    requires h in w.cur.core.threads
    ensures Rides(cfg, h, w, w') && w'.cur.core.owner == Nobody
    ensures h in w'.cur.tasks && w'.cur.tasks[h].AtRest?
    decreases Distance(w.cur.tasks[h], w.cur.core.threads[h].Idle?).0,
              Distance(w.cur.tasks[h], w.cur.core.threads[h].Idle?).1
  {
    if w.cur.tasks[h].AtRest? {
      w' := w;
    } else {
      var w1 := Approach(cfg, h, w);
      w' := ComesToRest(cfg, h, w1);
      RidesOn(cfg, h, w, w1, w');
    }
  }

  // ----- Failing polls wake the supervisor

  /** Disconnected, with poller h at rest. */
  ghost predicate Dark(h: Tid, b: System) {
    && b.core.owner == Nobody && Safety.Cut(b.core)
    && h in b.tasks && h in b.core.threads && b.tasks[h].AtRest? && b.core.threads[h].Idle?
  }

  /** A poller at rest begins a poll and makes its first request. */
  lemma PollStarts(cfg: Settings, h: Tid, w: Trip) returns (w': Trip)
    requires HasPoller(cfg, h, w) && h in w.cur.core.threads && !w.cur.core.sup.Stopped?
    requires w.cur.tasks[h].AtRest? && w.cur.core.threads[h].Idle?
    ensures Rides(cfg, h, w, w') && Beside(w.cur.core, w'.cur.core)
    ensures h in w'.cur.tasks && h in w'.cur.core.threads && w'.cur.core.threads[h].Idle?
    ensures w'.cur.tasks[h].Polling? && w'.cur.tasks[h].tier == TierOf(h).value && w'.cur.tasks[h].got == []
  {
    w' := ActorStep(cfg, h, w, StartPoll(h));
  }

  lemma ReadIssued(cfg: Settings, h: Tid, w: Trip) returns (w': Trip)
    requires HasPoller(cfg, h, w) && h in w.cur.core.threads && !w.cur.core.sup.Stopped?
    requires w.cur.tasks[h].Polling? && |w.cur.tasks[h].got| < 3 && w.cur.core.threads[h].Idle?
    ensures Rides(cfg, h, w, w') && Beside(w.cur.core, w'.cur.core)
    ensures h in w'.cur.tasks && h in w'.cur.core.threads && w'.cur.tasks[h] == w.cur.tasks[h]
    ensures w'.cur.core.threads[h] == Want(BatchRequest(w.cur.tasks[h].tier, |w.cur.tasks[h].got|))
  {
    w' := ActorStep(cfg, h, w, Issue(h));
  }

  /** A read while disconnected fails and counts. */
  lemma ReadFails(cfg: Settings, h: Tid, w: Trip) returns (w': Trip)
    requires IsTrip(cfg, w) && TierOf(h).Some? && w.cur.core.owner == Nobody && Safety.Cut(w.cur.core)
    requires h in w.cur.tasks && h in w.cur.core.threads && w.cur.core.threads[h].Idle?
    requires w.cur.tasks[h].Polling? && |w.cur.tasks[h].got| < 3
    ensures Rides(cfg, h, w, w') && w'.cur.core.owner == Nobody && Safety.Cut(w'.cur.core)
    ensures h in w'.cur.tasks && h in w'.cur.core.threads
    ensures w'.cur.tasks[h].Abandoning? && w'.cur.core.threads[h].Idle?
    ensures w'.cur.core.errs == w.cur.core.errs + 1
    ensures w'.cur.core.errs >= cfg.core.threshold ==> w'.cur.core.token
  {
    var w1 := ReadIssued(cfg, h, w);
    TripIsSound(cfg, w1);
    var r2 := CallCounts(cfg.core, w1.core, h, w1.core.cur.threads[h].req);
    var w2 := Quietly(cfg, h, w1, r2);
    w' := ActorStep(cfg, h, w2, Finish(h));
    RidesOn(cfg, h, w, w1, w2);
    RidesOn(cfg, h, w, w2, w');
  }

  /** A poll while disconnected fails and counts. */
  lemma PollFails(cfg: Settings, h: Tid, w: Trip) returns (w': Trip)
    requires IsTrip(cfg, w) && TierOf(h).Some? && Dark(h, w.cur)
    ensures Rides(cfg, h, w, w') && Dark(h, w'.cur)
    ensures w'.cur.core.errs == w.cur.core.errs + 1
    ensures w'.cur.core.errs >= cfg.core.threshold ==> w'.cur.core.token
  {
    var w1 := PollStarts(cfg, h, w);
    var w2 := ReadFails(cfg, h, w1);
    w' := ActorStep(cfg, h, w2, Close(h));
    RidesOn(cfg, h, w, w1, w2);
    RidesOn(cfg, h, w, w2, w');
  }

  /** Connected, with an idle supervisor and the hot poller at rest. */
  ghost predicate Bright(h: Tid, b: System) {
    && b.core.owner == Nobody && Healed(b.core)
    && h in b.tasks && h in b.core.threads && b.tasks[h].AtRest? && b.core.threads[h].Idle?
  }

  /** The supervisor does its repair. */
  lemma Repairs(cfg: Settings, h: Tid, w: Trip) returns (w': Trip)
    requires IsTrip(cfg, w) && TierOf(h).Some? && !w.cur.core.sup.Stopped? && w.cur.core.owner == Nobody
    requires h in w.cur.tasks && h in w.cur.core.threads
    requires w.cur.tasks[h].AtRest? && w.cur.core.threads[h].Idle?
    requires w.cur.core.sup.Listening? ==> w.cur.core.token || w.cur.core.link.connected
    ensures Rides(cfg, h, w, w') && Bright(h, w'.cur)
  {
    TripIsSound(cfg, w);
    var r1 := SupervisorRepairs(cfg.core, w.core, 0);
    w' := Quietly(cfg, h, w, r1);
  }

  lemma {:induction false} PollsWake(cfg: Settings, h: Tid, w: Trip) returns (w': Trip)
    requires IsTrip(cfg, w) && TierOf(h).Some? && Dark(h, w.cur)
    ensures Rides(cfg, h, w, w') && Bright(h, w'.cur)
    decreases if w.cur.core.errs < cfg.core.threshold then cfg.core.threshold - w.cur.core.errs else 0
  {
    var w1 := PollFails(cfg, h, w);
    if w1.cur.core.token {
      w' := Repairs(cfg, h, w1);
    } else {
      w' := PollsWake(cfg, h, w1);
    }
    RidesOn(cfg, h, w, w1, w');
  }

  // ----- A poll of a connected client

  lemma ReadAnswered(cfg: Settings, h: Tid, w: Trip) returns (w': Trip, words: seq<Word>)
    requires HasPoller(cfg, h, w) && Healed(w.cur.core) && w.cur.core.owner == Nobody
    requires h in w.cur.core.threads && w.cur.tasks[h].Polling? && |w.cur.tasks[h].got| < 3
    requires w.cur.core.threads[h] == Want(BatchRequest(w.cur.tasks[h].tier, |w.cur.tasks[h].got|))
    ensures Rides(cfg, h, w, w') && Healed(w'.cur.core) && w'.cur.core.owner == Nobody
    ensures w'.cur.tasks == w.cur.tasks && h in w'.cur.core.threads
    ensures w'.cur.core.threads[h] == Done(w.cur.core.threads[h].req, Ok(words))
    ensures words == SliceOf(w.cur.core.link.memory, Batches(w.cur.tasks[h].tier)[|w.cur.tasks[h].got|])
    ensures |words| == Batches(w.cur.tasks[h].tier)[|w.cur.tasks[h].got|].count
    ensures w'.cur.core.link.memory == w.cur.core.link.memory
  {
    TripIsSound(cfg, w);
    var r1;
    r1, words := ReadInFull(cfg.core, w.core, h);
    w' := Quietly(cfg, h, w, r1);
  }

  /** One read of the poll is answered in full. */
  lemma ReadWorks(cfg: Settings, h: Tid, w: Trip) returns (w': Trip)
    requires IsTrip(cfg, w) && TierOf(h).Some? && Healed(w.cur.core) && w.cur.core.owner == Nobody
    requires h in w.cur.tasks && h in w.cur.core.threads && w.cur.core.threads[h].Idle?
    requires w.cur.tasks[h].Polling? && |w.cur.tasks[h].got| < 3 && w.cur.tasks[h].tier == TierOf(h).value
    ensures Rides(cfg, h, w, w') && Healed(w'.cur.core) && w'.cur.core.owner == Nobody
    ensures h in w'.cur.tasks && h in w'.cur.core.threads && w'.cur.core.threads[h].Idle?
    ensures var task, task' := w.cur.tasks[h], w'.cur.tasks[h];
            && (if |task.got| < 2 then task'.Polling? && |task'.got| == |task.got| + 1 else task'.Merging?)
            && task'.tier == TierOf(h).value && (task'.Merging? ==> task'.at == w'.cur.core.link.now)
            && task'.got == task.got + [SliceOf(w.cur.core.link.memory, Batches(task.tier)[|task.got|])]
    ensures w'.cur.core.link.memory == w.cur.core.link.memory
  {
    var w1 := ReadIssued(cfg, h, w);
    var w2, words := ReadAnswered(cfg, h, w1);
    w' := ActorStep(cfg, h, w2, Finish(h));
    RidesOn(cfg, h, w, w1, w2);
    RidesOn(cfg, h, w, w2, w');
  }

  /** A poll of a connected client reads all it asks for. */
  lemma PollReads(cfg: Settings, h: Tid, w: Trip) returns (w': Trip)
    requires HasPoller(cfg, h, w) && Bright(h, w.cur)
    ensures Rides(cfg, h, w, w') && Healed(w'.cur.core) && w'.cur.core.owner == Nobody && h in w'.cur.tasks
    ensures var task := w'.cur.tasks[h];
            && task.Merging? && task.tier == TierOf(h).value && task.at == w'.cur.core.link.now
            && |task.got| == 3 && task.got[0] == SliceOf(w.cur.core.link.memory, Batches(task.tier)[0])
  {
    var w1 := PollStarts(cfg, h, w);
    var w2 := ReadWorks(cfg, h, w1);
    var w3 := ReadWorks(cfg, h, w2);
    w' := ReadWorks(cfg, h, w3);
    RidesOn(cfg, h, w, w1, w2);
    RidesOn(cfg, h, w, w2, w3);
    RidesOn(cfg, h, w, w3, w');
  }

  /** And ends in a publication. */
  lemma PollWorks(cfg: Settings, h: Tid, w: Trip) returns (w': Trip)
    requires HasPoller(cfg, h, w) && Bright(h, w.cur)
    ensures Rides(cfg, h, w, w') && Healed(w'.cur.core) && EndsPublished(h, w'.cur.core.trace)
    ensures |w'.steps| > |w.steps|
  {
    var w1 := PollReads(cfg, h, w);
    w' := PollPublishes(cfg, h, w1);
    RidesOn(cfg, h, w, w1, w');
  }

  /** The history ends with a publication of poller h's tier. */
  predicate EndsPublished(h: Tid, tr: seq<Event>) {
    tr != [] && IsPublished(tr[|tr| - 1]) && tr[|tr| - 1].t == h && TierOf(h) == Some(tr[|tr| - 1].note.merged.tier)
  }

  lemma PollPublishes(cfg: Settings, h: Tid, w: Trip) returns (w': Trip)
    requires HasPoller(cfg, h, w) && Healed(w.cur.core)
    requires w.cur.tasks[h].Merging? && w.cur.tasks[h].tier == TierOf(h).value
    ensures Rides(cfg, h, w, w') && Healed(w'.cur.core) && EndsPublished(h, w'.cur.core.trace)
    ensures w'.steps == w.steps + [Publish(h)] && w'.cur.latest.polledAt == w.cur.tasks[h].at
    ensures w'.cur.core.owner == w.cur.core.owner && w'.cur.core.link == w.cur.core.link
    ensures TierOf(h) == Some(Hot) && |w.cur.tasks[h].got| == 3 && |w.cur.tasks[h].got[0]| == 17 ==>
              w'.cur.latest.operation == OperatingStateFromRegister(w.cur.tasks[h].got[0][1])
  {
    PollerIsPolling(cfg, h, w);
    TripHasKeys(cfg, w);
    ActorMoves(cfg, h, w.cur, Publish(h));
    KeysKept(cfg, w.cur, Publish(h));
    TraceExtends(cfg, w.cur, Publish(h));
    w' := Ride(cfg, w, Publish(h));
  }

  // ----- The theorem

  lemma {:induction false} TripOf(cfg: Settings, b: System, steps: seq<Step>) returns (w: Trip)
    requires cfg.core.Valid() && Initial(b) && Follows(cfg, b, steps)
    ensures IsTrip(cfg, w) && w.start == b && w.steps == steps
  {
    if steps == [] {
      w := Trip(b, [], b, Run(b.core, [], b.core));
    } else {
      var before := TripOf(cfg, b, steps[..|steps| - 1]);
      w := Ride(cfg, before, steps[|steps| - 1]);
    }
  }

  /** The mutex comes free and the poller to rest. */
  lemma ComesFree(cfg: Settings, h: Tid, w: Trip) returns (w': Trip)
    requires HasPoller(cfg, h, w) && !w.cur.core.sup.Stopped?
    ensures Rides(cfg, h, w, w') && w'.cur.core.owner == Nobody
    ensures h in w'.cur.tasks && h in w'.cur.core.threads
    ensures w'.cur.tasks[h].AtRest? && w'.cur.core.threads[h].Idle?
  {
    TripIsSound(cfg, w);
    var r1 := MutexComesFree(cfg.core, w.core);
    var w1 := Quietly(cfg, h, w, r1);
    TripHasKeys(cfg, w1);
    w' := ComesToRest(cfg, h, w1);
    PollerIsPolling(cfg, h, w');
    RidesOn(cfg, h, w, w1, w');
  }

  lemma Revives(cfg: Settings, h: Tid, w: Trip) returns (w': Trip)
    requires HasPoller(cfg, h, w) && !w.cur.core.sup.Stopped?
    ensures Rides(cfg, h, w, w') && Healed(w'.cur.core) && EndsPublished(h, w'.cur.core.trace) && |w'.steps| > |w.steps|
  {
    var w1 := ComesFree(cfg, h, w);
    var w2 := Heals(cfg, h, w1);
    w' := PollWorks(cfg, h, w2);
    RidesOn(cfg, h, w, w1, w2);
    RidesOn(cfg, h, w, w2, w');
  }

  lemma Heals(cfg: Settings, h: Tid, w: Trip) returns (w': Trip)
    requires HasPoller(cfg, h, w) && !w.cur.core.sup.Stopped? && w.cur.core.owner == Nobody
    requires h in w.cur.core.threads && w.cur.tasks[h].AtRest? && w.cur.core.threads[h].Idle?
    ensures Rides(cfg, h, w, w') && Bright(h, w'.cur)
  {
    if Safety.Cut(w.cur.core) && !w.cur.core.token {
      w' := PollsWake(cfg, h, w);
    } else {
      w' := Repairs(cfg, h, w);
    }
  }

  /** From every reachable state of the bridge with a running supervisor and a poller, whatever is under way, the run
      can go on, by that poller's steps and inside calls and the supervisor alone, to a connected client with an idle
      supervisor and a fresh publication of its tier. */
  lemma {:induction false} PollsRevive(cfg: Settings, b: System, steps: seq<Step>, h: Tid)
      returns (more: seq<Step>)
    requires cfg.core.Valid() && Initial(b) && Follows(cfg, b, steps)
    requires TierOf(h).Some? && h in b.tasks && !Final(cfg, b, steps).core.sup.Stopped?
    ensures forall st :: st in more ==> st.Core? || Actor(st) == Some(h)
    ensures Follows(cfg, b, steps + more)
    ensures Healed(Final(cfg, b, steps + more).core)
    ensures more != [] && EndsPublished(h, Final(cfg, b, steps + more).core.trace)
  {
    var w := TripOf(cfg, b, steps);
    TasksStay(cfg, b, steps);
    var w' := Revives(cfg, h, w);
    more := w'.steps[|steps|..];
    assert steps + more == w'.steps;
  }

  /** So can every tier come to be published afresh, and only by the one goroutine it has. */
  lemma {:induction false} EveryTierRevives(cfg: Settings, b: System, steps: seq<Step>, tier: Tier)
      returns (more: seq<Step>, h: Tid)
    requires cfg.core.Valid() && Initial(b) && Follows(cfg, b, steps)
    requires {0, 1, 2} <= b.tasks.Keys && !Final(cfg, b, steps).core.sup.Stopped?
    ensures Follows(cfg, b, steps + more)
    ensures var tr := Final(cfg, b, steps + more).core.trace;
            |tr| > 0 && IsPublished(tr[|tr| - 1]) && tr[|tr| - 1].t == h && tr[|tr| - 1].note.merged.tier == tier
    ensures forall t :: TierOf(t) == Some(tier) <==> t == h
  {
    h := match tier case Hot => 0 case Medium => 1 case Slow => 2;
    more := PollsRevive(cfg, b, steps, h);
  }

  // ----- PolledAt can turn back

  /** Boot, and a hot poll that has read but not yet merged. */
  lemma HotPollReads(cfg: Settings, b: System) returns (w: Trip)
    requires cfg.core.Valid() && Initial(b) && 0 in b.tasks && 1 in b.tasks
    ensures IsTrip(cfg, w) && w.start == b && Bright(1, w.cur)
    ensures 0 in w.cur.tasks && w.cur.tasks[0].Merging? && w.cur.tasks[0].tier == Hot
    ensures w.cur.tasks[0].at == w.cur.core.link.now
  {
    var w0 := TripOf(cfg, b, []);
    var w1 := Repairs(cfg, 0, w0);
    w := PollReads(cfg, 0, w1);
    PollerIsPolling(cfg, 1, w);
  }

  /** The hot poll at its merge while a medium poll reads later and merges first. */
  lemma MediumOvertakes(cfg: Settings, w: Trip) returns (w': Trip)
    requires IsTrip(cfg, w) && Bright(1, w.cur)
    requires 0 in w.cur.tasks && w.cur.tasks[0].Merging? && w.cur.tasks[0].tier == Hot
    ensures IsTrip(cfg, w') && w'.start == w.start && Healed(w'.cur.core)
    ensures 0 in w'.cur.tasks && w'.cur.tasks[0] == w.cur.tasks[0]
    ensures w'.cur.latest.polledAt > w.cur.core.link.now
  {
    var w1 := Ride(cfg, w, Core(Tick(w.cur.core.link.now + 1)));
    var w2 := PollReads(cfg, 1, w1);
    w' := PollPublishes(cfg, 1, w2);
  }

  /** From every initial state of a bridge with a hot and a medium poller, some run ends with a publication that turns
      the PolledAt of the shared snapshot back: a hot poll has read its registers and its clock; a medium poll then
      reads and merges; then the hot poll merges. */
  lemma {:induction false} PolledAtTurnsBack(cfg: Settings, b: System) returns (steps: seq<Step>)
    requires cfg.core.Valid() && Initial(b) && 0 in b.tasks && 1 in b.tasks
    ensures Follows(cfg, b, steps) && steps != [] && steps[|steps| - 1] == Publish(0)
    ensures Final(cfg, b, steps).latest.polledAt < Final(cfg, b, steps[..|steps| - 1]).latest.polledAt
  {
    var w1 := HotPollReads(cfg, b);
    var w2 := MediumOvertakes(cfg, w1);
    var w3 := PollPublishes(cfg, 0, w2);
    steps := w3.steps;
    Snoc(w2.steps, Publish(0));
  }
}
