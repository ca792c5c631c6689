/** What the MQTT workers do with the messages they receive, in every run
    (interface/mqtt/command_subscriber.go, application/usecase/apply_command.go). */
module Handling {
  import opened Words
  import opened Values
  import opened Snapshots
  import opened Modbus
  import opened Commands
  import opened Machine
  import opened Invariants
  import opened Transactions
  import opened Bridge
  import opened Calls
  import opened Histories

  // ----- A thread's latest message and what it did about it

  function HeedWith(h: seq<Note>, note: Note): seq<Note> {
    if note.Heard? then [note]
    else if h != [] && (note.Began? || note.Ended?) then h + [note]
    else h
  }

  /** Thread t's latest message, and the beginnings and results of its commands since. */
  function Heeded(tr: seq<Event>, t: Tid): seq<Note> {
    if tr == [] then []
    else
      var e := tr[|tr| - 1];
      if e.Noted? && e.t == t then HeedWith(Heeded(tr[..|tr| - 1], t), e.note) else Heeded(tr[..|tr| - 1], t)
  }

  lemma HeededSnoc(tr: seq<Event>, t: Tid, e: Event)
    ensures Heeded(tr + [e], t)
            == if e.Noted? && e.t == t then HeedWith(Heeded(tr, t), e.note) else Heeded(tr, t)
  {
    Snoc(tr, e);
  }

  /** The commands begun are the first of the message's own, in order, and each but the first was begun only after the
      one before it had succeeded. */
  predicate Heeds(h: seq<Note>) {
    h == [] || (h[0].Heard? && Obeys(CommandsOf(h[0].message), h[1..]))
  }

  /** Began c0, Ended, Began c1, Ended, ... up to some point; only the last result may be a failure. */
  predicate Obeys(cmds: seq<Command>, h: seq<Note>) {
    |h| <= 2 * |cmds| && forall i :: 0 <= i < |h| ==> ObeysAt(cmds, h, i)
  }

  predicate ObeysAt(cmds: seq<Command>, h: seq<Note>, i: nat)
    requires i < |h| <= 2 * |cmds|
  {
    if i % 2 == 0 then h[i].Began? && h[i].cmd == cmds[i / 2] && (i > 0 ==> h[i - 1] == Ended(true))
    else h[i].Ended?
  }

  lemma ObeysSnoc(cmds: seq<Command>, h: seq<Note>, note: Note)
    requires Obeys(cmds, h) && |h| < 2 * |cmds| && ObeysAt(cmds, h + [note], |h|)
    ensures Obeys(cmds, h + [note])
  {
    var h' := h + [note];
    forall i | 0 <= i < |h'| ensures ObeysAt(cmds, h', i) {
      assert i < |h| ==> ObeysAt(cmds, h, i);
    }
  }

  /** The message is dealt with: its last command failed, or all of its commands have ended. */
  predicate Concluded(h: seq<Note>) {
    h != [] && h[0].Heard? && (h[|h| - 1] == Ended(false) || |h| == 1 + 2 * |CommandsOf(h[0].message)|)
  }

  /** Where a worker is in its message. */
  ghost predicate HeedFits(t: Tid, task: Task, h: seq<Note>) {
    && Heeds(h)
    && (TierOf(t).Some? || t == WATCHER ==> h == [])
    && match task
       case Applying(cmd, rest, phase, _) =>
         h != [] && InCommand(CommandsOf(h[0].message), h[1..], cmd, rest, phase.Consulting?)
       case AtRest => h == [] || Concluded(h)
       case Watching(_) => t == WATCHER
       case _ => TierOf(t).Some?
  }

  /** The command at hand is the next one to begin, or the one begun last; rest are those after it. */
  ghost predicate InCommand(cmds: seq<Command>, h: seq<Note>, cmd: Command, rest: seq<Command>, next: bool) {
    var k := |h| / 2;
    && k < |cmds| && cmds[k..] == [cmd] + rest
    && (next <==> |h| % 2 == 0)
    && (next && k > 0 ==> h[2 * k - 1] == Ended(true))
  }

  ghost predicate HeedInv(b: System) {
    forall t :: t in b.tasks ==> HeedFits(t, b.tasks[t], Heeded(b.core.trace, t))
  }

  // ----- Every step keeps it

  /** What a step adds to a thread's dealings with its message. */
  lemma HeededAfter(cfg: Settings, b: System, st: Step, t: Tid)
    requires Possible(cfg, b, st)
    ensures Heeded(After(cfg, b, st).core.trace, t)
            == match CoreAction(cfg, b, st)
               case None => Heeded(b.core.trace, t)
               case Some(a) =>
                 if a.Jot? && a.t == t then HeedWith(Heeded(b.core.trace, t), a.note) else Heeded(b.core.trace, t)
  {
    TraceExtends(cfg, b, st);
    match CoreAction(cfg, b, st) {
      case None =>
      case Some(a) =>
        var es := EventsOf(cfg.core, b.core, a);
        if es == [] {
          assert b.core.trace + [] == b.core.trace;
        } else {
          HeededSnoc(b.core.trace, t, es[0]);
        }
    }
  }

  lemma CommandBegins(cmds: seq<Command>, h: seq<Note>, cmd: Command, rest: seq<Command>, op: OperatingState)
    requires Obeys(cmds, h) && InCommand(cmds, h, cmd, rest, true)
    ensures Obeys(cmds, h + [Began(cmd, op)]) && InCommand(cmds, h + [Began(cmd, op)], cmd, rest, false)
  {
    assert cmds[|h| / 2] == cmds[|h| / 2..][0];
    ObeysSnoc(cmds, h, Began(cmd, op));
  }

  lemma CommandEnds(cmds: seq<Command>, h: seq<Note>, cmd: Command, rest: seq<Command>, ok: bool)
    requires Obeys(cmds, h) && InCommand(cmds, h, cmd, rest, false)
    ensures Obeys(cmds, h + [Ended(ok)])
    ensures ok && rest != [] ==> InCommand(cmds, h + [Ended(ok)], rest[0], rest[1..], true)
  {
    var k := |h| / 2;
    assert cmds[k + 1..] == cmds[k..][1..] == rest;
    ObeysSnoc(cmds, h, Ended(ok));
  }

  lemma CommandHeeds(cfg: Settings, b: System, st: Step, t: Tid, h: seq<Note>, note: Note)
    requires Possible(cfg, b, st) && Actor(st) == Some(t) && t in b.tasks && b.tasks[t].Applying?
    requires CoreAction(cfg, b, st) == Some(Jot(t, note)) && HeedFits(t, b.tasks[t], h) && (st.Consult? || st.Close?)
    ensures HeedFits(t, TaskAfter(cfg, b, st), HeedWith(h, note))
  {
    var task, cmds := b.tasks[t], CommandsOf(h[0].message);
    assert (h + [note])[1..] == h[1..] + [note];
    if st.Consult? {
      CommandBegins(cmds, h[1..], task.cmd, task.rest, b.latest.operation);
    } else {
      CommandEnds(cmds, h[1..], task.cmd, task.rest, task.phase.ok);
    }
  }

  lemma ActorHeeds(cfg: Settings, b: System, st: Step, t: Tid)
    requires Possible(cfg, b, st) && Actor(st) == Some(t) && t in b.tasks
    requires HeedFits(t, b.tasks[t], Heeded(b.core.trace, t))
    ensures HeedFits(t, TaskAfter(cfg, b, st), Heeded(After(cfg, b, st).core.trace, t))
  {
    HeededAfter(cfg, b, st, t);
    var h := Heeded(b.core.trace, t);
    if st.Receive? {
      var cmds := CommandsOf(st.m);
      assert [Heard(st.m)][1..] == [];
      assert cmds[0..] == cmds;
    } else if st.Consult? || (st.Close? && b.tasks[t].Applying?) {
      CommandHeeds(cfg, b, st, t, h, CoreAction(cfg, b, st).value.note);
    }
  }

  lemma HeedKept(cfg: Settings, b: System, st: Step)
    requires Possible(cfg, b, st) && b.tasks.Keys == b.core.threads.Keys && HeedInv(b)
    ensures HeedInv(After(cfg, b, st))
  {
    KeysKept(cfg, b, st);
    var b' := After(cfg, b, st);
    forall t | t in b'.tasks ensures HeedFits(t, b'.tasks[t], Heeded(b'.core.trace, t)) {
      if Actor(st) == Some(t) {
        ActorHeeds(cfg, b, st, t);
        ActorTask(cfg, b, st, t);
      } else {
        HeededAfter(cfg, b, st, t);
        BystanderTask(cfg, b, st, t);
      }
    }
  }

  /** At every moment of the run, every thread heeded its latest message. */
  ghost predicate AlwaysHeeded(b: System) {
    forall p: nat, t :: p <= |b.core.trace| && t in b.tasks ==> Heeds(Heeded(b.core.trace[..p], t))
  }

  lemma AlwaysHeededKept(cfg: Settings, b: System, st: Step)
    requires Possible(cfg, b, st) && AlwaysHeeded(b) && b.tasks.Keys == b.core.threads.Keys
    requires HeedInv(After(cfg, b, st))
    ensures AlwaysHeeded(After(cfg, b, st))
  {
    var b' := After(cfg, b, st);
    var tr, tr' := b.core.trace, b'.core.trace;
    TraceExtends(cfg, b, st);
    KeysKept(cfg, b, st);
    forall p: nat, t | p <= |tr'| && t in b'.tasks ensures Heeds(Heeded(tr'[..p], t)) {
      if p <= |tr| {
        assert tr'[..p] == tr'[..|tr|][..p];
      } else {
        assert tr'[..p] == tr';
      }
    }
  }

  // ----- Every wire operation is part of the thread's message

  /** The request belongs to the command begun last, which is one of the message's. */
  ghost predicate AskedFor(h: seq<Note>, req: Request) {
    && |h| > 1 && h[0].Heard?
    && var last := h[|h| - 1];
       last.Began? && last.cmd in CommandsOf(h[0].message) && req in Script(last.cmd)
  }

  ghost predicate MessageInv(tr: seq<Event>) {
    forall j: nat :: j < |tr| && tr[j].Exchanged? && !tr[j].req.Read? ==>
      AskedFor(Heeded(tr[..j], tr[j].t), tr[j].req)
  }

  lemma MessageSnoc(tr: seq<Event>, e: Event)
    requires MessageInv(tr)
    requires e.Exchanged? && !e.req.Read? ==> AskedFor(Heeded(tr, e.t), e.req)
    ensures MessageInv(tr + [e])
  {
    var tr' := tr + [e];
    forall j: nat | j < |tr'| && tr'[j].Exchanged? && !tr'[j].req.Read?
      ensures AskedFor(Heeded(tr'[..j], tr'[j].t), tr'[j].req)
    {
      assert tr'[..j] == tr[..j];
      assert tr[..|tr|] == tr;
    }
  }

  lemma RequestIsAskedFor(cfg: Settings, t: Tid, task: Task, pc: Pc, own: seq<Event>, trail: seq<Event>, now: Time,
                          h: seq<Note>)
    requires Fits(cfg, t, task, pc, own, trail, now) && !pc.Idle? && HeedFits(t, task, h) && !pc.req.Read?
    ensures AskedFor(h, pc.req)
  {
    if task.Applying? {
      var cmds, k := CommandsOf(h[0].message), |h[1..]| / 2;
      assert cmds[k] == cmds[k..][0] == task.cmd;
      assert ObeysAt(cmds, h[1..], |h[1..]| - 1);
      assert pc.req == Script(task.cmd)[task.phase.k];
    }
  }

  lemma MessageKept(cfg: Settings, b: System, st: Step)
    requires Possible(cfg, b, st) && TasksInv(cfg, b) && HeedInv(b) && MessageInv(b.core.trace)
    ensures MessageInv(After(cfg, b, st).core.trace)
  {
    TraceExtends(cfg, b, st);
    match CoreAction(cfg, b, st) {
      case None =>
      case Some(a) =>
        var es := EventsOf(cfg.core, b.core, a);
        if es == [] {
          assert b.core.trace + [] == b.core.trace;
        } else {
          if a.Answer? && !b.core.threads[a.t].req.Read? {
            assert TaskFits(cfg, b, a.t);
            RequestIsAskedFor(cfg, a.t, b.tasks[a.t], b.core.threads[a.t], Own(b.core.trace, a.t),
                              Trail(b.core.trace, a.t), b.core.link.now, Heeded(b.core.trace, a.t));
          }
          MessageSnoc(b.core.trace, es[0]);
        }
    }
  }

  // ----- Why commands and polls fail

  /** Since t's latest command or poll began: the snapshot showed a transition, a request was counted as failed, or the
      dwell was cancelled. */
  function Troubled(tr: seq<Event>, t: Tid): bool {
    if tr == [] then false
    else
      var e := tr[|tr| - 1];
      if Opens(e, t) then e.note.Began? && 1 <= e.note.operation <= 12
      else IsTrouble(e, t) || Troubled(tr[..|tr| - 1], t)
  }

  predicate IsTrouble(e: Event, t: Tid) {
    (e.Recorded? && e.t == t && !e.ok) || (e.Noted? && e.t == t && e.note.GaveUp?)
  }

  lemma TroubledSnoc(tr: seq<Event>, t: Tid, e: Event)
    ensures Troubled(tr + [e], t)
            == if Opens(e, t) then e.note.Began? && 1 <= e.note.operation <= 12
               else IsTrouble(e, t) || Troubled(tr, t)
  {
    Snoc(tr, e);
  }

  /** The poll's last read was answered by another number of registers than asked for. */
  ghost predicate EndsShort(own: seq<Event>) {
    && 2 <= |own| <= 4 && own[0].Noted? && own[0].note.PollBegan?
    && !IsFullReply(own[|own| - 1], own[0].note.tier, |own| - 2)
  }

  /** A call has brought trouble once its outcome was counted as a failure. */
  predicate CallTroubled(pc: Pc, troubled: bool) {
    troubled <==> (pc.Signal? || pc.Done?) && pc.res.Err?
  }

  predicate IsRising(e: Event) {
    e.Exchanged? && AccessOf(e.req, e.leg) == WriteRegister(2, 1) && e.reply.Ack?
  }

  predicate IsFalling(e: Event) {
    e.Exchanged? && AccessOf(e.req, e.leg) == WriteRegister(2, 0)
  }

  /** A thread that acknowledged the 1 of an OFF command and has not sent its 0. */
  ghost predicate Owes(own: seq<Event>) {
    |own| == 2 && own[0].Noted? && own[0].note.Began? && own[0].note.cmd == SetPower(false) && IsRising(own[1])
  }

  ghost predicate TroubleFits(task: Task, pc: Pc, own: seq<Event>, troubled: bool) {
    match task
    case Applying(_, _, phase, _) =>
      (match phase
       case Consulting => true
       case Issuing(_) => CallTroubled(pc, troubled)
       case Pausing(_, _) => !troubled
       case Ending(ok) => ok <==> !troubled)
    case Polling(_, _, _) => CallTroubled(pc, troubled)
    case Abandoning(_) => troubled || EndsShort(own)
    case _ => true
  }

  /** A command's result is success exactly when it met no trouble; a poll that ends without a publication met some, or
      its last reply had another length; only an OFF command whose 1 was acknowledged has a dwell to cancel. */
  ghost predicate ResultFits(tr: seq<Event>, p: nat)
    requires p < |tr|
  {
    tr[p].Noted? ==>
      var t, before := tr[p].t, tr[..p];
      && (tr[p].note.Ended? && TierOf(t).None? ==> (tr[p].note.ok <==> !Troubled(before, t)))
      && (tr[p].note.Ended? && TierOf(t).Some? ==> !tr[p].note.ok && (Troubled(before, t) || EndsShort(Own(before, t))))
      && (tr[p].note.GaveUp? ==> Owes(Own(before, t)))
  }

  ghost predicate ThreadTrouble(b: System, t: Tid)
    requires t in b.tasks && t in b.core.threads
  {
    TroubleFits(b.tasks[t], b.core.threads[t], Own(b.core.trace, t), Troubled(b.core.trace, t))
  }

  ghost predicate ResultInv(b: System) {
    && b.tasks.Keys == b.core.threads.Keys
    && (forall t :: t in b.tasks ==> ThreadTrouble(b, t))
    && forall p: nat :: p < |b.core.trace| ==> ResultFits(b.core.trace, p)
  }

  lemma ResultSnoc(tr: seq<Event>, e: Event)
    requires forall p: nat :: p < |tr| ==> ResultFits(tr, p)
    requires ResultFits(tr + [e], |tr|)
    ensures forall p: nat :: p < |tr + [e]| ==> ResultFits(tr + [e], p)
  {
    forall p: nat | p < |tr + [e]| ensures ResultFits(tr + [e], p) {
      if p < |tr| {
        assert (tr + [e])[..p] == tr[..p] && ResultFits(tr, p);
      }
    }
  }

  /** What a step of the machine does to a thread's trouble. */
  lemma TroubleMoves(cfg: Config, s: State, a: Action, t: Tid)
    requires Enabled(cfg, s, a)
    ensures Troubled(Next(cfg, s, a).trace, t)
            == if a.Jot? && a.t == t && a.note.Began? then 1 <= a.note.operation <= 12
               else if a.Jot? && a.t == t && a.note.PollBegan? then false
               else (a.Jot? && a.t == t && a.note.GaveUp?)
                    || (a.Record? && a.t == t && s.threads[t].res.Err?)
                    || Troubled(s.trace, t)
  {
    TraceGrows(cfg, s, a);
    var es := EventsOf(cfg, s, a);
    if es == [] {
      assert Next(cfg, s, a).trace == s.trace;
    } else {
      TroubledSnoc(s.trace, t, es[0]);
    }
  }

  /** A thread that neither moves nor leaves a note. */
  lemma BystanderTrouble(cfg: Settings, b: System, st: Step, t: Tid)
    requires Possible(cfg, b, st) && t in b.tasks && t in b.core.threads && ThreadTrouble(b, t)
    requires Actor(st) != Some(t) && !(st.Core? && Mover(st.a) == Some(t))
    ensures t in After(cfg, b, st).tasks && t in After(cfg, b, st).core.threads
    ensures ThreadTrouble(After(cfg, b, st), t)
  {
    CoreAfter(cfg, b, st);
    BystanderTask(cfg, b, st, t);
    match CoreAction(cfg, b, st) {
      case None =>
      case Some(a) =>
        CoreBystander(cfg.core, b.core, a, t);
        TroubleMoves(cfg.core, b.core, a, t);
    }
  }

  /** A step inside a call. */
  lemma InternalTrouble(cfg: Settings, b: System, a: Action, t: Tid)
    requires Possible(cfg, b, Core(a)) && TasksInv(cfg, b) && t in b.tasks && ThreadTrouble(b, t) && Mover(a) == Some(t)
    ensures t in After(cfg, b, Core(a)).tasks && t in After(cfg, b, Core(a)).core.threads
    ensures ThreadTrouble(After(cfg, b, Core(a)), t)
  {
    assert TaskFits(cfg, b, t);
    CoreAfter(cfg, b, Core(a));
    CoreMover(cfg.core, b.core, a, t);
    TroubleMoves(cfg.core, b.core, a, t);
    InternalPc(cfg.core, b.core, a, t);
  }

  lemma InternalPc(cfg: Config, s: State, a: Action, t: Tid)
    requires Enabled(cfg, s, a) && IsInternal(a) && Mover(a) == Some(t)
    ensures t in s.threads && t in Next(cfg, s, a).threads
    ensures var pc, pc' := s.threads[t], Next(cfg, s, a).threads[t];
            if a.Record? then pc.Report? && (pc'.Signal? || pc'.Done?) && pc'.res == pc.res
            else if a.Trigger? then pc.Signal? && pc'.Done? && pc'.res == pc.res
            else !pc.Signal? && !pc.Done? && !pc'.Signal? && !pc'.Done?
  {
  }

  /** A request returns. */
  lemma FinishTrouble(cfg: Settings, b: System, t: Tid)
    requires Possible(cfg, b, Finish(t)) && TaskFits(cfg, b, t) && TrailFits(b.core, t) && ThreadTrouble(b, t)
    ensures TroubleFits(Advance(cfg, b, t), Idle, Own(b.core.trace, t), Troubled(b.core.trace, t))
  {
    var pc, own, trail := b.core.threads[t], Own(b.core.trace, t), Trail(b.core.trace, t);
    if b.tasks[t].Polling? && pc.res.Ok? {
      ReadResultFits(t, pc.req, trail, pc.res);
    }
  }

  /** A command's own steps between its requests. */
  lemma CommandTrouble(cfg: Settings, b: System, st: Step, t: Tid)
    requires Possible(cfg, b, st) && Actor(st) == Some(t) && (st.Consult? || st.GiveUp? || st.Resume?)
    requires t in b.core.threads && ThreadTrouble(b, t)
    ensures TroubleFits(TaskAfter(cfg, b, st), Idle, Own(After(cfg, b, st).core.trace, t),
                        Troubled(After(cfg, b, st).core.trace, t))
  {
    CoreAfter(cfg, b, st);
    match CoreAction(cfg, b, st) {
      case None =>
      case Some(a) => TroubleMoves(cfg.core, b.core, a, t);
    }
  }

  /** After any other step outside a call the thread is at rest, about to begin a command or a poll, or past its poll's
      reads. */
  lemma OtherTrouble(cfg: Settings, b: System, st: Step, t: Tid, own: seq<Event>, troubled: bool)
    requires Possible(cfg, b, st) && Actor(st) == Some(t) && !st.Consult? && !st.GiveUp? && !st.Resume?
    requires !st.Finish? && !st.Issue? && (st.StartPoll? ==> !troubled)
    ensures TroubleFits(TaskAfter(cfg, b, st), Idle, own, troubled)
  {
  }

  lemma NotedTrouble(cfg: Settings, b: System, st: Step, t: Tid)
    requires Possible(cfg, b, st) && Actor(st) == Some(t) && !st.Finish? && !st.Issue?
    requires t in b.core.threads && ThreadTrouble(b, t)
    ensures TroubleFits(TaskAfter(cfg, b, st), Idle, Own(After(cfg, b, st).core.trace, t),
                        Troubled(After(cfg, b, st).core.trace, t))
  {
    if st.Consult? || st.GiveUp? || st.Resume? {
      CommandTrouble(cfg, b, st, t);
    } else {
      if st.StartPoll? {
        CoreAfter(cfg, b, st);
        TroubleMoves(cfg.core, b.core, Jot(t, PollBegan(TierOf(t).value)), t);
      }
      OtherTrouble(cfg, b, st, t, Own(After(cfg, b, st).core.trace, t), Troubled(After(cfg, b, st).core.trace, t));
    }
  }

  lemma NoteLeavesThreads(cfg: Settings, b: System, st: Step, t: Tid)
    requires Possible(cfg, b, st) && Actor(st) == Some(t) && !st.Finish? && !st.Issue?
    ensures After(cfg, b, st).core.threads == b.core.threads && Has(b, t)
  {
    CoreAfter(cfg, b, st);
  }

  /** A step of the thread's own. */
  lemma ActorTrouble(cfg: Settings, b: System, st: Step, t: Tid)
    requires Possible(cfg, b, st) && TasksInv(cfg, b) && TrailInv(b.core) && Actor(st) == Some(t)
    requires t in b.tasks && ThreadTrouble(b, t)
    ensures t in After(cfg, b, st).tasks && t in After(cfg, b, st).core.threads
    ensures ThreadTrouble(After(cfg, b, st), t)
  {
    assert TaskFits(cfg, b, t) && TrailFits(b.core, t);
    ActorTask(cfg, b, st, t);
    if st.Finish? {
      CoreAfter(cfg, b, st);
      FinishTrouble(cfg, b, t);
      ReturnView(cfg.core, b.core, t);
    } else if st.Issue? {
      CoreAfter(cfg, b, st);
      CallView(cfg.core, b.core, t, RequestOf(b.tasks[t]).value);
      TroubleMoves(cfg.core, b.core, Call(t, RequestOf(b.tasks[t]).value), t);
    } else {
      NotedTrouble(cfg, b, st, t);
      NoteLeavesThreads(cfg, b, st, t);
    }
  }

  /** The event of a step is true to the thread that leaves it. */
  lemma StepResult(cfg: Settings, b: System, st: Step) returns (es: seq<Event>)
    requires Possible(cfg, b, st) && TasksInv(cfg, b) && ResultInv(b) && HeedInv(b)
    ensures |es| <= 1 && After(cfg, b, st).core.trace == b.core.trace + es
    ensures es != [] ==> ResultFits(b.core.trace + es, |b.core.trace|)
  {
    TraceExtends(cfg, b, st);
    es := match CoreAction(cfg, b, st) case None => [] case Some(a) => EventsOf(cfg.core, b.core, a);
    if es != [] {
      assert (b.core.trace + es)[..|b.core.trace|] == b.core.trace;
      if st.GiveUp? || st.Close? {
        assert TaskFits(cfg, b, st.t) && ThreadTrouble(b, st.t);
        assert HeedFits(st.t, b.tasks[st.t], Heeded(b.core.trace, st.t));
      }
    }
  }

  lemma ResultKept(cfg: Settings, b: System, st: Step)
    requires Possible(cfg, b, st) && TasksInv(cfg, b) && TrailInv(b.core) && HeedInv(b) && ResultInv(b)
    ensures ResultInv(After(cfg, b, st))
  {
    KeysKept(cfg, b, st);
    var b' := After(cfg, b, st);
    forall t | t in b'.tasks ensures ThreadTrouble(b', t) {
      if Actor(st) == Some(t) {
        ActorTrouble(cfg, b, st, t);
      } else if st.Core? && Mover(st.a) == Some(t) {
        InternalTrouble(cfg, b, st.a, t);
      } else {
        BystanderTrouble(cfg, b, st, t);
      }
    }
    var es := StepResult(cfg, b, st);
    if es == [] {
      assert b'.core.trace == b.core.trace;
    } else {
      assert es == [es[0]];
      ResultSnoc(b.core.trace, es[0]);
    }
  }

  // ----- Which writes a message allows

  /** What a write on the wire has to do with the message its thread received last: a power message writes 1, and 0
      only for OFF; an hvac_mode message writes 1, then 0 for off or the write half of its mode's update; a temperature
      message writes a setpoint in 50..300 within half a step of the temperature it asked for; a fan message writes
      the speed it asked for, in 1..10. */
  ghost predicate LegalWrite(m: Message, e: Event)
    requires e.Exchanged? && AccessOf(e.req, e.leg).WriteRegister?
  {
    var a := AccessOf(e.req, e.leg);
    match m
    case PowerMessage(payload) =>
      a.addr == 2
      && (if Spells(payload, "on") then a.value == 1 else Spells(payload, "off") && (a.value == 1 || a.value == 0))
    case HvacModeMessage(payload) =>
      if Spells(payload, "off") then a.addr == 2 && (a.value == 1 || a.value == 0)
      else
        || (a == WriteRegister(2, 1) && (Spells(payload, "heat") || Spells(payload, "fan_only")))
        || (e.req == Modify(86, ModeUpdate(1)) && Spells(payload, "heat"))
        || (e.req == Modify(86, ModeUpdate(0)) && Spells(payload, "fan_only"))
    case TargetTemperatureMessage(celsius) =>
      && a.addr == 31 && celsius.Some? && celsius.value.Finite?
      && 50 <= a.value <= 300 && NearestTenth(a.value, celsius.value.value)
    case FanTargetMessage(speed) =>
      a.addr == 32 && speed == Some(a.value) && 1 <= a.value <= 10
  }

  lemma AskedIsLegal(m: Message, e: Event, cmd: Command)
    requires e.Exchanged? && AccessOf(e.req, e.leg).WriteRegister?
    requires cmd in CommandsOf(m) && e.req in Script(cmd)
    ensures LegalWrite(m, e)
  {
    PayloadsMean(m);
    match m {
      case TargetTemperatureMessage(celsius) => RawIsNearest(celsius.value);
      case _ =>
    }
  }
}
