/** What one command or one poll leaves in the history, kept by every step of the bridge. */
module Calls {
  import opened Words
  import opened Values
  import opened Snapshots
  import opened Modbus
  import opened Commands
  import opened Machine
  import opened Invariants
  import opened Transactions
  import opened Bridge

  // ----- A thread's own history

  predicate Opens(e: Event, t: Tid) {
    e.Noted? && e.t == t && (e.note.Began? || e.note.PollBegan?)
  }

  /** A received message and the watcher's readings belong to no command or poll, and a cancelled dwell leaves no mark
      on its command's own history. */
  predicate IsWork(note: Note) {
    !note.Heard? && !note.Peeked? && !note.Ticked? && !note.GaveUp?
  }

  predicate IsOwn(e: Event, t: Tid) {
    ((e.Noted? && IsWork(e.note)) || e.Exchanged?) && e.t == t
  }

  /** The notes and wire operations of t since its latest command or poll began. */
  function Own(tr: seq<Event>, t: Tid): seq<Event> {
    if tr == [] then []
    else
      var e := tr[|tr| - 1];
      if Opens(e, t) then [e]
      else if IsOwn(e, t) then Own(tr[..|tr| - 1], t) + [e]
      else Own(tr[..|tr| - 1], t)
  }

  lemma OwnSnoc(tr: seq<Event>, t: Tid, e: Event)
    ensures Own(tr + [e], t)
            == if Opens(e, t) then [e] else if IsOwn(e, t) then Own(tr, t) + [e] else Own(tr, t)
  {
  }

  // ----- What a command may leave

  ghost predicate IsWire(e: Event, t: Tid, req: Request, leg: Leg) {
    e.Exchanged? && e.t == t && e.req == req && e.leg == leg && KindFits(e)
  }

  /** The wire operations of a command: none when the controller was in transition; otherwise those of its
      first request, and those of a second only after the first was acknowledged and the dwell had passed. */
  ghost predicate WireFits(pause: nat, t: Tid, cmd: Command, op: OperatingState, wire: seq<Event>) {
    && (1 <= op <= 12 ==> wire == [])
    && (if |Script(cmd)| == 1 then Performs(t, Script(cmd)[0], wire)
        else
          && |wire| <= 2
          && (|wire| >= 1 ==> IsWire(wire[0], t, Script(cmd)[0], First))
          && (|wire| == 2 ==>
                && IsWire(wire[1], t, Script(cmd)[1], First)
                && wire[0].reply.Ack?
                && wire[0].end + pause <= wire[1].start))
  }

  /** Every write of the command was acknowledged. */
  ghost predicate Achieved(cmd: Command, wire: seq<Event>) {
    && wire != []
    && wire[|wire| - 1].Exchanged? && wire[|wire| - 1].reply.Ack?
    && (|Script(cmd)| == 2 ==> |wire| == 2)
  }

  ghost predicate IsBegan(e: Event, t: Tid, cmd: Command, op: OperatingState) {
    e == Noted(t, Began(cmd, op))
  }

  predicate IsEnded(e: Event, t: Tid) {
    e.Noted? && e.t == t && e.note.Ended?
  }

  /** A command in progress or finished: its wire operations, then its result, which is success exactly when
      all its writes were acknowledged. */
  ghost predicate CommandShape(cfg: Settings, t: Tid, own: seq<Event>, cmd: Command, op: OperatingState) {
    && own != [] && IsBegan(own[0], t, cmd, op)
    && (|| WireFits(cfg.powerOffPause, t, cmd, op, own[1..])
        || (IsEnded(own[|own| - 1], t) && EndedShape(cfg, t, own[1..|own| - 1], cmd, op, own[|own| - 1].note.ok)))
  }

  ghost predicate EndedShape(cfg: Settings, t: Tid, wire: seq<Event>, cmd: Command, op: OperatingState, ok: bool) {
    WireFits(cfg.powerOffPause, t, cmd, op, wire) && (ok <==> Achieved(cmd, wire))
  }

  // ----- What a poll may leave

  /** A reply with the registers that were asked for. */
  ghost predicate IsFullRead(e: Event, t: Tid, tier: Tier, k: nat, words: seq<Word>)
    requires k < 3
  {
    && IsWire(e, t, BatchRequest(tier, k), First)
    && e.reply.Data? && |e.reply.bytes| % 2 == 0 && Decode(e.reply.bytes) == words
    && |words| == Batches(tier)[k].count
  }

  /** The poll has read got so far. */
  ghost predicate PollSoFar(t: Tid, tier: Tier, got: seq<seq<Word>>, past: seq<Event>) {
    && |got| <= 3 && |past| == |got| + 1
    && past[0] == Noted(t, PollBegan(tier))
    && forall k :: 0 <= k < |got| ==> IsFullRead(past[k + 1], t, tier, k, got[k])
  }

  /** The reply has as many registers as batch k asks for. */
  ghost predicate IsFullReply(e: Event, tier: Tier, k: nat)
    requires k < 3
  {
    e.Exchanged? && e.reply.Data? && |e.reply.bytes| == 2 * Batches(tier)[k].count
  }

  /** Reads of the tier's batches in order, each but the last with a full reply. */
  ghost predicate ReadsInOrder(t: Tid, tier: Tier, wire: seq<Event>) {
    && |wire| <= 3
    && (forall k :: 0 <= k < |wire| ==> IsWire(wire[k], t, BatchRequest(tier, k), First))
    && (forall k :: 0 <= k < |wire| - 1 ==> IsFullReply(wire[k], tier, k))
  }

  /** A poll still reading, or cut short. */
  ghost predicate ReadingPoll(t: Tid, tier: Tier, own: seq<Event>) {
    own != [] && own[0] == Noted(t, PollBegan(tier)) && ReadsInOrder(t, tier, own[1..])
  }

  /** A poll that published nothing: in progress, or ended after its failed read. */
  ghost predicate UnpublishedPoll(t: Tid, tier: Tier, own: seq<Event>) {
    || ReadingPoll(t, tier, own)
    || (|own| > 1 && own[|own| - 1] == Noted(t, Ended(false)) && ReadingPoll(t, tier, own[..|own| - 1]))
  }

  /** A poll that succeeded: three full reads, one publication of what they decode to, and deliveries of
      exactly that snapshot to subscribers 0, 1, 2, ... */
  ghost predicate PublishedPoll(t: Tid, own: seq<Event>) {
    && |own| >= 5
    && own[4].Noted? && own[4].t == t && own[4].note.Published?
    && PublishesReads(t, own[..4], own[4].note.merged)
    && forall i :: 5 <= i < |own| ==> own[i] == Noted(t, Delivered(i - 5, own[4].note.snapshot))
  }

  /** The registers in a reply. */
  function WordsOf(e: Event): seq<Word> {
    if e.Exchanged? && e.reply.Data? && |e.reply.bytes| % 2 == 0 then Decode(e.reply.bytes) else []
  }

  /** Three full reads, and what they decode to. */
  ghost predicate PublishesReads(t: Tid, past: seq<Event>, merged: Merged) {
    && |past| == 4
    && var got := [WordsOf(past[1]), WordsOf(past[2]), WordsOf(past[3])];
       && PollSoFar(t, merged.tier, got, past) && FullReplies(merged.tier, got)
       && merged.partial == Assemble(merged.tier, got, merged.partial.polledAt)
  }

  ghost predicate PollShape(t: Tid, own: seq<Event>) {
    (exists tier :: UnpublishedPoll(t, tier, own)) || PublishedPoll(t, own)
  }

  /** A thread's latest command or poll, in progress or done. */
  ghost predicate Lawful(cfg: Settings, t: Tid, own: seq<Event>) {
    || own == []
    || PollShape(t, own)
    || exists cmd, op :: Validated(cmd) && CommandShape(cfg, t, own, cmd, op)
  }

  // ----- What each task knows

  ghost predicate PastFits(t: Tid, cmd: Command, k: nat, past: seq<Event>) {
    && k < |Script(cmd)| && |past| == k + 1
    && past[0].Noted? && past[0].t == t && past[0].note.Began? && past[0].note.cmd == cmd
    && !IsTransitional(past[0].note.operation)
    && (k == 1 ==> IsWire(past[1], t, Script(cmd)[0], First) && past[1].reply.Ack?)
  }

  /** The dwell before the second request is over. */
  ghost predicate DwellOver(cfg: Settings, past: seq<Event>, at: Time) {
    |past| == 2 && past[1].Exchanged? ==> past[1].end + cfg.powerOffPause <= at
  }

  /** The thread's history is what its task did before its current request, plus that request's trail. */
  ghost predicate Continues(pc: Pc, own: seq<Event>, trail: seq<Event>, past: seq<Event>, req: Request) {
    if pc.Idle? then own == past else own == past + trail && pc.req == req
  }

  ghost predicate AllValidated(cmd: Command, rest: seq<Command>) {
    Validated(cmd) && forall c :: c in rest ==> Validated(c)
  }

  ghost predicate IssuingFits(cfg: Settings, t: Tid, cmd: Command, k: nat, past: seq<Event>,
                              pc: Pc, own: seq<Event>, trail: seq<Event>, now: Time) {
    && PastFits(t, cmd, k, past) && Continues(pc, own, trail, past, Script(cmd)[k])
    && DwellOver(cfg, past, now)
    && (pc.OnWire? ==> DwellOver(cfg, past, pc.start))
    && (!pc.Idle? && trail != [] ==> trail[0].Exchanged? && DwellOver(cfg, past, trail[0].start))
  }

  ghost predicate EndingFits(cfg: Settings, t: Tid, cmd: Command, ok: bool, own: seq<Event>) {
    && own != []
    && own[0].Noted? && own[0].note.Began? && IsBegan(own[0], t, cmd, own[0].note.operation)
    && EndedShape(cfg, t, own[1..], cmd, own[0].note.operation, ok)
  }

  ghost predicate ApplyingFits(cfg: Settings, t: Tid, cmd: Command, phase: Phase, past: seq<Event>,
                               pc: Pc, own: seq<Event>, trail: seq<Event>, now: Time) {
    match phase
    case Consulting => pc.Idle? && Lawful(cfg, t, own)
    case Issuing(k) => IssuingFits(cfg, t, cmd, k, past, pc, own, trail, now)
    case Pausing(k, until) =>
      k == 1 && PastFits(t, cmd, k, past) && pc.Idle? && own == past && DwellOver(cfg, past, until)
    case Ending(ok) => pc.Idle? && EndingFits(cfg, t, cmd, ok, own)
  }

  ghost predicate Fits(cfg: Settings, t: Tid, task: Task, pc: Pc, own: seq<Event>, trail: seq<Event>, now: Time) {
    match task
    case AtRest => pc.Idle? && Lawful(cfg, t, own)
    case Applying(cmd, rest, phase, past) =>
      AllValidated(cmd, rest) && ApplyingFits(cfg, t, cmd, phase, past, pc, own, trail, now)
    case Polling(tier, got, past) =>
      && |got| < 3 && PollSoFar(t, tier, got, past) && Continues(pc, own, trail, past, BatchRequest(tier, |got|))
    case Abandoning(tier) => pc.Idle? && ReadingPoll(t, tier, own)
    case Merging(tier, got, at, past) =>
      pc.Idle? && own == past && PollSoFar(t, tier, got, past) && FullReplies(tier, got)
    case Copying(snapshot) =>
      pc.Idle? && |own| == 5 && Delivering(t, own, snapshot)
    case Notifying(snapshot, next, upTo) =>
      pc.Idle? && next <= upTo && |own| == 5 + next && Delivering(t, own, snapshot)
    case Watching(_) => pc.Idle? && Lawful(cfg, t, own)
  }

  ghost predicate Delivering(t: Tid, own: seq<Event>, snapshot: Snapshot) {
    PublishedPoll(t, own) && own[4].note.snapshot == snapshot
  }

  ghost predicate TaskFits(cfg: Settings, b: System, t: Tid)
    requires t in b.tasks && t in b.core.threads
  {
    Fits(cfg, t, b.tasks[t], b.core.threads[t], Own(b.core.trace, t), Trail(b.core.trace, t), b.core.link.now)
  }

  ghost predicate TasksInv(cfg: Settings, b: System) {
    && b.tasks.Keys == b.core.threads.Keys
    && forall t :: t in b.tasks ==> TaskFits(cfg, b, t)
  }

  // ----- Every step keeps it

  /** Time passing changes nothing. */
  lemma FitsLater(cfg: Settings, t: Tid, task: Task, pc: Pc, own: seq<Event>, trail: seq<Event>, now: Time, now': Time)
    requires Fits(cfg, t, task, pc, own, trail, now) && now <= now'
    ensures Fits(cfg, t, task, pc, own, trail, now')
  {
  }

  /** What a step of Machine does to a thread it does not move and whose note it is not. */
  lemma CoreBystander(cfg: Config, s: State, a: Action, t: Tid)
    requires Enabled(cfg, s, a) && t in s.threads && Mover(a) != Some(t) && !(a.Jot? && a.t == t)
    ensures var s' := Next(cfg, s, a);
            && t in s'.threads && s'.threads[t] == s.threads[t]
            && Own(s'.trace, t) == Own(s.trace, t) && Trail(s'.trace, t) == Trail(s.trace, t)
            && s.link.now <= s'.link.now
  {
    OthersUnmoved(cfg, s, a, t);
    TraceGrows(cfg, s, a);
    var es := EventsOf(cfg, s, a);
    if es == [] {
      assert Next(cfg, s, a).trace == s.trace;
    } else {
      OwnSnoc(s.trace, t, es[0]);
    }
  }

  /** The machine's half of a step. */
  lemma CoreAfter(cfg: Settings, b: System, st: Step)
    requires Possible(cfg, b, st)
    ensures match CoreAction(cfg, b, st)
            case None => After(cfg, b, st).core == b.core
            case Some(a) => Enabled(cfg.core, b.core, a) && After(cfg, b, st).core == Next(cfg.core, b.core, a)
  {
  }

  lemma BystanderFits(cfg: Settings, b: System, st: Step, t: Tid)
    requires Possible(cfg, b, st) && t in b.tasks && t in b.core.threads && TaskFits(cfg, b, t)
    requires Actor(st) != Some(t) && !(st.Core? && Mover(st.a) == Some(t))
    ensures var b' := After(cfg, b, st);
            t in b'.tasks && t in b'.core.threads && TaskFits(cfg, b', t)
  {
    CoreAfter(cfg, b, st);
    var b' := After(cfg, b, st);
    match CoreAction(cfg, b, st) {
      case None =>
      case Some(a) =>
        CoreBystander(cfg.core, b.core, a, t);
        FitsLater(cfg, t, b.tasks[t], b.core.threads[t], Own(b.core.trace, t), Trail(b.core.trace, t),
                  b.core.link.now, b'.core.link.now);
    }
  }

  /** A step inside a dispatcher call. */
  lemma CoreMover(cfg: Config, s: State, a: Action, t: Tid)
    requires Enabled(cfg, s, a) && IsInternal(a) && Mover(a) == Some(t)
    ensures t in s.threads && t in Next(cfg, s, a).threads
    ensures var s' := Next(cfg, s, a);
            var pc, pc' := s.threads[t], s'.threads[t];
            && !pc.Idle? && !pc'.Idle? && pc'.req == pc.req && s'.link.now == s.link.now
            && (if a.Answer? then
                  var e := Exchanged(t, pc.req, pc.leg, pc.start, a.end, a.reply);
                  && pc.OnWire? && !pc'.OnWire? && KindFits(e)
                  && Own(s'.trace, t) == Own(s.trace, t) + [e] && Trail(s'.trace, t) == Trail(s.trace, t) + [e]
                else
                  && Own(s'.trace, t) == Own(s.trace, t) && Trail(s'.trace, t) == Trail(s.trace, t)
                  && (pc'.OnWire? ==> pc'.start == s.link.now))
  {
    TraceGrows(cfg, s, a);
    var es := EventsOf(cfg, s, a);
    if es == [] {
      assert Next(cfg, s, a).trace == s.trace;
    } else {
      OwnSnoc(s.trace, t, es[0]);
      TrailSnoc(s.trace, t, es[0]);
    }
  }

  lemma FitsMoved(cfg: Settings, t: Tid, task: Task, pc: Pc, pc': Pc, own: seq<Event>, trail: seq<Event>, now: Time)
    requires Fits(cfg, t, task, pc, own, trail, now)
    requires !pc.Idle? && !pc'.Idle? && pc'.req == pc.req && (pc'.OnWire? ==> pc'.start == now)
    ensures Fits(cfg, t, task, pc', own, trail, now)
  {
  }

  lemma FitsAnswered(cfg: Settings, t: Tid, task: Task, pc: Pc, pc': Pc, own: seq<Event>, trail: seq<Event>,
                     e: Event, now: Time)
    requires Fits(cfg, t, task, pc, own, trail, now)
    requires !pc.Idle? && !pc'.Idle? && pc'.req == pc.req && pc.OnWire? && !pc'.OnWire?
    requires e.Exchanged? && e.start == pc.start
    ensures Fits(cfg, t, task, pc', own + [e], trail + [e], now)
  {
  }

  lemma InternalFits(cfg: Settings, b: System, a: Action, t: Tid)
    requires Possible(cfg, b, Core(a)) && t in b.tasks && t in b.core.threads && TaskFits(cfg, b, t)
    requires Mover(a) == Some(t)
    ensures var b' := After(cfg, b, Core(a));
            t in b'.tasks && t in b'.core.threads && TaskFits(cfg, b', t)
  {
    CoreAfter(cfg, b, Core(a));
    CoreMover(cfg.core, b.core, a, t);
    var pc, pc' := b.core.threads[t], After(cfg, b, Core(a)).core.threads[t];
    var own, trail := Own(b.core.trace, t), Trail(b.core.trace, t);
    if a.Answer? {
      FitsAnswered(cfg, t, b.tasks[t], pc, pc', own, trail,
                   Exchanged(t, pc.req, pc.leg, pc.start, a.end, a.reply), b.core.link.now);
    } else {
      FitsMoved(cfg, t, b.tasks[t], pc, pc', own, trail, b.core.link.now);
    }
  }

  // ----- A thread's own steps

  lemma JotView(cfg: Config, s: State, t: Tid, note: Note)
    requires Enabled(cfg, s, Jot(t, note))
    ensures var s' := Next(cfg, s, Jot(t, note));
            && s'.threads == s.threads && s'.link == s.link
            && Own(s'.trace, t) == OwnWith(Own(s.trace, t), t, note)
            && Trail(s'.trace, t) == Trail(s.trace, t)
  {
  }

  lemma CallView(cfg: Config, s: State, t: Tid, req: Request)
    requires Enabled(cfg, s, Call(t, req))
    ensures var s' := Next(cfg, s, Call(t, req));
            && t in s'.threads && (s'.threads[t].Want? || s'.threads[t].Report?) && s'.threads[t].req == req
            && s'.link == s.link
            && Own(s'.trace, t) == Own(s.trace, t) && Trail(s'.trace, t) == []
  {
  }

  /** A finished write request: acknowledged if it succeeded. */
  lemma WriteResult(t: Tid, req: Request, trail: seq<Event>, res: Result)
    requires req.Write? && Performs(t, req, trail) && Yields(req, trail, res)
    ensures |trail| <= 1
    ensures res.Ok? <==> trail != [] && trail[0].reply.Ack?
  {
  }

  lemma ModifyResult(t: Tid, req: Request, trail: seq<Event>, res: Result)
    requires req.Modify? && Performs(t, req, trail) && Yields(req, trail, res)
    ensures res.Ok? <==> trail != [] && trail[|trail| - 1].reply.Ack?
  {
  }

  lemma ReadResultFits(t: Tid, req: Request, trail: seq<Event>, res: Result)
    requires req.Read? && Performs(t, req, trail) && Yields(req, trail, res) && res.Ok?
    ensures |trail| == 1 && IsWire(trail[0], t, req, First)
    ensures trail[0].reply.Data? && |trail[0].reply.bytes| % 2 == 0 && Decode(trail[0].reply.bytes) == res.words
  {
  }

  /** A command after one of its dispatcher requests returned. */
  lemma FinishCommand(cfg: Settings, t: Tid, cmd: Command, rest: seq<Command>, k: nat, past: seq<Event>,
                      pc: Pc, own: seq<Event>, trail: seq<Event>, now: Time)
    requires pc.Done? && Performs(t, pc.req, trail) && Yields(pc.req, trail, pc.res)
    requires forall i :: 0 <= i < |trail| ==> trail[i].end <= now
    requires Fits(cfg, t, Applying(cmd, rest, Issuing(k), past), pc, own, trail, now)
    ensures var task' := if pc.res.Err? then Applying(cmd, rest, Ending(false), past)
                         else if k + 1 < |Script(cmd)| then
                           Applying(cmd, rest, Pausing(k + 1, now + cfg.powerOffPause), past + trail)
                         else Applying(cmd, rest, Ending(true), past);
            Fits(cfg, t, task', Idle, own, trail, now)
  {
    if pc.req.Write? {
      WriteResult(t, pc.req, trail, pc.res);
    } else {
      ModifyResult(t, pc.req, trail, pc.res);
    }
    if k == 0 {
      assert own[1..] == trail;
    } else {
      assert own[1..] == [past[1]] + trail;
    }
  }

  /** A poll after one of its reads returned. */
  lemma FinishRead(cfg: Settings, t: Tid, tier: Tier, got: seq<seq<Word>>, past: seq<Event>,
                   pc: Pc, own: seq<Event>, trail: seq<Event>, now: Time)
    requires pc.Done? && Performs(t, pc.req, trail) && Yields(pc.req, trail, pc.res)
    requires Fits(cfg, t, Polling(tier, got, past), pc, own, trail, now)
    ensures var task' := if pc.res.Err? || |pc.res.words| != Batches(tier)[|got|].count then Abandoning(tier)
                         else if |got| < 2 then Polling(tier, got + [pc.res.words], past + trail)
                         else Merging(tier, got + [pc.res.words], now, past + trail);
            Fits(cfg, t, task', Idle, own, trail, now)
  {
    if pc.res.Ok? && |pc.res.words| == Batches(tier)[|got|].count {
      ReadResultFits(t, pc.req, trail, pc.res);
      var got', past' := got + [pc.res.words], past + trail;
      forall k | 0 <= k < |got'| ensures IsFullRead(past'[k + 1], t, tier, k, got'[k]) {
        if k < |got| {
          assert past'[k + 1] == past[k + 1];
        } else {
          assert past'[k + 1] == trail[0];
        }
      }
    } else {
      ReadingSoFar(t, tier, got, past, trail, pc.req);
    }
  }

  /** Full reads so far, and the current read's trail. */
  lemma ReadingSoFar(t: Tid, tier: Tier, got: seq<seq<Word>>, past: seq<Event>, trail: seq<Event>, req: Request)
    requires |got| < 3 && PollSoFar(t, tier, got, past)
    requires req == BatchRequest(tier, |got|) && Performs(t, req, trail)
    ensures ReadingPoll(t, tier, past + trail)
  {
    var wire := past[1..];
    assert forall k :: 0 <= k < |got| ==> wire[k] == past[k + 1];
    FullReadsInOrder(t, tier, got, wire);
    OneMoreRead(t, tier, wire, trail);
    assert (past + trail)[1..] == wire + trail;
  }

  lemma OneMoreRead(t: Tid, tier: Tier, wire: seq<Event>, trail: seq<Event>)
    requires |wire| < 3 && ReadsInOrder(t, tier, wire) && Performs(t, BatchRequest(tier, |wire|), trail)
    requires forall k :: 0 <= k < |wire| ==> IsFullReply(wire[k], tier, k)
    ensures ReadsInOrder(t, tier, wire + trail)
  {
  }

  lemma FullReadsInOrder(t: Tid, tier: Tier, got: seq<seq<Word>>, wire: seq<Event>)
    requires |got| == |wire| <= 3
    requires forall k :: 0 <= k < |wire| ==> IsFullRead(wire[k], t, tier, k, got[k])
    ensures ReadsInOrder(t, tier, wire)
    ensures forall k :: 0 <= k < |wire| ==> IsFullReply(wire[k], tier, k)
  {
  }

  /** A command begins: the guard refuses it, or it goes on to its first request. */
  lemma ConsultFits(cfg: Settings, t: Tid, cmd: Command, rest: seq<Command>, op: OperatingState,
                    trail: seq<Event>, now: Time)
    requires AllValidated(cmd, rest)
    ensures var began := [Noted(t, Began(cmd, op))];
            Fits(cfg, t, Applying(cmd, rest, if IsTransitional(op) then Ending(false) else Issuing(0), began),
                 Idle, began, trail, now)
  {
    var began := [Noted(t, Began(cmd, op))];
    assert began[1..] == [];
  }

  lemma GiveUpFits(cfg: Settings, t: Tid, cmd: Command, rest: seq<Command>, k: nat, until: Time, past: seq<Event>,
                   own: seq<Event>, trail: seq<Event>, now: Time)
    requires Fits(cfg, t, Applying(cmd, rest, Pausing(k, until), past), Idle, own, trail, now)
    ensures Fits(cfg, t, Applying(cmd, rest, Ending(false), past), Idle, own, trail, now)
  {
  }

  lemma CloseCommandFits(cfg: Settings, t: Tid, cmd: Command, rest: seq<Command>, ok: bool, past: seq<Event>,
                         own: seq<Event>, trail: seq<Event>, now: Time)
    requires Fits(cfg, t, Applying(cmd, rest, Ending(ok), past), Idle, own, trail, now)
    ensures Lawful(cfg, t, own + [Noted(t, Ended(ok))])
  {
    var own' := own + [Noted(t, Ended(ok))];
    assert own'[1..|own'| - 1] == own[1..];
    assert CommandShape(cfg, t, own', cmd, own[0].note.operation);
  }

  lemma ClosePollFits(cfg: Settings, t: Tid, tier: Tier, own: seq<Event>)
    requires ReadingPoll(t, tier, own)
    ensures Lawful(cfg, t, own + [Noted(t, Ended(false))])
  {
    Snoc(own, Noted(t, Ended(false)));
    assert UnpublishedPoll(t, tier, own + [Noted(t, Ended(false))]);
  }

  lemma PublishFits(t: Tid, tier: Tier, got: seq<seq<Word>>, at: Time, past: seq<Event>, snapshot: Snapshot)
    requires PollSoFar(t, tier, got, past) && FullReplies(tier, got)
    ensures Delivering(t, past + [Noted(t, Published(Merged(tier, Assemble(tier, got, at)), snapshot))], snapshot)
  {
    var own := past + [Noted(t, Published(Merged(tier, Assemble(tier, got, at)), snapshot))];
    assert own[..4] == past;
    assert got == [WordsOf(past[1]), WordsOf(past[2]), WordsOf(past[3])];
  }

  lemma DeliverFits(t: Tid, own: seq<Event>, next: nat, snapshot: Snapshot)
    requires |own| == 5 + next && Delivering(t, own, snapshot)
    ensures Delivering(t, own + [Noted(t, Delivered(next, snapshot))], snapshot)
  {
    var own' := own + [Noted(t, Delivered(next, snapshot))];
    assert own'[..4] == own[..4];
  }

  /** What TasksKept needs of the thread that acts, step by step. */
  ghost predicate ActorStays(cfg: Settings, b: System, st: Step, t: Tid)
    requires Possible(cfg, b, st)
  {
    var b' := After(cfg, b, st);
    t in b'.tasks && t in b'.core.threads && TaskFits(cfg, b', t)
  }

  lemma ActorTask(cfg: Settings, b: System, st: Step, t: Tid)
    requires Possible(cfg, b, st) && Actor(st) == Some(t)
    ensures var b' := After(cfg, b, st);
            t in b'.tasks && b'.tasks[t] == TaskAfter(cfg, b, st)
  {
  }

  lemma BystanderTask(cfg: Settings, b: System, st: Step, t: Tid)
    requires Possible(cfg, b, st) && Actor(st) != Some(t) && t in b.tasks
    ensures t in After(cfg, b, st).tasks && After(cfg, b, st).tasks[t] == b.tasks[t]
    ensures match CoreAction(cfg, b, st)
            case None => true
            case Some(a) => a.Jot? ==> a.t != t
  {
  }

  lemma QuietFits(cfg: Settings, t: Tid, task: Task, task': Task, pc: Pc, own: seq<Event>, trail: seq<Event>, now: Time)
    requires Fits(cfg, t, task, pc, own, trail, now)
    requires match task
             case Applying(cmd, rest, Pausing(k, until), past) =>
               until <= now && task' == Applying(cmd, rest, Issuing(k), past)
             case Copying(snapshot) => task'.Notifying? && task'.snapshot == snapshot && task'.next == 0
             case Notifying(_, _, _) => task' == AtRest
             case _ => false
    ensures Fits(cfg, t, task', pc, own, trail, now)
  {
  }

  /** Steps that only change the thread's task. */
  lemma QuietActorFits(cfg: Settings, b: System, st: Step, t: Tid)
    requires Possible(cfg, b, st) && Actor(st) == Some(t) && t in b.core.threads && TaskFits(cfg, b, t)
    requires CoreAction(cfg, b, st).None?
    ensures ActorStays(cfg, b, st, t)
  {
    CoreAfter(cfg, b, st);
    ActorTask(cfg, b, st, t);
    QuietFits(cfg, t, b.tasks[t], TaskAfter(cfg, b, st), b.core.threads[t], Own(b.core.trace, t),
              Trail(b.core.trace, t), b.core.link.now);
  }

  function OwnWith(own: seq<Event>, t: Tid, note: Note): seq<Event> {
    var e := Noted(t, note);
    if Opens(e, t) then [e] else if IsWork(note) then own + [e] else own
  }

  /** What a step that leaves a note has to show of its thread. */
  ghost predicate NoteFits(cfg: Settings, b: System, st: Step, t: Tid, note: Note)
    requires Possible(cfg, b, st) && Actor(st) == Some(t) && t in b.core.threads
  {
    Fits(cfg, t, TaskAfter(cfg, b, st), b.core.threads[t], OwnWith(Own(b.core.trace, t), t, note),
         Trail(b.core.trace, t), b.core.link.now)
  }

  /** A command begins or returns. */
  lemma CommandNotes(cfg: Settings, b: System, st: Step, t: Tid, note: Note)
    requires Possible(cfg, b, st) && Actor(st) == Some(t) && t in b.core.threads && TaskFits(cfg, b, t)
    requires CoreAction(cfg, b, st) == Some(Jot(t, note)) && b.tasks[t].Applying?
    ensures NoteFits(cfg, b, st, t, note)
  {
    var own, trail, now, task := Own(b.core.trace, t), Trail(b.core.trace, t), b.core.link.now, b.tasks[t];
    if st.Consult? {
      ConsultFits(cfg, t, task.cmd, task.rest, b.latest.operation, trail, now);
    } else if st.GiveUp? {
      GiveUpFits(cfg, t, task.cmd, task.rest, task.phase.k, task.phase.until, task.past, own, trail, now);
    } else {
      assert st.Close?;
      CloseCommandFits(cfg, t, task.cmd, task.rest, task.phase.ok, task.past, own, trail, now);
    }
  }

  lemma PublishNotes(cfg: Settings, b: System, t: Tid, note: Note)
    requires Possible(cfg, b, Publish(t)) && t in b.core.threads && TaskFits(cfg, b, t)
    requires CoreAction(cfg, b, Publish(t)) == Some(Jot(t, note))
    ensures NoteFits(cfg, b, Publish(t), t, note)
  {
    var task := b.tasks[t];
    assert TaskAfter(cfg, b, Publish(t)) == Copying(NewLatest(b, task));
    assert note == Published(MergedBy(task), NewLatest(b, task));
    PublishFits(t, task.tier, task.got, task.at, task.past, NewLatest(b, task));
  }

  lemma DeliveredFits(cfg: Settings, t: Tid, snapshot: Snapshot, next: nat, upTo: nat, pc: Pc, own: seq<Event>,
                      trail: seq<Event>, now: Time)
    requires Fits(cfg, t, Notifying(snapshot, next, upTo), pc, own, trail, now) && next < upTo
    ensures Fits(cfg, t, Notifying(snapshot, next + 1, upTo), pc, OwnWith(own, t, Delivered(next, snapshot)), trail,
                 now)
  {
    DeliverFits(t, own, next, snapshot);
  }

  lemma DeliverNotes(cfg: Settings, b: System, t: Tid, note: Note)
    requires Possible(cfg, b, Deliver(t)) && t in b.core.threads && TaskFits(cfg, b, t)
    requires CoreAction(cfg, b, Deliver(t)) == Some(Jot(t, note))
    ensures NoteFits(cfg, b, Deliver(t), t, note)
  {
    var task := b.tasks[t];
    DeliveredFits(cfg, t, task.snapshot, task.next, task.upTo, b.core.threads[t], Own(b.core.trace, t),
                  Trail(b.core.trace, t), b.core.link.now);
    assert TaskAfter(cfg, b, Deliver(t)) == Notifying(task.snapshot, task.next + 1, task.upTo);
  }

  /** The task and the history after a step that leaves a note. */
  lemma NotedFits(cfg: Settings, b: System, st: Step, t: Tid, note: Note)
    requires Possible(cfg, b, st) && Actor(st) == Some(t) && t in b.core.threads && TaskFits(cfg, b, t)
    requires CoreAction(cfg, b, st) == Some(Jot(t, note))
    ensures NoteFits(cfg, b, st, t, note)
  {
    if st.Publish? {
      PublishNotes(cfg, b, t, note);
    } else if st.Deliver? {
      DeliverNotes(cfg, b, t, note);
    } else if st.Receive? {
      MessagesYieldValidated(st.m);
    } else if b.tasks[t].Applying? {
      CommandNotes(cfg, b, st, t, note);
    } else if st.Close? {
      ClosePollFits(cfg, t, b.tasks[t].tier, Own(b.core.trace, t));
    }
  }

  lemma NotingActorFits(cfg: Settings, b: System, st: Step, t: Tid, note: Note)
    requires Possible(cfg, b, st) && Actor(st) == Some(t) && t in b.core.threads && TaskFits(cfg, b, t)
    requires CoreAction(cfg, b, st) == Some(Jot(t, note))
    ensures ActorStays(cfg, b, st, t)
  {
    NotedFits(cfg, b, st, t, note);
    CoreAfter(cfg, b, st);
    ActorTask(cfg, b, st, t);
    JotView(cfg.core, b.core, t, note);
  }

  lemma AdvanceFits(cfg: Settings, b: System, t: Tid)
    requires t in b.tasks && t in b.core.threads && b.core.threads[t].Done? && RequestOf(b.tasks[t]).Some?
    requires TaskFits(cfg, b, t) && TrailFits(b.core, t)
    ensures Fits(cfg, t, Advance(cfg, b, t), Idle, Own(b.core.trace, t), Trail(b.core.trace, t), b.core.link.now)
  {
    var pc, own, trail, now := b.core.threads[t], Own(b.core.trace, t), Trail(b.core.trace, t), b.core.link.now;
    match b.tasks[t] {
      case Applying(cmd, rest, phase, past) => FinishCommand(cfg, t, cmd, rest, phase.k, past, pc, own, trail, now);
      case Polling(tier, got, past) => FinishRead(cfg, t, tier, got, past, pc, own, trail, now);
    }
  }

  lemma ReturnView(cfg: Config, s: State, t: Tid)
    requires Enabled(cfg, s, Return(t))
    ensures var s' := Next(cfg, s, Return(t));
            s'.threads == s.threads[t := Idle] && s'.link == s.link && s'.trace == s.trace
  {
  }

  lemma FinishFits(cfg: Settings, b: System, t: Tid)
    requires Possible(cfg, b, Finish(t)) && TaskFits(cfg, b, t) && TrailFits(b.core, t)
    ensures ActorStays(cfg, b, Finish(t), t)
  {
    AdvanceFits(cfg, b, t);
    CoreAfter(cfg, b, Finish(t));
    ActorTask(cfg, b, Finish(t), t);
    ReturnView(cfg.core, b.core, t);
  }

  lemma IssueFits(cfg: Settings, b: System, t: Tid)
    requires Possible(cfg, b, Issue(t)) && TaskFits(cfg, b, t)
    ensures ActorStays(cfg, b, Issue(t), t)
  {
    CoreAfter(cfg, b, Issue(t));
    ActorTask(cfg, b, Issue(t), t);
    CallView(cfg.core, b.core, t, RequestOf(b.tasks[t]).value);
    assert b.tasks[t].past + [] == b.tasks[t].past;
  }

  lemma ActorFits(cfg: Settings, b: System, st: Step, t: Tid)
    requires Possible(cfg, b, st) && Actor(st) == Some(t) && t in b.core.threads && TaskFits(cfg, b, t)
    requires TrailFits(b.core, t)
    ensures ActorStays(cfg, b, st, t)
  {
    if st.Issue? {
      IssueFits(cfg, b, t);
    } else if st.Finish? {
      FinishFits(cfg, b, t);
    } else if CoreAction(cfg, b, st).None? {
      QuietActorFits(cfg, b, st, t);
    } else {
      NotingActorFits(cfg, b, st, t, CoreAction(cfg, b, st).value.note);
    }
  }

  lemma KeysKept(cfg: Settings, b: System, st: Step)
    requires Possible(cfg, b, st) && b.tasks.Keys == b.core.threads.Keys
    ensures After(cfg, b, st).tasks.Keys == b.tasks.Keys
    ensures After(cfg, b, st).core.threads.Keys == b.tasks.Keys
  {
    CoreAfter(cfg, b, st);
    match CoreAction(cfg, b, st) {
      case None =>
      case Some(a) => TraceGrows(cfg.core, b.core, a);
    }
  }

  lemma TasksKept(cfg: Settings, b: System, st: Step)
    requires Possible(cfg, b, st) && TasksInv(cfg, b) && TrailInv(b.core)
    ensures TasksInv(cfg, After(cfg, b, st))
  {
    KeysKept(cfg, b, st);
    var b' := After(cfg, b, st);
    forall t | t in b'.tasks ensures TaskFits(cfg, b', t) {
      assert TaskFits(cfg, b, t) && TrailFits(b.core, t);
      if Actor(st) == Some(t) {
        ActorFits(cfg, b, st, t);
      } else if st.Core? && Mover(st.a) == Some(t) {
        InternalFits(cfg, b, st.a, t);
      } else {
        BystanderFits(cfg, b, st, t);
      }
    }
  }
}
