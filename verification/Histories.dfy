/** Every moment of every thread's history is lawful; the poller's state and its timestamps follow from the history. */
module Histories {
  import opened Words
  import opened Snapshots
  import opened Modbus
  import opened Commands
  import opened Machine
  import opened Invariants
  import opened Transactions
  import opened Bridge
  import opened Calls

  // ----- Lawful at every moment

  lemma IssuingLawful(cfg: Settings, t: Tid, cmd: Command, k: nat, past: seq<Event>, pc: Pc,
                      own: seq<Event>, trail: seq<Event>, now: Time)
    requires Validated(cmd) && IssuingFits(cfg, t, cmd, k, past, pc, own, trail, now)
    requires !pc.Idle? ==> Performs(t, pc.req, trail) && (pc.req.Write? ==> |trail| <= 1)
    ensures Lawful(cfg, t, own)
  {
    var op := past[0].note.operation;
    assert IsBegan(own[0], t, cmd, op);
    if pc.Idle? {
      assert own[1..] == if k == 0 then [] else [past[1]];
    } else if k == 0 {
      assert own[1..] == trail;
    } else {
      assert own[1..] == [past[1]] + trail;
    }
    assert CommandShape(cfg, t, own, cmd, op);
  }

  /** A write has no second leg. */
  lemma WriteHasOneLeg(t: Tid, req: Request, trail: seq<Event>)
    requires req.Write? && Performs(t, req, trail)
    ensures |trail| <= 1
  {
  }

  lemma PollingLawful(cfg: Settings, t: Tid, tier: Tier, got: seq<seq<Word>>, past: seq<Event>)
    requires PollSoFar(t, tier, got, past)
    ensures ReadingPoll(t, tier, past)
  {
    forall k | 0 <= k < |got| ensures IsFullRead(past[1..][k], t, tier, k, got[k]) {
    }
  }

  lemma FitsLawful(cfg: Settings, b: System, t: Tid)
    requires t in b.tasks && t in b.core.threads && TaskFits(cfg, b, t) && TrailFits(b.core, t)
    ensures Lawful(cfg, t, Own(b.core.trace, t))
  {
    var pc, own, trail, now := b.core.threads[t], Own(b.core.trace, t), Trail(b.core.trace, t), b.core.link.now;
    match b.tasks[t] {
      case AtRest =>
      case Applying(cmd, rest, phase, past) =>
        if phase.Issuing? {
          if !pc.Idle? && pc.req.Write? {
            WriteHasOneLeg(t, pc.req, trail);
          }
          IssuingLawful(cfg, t, cmd, phase.k, past, pc, own, trail, now);
        } else if phase.Pausing? {
          IssuingLawful(cfg, t, cmd, 1, past, Idle, own, trail, phase.until);
        } else if phase.Ending? {
          assert CommandShape(cfg, t, own, cmd, own[0].note.operation);
        }
      case Polling(tier, got, past) =>
        if pc.Idle? {
          PollingLawful(cfg, t, tier, got, past);
        } else {
          ReadingSoFar(t, tier, got, past, trail, pc.req);
        }
        assert UnpublishedPoll(t, tier, own);
      case Abandoning(tier) => assert UnpublishedPoll(t, tier, own);
      case Merging(tier, got, _, past) =>
        PollingLawful(cfg, t, tier, got, past);
        assert UnpublishedPoll(t, tier, own);
      case Copying(_) =>
      case Notifying(_, _, _) =>
      case Watching(_) =>
    }
  }

  /** At every moment of the run, every thread's latest command or poll was lawful. */
  ghost predicate AlwaysLawful(cfg: Settings, b: System) {
    forall p: nat, t :: p <= |b.core.trace| && t in b.tasks ==> Lawful(cfg, t, Own(b.core.trace[..p], t))
  }

  lemma TraceExtends(cfg: Settings, b: System, st: Step)
    requires Possible(cfg, b, st)
    ensures var tr, tr' := b.core.trace, After(cfg, b, st).core.trace;
            |tr| <= |tr'| <= |tr| + 1 && tr'[..|tr|] == tr
    ensures match CoreAction(cfg, b, st)
            case None => After(cfg, b, st).core.trace == b.core.trace
            case Some(a) => Enabled(cfg.core, b.core, a)
                            && After(cfg, b, st).core.trace == b.core.trace + EventsOf(cfg.core, b.core, a)
  {
    CoreAfter(cfg, b, st);
    match CoreAction(cfg, b, st) {
      case None =>
      case Some(a) => TraceGrows(cfg.core, b.core, a);
    }
  }

  lemma AlwaysLawfulKept(cfg: Settings, b: System, st: Step)
    requires Possible(cfg, b, st) && AlwaysLawful(cfg, b) && b.tasks.Keys == b.core.threads.Keys
    requires TasksInv(cfg, After(cfg, b, st)) && TrailInv(After(cfg, b, st).core)
    ensures AlwaysLawful(cfg, After(cfg, b, st))
  {
    var b' := After(cfg, b, st);
    var tr, tr' := b.core.trace, b'.core.trace;
    TraceExtends(cfg, b, st);
    KeysKept(cfg, b, st);
    forall p: nat, t | p <= |tr'| && t in b'.tasks ensures Lawful(cfg, t, Own(tr'[..p], t)) {
      if p <= |tr| {
        assert tr'[..p] == tr'[..|tr|][..p];
      } else {
        assert tr'[..p] == tr';
        assert TaskFits(cfg, b', t) && TrailFits(b'.core, t);
        FitsLawful(cfg, b', t);
      }
    }
  }

  // ----- Legal and honest wire operations

  ghost predicate IsModeUpdate(req: Request) {
    exists mode :: req == Modify(DEV_KEYS_2, ModeUpdate(mode))
  }

  /** The registers the bridge writes, and how. */
  ghost predicate LegalRequest(req: Request) {
    match req
    case Read(_, _, _) => true
    case Write(a, v) => (a == POWER_DEV && v <= 1) || a == TEMP_TARGET || a == FAN_TARGET_1
    case Modify(_, _) => IsModeUpdate(req)
  }

  lemma ScriptsAreLegal(cmd: Command, k: nat)
    requires k < |Script(cmd)|
    ensures LegalRequest(Script(cmd)[k])
  {
    if cmd.SetMode? {
      assert Script(cmd)[0] == Modify(DEV_KEYS_2, ModeUpdate(cmd.mode));
    }
  }

  /** Each wire operation carries a legal request of a known thread and was answered from the memory of that
      moment. */
  ghost predicate WireInv(m0: Memory, ts: set<Tid>, tr: seq<Event>) {
    forall j: nat :: j < |tr| && tr[j].Exchanged? ==>
      && tr[j].t in ts
      && LegalRequest(tr[j].req)
      && MayReply(MemoryAt(m0, tr[..j]), AccessOf(tr[j].req, tr[j].leg), tr[j].reply)
  }

  lemma WireSnoc(m0: Memory, ts: set<Tid>, tr: seq<Event>, e: Event)
    requires WireInv(m0, ts, tr)
    requires e.Exchanged? ==>
               e.t in ts && LegalRequest(e.req) && MayReply(MemoryAt(m0, tr), AccessOf(e.req, e.leg), e.reply)
    ensures WireInv(m0, ts, tr + [e])
  {
    var tr' := tr + [e];
    forall j: nat | j < |tr'| && tr'[j].Exchanged?
      ensures tr'[j].t in ts && LegalRequest(tr'[j].req)
      ensures MayReply(MemoryAt(m0, tr'[..j]), AccessOf(tr'[j].req, tr'[j].leg), tr'[j].reply)
    {
      assert tr'[..j] == tr[..j];
      assert tr[..|tr|] == tr;
    }
  }

  lemma WireKept(cfg: Settings, m0: Memory, b: System, st: Step)
    requires Possible(cfg, b, st) && TasksInv(cfg, b) && MemoryInv(m0, b.core)
    requires WireInv(m0, b.tasks.Keys, b.core.trace)
    ensures WireInv(m0, After(cfg, b, st).tasks.Keys, After(cfg, b, st).core.trace)
  {
    KeysKept(cfg, b, st);
    TraceExtends(cfg, b, st);
    match CoreAction(cfg, b, st) {
      case None =>
      case Some(a) =>
        var es := EventsOf(cfg.core, b.core, a);
        if es == [] {
          assert b.core.trace + [] == b.core.trace;
        } else {
          if a.Answer? {
            assert TaskFits(cfg, b, a.t);
            RequestIsLegal(cfg, a.t, b.tasks[a.t], b.core.threads[a.t], Own(b.core.trace, a.t),
                           Trail(b.core.trace, a.t), b.core.link.now);
          }
          WireSnoc(m0, b.tasks.Keys, b.core.trace, es[0]);
        }
    }
  }

  lemma RequestIsLegal(cfg: Settings, t: Tid, task: Task, pc: Pc, own: seq<Event>, trail: seq<Event>, now: Time)
    requires Fits(cfg, t, task, pc, own, trail, now) && !pc.Idle?
    ensures LegalRequest(pc.req)
  {
    if task.Applying? {
      ScriptsAreLegal(task.cmd, task.phase.k);
    }
  }

  /** Notes are left by known threads only. */
  ghost predicate NotesInv(ts: set<Tid>, tr: seq<Event>) {
    forall j: nat :: j < |tr| && tr[j].Noted? ==> tr[j].t in ts
  }

  lemma NotesKept(cfg: Settings, b: System, st: Step)
    requires Possible(cfg, b, st) && b.tasks.Keys == b.core.threads.Keys && NotesInv(b.tasks.Keys, b.core.trace)
    ensures NotesInv(After(cfg, b, st).tasks.Keys, After(cfg, b, st).core.trace)
  {
    KeysKept(cfg, b, st);
    TraceExtends(cfg, b, st);
  }

  // ----- The snapshot is a function of the published merges

  function MergesIn(tr: seq<Event>): seq<Merged> {
    if tr == [] then []
    else
      var e := tr[|tr| - 1];
      MergesIn(tr[..|tr| - 1]) + if e.Noted? && e.note.Published? then [e.note.merged] else []
  }

  /** A publication carries the replay of the merges up to its own. */
  ghost predicate PublicationsReplay(tr: seq<Event>) {
    forall p: nat :: p < |tr| && IsPublished(tr[p]) ==> tr[p].note.snapshot == Replay(MergesIn(tr[..p + 1]))
  }

  ghost predicate LatestInv(b: System) {
    b.latest == Replay(MergesIn(b.core.trace)) && PublicationsReplay(b.core.trace)
  }

  lemma PublicationsSnoc(tr: seq<Event>, e: Event)
    requires PublicationsReplay(tr)
    requires IsPublished(e) ==> e.note.snapshot == Replay(MergesIn(tr + [e]))
    ensures PublicationsReplay(tr + [e])
  {
    var tr' := tr + [e];
    forall p: nat | p < |tr'| && IsPublished(tr'[p]) ensures tr'[p].note.snapshot == Replay(MergesIn(tr'[..p + 1])) {
      if p < |tr| {
        assert tr'[..p + 1] == tr[..p + 1];
      } else {
        assert tr'[..p + 1] == tr';
      }
    }
  }

  predicate IsPublished(e: Event) {
    e.Noted? && e.note.Published?
  }

  predicate IsDelivered(e: Event) {
    e.Noted? && e.note.Delivered?
  }

  lemma MergesSnoc(tr: seq<Event>, e: Event)
    ensures MergesIn(tr + [e]) == MergesIn(tr) + if e.Noted? && e.note.Published? then [e.note.merged] else []
  {
  }

  /** The event of a step, if any: a publication exactly for Publish, a delivery exactly for Deliver. */
  lemma StepEvents(cfg: Settings, b: System, st: Step) returns (es: seq<Event>)
    requires Possible(cfg, b, st)
    ensures |es| <= 1 && After(cfg, b, st).core.trace == b.core.trace + es
    ensures if st.Publish? then es == [Noted(st.t, Published(MergedBy(b.tasks[st.t]), NewLatest(b, b.tasks[st.t])))]
            else forall e :: e in es ==> !IsPublished(e)
    ensures if st.Deliver? then es == [Noted(st.t, Delivered(b.tasks[st.t].next, b.tasks[st.t].snapshot))]
            else forall e :: e in es ==> !IsDelivered(e)
  {
    TraceExtends(cfg, b, st);
    match CoreAction(cfg, b, st) {
      case None => es := [];
      case Some(a) => es := EventsOf(cfg.core, b.core, a);
    }
  }

  /** A publication extends the replay; any other event leaves it. */
  lemma ReplaySnoc(tr: seq<Event>, e: Event, latest: Snapshot)
    requires latest == Replay(MergesIn(tr)) && PublicationsReplay(tr)
    requires IsPublished(e) ==> e.note.snapshot == Merge(e.note.merged.tier, latest, e.note.merged.partial)
    ensures PublicationsReplay(tr + [e])
    ensures Replay(MergesIn(tr + [e])) == if IsPublished(e) then e.note.snapshot else latest
  {
    MergesSnoc(tr, e);
    var merges := MergesIn(tr);
    assert merges + [] == merges;
    if IsPublished(e) {
      Snoc(merges, e.note.merged);
    }
    PublicationsSnoc(tr, e);
  }

  lemma LatestKept(cfg: Settings, b: System, st: Step)
    requires Possible(cfg, b, st) && LatestInv(b)
    ensures LatestInv(After(cfg, b, st))
  {
    var es := StepEvents(cfg, b, st);
    if es == [] {
      assert b.core.trace + [] == b.core.trace;
    } else {
      assert es == [es[0]] && es[0] in es;
      ReplaySnoc(b.core.trace, es[0], b.latest);
    }
  }

  /** The operation a command was checked against is that of the snapshot published last. */
  ghost predicate ConsultsLatest(tr: seq<Event>) {
    forall i: nat :: i < |tr| && tr[i].Noted? && tr[i].note.Began? ==>
      tr[i].note.operation == Replay(MergesIn(tr[..i])).operation
  }

  lemma ConsultSnoc(tr: seq<Event>, e: Event)
    requires ConsultsLatest(tr)
    requires e.Noted? && e.note.Began? ==> e.note.operation == Replay(MergesIn(tr)).operation
    ensures ConsultsLatest(tr + [e])
  {
    var tr' := tr + [e];
    forall i: nat | i < |tr'| && tr'[i].Noted? && tr'[i].note.Began?
      ensures tr'[i].note.operation == Replay(MergesIn(tr'[..i])).operation
    {
      if i < |tr| {
        assert tr'[..i] == tr[..i];
      } else {
        assert tr'[..i] == tr;
      }
    }
  }

  lemma ConsultKept(cfg: Settings, b: System, st: Step)
    requires Possible(cfg, b, st) && LatestInv(b) && ConsultsLatest(b.core.trace)
    ensures ConsultsLatest(After(cfg, b, st).core.trace)
  {
    TraceExtends(cfg, b, st);
    match CoreAction(cfg, b, st) {
      case None =>
      case Some(a) =>
        var es := EventsOf(cfg.core, b.core, a);
        if es == [] {
          assert After(cfg, b, st).core.trace == b.core.trace;
        } else {
          ConsultSnoc(b.core.trace, es[0]);
        }
    }
  }

  // ----- The timestamps of the published polls

  function StampOf(e: Event): Time
    requires IsPublished(e)
  {
    e.note.merged.partial.polledAt
  }

  /** The time an event carries: of a call, of the end of a wire operation, of a poll's stamp, of a tick. */
  function Moment(e: Event): Option<Time> {
    match e
    case Called(_, _, at) => Some(at)
    case Exchanged(_, _, _, _, end, _) => Some(end)
    case Noted(_, Published(merged, _)) => Some(merged.partial.polledAt)
    case Noted(_, Ticked(tick, _)) => Some(tick.now)
    case _ => None
  }

  ghost predicate TimedBy(tr: seq<Event>, at: Time) {
    forall k: nat :: k < |tr| && Moment(tr[k]).Some? ==> Moment(tr[k]).value <= at
  }

  /** Calls and ticks read the clock as they happen. */
  predicate IsReading(e: Event) {
    e.Called? || (e.Noted? && e.note.Ticked?)
  }

  /** No reading of the clock is earlier than what happened before it. */
  ghost predicate ReadingsInOrder(tr: seq<Event>) {
    forall j: nat :: j < |tr| && IsReading(tr[j]) ==> TimedBy(tr[..j], Moment(tr[j]).value)
  }

  /** at is no earlier than t's wire operations, and than all that happened before them. */
  ghost predicate Fresh(tr: seq<Event>, t: Tid, at: Time) {
    forall k: nat, j: nat :: k <= j < |tr| && Moment(tr[k]).Some? && tr[j].Exchanged? && tr[j].t == t ==>
      Moment(tr[k]).value <= at
  }

  ghost predicate PublishedFresh(tr: seq<Event>) {
    forall p: nat :: p < |tr| && IsPublished(tr[p]) ==> 0 < StampOf(tr[p]) && Fresh(tr[..p], tr[p].t, StampOf(tr[p]))
  }

  /** A poll about to be merged is no older than what was published before its last read. */
  ghost predicate MergeFresh(b: System, t: Tid)
    requires t in b.tasks
  {
    b.tasks[t].Merging? ==> 0 < b.tasks[t].at <= b.core.link.now && Fresh(b.core.trace, t, b.tasks[t].at)
  }

  ghost predicate PollStampInv(b: System) {
    && TimedBy(b.core.trace, b.core.link.now) && ReadingsInOrder(b.core.trace)
    && PublishedFresh(b.core.trace)
    && forall t :: t in b.tasks ==> MergeFresh(b, t)
  }

  lemma FreshOn(tr: seq<Event>, es: seq<Event>, t: Tid, at: Time)
    requires Fresh(tr, t, at) && |es| <= 1 && (es != [] && es[0].Exchanged? ==> es[0].t != t)
    ensures Fresh(tr + es, t, at)
  {
    assert forall k :: 0 <= k < |tr| ==> (tr + es)[k] == tr[k];
  }

  lemma TimedIsFresh(tr: seq<Event>, t: Tid, at: Time)
    requires TimedBy(tr, at)
    ensures Fresh(tr, t, at)
  {
  }

  lemma PublishedSnoc(tr: seq<Event>, e: Event)
    requires PublishedFresh(tr) && (IsPublished(e) ==> 0 < StampOf(e) && Fresh(tr, e.t, StampOf(e)))
    ensures PublishedFresh(tr + [e])
  {
    var tr' := tr + [e];
    forall p: nat | p < |tr'| && IsPublished(tr'[p])
      ensures 0 < StampOf(tr'[p]) && Fresh(tr'[..p], tr'[p].t, StampOf(tr'[p]))
    {
      if p < |tr| {
        assert tr'[..p] == tr[..p];
      } else {
        assert tr'[..p] == tr;
      }
    }
  }

  /** Time does not go back, and only a thread that is in a call has wire operations. */
  lemma StepMoves(cfg: Settings, b: System, st: Step) returns (es: seq<Event>)
    requires Possible(cfg, b, st)
    ensures |es| <= 1 && After(cfg, b, st).core.trace == b.core.trace + es
    ensures b.core.link.now <= After(cfg, b, st).core.link.now
    ensures es != [] && es[0].Exchanged? ==> es[0].t in b.core.threads && !b.core.threads[es[0].t].Idle?
    ensures es != [] && IsPublished(es[0]) ==>
              st == Publish(es[0].t) && StampOf(es[0]) == b.tasks[es[0].t].at
    ensures es != [] && IsReading(es[0]) ==> Moment(es[0]) == Some(b.core.link.now)
    ensures es != [] && es[0].Exchanged? ==> es[0].end <= b.core.link.now
  {
    es := StepEvents(cfg, b, st);
    TraceExtends(cfg, b, st);
    CoreAfter(cfg, b, st);
  }

  lemma TimesSnoc(tr: seq<Event>, e: Event, now: Time, now': Time)
    requires TimedBy(tr, now) && ReadingsInOrder(tr) && now <= now'
    requires Moment(e).Some? ==> Moment(e).value <= now
    requires IsReading(e) ==> Moment(e) == Some(now)
    ensures TimedBy(tr + [e], now') && ReadingsInOrder(tr + [e])
  {
    var tr' := tr + [e];
    assert tr'[|tr|] == e && forall k :: 0 <= k < |tr| ==> tr'[k] == tr[k];
    forall j: nat | j < |tr'| && IsReading(tr'[j]) ensures TimedBy(tr'[..j], Moment(tr'[j]).value) {
      assert tr'[..j] == if j < |tr| then tr[..j] else tr;
    }
  }

  /** Only a poll's last read leads to a merge, and then the clock is read. */
  lemma MergeBegins(cfg: Settings, b: System, st: Step, t: Tid)
    requires Possible(cfg, b, st) && Actor(st) == Some(t) && TaskAfter(cfg, b, st).Merging?
    ensures TaskAfter(cfg, b, st).at == b.core.link.now && st.Finish?
    ensures After(cfg, b, st).core.trace == b.core.trace && After(cfg, b, st).core.link == b.core.link
  {
    CoreAfter(cfg, b, st);
  }

  lemma MergeStays(cfg: Settings, b: System, st: Step, t: Tid)
    requires Possible(cfg, b, st) && t in b.tasks && b.tasks[t].Merging? && MergeFresh(b, t) && Actor(st) != Some(t)
    requires t in b.core.threads && b.core.threads[t].Idle?
    ensures t in After(cfg, b, st).tasks && MergeFresh(After(cfg, b, st), t)
  {
    BystanderTask(cfg, b, st, t);
    var es := StepMoves(cfg, b, st);
    FreshOn(b.core.trace, es, t, b.tasks[t].at);
  }

  lemma MergeKept(cfg: Settings, b: System, st: Step, t: Tid)
    requires Possible(cfg, b, st) && TasksInv(cfg, b) && PollStampInv(b) && 0 < b.core.link.now
    requires t in b.tasks && t in After(cfg, b, st).tasks
    ensures MergeFresh(After(cfg, b, st), t)
  {
    if Actor(st) == Some(t) {
      ActorTask(cfg, b, st, t);
      if TaskAfter(cfg, b, st).Merging? {
        MergeBegins(cfg, b, st, t);
        TimedIsFresh(b.core.trace, t, b.core.link.now);
      }
    } else if b.tasks[t].Merging? {
      assert MergeFresh(b, t) && TaskFits(cfg, b, t);
      MergeStays(cfg, b, st, t);
    }
  }

  lemma PollStampKept(cfg: Settings, b: System, st: Step)
    requires Possible(cfg, b, st) && TasksInv(cfg, b) && PollStampInv(b) && 0 < b.core.link.now
    ensures PollStampInv(After(cfg, b, st))
  {
    KeysKept(cfg, b, st);
    TimesKept(cfg, b, st);
    forall t | t in After(cfg, b, st).tasks ensures MergeFresh(After(cfg, b, st), t) {
      MergeKept(cfg, b, st, t);
    }
  }

  lemma TimesKept(cfg: Settings, b: System, st: Step)
    requires Possible(cfg, b, st) && PollStampInv(b)
    ensures var b' := After(cfg, b, st);
            TimedBy(b'.core.trace, b'.core.link.now) && ReadingsInOrder(b'.core.trace) && PublishedFresh(b'.core.trace)
  {
    var b' := After(cfg, b, st);
    var es := StepMoves(cfg, b, st);
    if es == [] {
      assert b'.core.trace == b.core.trace;
    } else {
      assert es == [es[0]];
      if IsPublished(es[0]) {
        assert MergeFresh(b, es[0].t);
      }
      PublishedSnoc(b.core.trace, es[0]);
      TimesSnoc(b.core.trace, es[0], b.core.link.now, b'.core.link.now);
    }
  }

  // ----- Deliveries

  /** The snapshots thread t published, in order. */
  function PublishedBy(tr: seq<Event>, t: Tid): seq<Snapshot> {
    if tr == [] then []
    else
      var e := tr[|tr| - 1];
      PublishedBy(tr[..|tr| - 1], t)
      + if e.Noted? && e.t == t && e.note.Published? then [e.note.snapshot] else []
  }

  /** The snapshots thread t handed to subscriber k, in order. */
  function DeliveredTo(tr: seq<Event>, t: Tid, k: nat): seq<Snapshot> {
    if tr == [] then []
    else
      var e := tr[|tr| - 1];
      DeliveredTo(tr[..|tr| - 1], t, k)
      + if e.Noted? && e.t == t && e.note.Delivered? && e.note.subscriber == k then [e.note.snapshot] else []
  }

  /** What of t's publications subscriber k has yet to get. */
  function Undelivered(task: Task, k: nat): seq<Snapshot> {
    match task
    case Copying(snapshot) => [snapshot]
    case Notifying(snapshot, next, upTo) => if next <= k then [snapshot] else []
    case _ => []
  }

  /** Subscriber k is registered, and no round of t's is under way that began without it. */
  predicate Sees(b: System, t: Tid, k: nat) {
    t in b.tasks && k < b.subscribers && (b.tasks[t].Notifying? ==> k < b.tasks[t].upTo)
  }

  /** What t has given or still owes to k. */
  function Granted(b: System, t: Tid, k: nat): seq<Snapshot>
    requires t in b.tasks
  {
    DeliveredTo(b.core.trace, t, k) + Undelivered(b.tasks[t], k)
  }

  /** What a step's event adds to t's publications. */
  function Publishes(es: seq<Event>, t: Tid): seq<Snapshot> {
    if |es| == 1 && IsPublished(es[0]) && es[0].t == t then [es[0].note.snapshot] else []
  }

  /** What a step's event adds to t's deliveries to subscriber k. */
  function Delivers(es: seq<Event>, t: Tid, k: nat): seq<Snapshot> {
    if |es| == 1 && IsDelivered(es[0]) && es[0].t == t && es[0].note.subscriber == k then [es[0].note.snapshot] else []
  }

  lemma DeliverySnoc(tr: seq<Event>, es: seq<Event>, t: Tid, k: nat)
    requires |es| <= 1
    ensures PublishedBy(tr + es, t) == PublishedBy(tr, t) + Publishes(es, t)
    ensures DeliveredTo(tr + es, t, k) == DeliveredTo(tr, t, k) + Delivers(es, t, k)
  {
    if es == [] {
      assert tr + es == tr;
    } else {
      assert es == [es[0]];
      Snoc(tr, es[0]);
    }
  }

  /** A step moves a snapshot from published to undelivered, or from undelivered to delivered. */
  lemma UndeliveredMoves(cfg: Settings, b: System, st: Step, t: Tid, k: nat, es: seq<Event>)
    requires Possible(cfg, b, st) && Sees(b, t, k)
    requires |es| <= 1
    requires if st.Publish? then es == [Noted(st.t, Published(MergedBy(b.tasks[st.t]), NewLatest(b, b.tasks[st.t])))]
             else forall e :: e in es ==> !IsPublished(e)
    requires if st.Deliver? then es == [Noted(st.t, Delivered(b.tasks[st.t].next, b.tasks[st.t].snapshot))]
             else forall e :: e in es ==> !IsDelivered(e)
    ensures t in After(cfg, b, st).tasks
    ensures Delivers(es, t, k) + Undelivered(After(cfg, b, st).tasks[t], k)
            == Undelivered(b.tasks[t], k) + Publishes(es, t)
  {
    assert |es| == 1 ==> es[0] in es;
    if Actor(st) == Some(t) {
      ActorTask(cfg, b, st, t);
    }
  }

  /** A step grants what it publishes. */
  lemma Grants(cfg: Settings, b: System, st: Step, t: Tid, k: nat) returns (new': seq<Snapshot>)
    requires Possible(cfg, b, st) && Sees(b, t, k)
    ensures var b' := After(cfg, b, st);
            && t in b'.tasks && Granted(b', t, k) == Granted(b, t, k) + new'
            && PublishedBy(b'.core.trace, t) == PublishedBy(b.core.trace, t) + new'
            && DeliveredTo(b.core.trace, t, k) <= DeliveredTo(b'.core.trace, t, k)
  {
    var es := StepEvents(cfg, b, st);
    UndeliveredMoves(cfg, b, st, t, k, es);
    DeliverySnoc(b.core.trace, es, t, k);
    new' := Publishes(es, t);
    Regroup(DeliveredTo(b.core.trace, t, k), Delivers(es, t, k), Undelivered(After(cfg, b, st).tasks[t], k),
            Undelivered(b.tasks[t], k), new');
  }

  lemma Regroup<T>(done: seq<T>, out: seq<T>, left': seq<T>, left: seq<T>, new': seq<T>)
    requires out + left' == left + new'
    ensures done + out + left' == done + left + new'
  {
    assert done + out + left' == done + (out + left');
  }

  /** From b1 to b2 subscriber k, registered and in all rounds of t's, was granted what t published: later. */
  ghost predicate Served(b1: System, b2: System, t: Tid, k: nat, later: seq<Snapshot>) {
    && Sees(b1, t, k) && Sees(b2, t, k)
    && DeliveredTo(b1.core.trace, t, k) <= DeliveredTo(b2.core.trace, t, k)
    && PublishedBy(b2.core.trace, t) == PublishedBy(b1.core.trace, t) + later
    && Granted(b2, t, k) == Granted(b1, t, k) + later
  }

  lemma ServedOn(b1: System, b2: System, b3: System, t: Tid, k: nat, first: seq<Snapshot>, second: seq<Snapshot>)
    requires Served(b1, b2, t, k, first) && Served(b2, b3, t, k, second)
    ensures Served(b1, b3, t, k, first + second)
  {
    Associates(PublishedBy(b1.core.trace, t), first, second);
    Associates(Granted(b1, t, k), first, second);
  }

  lemma Associates<T>(a: seq<T>, b: seq<T>, c: seq<T>)
    ensures a + b + c == a + (b + c)
  {
  }

  lemma ServedByStep(cfg: Settings, b: System, st: Step, t: Tid, k: nat) returns (later: seq<Snapshot>)
    requires Possible(cfg, b, st) && Sees(b, t, k) && b.tasks.Keys == b.core.threads.Keys
    ensures Served(b, After(cfg, b, st), t, k, later)
  {
    SeesKept(cfg, b, st, t, k);
    later := Grants(cfg, b, st, t, k);
  }

  lemma SeesKept(cfg: Settings, b: System, st: Step, t: Tid, k: nat)
    requires Possible(cfg, b, st) && Sees(b, t, k) && b.tasks.Keys == b.core.threads.Keys
    ensures Sees(After(cfg, b, st), t, k)
  {
    KeysKept(cfg, b, st);
    if Actor(st) == Some(t) {
      ActorTask(cfg, b, st, t);
    }
  }

  /** Poller t has given nothing to subscribers to come, and will not in its round. */
  ghost predicate NoneBefore(b: System, t: Tid) {
    && (t in b.tasks && b.tasks[t].Notifying? ==> b.tasks[t].upTo <= b.subscribers)
    && forall k: nat :: b.subscribers <= k ==> DeliveredTo(b.core.trace, t, k) == []
  }

  lemma NoneBeforeKept(cfg: Settings, b: System, st: Step, t: Tid)
    requires Possible(cfg, b, st) && NoneBefore(b, t)
    ensures NoneBefore(After(cfg, b, st), t)
  {
    var es := StepEvents(cfg, b, st);
    if Actor(st) == Some(t) {
      ActorTask(cfg, b, st, t);
    }
    forall k: nat | After(cfg, b, st).subscribers <= k ensures DeliveredTo(After(cfg, b, st).core.trace, t, k) == [] {
      DeliverySnoc(b.core.trace, es, t, k);
      assert |es| == 1 ==> es[0] in es;
    }
  }
}
