/** What the wire operations of a run did to the controller's memory, and what each dispatcher call did. */
module Transactions {
  import opened Words
  import opened Snapshots
  import opened Modbus
  import opened Machine
  import opened Invariants

  // ----- The memory is a function of the history

  /** What an event does to the memory. */
  function Effect(e: Event, m: Memory): Memory {
    match e
    case Drifted(input) => m.(input := input)
    case Exchanged(_, req, leg, _, _, reply) => AfterAccess(m, AccessOf(req, leg), reply)
    case _ => m
  }

  function MemoryAt(m0: Memory, tr: seq<Event>): Memory {
    if tr == [] then m0 else Effect(tr[|tr| - 1], MemoryAt(m0, tr[..|tr| - 1]))
  }

  ghost predicate MemoryInv(m0: Memory, s: State) {
    s.link.memory == MemoryAt(m0, s.trace)
  }

  lemma MemorySnoc(m0: Memory, tr: seq<Event>, e: Event)
    ensures MemoryAt(m0, tr + [e]) == Effect(e, MemoryAt(m0, tr))
  {
    Snoc(tr, e);
  }

  lemma MemoryMoves(cfg: Config, s: State, a: Action)
    requires Enabled(cfg, s, a)
    ensures var m, m', es := s.link.memory, Next(cfg, s, a).link.memory, EventsOf(cfg, s, a);
            m' == if es == [] then m else Effect(es[0], m)
  {
  }

  lemma MemoryKept(m0: Memory, cfg: Config, s: State, a: Action)
    requires MemoryInv(m0, s) && Enabled(cfg, s, a)
    ensures MemoryInv(m0, Next(cfg, s, a))
  {
    var s', es := Next(cfg, s, a), EventsOf(cfg, s, a);
    assert s'.trace == s.trace + es by {
      TraceGrows(cfg, s, a);
    }
    MemoryMoves(cfg, s, a);
    if es == [] {
      assert s'.trace == s.trace;
    } else {
      MemorySnoc(m0, s.trace, es[0]);
    }
  }

  // ----- What one dispatcher call puts on the wire

  /** The wire operations of thread t since it last called the dispatcher. */
  function Trail(tr: seq<Event>, t: Tid): seq<Event> {
    if tr == [] then []
    else
      var e := tr[|tr| - 1];
      if e.Called? && e.t == t then []
      else if e.Exchanged? && e.t == t then Trail(tr[..|tr| - 1], t) + [e]
      else Trail(tr[..|tr| - 1], t)
  }

  /** When thread t last called the dispatcher. */
  function CalledAt(tr: seq<Event>, t: Tid): Time {
    if tr == [] then ZERO_TIME
    else if tr[|tr| - 1].Called? && tr[|tr| - 1].t == t then tr[|tr| - 1].at
    else CalledAt(tr[..|tr| - 1], t)
  }

  /** All wire operations of thread t. */
  function WireBy(tr: seq<Event>, t: Tid): seq<Event> {
    if tr == [] then []
    else
      var e := tr[|tr| - 1];
      WireBy(tr[..|tr| - 1], t) + if e.Exchanged? && e.t == t then [e] else []
  }

  /** The wire operations of thread t before its last call. */
  function Past(tr: seq<Event>, t: Tid): seq<Event> {
    if tr == [] then []
    else if tr[|tr| - 1].Called? && tr[|tr| - 1].t == t then WireBy(tr[..|tr| - 1], t)
    else Past(tr[..|tr| - 1], t)
  }

  lemma {:induction false} WireSplits(tr: seq<Event>, t: Tid)
    ensures WireBy(tr, t) == Past(tr, t) + Trail(tr, t)
  {
    if tr != [] {
      WireSplits(tr[..|tr| - 1], t);
    }
  }

  /** Reads are answered by data and writes by acknowledgements, unless they fail. */
  predicate KindFits(e: Event) {
    e.Exchanged? && !e.reply.Fault? ==> (e.reply.Data? <==> AccessOf(e.req, e.leg).ReadRegisters?)
  }

  /** At most one operation for each leg: the second only after the first read a value to update. */
  ghost predicate Performs(t: Tid, req: Request, trail: seq<Event>) {
    && |trail| <= 2
    && (forall i :: 0 <= i < |trail| ==>
          trail[i].Exchanged? && trail[i].t == t && trail[i].req == req && KindFits(trail[i]))
    && (|trail| >= 1 ==> trail[0].leg == First)
    && (|trail| == 2 ==> trail[1].leg.Second? && Judge(req, First, trail[0].reply) == Continue(trail[1].leg.value))
  }

  /** The call's result is what its last wire operation's reply means; without one it is one of three errors, and a
      modify whose second guard wait was cancelled stops after its read. */
  ghost predicate Yields(req: Request, trail: seq<Event>, res: Result) {
    if |trail| == 0 then IsEarly(req, res)
    else
      var last := trail[|trail| - 1];
      last.Exchanged? && (match Judge(req, last.leg, last.reply)
                          case Finished(r) => res == r
                          case Continue(_) => res == Err(GuardCancelled))
  }

  /** The errors of a call that put nothing on the wire: a bad count is refused as such, any other call because the
      client was not connected or because its guard wait was cancelled. */
  ghost predicate IsEarly(req: Request, res: Result) {
    if ValidCount(req) then res == Err(NotConnected) || res == Err(GuardCancelled) else res == Err(BadCount)
  }

  predicate HasResult(pc: Pc) {
    pc.Unlocking? || pc.Report? || pc.Signal? || pc.Done?
  }

  /** What a thread on the wire has in its trail. */
  ghost predicate SoFar(req: Request, leg: Leg, trail: seq<Event>) {
    if leg.First? then trail == []
    else |trail| == 1 && trail[0].Exchanged? && Judge(req, First, trail[0].reply) == Continue(leg.value)
  }

  /** A thread at pc that called at the given moment and has left trail on the wire since. */
  ghost predicate CallFits(t: Tid, pc: Pc, trail: seq<Event>, at: Time, now: Time) {
    && at <= now
    && (pc.OnWire? ==> at <= pc.start)
    && (forall i :: 0 <= i < |trail| ==> trail[i].Exchanged? && at <= trail[i].start && trail[i].end <= now)
    && (!pc.Idle? ==> Performs(t, pc.req, trail))
    && (!pc.Idle? && !HasResult(pc) ==> ValidCount(pc.req))
    && (pc.Want? || pc.Locked? ==> trail == [])
    && (UnderWay(pc) ==> SoFar(pc.req, pc.leg, trail))
    && (HasResult(pc) ==> Yields(pc.req, trail, pc.res))
  }

  ghost predicate TrailFits(s: State, t: Tid)
    requires t in s.threads
  {
    CallFits(t, s.threads[t], Trail(s.trace, t), CalledAt(s.trace, t), s.link.now)
  }

  ghost predicate TrailInv(s: State) {
    forall t :: t in s.threads ==> TrailFits(s, t)
  }

  lemma TrailSnoc(tr: seq<Event>, t: Tid, e: Event)
    ensures Trail(tr + [e], t)
            == if e.Called? && e.t == t then []
               else if e.Exchanged? && e.t == t then Trail(tr, t) + [e]
               else Trail(tr, t)
    ensures CalledAt(tr + [e], t) == if e.Called? && e.t == t then e.at else CalledAt(tr, t)
    ensures WireBy(tr + [e], t) == if e.Exchanged? && e.t == t then WireBy(tr, t) + [e] else WireBy(tr, t)
    ensures Past(tr + [e], t) == if e.Called? && e.t == t then WireBy(tr, t) else Past(tr, t)
  {
  }

  /** The thread an action moves, if any. */
  function Mover(a: Action): Option<Tid> {
    match a
    case Call(t, _) => Some(t)
    case Lock(t) => Some(t)
    case Check(t) => Some(t)
    case Sleep(t) => Some(t)
    case Go(t) => Some(t)
    case Cancel(t) => Some(t)
    case Answer(t, _, _) => Some(t)
    case Unlock(t) => Some(t)
    case Record(t) => Some(t)
    case Trigger(t) => Some(t)
    case Return(t) => Some(t)
    case _ => None
  }

  /** A step moves at most one thread, and only that thread's trail grows. */
  lemma OthersUnmoved(cfg: Config, s: State, a: Action, t: Tid)
    requires Enabled(cfg, s, a) && t in s.threads && Mover(a) != Some(t)
    ensures Next(cfg, s, a).threads[t] == s.threads[t]
    ensures Trail(Next(cfg, s, a).trace, t) == Trail(s.trace, t)
    ensures CalledAt(Next(cfg, s, a).trace, t) == CalledAt(s.trace, t)
    ensures s.link.now <= Next(cfg, s, a).link.now
  {
    TraceGrows(cfg, s, a);
    var es := EventsOf(cfg, s, a);
    if es == [] {
      assert Next(cfg, s, a).trace == s.trace;
    } else {
      TrailSnoc(s.trace, t, es[0]);
    }
  }

  lemma AnswerContinues(m: Memory, req: Request, leg: Leg, reply: Reply)
    requires MayReply(m, AccessOf(req, leg), reply) && Judge(req, leg, reply).Continue?
    ensures req.Modify? && leg.First?
    ensures req.update(m.holding[req.addr]) == Some(Judge(req, leg, reply).value)
    ensures AfterAccess(m, AccessOf(req, leg), reply) == m
  {
  }

  lemma TrailExtends(t: Tid, req: Request, leg: Leg, trail: seq<Event>, e: Event)
    requires Performs(t, req, trail) && SoFar(req, leg, trail)
    requires e.Exchanged? && e.t == t && e.req == req && e.leg == leg && KindFits(e)
    requires Judge(req, leg, e.reply).Continue? ==> leg.First?
    ensures Performs(t, req, trail + [e])
    ensures match Judge(req, leg, e.reply)
            case Finished(r) => Yields(req, trail + [e], r)
            case Continue(v) => SoFar(req, Second(v), trail + [e])
  {
  }

  /** A reply finishes the call or leads to its second leg. */
  lemma AnswerFits(s: State, t: Tid, reply: Reply, end: Time)
    requires t in s.threads && s.threads[t].OnWire? && end <= s.link.now && TrailFits(s, t)
    requires MayReply(s.link.memory, AccessOf(s.threads[t].req, s.threads[t].leg), reply)
    ensures TrailFits(Answered(s, t, reply, end), t)
  {
    var pc, trail := s.threads[t], Trail(s.trace, t);
    var e := Exchanged(t, pc.req, pc.leg, pc.start, end, reply);
    if Judge(pc.req, pc.leg, reply).Continue? {
      AnswerContinues(s.link.memory, pc.req, pc.leg, reply);
    }
    TrailExtends(t, pc.req, pc.leg, trail, e);
    AnsweredShape(s, t, reply, end);
    Answers(t, pc, trail, CalledAt(s.trace, t), s.link.now, e, Answered(s, t, reply, end).threads[t]);
  }

  lemma Answers(t: Tid, pc: Pc, trail: seq<Event>, at: Time, now: Time, e: Event, pc': Pc)
    requires CallFits(t, pc, trail, at, now) && pc.OnWire?
    requires e.Exchanged? && e.start == pc.start && e.end <= now
    requires Performs(t, pc.req, trail + [e])
    requires match Judge(pc.req, pc.leg, e.reply)
             case Finished(res) => pc' == Unlocking(pc.req, res) && Yields(pc.req, trail + [e], res)
             case Continue(v) => pc' == Gate(pc.req, Second(v)) && SoFar(pc.req, Second(v), trail + [e])
    ensures CallFits(t, pc', trail + [e], at, now)
  {
  }

  lemma AnsweredShape(s: State, t: Tid, reply: Reply, end: Time)
    requires t in s.threads && s.threads[t].OnWire?
    ensures var pc := s.threads[t];
            var s' := Answered(s, t, reply, end);
            && Trail(s'.trace, t) == Trail(s.trace, t) + [Exchanged(t, pc.req, pc.leg, pc.start, end, reply)]
            && CalledAt(s'.trace, t) == CalledAt(s.trace, t)
            && s'.link.now == s.link.now
            && t in s'.threads
            && s'.threads[t] == match Judge(pc.req, pc.leg, reply)
                                case Finished(res) => Unlocking(pc.req, res)
                                case Continue(v) => Gate(pc.req, Second(v))
  {
    TrailSnoc(s.trace, t, Exchanged(t, s.threads[t].req, s.threads[t].leg, s.threads[t].start, end, reply));
  }

  /** How a thread gets on within a call, other than by a reply. */
  ghost predicate Proceeds(pc: Pc, pc': Pc, now: Time) {
    || pc'.Idle?
    || (&& !pc.Idle? && pc'.req == pc.req
        && (pc'.Want? || pc'.Locked? ==> pc.Want? || pc.Locked?)
        && (UnderWay(pc') ==> if UnderWay(pc) then pc'.leg == pc.leg else pc.Locked? && pc'.leg.First?)
        && (pc'.OnWire? ==> pc'.start == now)
        && (HasResult(pc) ==> pc'.Idle? || HasResult(pc'))
        && (HasResult(pc') ==>
              || (HasResult(pc) && pc'.res == pc.res)
              || (pc.Locked? && pc'.res == Err(NotConnected))
              || (UnderWay(pc) && pc'.res == Err(GuardCancelled))))
  }

  lemma MoverProceeds(cfg: Config, s: State, a: Action, t: Tid)
    requires Enabled(cfg, s, a) && Mover(a) == Some(t) && !a.Answer?
    ensures t in s.threads && t in Next(cfg, s, a).threads
    ensures var pc, pc' := s.threads[t], Next(cfg, s, a).threads[t];
            if a.Call? then pc' == if ValidCount(a.req) then Want(a.req) else Report(a.req, Err(BadCount))
            else Proceeds(pc, pc', s.link.now)
    ensures Next(cfg, s, a).link.now == s.link.now
  {
  }

  lemma MoverLeaves(cfg: Config, s: State, a: Action, t: Tid)
    requires Enabled(cfg, s, a) && Mover(a) == Some(t) && !a.Answer?
    ensures var s', es := Next(cfg, s, a), EventsOf(cfg, s, a);
            && (a.Call? ==> es == [Called(t, a.req, s.link.now)])
            && (!a.Call? ==> forall e :: e in es ==> !e.Called? && !e.Exchanged?)
  {
  }

  lemma MoverTrail(cfg: Config, s: State, a: Action, t: Tid)
    requires Enabled(cfg, s, a) && Mover(a) == Some(t) && !a.Answer?
    ensures var tr, tr' := s.trace, Next(cfg, s, a).trace;
            if a.Call? then Trail(tr', t) == [] && CalledAt(tr', t) == s.link.now
            else Trail(tr', t) == Trail(tr, t) && CalledAt(tr', t) == CalledAt(tr, t)
  {
    var s', es := Next(cfg, s, a), EventsOf(cfg, s, a);
    assert s'.trace == s.trace + es by {
      TraceGrows(cfg, s, a);
    }
    MoverLeaves(cfg, s, a, t);
    if es == [] {
      assert s'.trace == s.trace;
    } else {
      assert es[0] in es;
      TrailSnoc(s.trace, t, es[0]);
    }
  }

  lemma ProceedsFits(t: Tid, pc: Pc, pc': Pc, trail: seq<Event>, at: Time, now: Time)
    requires CallFits(t, pc, trail, at, now) && Proceeds(pc, pc', now)
    ensures CallFits(t, pc', trail, at, now)
  {
  }

  lemma MoverFits(cfg: Config, s: State, a: Action, t: Tid)
    requires Enabled(cfg, s, a) && t in s.threads && Mover(a) == Some(t) && TrailFits(s, t) && !a.Answer?
    ensures TrailFits(Next(cfg, s, a), t)
  {
    MoverProceeds(cfg, s, a, t);
    MoverTrail(cfg, s, a, t);
    if !a.Call? {
      ProceedsFits(t, s.threads[t], Next(cfg, s, a).threads[t], Trail(s.trace, t), CalledAt(s.trace, t), s.link.now);
    }
  }

  lemma {:induction false} TrailKept(cfg: Config, s: State, a: Action)
    requires TrailInv(s) && Enabled(cfg, s, a)
    ensures TrailInv(Next(cfg, s, a))
  {
    var s' := Next(cfg, s, a);
    TraceGrows(cfg, s, a);
    forall t | t in s'.threads ensures TrailFits(s', t) {
      assert TrailFits(s, t);
      if Mover(a) == Some(t) {
        if a.Answer? {
          AnswerFits(s, t, a.reply, a.end);
        } else {
          MoverFits(cfg, s, a, t);
        }
      } else {
        OthersUnmoved(cfg, s, a, t);
      }
    }
  }

  // ----- No lost update

  /** tr[i] is the latest wire operation. */
  predicate LatestExchange(tr: seq<Event>, i: nat) {
    i < |tr| && tr[i].Exchanged? && forall k :: i < k < |tr| ==> !tr[k].Exchanged?
  }

  /** tr[j] writes back what tr[i] read: same thread and request, nothing else on the wire in between. */
  ghost predicate PairedWith(tr: seq<Event>, i: nat, j: nat) {
    && i < j < |tr| && LatestExchange(tr[..j], i) && tr[j].Exchanged?
    && tr[i].t == tr[j].t && tr[i].req == tr[j].req && tr[i].leg == First
  }

  /** The write half of every modify follows its own read half immediately, and writes the update of the
      value the register holds at that moment. */
  ghost predicate NoLostUpdate(m0: Memory, tr: seq<Event>) {
    forall j: nat :: j < |tr| && tr[j].Exchanged? && tr[j].leg.Second? ==>
      && tr[j].req.Modify?
      && (exists i: nat :: PairedWith(tr, i, j))
      && tr[j].req.update(MemoryAt(m0, tr[..j]).holding[tr[j].req.addr]) == Some(tr[j].leg.value)
  }

  /** A thread between the halves of its modify. */
  ghost predicate HalfWay(s: State, t: Tid)
    requires t in s.threads
  {
    var pc := s.threads[t];
    UnderWay(pc) && pc.leg.Second? ==>
      && pc.req.Modify?
      && pc.req.update(s.link.memory.holding[pc.req.addr]) == Some(pc.leg.value)
      && exists i: nat :: LatestExchange(s.trace, i) && s.trace[i].t == t && s.trace[i].req == pc.req
                          && s.trace[i].leg == First
  }

  ghost predicate UpdateInv(m0: Memory, s: State) {
    && NoLostUpdate(m0, s.trace)
    && forall t :: t in s.threads ==> HalfWay(s, t)
  }

  lemma LatestSnoc(tr: seq<Event>, e: Event, i: nat)
    ensures LatestExchange(tr + [e], i) <==> if e.Exchanged? then i == |tr| else LatestExchange(tr, i)
  {
    var tr' := tr + [e];
    assert tr'[|tr|] == e && forall k :: 0 <= k < |tr| ==> tr'[k] == tr[k];
  }

  lemma UpdateSnoc(m0: Memory, tr: seq<Event>, e: Event)
    requires NoLostUpdate(m0, tr)
    requires e.Exchanged? && e.leg.Second? ==>
               && e.req.Modify?
               && e.req.update(MemoryAt(m0, tr).holding[e.req.addr]) == Some(e.leg.value)
               && exists i: nat :: LatestExchange(tr, i) && tr[i].t == e.t && tr[i].req == e.req && tr[i].leg == First
    ensures NoLostUpdate(m0, tr + [e])
  {
    var tr' := tr + [e];
    forall j: nat | j < |tr'| && tr'[j].Exchanged? && tr'[j].leg.Second?
      ensures tr'[j].req.Modify?
      ensures exists i: nat :: PairedWith(tr', i, j)
      ensures tr'[j].req.update(MemoryAt(m0, tr'[..j]).holding[tr'[j].req.addr]) == Some(tr'[j].leg.value)
    {
      assert tr'[..j] == tr[..j];
      if j < |tr| {
        var i: nat :| PairedWith(tr, i, j);
        assert PairedWith(tr', i, j);
      } else {
        assert tr[..j] == tr;
        var i: nat :| LatestExchange(tr, i) && tr[i].t == e.t && tr[i].req == e.req && tr[i].leg == First;
        assert PairedWith(tr', i, j);
      }
    }
  }

  lemma UpdateKept(m0: Memory, cfg: Config, s: State, a: Action)
    requires MutexInv(s) && MemoryInv(m0, s) && UpdateInv(m0, s) && Enabled(cfg, s, a)
    ensures UpdateInv(m0, Next(cfg, s, a))
  {
    TraceGrows(cfg, s, a);
    var s', es := Next(cfg, s, a), EventsOf(cfg, s, a);
    if es == [] {
      assert s'.trace == s.trace;
    } else {
      assert a.Answer? ==> HalfWay(s, a.t);
      UpdateSnoc(m0, s.trace, es[0]);
    }
    forall t | t in s'.threads ensures HalfWay(s', t) {
      assert HalfWay(s, t);
      HalfWayKept(cfg, s, a, t);
    }
  }

  lemma HalfWayKept(cfg: Config, s: State, a: Action, t: Tid)
    requires MutexInv(s) && Enabled(cfg, s, a) && t in s.threads && HalfWay(s, t)
    ensures HalfWay(Next(cfg, s, a), t)
  {
    TraceGrows(cfg, s, a);
    var s', es := Next(cfg, s, a), EventsOf(cfg, s, a);
    var pc' := s'.threads[t];
    if UnderWay(pc') && pc'.leg.Second? {
      if a.Answer? {
        assert a.t == t;
        AnswerContinues(s.link.memory, s.threads[t].req, s.threads[t].leg, a.reply);
        LatestSnoc(s.trace, es[0], |s.trace|);
        assert s'.trace[|s.trace|] == es[0];
      } else {
        assert UnderWay(s.threads[t]) && s.threads[t].leg == pc'.leg && s.threads[t].req == pc'.req;
        var i: nat :| LatestExchange(s.trace, i) && s.trace[i].t == t && s.trace[i].req == pc'.req
                      && s.trace[i].leg == First;
        if es != [] {
          LatestSnoc(s.trace, es[0], i);
        }
        assert LatestExchange(s'.trace, i) && s'.trace[i] == s.trace[i];
      }
    }
  }

  // ----- A register is the composition of the updates that reached it

  /** The register's value replayed as updates in wire order: a write sets it, a modify maps it. */
  function Composed(tr: seq<Event>, addr: Addr, initial: Word): Word {
    if tr == [] then initial
    else
      var before := Composed(tr[..|tr| - 1], addr, initial);
      match tr[|tr| - 1]
      case Exchanged(_, Write(a, v), _, _, _, reply) => if a == addr && Applied(reply) then v else before
      case Exchanged(_, Modify(a, update), Second(_), _, _, reply) =>
        if a == addr && Applied(reply) then update(before).GetOr(before) else before
      case _ => before
  }

  lemma {:induction false} RegisterIsComposed(m0: Memory, tr: seq<Event>, addr: Addr)
    requires NoLostUpdate(m0, tr)
    ensures MemoryAt(m0, tr).holding[addr] == Composed(tr, addr, m0.holding[addr])
  {
    if tr != [] {
      var before, e := tr[..|tr| - 1], tr[|tr| - 1];
      assert NoLostUpdate(m0, before) by {
        PrefixNoLostUpdate(m0, tr, |tr| - 1);
      }
      RegisterIsComposed(m0, before, addr);
    }
  }

  lemma PrefixNoLostUpdate(m0: Memory, tr: seq<Event>, n: nat)
    requires n <= |tr| && NoLostUpdate(m0, tr)
    ensures NoLostUpdate(m0, tr[..n])
  {
    var p := tr[..n];
    forall j: nat | j < |p| && p[j].Exchanged? && p[j].leg.Second?
      ensures p[j].req.Modify?
      ensures exists i: nat :: PairedWith(p, i, j)
      ensures p[j].req.update(MemoryAt(m0, p[..j]).holding[p[j].req.addr]) == Some(p[j].leg.value)
    {
      assert p[..j] == tr[..j];
      var i: nat :| PairedWith(tr, i, j);
      assert PairedWith(p, i, j);
    }
  }
}
