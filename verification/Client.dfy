/** The Modbus client as the object it is: fields updated under its mutex, in order, with early returns
    (infrastructure/modbus/client.go). Each method's contract says that it is a run of the machine's own steps, so
    what is proved of every run of the machine holds of these methods, run alone or interleaved. */
module Client {
  import opened Words
  import opened Snapshots
  import opened Modbus
  import opened Machine
  import opened Invariants
  import opened Transactions
  import Safety

  // ----- Runs of the machine, step by step

  datatype Run = Run(start: State, acts: seq<Action>, cur: State)

  ghost predicate IsRun(cfg: Config, r: Run) {
    cfg.Valid() && Init(r.start) && Runs(cfg, r.start, r.acts) && r.cur == Exec(cfg, r.start, r.acts)
  }

  /** The dispatcher requests thread t has made, in order. */
  function CallsBy(tr: seq<Event>, t: Tid): seq<Request> {
    if tr == [] then []
    else
      var before, e := CallsBy(tr[..|tr| - 1], t), tr[|tr| - 1];
      if e.Called? && e.t == t then before + [e.req] else before
  }

  /** The outcomes the dispatcher recorded for thread t, in order; true is success. */
  function OutcomesBy(tr: seq<Event>, t: Tid): seq<bool> {
    if tr == [] then []
    else
      var before, e := OutcomesBy(tr[..|tr| - 1], t), tr[|tr| - 1];
      if e.Recorded? && e.t == t then before + [e.ok] else before
  }

  /** Thread t's dealings with the dispatcher: what it asked and how it went, its wire operations before the last
      call, and when that call was. */
  datatype Ledger = Ledger(calls: seq<Request>, outcomes: seq<bool>, past: seq<Event>, at: Time)

  function LedgerOf(tr: seq<Event>, t: Tid): Ledger {
    Ledger(CallsBy(tr, t), OutcomesBy(tr, t), Past(tr, t), CalledAt(tr, t))
  }

  function LedgerWith(l: Ledger, t: Tid, e: Event, wire: seq<Event>): Ledger {
    if e.Called? && e.t == t then l.(calls := l.calls + [e.req], past := wire, at := e.at)
    else if e.Recorded? && e.t == t then l.(outcomes := l.outcomes + [e.ok])
    else l
  }

  lemma LedgerSnoc(tr: seq<Event>, t: Tid, e: Event)
    ensures LedgerOf(tr + [e], t) == LedgerWith(LedgerOf(tr, t), t, e, WireBy(tr, t))
  {
    Snoc(tr, e);
  }

  /** A step's mark in the ledger of a thread. */
  lemma LedgerMoves(cfg: Config, s: State, a: Action, t: Tid)
    requires Enabled(cfg, s, a)
    ensures LedgerOf(Next(cfg, s, a).trace, t)
            == var l := LedgerOf(s.trace, t);
               if a.Call? && a.t == t then
                 l.(calls := l.calls + [a.req], past := WireBy(s.trace, t), at := s.link.now)
               else if a.Record? && a.t == t then l.(outcomes := l.outcomes + [s.threads[t].res.Ok?])
               else l
  {
    var s', es := Next(cfg, s, a), EventsOf(cfg, s, a);
    assert s'.trace == s.trace + es by {
      TraceGrows(cfg, s, a);
    }
    if es == [] {
      assert s'.trace == s.trace;
    } else {
      LedgerSnoc(s.trace, t, es[0]);
    }
  }

  lemma Do(cfg: Config, r: Run, a: Action) returns (r': Run)
    requires IsRun(cfg, r) && Enabled(cfg, r.cur, a)
    ensures IsRun(cfg, r') && r'.start == r.start && r'.cur == Next(cfg, r.cur, a) && r.acts <= r'.acts
    ensures forall t :: LedgerOf(r'.cur.trace, t)
                        == var l := LedgerOf(r.cur.trace, t);
                           if a.Call? && a.t == t then
                             l.(calls := l.calls + [a.req], past := WireBy(r.cur.trace, t), at := r.cur.link.now)
                           else if a.Record? && a.t == t then
                             l.(outcomes := l.outcomes + [r.cur.threads[t].res.Ok?])
                           else l
  {
    forall t {
      LedgerMoves(cfg, r.cur, a, t);
    }
    Snoc(r.acts, a);
    r' := Run(r.start, r.acts + [a], Next(cfg, r.cur, a));
  }

  /** What a call that returned res left on the wire. */
  ghost predicate CallLeft(t: Tid, req: Request, res: Result, r: Run) {
    var trail := Trail(r.cur.trace, t);
    && Performs(t, req, trail) && Yields(req, trail, res)
    && forall i :: 0 <= i < |trail| ==>
         CalledAt(r.cur.trace, t) <= trail[i].start && trail[i].end <= r.cur.link.now
  }

  /** The machine's invariants say it of every call that comes to its end. */
  lemma CallConcludes(cfg: Config, r: Run, t: Tid)
    requires IsRun(cfg, r) && t in r.cur.threads && HasResult(r.cur.threads[t])
    ensures CallLeft(t, r.cur.threads[t].req, r.cur.threads[t].res, r)
  {
    Safety.InvAlways(cfg, r.start, r.acts);
    assert TrailFits(r.cur, t);
  }

  /** r' goes on from r; of the machine's parts outside the link only thread t and the mutex moved. */
  ghost predicate Moves(cfg: Config, r: Run, r': Run, t: Tid) {
    && IsRun(cfg, r') && r'.start == r.start
    && t in r.cur.threads && t in r'.cur.threads
    && r'.cur.threads == r.cur.threads[t := r'.cur.threads[t]]
    && r'.cur.errs == r.cur.errs && r'.cur.token == r.cur.token && r'.cur.sup == r.cur.sup
    && r.cur.link.now <= r'.cur.link.now
    && r.acts <= r'.acts
    && LedgerOf(r'.cur.trace, t) == LedgerOf(r.cur.trace, t)
  }

  /** A step of thread t's inside its call. */
  lemma Act(cfg: Config, r: Run, t: Tid, a: Action) returns (r': Run)
    requires IsRun(cfg, r) && t in r.cur.threads && Enabled(cfg, r.cur, a) && Mover(a) == Some(t)
    requires !a.Call? && !a.Record? && !a.Trigger?
    ensures Moves(cfg, r, r', t) && r'.cur == Next(cfg, r.cur, a)
  {
    r' := Do(cfg, r, a);
  }

  lemma MovesOn(cfg: Config, r: Run, r1: Run, r2: Run, t: Tid)
    requires Moves(cfg, r, r1, t) && Moves(cfg, r1, r2, t)
    ensures Moves(cfg, r, r2, t)
  {
  }

  // ----- The world outside the client

  /** The controller, the network, the clock and the callers' contexts. */
  class World {
    var now: Time
    var memory: Memory
    var dials: seq<bool>   // how the dials so far went
    var cuts: nat          // how many waits a context has cut short

    constructor (now: Time, memory: Memory)
      ensures this.now == now && this.memory == memory && dials == [] && cuts == 0
    {
      this.now := now;
      this.memory := memory;
      dials := [];
      cuts := 0;
    }

    /** Time passes, at least until the given moment; the controller may change its input registers. */
    method Elapse(until: Time)
      modifies this`now, this`memory
      ensures old(now) <= now && until <= now
      ensures memory.holding == old(memory.holding)
    {
      var later: int := *;
      var input: Bank := *;
      now := (if until > now then until else now) + (if later > 0 then later else 0);
      memory := memory.(input := input);
    }

    /** A timer and a context: false when the context is done first. */
    method Sleep(until: Time) returns (elapsed: bool)
      modifies this`now, this`memory, this`cuts
      ensures old(now) <= now && (elapsed ==> until <= now)
      ensures memory.holding == old(memory.holding)
      ensures cuts == old(cuts) + if elapsed then 0 else 1
    {
      elapsed := *;
      Elapse(if elapsed then until else now);
      cuts := cuts + if elapsed then 0 else 1;
    }

    /** One request and its reply. */
    method Exchange(access: Access) returns (reply: Reply, end: Time)
      modifies this`now, this`memory
      ensures old(now) <= end <= now
      ensures var m := old(memory).(input := memory.input);
              MayReply(m, access, reply) && memory == AfterAccess(m, access, reply)
    {
      Elapse(now);
      end := now;
      reply := *;
      if !MayReply(memory, access, reply) {
        reply := Fault(RawError(true, false, false, None), false);
      }
      memory := AfterAccess(memory, access, reply);
      var later: int := *;
      now := now + if later > 0 then later else 0;
    }

    /** handler.Connect. */
    method Dial() returns (ok: bool)
      modifies this`now, this`memory, this`dials
      ensures old(now) <= now && memory.holding == old(memory.holding)
      ensures dials == old(dials) + [ok]
    {
      ok := *;
      Elapse(now);
      dials := dials + [ok];
    }
  }

  /** The machine's clock and inputs catch up with the world. */
  lemma CatchUp(cfg: Config, r: Run, t: Tid, now: Time, input: Bank) returns (r': Run)
    requires IsRun(cfg, r) && t in r.cur.threads && r.cur.link.now <= now
    ensures Moves(cfg, r, r', t) && r'.cur.threads == r.cur.threads && r'.cur.owner == r.cur.owner
    ensures r'.cur.link == r.cur.link.(now := now, memory := r.cur.link.memory.(input := input))
    ensures WireBy(r'.cur.trace, t) == WireBy(r.cur.trace, t)
  {
    TrailSnoc(r.cur.trace, t, Drifted(input));
    r' := Do(cfg, r, Tick(now));
    r' := Do(cfg, r', Drift(input));
  }

  /** A guard wait, ended by the timer or by the context. */
  lemma Waits(cfg: Config, t: Tid, r: Run, now: Time, input: Bank, ok: bool) returns (r': Run)
    requires IsRun(cfg, r) && t in r.cur.threads && Enabled(cfg, r.cur, Machine.Action.Sleep(t))
    requires r.cur.link.now <= now
    ensures Moves(cfg, r, r', t) && r'.cur.owner == r.cur.owner
    ensures r'.cur.link == r.cur.link.(now := now, memory := r.cur.link.memory.(input := input))
    ensures var pc := r.cur.threads[t];
            r'.cur.threads[t] == if ok then Asleep(pc.req, pc.leg, r.cur.link.lastOpAt + cfg.guard)
                                 else Unlocking(pc.req, Err(GuardCancelled))
  {
    var r1 := Act(cfg, r, t, Machine.Action.Sleep(t));
    r' := CatchUp(cfg, r1, t, now, input);
    MovesOn(cfg, r, r1, r', t);
    if !ok {
      var r2 := r';
      r' := Act(cfg, r2, t, Cancel(t));
      MovesOn(cfg, r, r2, r', t);
    }
  }

  /** A wire operation: it starts, the world moves on, the reply comes. */
  lemma Exchanges(cfg: Config, t: Tid, r: Run, now: Time, input: Bank, reply: Reply, end: Time) returns (r': Run)
    requires IsRun(cfg, r) && t in r.cur.threads && Enabled(cfg, r.cur, Go(t)) && r.cur.link.now <= end <= now
    requires MayReply(r.cur.link.memory.(input := input), AccessOf(r.cur.threads[t].req, r.cur.threads[t].leg), reply)
    ensures Moves(cfg, r, r', t) && r'.cur.owner == r.cur.owner
    ensures r'.cur.threads[t] == match Judge(r.cur.threads[t].req, r.cur.threads[t].leg, reply)
                                 case Finished(res) => Unlocking(r.cur.threads[t].req, res)
                                 case Continue(v) => Gate(r.cur.threads[t].req, Second(v))
    ensures r'.cur.link == Link(now, r.cur.link.connected && !DropsConnection(reply), now,
                                AfterAccess(r.cur.link.memory.(input := input),
                                            AccessOf(r.cur.threads[t].req, r.cur.threads[t].leg), reply))
  {
    var r1 := Act(cfg, r, t, Go(t));
    var r2 := CatchUp(cfg, r1, t, now, input);
    r' := Act(cfg, r2, t, Answer(t, reply, end));
    MovesOn(cfg, r, r1, r2, t);
    MovesOn(cfg, r, r2, r', t);
  }

  /** Takes the free mutex and looks at the connected flag. */
  lemma Enter(cfg: Config, t: Tid, r: Run) returns (r': Run)
    requires IsRun(cfg, r) && t in r.cur.threads && r.cur.threads[t].Want? && r.cur.owner == Nobody
    ensures Moves(cfg, r, r', t) && r'.cur.link == r.cur.link && r'.cur.owner == ByThread(t)
    ensures r'.cur.threads[t] == var req := r.cur.threads[t].req;
                                 if r.cur.link.connected then Gate(req, First) else Unlocking(req, Err(NotConnected))
  {
    r' := Do(cfg, r, Lock(t));
    r' := Do(cfg, r', Check(t));
  }

  /** An idle thread calls the dispatcher. */
  lemma Place(cfg: Config, t: Tid, req: Request, r: Run) returns (r': Run)
    requires IsRun(cfg, r) && t in r.cur.threads && r.cur.threads[t].Idle?
    ensures IsRun(cfg, r') && r'.start == r.start && r'.cur.link == r.cur.link && r'.cur.owner == r.cur.owner
    ensures r'.cur.threads
            == r.cur.threads[t := if ValidCount(req) then Want(req) else Report(req, Err(BadCount))]
    ensures r'.cur.errs == r.cur.errs && r'.cur.token == r.cur.token && r'.cur.sup == r.cur.sup
    ensures r.acts <= r'.acts
    ensures LedgerOf(r'.cur.trace, t)
            == LedgerOf(r.cur.trace, t).(calls := CallsBy(r.cur.trace, t) + [req], past := WireBy(r.cur.trace, t),
                                         at := r.cur.link.now)
  {
    r' := Do(cfg, r, Call(t, req));
  }

  /** The call is over. */
  lemma Back(cfg: Config, t: Tid, r: Run) returns (r': Run)
    requires IsRun(cfg, r) && t in r.cur.threads && r.cur.threads[t].Done?
    ensures Moves(cfg, r, r', t) && r'.cur.link == r.cur.link && r'.cur.owner == r.cur.owner
    ensures r'.cur.threads[t] == Idle && r'.cur.trace == r.cur.trace
  {
    r' := Do(cfg, r, Return(t));
  }

  /** The outcome is recorded, and the supervisor signalled if it has to be. */
  lemma Count(cfg: Config, t: Tid, r: Run) returns (r': Run)
    requires IsRun(cfg, r) && t in r.cur.threads && r.cur.threads[t].Report?
    ensures IsRun(cfg, r') && r'.start == r.start && r.acts <= r'.acts
    ensures r'.cur.threads == r.cur.threads[t := Done(r.cur.threads[t].req, r.cur.threads[t].res)]
    ensures r'.cur.sup == r.cur.sup && r'.cur.link == r.cur.link && r'.cur.owner == r.cur.owner
    ensures r'.cur.errs == if r.cur.threads[t].res.Ok? then 0 else r.cur.errs + 1
    ensures r'.cur.token == (r.cur.token || (r.cur.threads[t].res.Err? && r'.cur.errs >= cfg.threshold))
    ensures LedgerOf(r'.cur.trace, t)
            == LedgerOf(r.cur.trace, t).(outcomes := OutcomesBy(r.cur.trace, t) + [r.cur.threads[t].res.Ok?])
  {
    r' := Do(cfg, r, Record(t));
    if r'.cur.threads[t].Signal? {
      r' := Do(cfg, r', Trigger(t));
    }
  }

  /** The outcome is counted, and the call returns. */
  lemma Settle(cfg: Config, t: Tid, r: Run) returns (r': Run)
    requires IsRun(cfg, r) && t in r.cur.threads && r.cur.threads[t].Report?
    ensures IsRun(cfg, r') && r'.start == r.start && r.acts <= r'.acts
    ensures r'.cur.threads == r.cur.threads[t := Idle] && r'.cur.sup == r.cur.sup
    ensures r'.cur.link == r.cur.link && r'.cur.owner == r.cur.owner
    ensures r'.cur.errs == if r.cur.threads[t].res.Ok? then 0 else r.cur.errs + 1
    ensures r'.cur.token == (r.cur.token || (r.cur.threads[t].res.Err? && r'.cur.errs >= cfg.threshold))
    ensures LedgerOf(r'.cur.trace, t)
            == LedgerOf(r.cur.trace, t).(outcomes := OutcomesBy(r.cur.trace, t) + [r.cur.threads[t].res.Ok?])
    ensures CallLeft(t, r.cur.threads[t].req, r.cur.threads[t].res, r')
  {
    r' := Count(cfg, t, r);
    CallConcludes(cfg, r', t);
    r' := Back(cfg, t, r');
  }

  /** Gives the mutex back. */
  lemma Leave(cfg: Config, t: Tid, r: Run) returns (r': Run)
    requires IsRun(cfg, r) && t in r.cur.threads && r.cur.threads[t].Unlocking?
    ensures Moves(cfg, r, r', t) && r'.cur.link == r.cur.link && r'.cur.owner == Nobody
    ensures r'.cur.threads[t] == Report(r.cur.threads[t].req, r.cur.threads[t].res)
  {
    r' := Do(cfg, r, Unlock(t));
  }

  class Client {
    const guard: int
    const world: World
    var connected: bool
    var lastOpAt: Time

    constructor (guard: int, world: World)
      ensures this.guard == guard && this.world == world && !connected && lastOpAt == ZERO_TIME
    {
      this.guard := guard;
      this.world := world;
      connected := false;
      lastOpAt := ZERO_TIME;
    }

    ghost function View(): Link
      reads this, world
    {
      Link(world.now, connected, lastOpAt, world.memory)
    }

    /** The machine is where the client is. */
    ghost predicate Agrees(cfg: Config, r: Run)
      reads this, world
    {
      cfg.guard == guard && IsRun(cfg, r) && r.cur.link == View()
    }

    /** Blocks until the guard interval has passed since the last operation, or the context is done. A cancelled
        wait puts nothing on the wire and leaves lastOpAt alone. */
    method WaitGuardInterval(ghost cfg: Config, ghost t: Tid, ghost r: Run) returns (ok: bool, ghost r': Run)
      requires Agrees(cfg, r) && t in r.cur.threads && r.cur.threads[t].Gate?
      modifies world`now, world`memory, world`cuts
      ensures Agrees(cfg, r') && Moves(cfg, r, r', t) && r'.cur.owner == r.cur.owner
      ensures world.memory.holding == old(world.memory.holding)
      ensures ok ==>
                && (r'.cur.threads[t].Gate? || r'.cur.threads[t].Asleep?)
                && r'.cur.threads[t].req == r.cur.threads[t].req && r'.cur.threads[t].leg == r.cur.threads[t].leg
                && Enabled(cfg, r'.cur, Go(t))
      ensures !ok ==> r'.cur.threads[t] == Unlocking(r.cur.threads[t].req, Err(GuardCancelled))
      ensures world.cuts == old(world.cuts) + if ok then 0 else 1
    {
      r' := r;
      if lastOpAt == ZERO_TIME || guard <= 0 {
        return true, r';
      }
      var elapsed := world.now - lastOpAt;
      if elapsed >= guard {
        return true, r';
      }
      var remaining := guard - elapsed;
      ok := world.Sleep(world.now + remaining);
      r' := Waits(cfg, t, r, world.now, world.memory.input, ok);
    }

    /** One operation on the wire, with the clock stamped and a transport error dropping the connection. */
    method Perform(req: Request, leg: Leg, ghost cfg: Config, ghost t: Tid, ghost r: Run)
        returns (reply: Reply, ghost r': Run)
      requires Agrees(cfg, r) && t in r.cur.threads && Enabled(cfg, r.cur, Go(t))
      requires r.cur.threads[t].req == req && r.cur.threads[t].leg == leg
      modifies this`connected, this`lastOpAt, world`now, world`memory
      ensures Agrees(cfg, r') && Moves(cfg, r, r', t) && r'.cur.owner == r.cur.owner
      ensures r'.cur.threads[t] == match Judge(req, leg, reply)
                                   case Finished(res) => Unlocking(req, res)
                                   case Continue(v) => Gate(req, Second(v))
      ensures MayReply(old(world.memory).(input := world.memory.input), AccessOf(req, leg), reply)
      ensures world.memory == AfterAccess(old(world.memory).(input := world.memory.input), AccessOf(req, leg), reply)
      ensures connected == (old(connected) && !(reply.Fault? && IsNetworkFault(reply.raw)))
      ensures lastOpAt == world.now
    {
      var end;
      reply, end := world.Exchange(AccessOf(req, leg));
      r' := Exchanges(cfg, t, r, world.now, world.memory.input, reply, end);
      lastOpAt := world.now;
      if DropsConnection(reply) {
        connected := false;
      }
    }

    /** Waits the guard interval, then performs one leg. */
    method Operate(req: Request, leg: Leg, ghost cfg: Config, ghost t: Tid, ghost r: Run)
        returns (out: Outcome, ghost r': Run)
      requires Agrees(cfg, r) && t in r.cur.threads && r.cur.threads[t] == Gate(req, leg)
      modifies this`connected, this`lastOpAt, world`now, world`memory, world`cuts
      ensures Excused(old(world.cuts), world.cuts, out)
      ensures out != Finished(Err(NotConnected))
      ensures Agrees(cfg, r') && Moves(cfg, r, r', t) && r'.cur.owner == r.cur.owner
      ensures r'.cur.threads[t] == match out
                                   case Finished(res) => Unlocking(req, res)
                                   case Continue(v) => Gate(req, Second(v))
      ensures LegEffect(AccessOf(req, leg), old(world.memory.holding), world.memory.holding, out)
      ensures out.Continue? ==>
                req.Modify? && leg.First? && req.update(old(world.memory.holding)[req.addr]) == Some(out.value)
      ensures out.Finished? && out.result.Ok? ==> !req.Modify? || leg.Second?
      ensures out.Finished? ==> TrueRead(AccessOf(req, leg), world.memory, out.result)
    {
      var ok;
      ok, r' := WaitGuardInterval(cfg, t, r);
      if !ok {
        return Finished(Err(GuardCancelled)), r';
      }
      var reply;
      ghost var before := world.memory;
      reply, r' := Perform(req, leg, cfg, t, r');
      out := Judge(req, leg, reply);
      LegResult(before.(input := world.memory.input), req, leg, reply);
    }

    /** The template of the single-step operations. The caller is at Lock; nobody holds the mutex. */
    method DoOp(req: Request, ghost cfg: Config, ghost t: Tid, ghost r: Run) returns (res: Result, ghost r': Run)
      requires Agrees(cfg, r) && t in r.cur.threads && r.cur.threads[t] == Want(req) && r.cur.owner == Nobody
      requires !req.Modify?
      modifies this`connected, this`lastOpAt, world`now, world`memory, world`cuts
      ensures Excused(old(world.cuts), world.cuts, Finished(res))
      ensures Agrees(cfg, r') && Moves(cfg, r, r', t) && r'.cur.owner == Nobody
      ensures r'.cur.threads[t] == Report(req, res)
      ensures !old(connected) <==> res == Err(NotConnected)
      ensures !old(connected) ==> world.memory == old(world.memory)
      ensures LegEffect(AccessOf(req, First), old(world.memory.holding), world.memory.holding, Finished(res))
      ensures TrueRead(AccessOf(req, First), world.memory, res)
    {
      r' := Enter(cfg, t, r);
      if !connected {
        res := Err(NotConnected);
      } else {
        var out;
        out, r' := Operate(req, First, cfg, t, r');
        res := out.result;
      }
      r' := Leave(cfg, t, r');
    }

    /** Reads registers. The reply's length is the caller's to check: the client only refuses odd byte counts. */
    method Read(bank: BankName, start: Addr, count: Addr, ghost cfg: Config, ghost t: Tid, ghost r: Run)
        returns (res: Result, ghost r': Run)
      requires Agrees(cfg, r) && t in r.cur.threads && r.cur.owner == Nobody
      requires var req := Request.Read(bank, start, count);
               r.cur.threads[t] == if ValidCount(req) then Want(req) else Report(req, Err(BadCount))
      modifies this`connected, this`lastOpAt, world`now, world`memory, world`cuts
      ensures Excused(old(world.cuts), world.cuts, Finished(res))
      ensures 1 <= count <= 125 ==> (!old(connected) <==> res == Err(NotConnected))
      ensures Agrees(cfg, r') && Moves(cfg, r, r', t) && r'.cur.owner == Nobody
      ensures r'.cur.threads[t] == Report(Request.Read(bank, start, count), res)
      ensures world.memory.holding == old(world.memory.holding)
      ensures count == 0 || count > 125 ==> res == Err(BadCount) && r' == r
      ensures TrueRead(ReadRegisters(bank, start, count), world.memory, res)
    {
      if count == 0 || count > MAX_REGISTERS_PER_READ {
        return Err(BadCount), r;
      }
      res, r' := DoOp(Request.Read(bank, start, count), cfg, t, r);
    }

    /** Read-modify-write with the mutex held across both wire operations: on success the register holds the update
        of the value it had; on failure it holds that, or still the value. */
    method ModifyHolding(addr: Addr, update: Word -> Option<Word>, ghost cfg: Config, ghost t: Tid, ghost r: Run)
        returns (res: Result, ghost r': Run)
      requires Agrees(cfg, r) && t in r.cur.threads && r.cur.owner == Nobody
      requires r.cur.threads[t] == Want(Modify(addr, update))
      modifies this`connected, this`lastOpAt, world`now, world`memory, world`cuts
      ensures Excused(old(world.cuts), world.cuts, Finished(res))
      ensures Agrees(cfg, r') && Moves(cfg, r, r', t) && r'.cur.owner == Nobody
      ensures r'.cur.threads[t] == Report(Modify(addr, update), res)
      ensures !old(connected) <==> res == Err(NotConnected)
      ensures !old(connected) ==> world.memory == old(world.memory)
      ensures var before := old(world.memory.holding);
              var updated := update(before[addr]);
              if res.Ok? then updated.Some? && world.memory.holding == before[addr := updated.value]
              else || world.memory.holding == before
                   || (updated.Some? && world.memory.holding == before[addr := updated.value])
    {
      var req := Modify(addr, update);
      r' := Enter(cfg, t, r);
      if !connected {
        res := Err(NotConnected);
      } else {
        var out;
        out, r' := Operate(req, First, cfg, t, r');
        if out.Continue? {
          out, r' := Operate(req, Second(out.value), cfg, t, r');
        }
        res := out.result;
      }
      r' := Leave(cfg, t, r');
    }

    /** Opens the transport unless there is one. The supervisor is the caller. */
    method Connect(ghost cfg: Config, ghost delay: nat, ghost r: Run) returns (ok: bool, ghost r': Run)
      requires Agrees(cfg, r) && r.cur.owner == Nobody && r.cur.sup.WantsDial?
      modifies this, world`now, world`memory, world`dials
      ensures world.dials == if old(connected) then old(world.dials) else old(world.dials) + [ok]
      ensures Agrees(cfg, r') && Supervises(cfg, r, r')
      ensures ok <==> connected
      ensures world.now >= old(world.now)
      ensures !ok ==> lastOpAt == old(lastOpAt)
      ensures ok ==> r'.cur.sup == Listening
      ensures !ok ==> r'.cur.sup == Resting(r.cur.sup.boot, world.now + delay)
      ensures ok && !old(connected) ==> lastOpAt == ZERO_TIME
    {
      r' := Do(cfg, r, SupLock);
      if connected {
        r' := Do(cfg, r', SupDialed(true, delay));
        return true, r';
      }
      ok := world.Dial();
      r' := Do(cfg, r', Tick(world.now));
      r' := Do(cfg, r', Drift(world.memory.input));
      if ok {
        connected := true;
        lastOpAt := ZERO_TIME;
      }
      r' := Do(cfg, r', SupDialed(ok, delay));
    }

    /** Tears the transport down if there is one. */
    method ForceClose(ghost cfg: Config, ghost delay: nat, ghost r: Run) returns (ghost r': Run)
      requires Agrees(cfg, r) && r.cur.owner == Nobody && r.cur.sup.Closing?
      modifies this`connected
      ensures Agrees(cfg, r') && Supervises(cfg, r, r') && !connected
      ensures r'.cur.sup == Resting(false, world.now + delay)
    {
      r' := Do(cfg, r, SupClose(delay));
      if !connected {
        return;
      }
      connected := false;
    }
  }

  /** An operation is given up exactly when a context has cut its guard wait short. */
  predicate Excused(before: nat, after: nat, out: Outcome) {
    after == before + if out == Finished(Err(GuardCancelled)) then 1 else 0
  }

  /** A read changes no holding register; a write that succeeds sets its register and no other; one that fails may
      have. */
  predicate LegEffect(access: Access, before: Bank, after: Bank, out: Outcome) {
    match access
    case ReadRegisters(_, _, _) => after == before
    case WriteRegister(addr, value) =>
      if out.Finished? && out.result.Ok? then after == before[addr := value]
      else after == before || after == before[addr := value]
  }

  /** A read that returns as many registers as were asked for returns those registers. */
  predicate TrueRead(access: Access, m: Memory, res: Result) {
    access.ReadRegisters? && res.Ok? && |res.words| == access.count ==>
      && access.start + access.count <= BANK_SIZE
      && res.words == Slice(m, access.bank, access.start, access.count)
  }

  lemma LegResult(m: Memory, req: Request, leg: Leg, reply: Reply)
    requires MayReply(m, AccessOf(req, leg), reply)
    ensures LegEffect(AccessOf(req, leg), m.holding, AfterAccess(m, AccessOf(req, leg), reply).holding,
                      Judge(req, leg, reply))
    ensures Judge(req, leg, reply).Continue? ==>
              req.Modify? && leg.First? && req.update(m.holding[req.addr]) == Some(Judge(req, leg, reply).value)
    ensures Judge(req, leg, reply).Finished? && Judge(req, leg, reply).result.Ok? ==> !req.Modify? || leg.Second?
    ensures Judge(req, leg, reply).Finished? ==>
              TrueRead(AccessOf(req, leg), AfterAccess(m, AccessOf(req, leg), reply), Judge(req, leg, reply).result)
  {
    if req.Read? && reply.Data? && |reply.bytes| == 2 * req.count {
      DecodeAfterEncode(Slice(m, req.bank, req.start, req.count));
    }
    if Judge(req, leg, reply).Continue? {
      AnswerContinues(m, req, leg, reply);
    }
  }

  /** r' goes on from r; only the supervisor moved. */
  ghost predicate Supervises(cfg: Config, r: Run, r': Run) {
    && IsRun(cfg, r') && r'.start == r.start && r.acts <= r'.acts
    && r'.cur.threads == r.cur.threads && r'.cur.owner == Nobody
    && r'.cur.errs == r.cur.errs && r'.cur.token == r.cur.token
  }
}
