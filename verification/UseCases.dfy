/** The poller, the command use case and the MQTT command handlers as the objects they are
    (application/service/poller.go, application/usecase/poll_controller.go, application/usecase/apply_command.go,
    interface/mqtt/command_subscriber.go). */
module UseCases {
  import opened Words
  import opened Values
  import opened Snapshots
  import opened Modbus
  import opened Commands
  import opened Machine
  import opened Transactions
  import opened Client
  import opened Dispatcher
  import opened Calls
  import Bridge

  // ----- Polling

  /** The dispatcher requests of a poll, in order. */
  function PollScript(tier: Tier): (requests: seq<Request>)
    ensures |requests| == 3
  {
    [Bridge.BatchRequest(tier, 0), Bridge.BatchRequest(tier, 1), Bridge.BatchRequest(tier, 2)]
  }

  /** One delivery of a snapshot to each subscriber, in the order they subscribed. */
  function Fanout(subscribers: seq<nat>, snapshot: Snapshot): (calls: seq<(nat, Snapshot)>)
    ensures |calls| == |subscribers|
    ensures forall k :: 0 <= k < |calls| ==> calls[k] == (subscribers[k], snapshot)
  {
    seq(|subscribers|, k requires 0 <= k < |subscribers| => (subscribers[k], snapshot))
  }

  class Poller {
    const dispatcher: CommandDispatcher
    var latest: Snapshot
    var subscribers: seq<nat>              // the callbacks, by name
    var deliveries: seq<(nat, Snapshot)>   // the calls made to them

    constructor (dispatcher: CommandDispatcher)
      ensures this.dispatcher == dispatcher && latest == EMPTY && subscribers == [] && deliveries == []
    {
      this.dispatcher := dispatcher;
      latest := EMPTY;
      subscribers := [];
      deliveries := [];
    }

    /** A nil callback is ignored. */
    method Subscribe(callback: Option<nat>)
      modifies this`subscribers
      ensures subscribers == if callback.Some? then old(subscribers) + [callback.value] else old(subscribers)
    {
      if callback.None? {
        return;
      }
      subscribers := subscribers + [callback.value];
    }

    /** One of a poll's reads, its error and its length checked. */
    method ReadBatch(tier: Tier, k: nat, ghost cfg: Config, ghost t: Tid, ghost r: Run)
        returns (got: Option<seq<Word>>, ghost r': Run)
      requires dispatcher.Ready(cfg, t, r) && r.cur.threads[t] == Idle && k < 3
      modifies dispatcher, dispatcher.notifier, dispatcher.client`connected, dispatcher.client`lastOpAt,
               dispatcher.client.world
      ensures dispatcher.Ready(cfg, t, r') && r'.start == r.start && r.acts <= r'.acts
      ensures r'.cur.threads == r.cur.threads && r'.cur.sup == r.cur.sup
      ensures dispatcher.client.world.memory.holding == old(dispatcher.client.world.memory.holding)
      ensures CallsBy(r'.cur.trace, t) == CallsBy(r.cur.trace, t) + [Bridge.BatchRequest(tier, k)]
      ensures WireBy(r'.cur.trace, t) == WireBy(r.cur.trace, t) + Trail(r'.cur.trace, t)
      ensures Performs(t, Bridge.BatchRequest(tier, k), Trail(r'.cur.trace, t))
      ensures got.Some? <==> IsFull(tier, t, k, r')
      ensures got.Some? ==>
                && dispatcher.consecutiveErrs == 0
                && got.value == SliceOf(r'.cur.link.memory, Batches(tier)[k])
    {
      var b := Batches(tier)[k];
      var res;
      res, r' := dispatcher.Read(b.bank, b.start, b.count, cfg, t, r);
      BatchAnswered(t, tier, k, Trail(r'.cur.trace, t), res);
      if res.Err? || |res.words| != b.count {
        return None, r';
      }
      return Some(res.words), r';
    }

    /** A poll's two reads of input registers, each checked before the next. */
    method ReadInputs(tier: Tier, ghost cfg: Config, ghost t: Tid, ghost r: Run)
        returns (in1: Option<seq<Word>>, in2: Option<seq<Word>>, ghost n: nat, ghost wire: seq<Event>, ghost r1: Run,
                 ghost r': Run)
      requires dispatcher.Ready(cfg, t, r) && r.cur.threads[t] == Idle
      modifies dispatcher, dispatcher.notifier, dispatcher.client`connected, dispatcher.client`lastOpAt,
               dispatcher.client.world
      ensures dispatcher.Ready(cfg, t, r') && r'.start == r.start && r.acts <= r'.acts
      ensures r'.cur.threads == r.cur.threads && r'.cur.sup == r.cur.sup
      ensures dispatcher.client.world.memory.holding == old(dispatcher.client.world.memory.holding)
      ensures 1 <= n <= 2 && PolledSoFar(tier, t, r, r', wire, n)
      ensures in2.None? ==> !AllFull(tier, wire, n)
      ensures in2.Some? ==>
                && in1.Some? && n == 2 && AllFull(tier, wire, 2)
                && IsRun(cfg, r1) && r1.start == r.start && r.acts <= r1.acts <= r'.acts
                && IsFull(tier, t, 0, r1) && IsFull(tier, t, 1, r')
                && wire == Trail(r1.cur.trace, t) + Trail(r'.cur.trace, t)
                && in1.value == SliceOf(r1.cur.link.memory, Batches(tier)[0])
                && in2.value == SliceOf(r'.cur.link.memory, Batches(tier)[1])
    {
      in2 := None;
      StartsPoll(tier, t, r);
      in1, r1 := ReadBatch(tier, 0, cfg, t, r);
      n, r' := 1, r1;
      wire := NextRead(tier, t, r, r, r1, [], 0);
      if in1.None? {
        return;
      }
      in2, r' := ReadBatch(tier, 1, cfg, t, r1);
      n := 2;
      wire := NextRead(tier, t, r, r1, r', wire, 1);
    }

    /** The three reads of PollHot, PollMedium and PollSlow. */
    method ReadTier(tier: Tier, ghost cfg: Config, ghost t: Tid, ghost r: Run)
        returns (got: Option<seq<seq<Word>>>, ghost n: nat, ghost wire: seq<Event>, ghost r1: Run, ghost r2: Run,
                 ghost r': Run)
      requires dispatcher.Ready(cfg, t, r) && r.cur.threads[t] == Idle
      modifies dispatcher, dispatcher.notifier, dispatcher.client`connected, dispatcher.client`lastOpAt,
               dispatcher.client.world
      ensures dispatcher.Ready(cfg, t, r') && r'.start == r.start && r.acts <= r'.acts
      ensures r'.cur.threads == r.cur.threads && r'.cur.sup == r.cur.sup
      ensures dispatcher.client.world.memory.holding == old(dispatcher.client.world.memory.holding)
      ensures 1 <= n <= 3 && PolledSoFar(tier, t, r, r', wire, n)
      ensures got.None? ==> !AllFull(tier, wire, n)
      ensures got.Some? ==>
                && n == 3 && AllFull(tier, wire, 3)
                && InFull(cfg, tier, t, r, r1, r2, r', wire) && dispatcher.consecutiveErrs == 0
                && got.value == [SliceOf(r1.cur.link.memory, Batches(tier)[0]),
                                 SliceOf(r2.cur.link.memory, Batches(tier)[1]),
                                 SliceOf(r'.cur.link.memory, Batches(tier)[2])]
    {
      var in1, in2;
      in1, in2, n, wire, r1, r2 := ReadInputs(tier, cfg, t, r);
      if in2.None? {
        return None, n, wire, r1, r2, r2;
      }
      var hold;
      hold, r' := ReadBatch(tier, 2, cfg, t, r2);
      n := 3;
      wire := NextRead(tier, t, r, r2, r', wire, 2);
      got := if hold.Some? then Some([in1.value, in2.value, hold.value]) else None;
    }

    /** PollHot, PollMedium and PollSlow. The requests are the tier's in order, and so are the wire operations, each but
        the last answered in full. A partial snapshot means that all three were, and says what the registers held in
        the memory of the run right after each of them: of r1, r2 and r'. Without one, the last request made was not
        answered in full. */
    method Poll(tier: Tier, ghost cfg: Config, ghost t: Tid, ghost r: Run)
        returns (partial: Option<Snapshot>, ghost n: nat, ghost wire: seq<Event>, ghost r1: Run, ghost r2: Run,
                 ghost r': Run)
      requires dispatcher.Ready(cfg, t, r) && r.cur.threads[t] == Idle
      modifies dispatcher, dispatcher.notifier, dispatcher.client`connected, dispatcher.client`lastOpAt,
               dispatcher.client.world
      ensures dispatcher.Ready(cfg, t, r') && r'.start == r.start && r.acts <= r'.acts
      ensures r'.cur.threads == r.cur.threads && r'.cur.sup == r.cur.sup
      ensures dispatcher.client.world.memory.holding == old(dispatcher.client.world.memory.holding)
      ensures 1 <= n <= 3 && PolledSoFar(tier, t, r, r', wire, n)
      ensures partial.Some? <==> AllFull(tier, wire, 3)
      ensures partial.None? ==> !AllFull(tier, wire, n)
      ensures partial.Some? ==>
                && InFull(cfg, tier, t, r, r1, r2, r', wire) && dispatcher.consecutiveErrs == 0
                && DecodesRegisters(tier, partial.value, r1.cur.link.memory, r2.cur.link.memory, r'.cur.link.memory)
                && partial.value.polledAt == dispatcher.client.world.now
    {
      var got;
      got, n, wire, r1, r2, r' := ReadTier(tier, cfg, t, r);
      if got.None? {
        return None, n, wire, r1, r2, r';
      }
      var at := dispatcher.client.world.now;
      AssembleDecodesRegisters(tier, r1.cur.link.memory, r2.cur.link.memory, r'.cur.link.memory, at);
      return Some(Assemble(tier, got.value, at)), n, wire, r1, r2, r';
    }

    /** One poll of a tier: a success replaces the tier's fields and goes to every subscriber once, in order; a
        failure changes and delivers nothing. */
    method DoPoll(tier: Tier, ghost cfg: Config, ghost t: Tid, ghost r: Run)
        returns (partial: Option<Snapshot>, ghost wire: seq<Event>, ghost r1: Run, ghost r2: Run, ghost r': Run)
      requires dispatcher.Ready(cfg, t, r) && r.cur.threads[t] == Idle
      modifies this`latest, this`deliveries, dispatcher, dispatcher.notifier, dispatcher.client`connected,
               dispatcher.client`lastOpAt, dispatcher.client.world
      ensures dispatcher.Ready(cfg, t, r') && r'.cur.threads == r.cur.threads
      ensures WireBy(r'.cur.trace, t) == WireBy(r.cur.trace, t) + wire && ReadsInOrder(t, tier, wire)
      ensures partial.Some? <==> AllFull(tier, wire, 3)
      ensures partial.None? ==> latest == old(latest) && deliveries == old(deliveries)
      ensures partial.Some? ==>
                && InFull(cfg, tier, t, r, r1, r2, r', wire)
                && DecodesRegisters(tier, partial.value, r1.cur.link.memory, r2.cur.link.memory, r'.cur.link.memory)
                && latest == Merge(tier, old(latest), partial.value)
                && deliveries == old(deliveries) + Fanout(subscribers, latest)
    {
      ghost var n;
      partial, n, wire, r1, r2, r' := Poll(tier, cfg, t, r);
      if partial.None? {
        return;
      }
      latest := Merge(tier, latest, partial.value);
      Notify(latest);
    }

    /** Calls every subscriber of the moment. */
    method Notify(merged: Snapshot)
      modifies this`deliveries
      ensures deliveries == old(deliveries) + Fanout(subscribers, merged)
    {
      for k := 0 to |subscribers|
        invariant deliveries == old(deliveries) + Fanout(subscribers[..k], merged)
      {
        assert Fanout(subscribers[..k + 1], merged) == Fanout(subscribers[..k], merged) + [(subscribers[k], merged)];
        deliveries := deliveries + [(subscribers[k], merged)];
      }
      assert subscribers[..|subscribers|] == subscribers;
    }
  }

  /** Thread t's last call was the read of batch k, answered in full. */
  ghost predicate IsFull(tier: Tier, t: Tid, k: nat, r: Run)
    requires k < 3
  {
    var trail := Trail(r.cur.trace, t);
    |trail| == 1 && IsWire(trail[0], t, Bridge.BatchRequest(tier, k), First) && IsFullReply(trail[0], tier, k)
  }

  /** Three full replies, one at the end of each part of the run. */
  ghost predicate InFull(cfg: Config, tier: Tier, t: Tid, r: Run, r1: Run, r2: Run, r': Run, wire: seq<Event>) {
    && IsRun(cfg, r1) && IsRun(cfg, r2) && r1.start == r2.start == r'.start
    && r.acts <= r1.acts <= r2.acts <= r'.acts
    && IsFull(tier, t, 0, r1) && IsFull(tier, t, 1, r2) && IsFull(tier, t, 2, r')
    && wire == Trail(r1.cur.trace, t) + Trail(r2.cur.trace, t) + Trail(r'.cur.trace, t)
  }

  /** From r to r' thread t made the first n requests of a poll; wire is what they put on the wire, each but the last
      answered in full. */
  ghost predicate PolledSoFar(tier: Tier, t: Tid, r: Run, r': Run, wire: seq<Event>, n: nat)
    requires n <= 3
  {
    && CallsBy(r'.cur.trace, t) == CallsBy(r.cur.trace, t) + PollScript(tier)[..n]
    && |wire| <= n
    && WireBy(r'.cur.trace, t) == WireBy(r.cur.trace, t) + wire
    && ReadsInOrder(t, tier, wire)
  }

  ghost predicate AllFull(tier: Tier, wire: seq<Event>, n: nat)
    requires n <= 3
  {
    |wire| == n && forall i :: 0 <= i < n ==> IsFullReply(wire[i], tier, i)
  }

  /** A batch's call returns as many registers as asked for exactly when its reply had them. */
  lemma BatchAnswered(t: Tid, tier: Tier, k: nat, trail: seq<Event>, res: Result)
    requires k < 3
    requires Performs(t, Bridge.BatchRequest(tier, k), trail) && Yields(Bridge.BatchRequest(tier, k), trail, res)
    ensures res.Ok? && |res.words| == Batches(tier)[k].count
            <==> |trail| == 1 && IsWire(trail[0], t, Bridge.BatchRequest(tier, k), First)
                 && IsFullReply(trail[0], tier, k)
  {
    if res.Ok? {
      ReadResultFits(t, Bridge.BatchRequest(tier, k), trail, res);
    }
  }

  lemma StartsPoll(tier: Tier, t: Tid, r: Run)
    ensures PolledSoFar(tier, t, r, r, [], 0) && AllFull(tier, [], 0)
  {
  }

  /** A poll goes on after k full reads. */
  lemma NextRead(tier: Tier, t: Tid, r: Run, r1: Run, r2: Run, wire: seq<Event>, k: nat) returns (wire': seq<Event>)
    requires k < 3 && PolledSoFar(tier, t, r, r1, wire, k) && AllFull(tier, wire, k)
    requires CallsBy(r2.cur.trace, t) == CallsBy(r1.cur.trace, t) + [Bridge.BatchRequest(tier, k)]
    requires WireBy(r2.cur.trace, t) == WireBy(r1.cur.trace, t) + Trail(r2.cur.trace, t)
    requires Performs(t, Bridge.BatchRequest(tier, k), Trail(r2.cur.trace, t))
    ensures wire' == wire + Trail(r2.cur.trace, t) && PolledSoFar(tier, t, r, r2, wire', k + 1)
    ensures IsFull(tier, t, k, r2) <==> AllFull(tier, wire', k + 1)
  {
    var trail := Trail(r2.cur.trace, t);
    wire' := wire + trail;
    OneMoreRead(t, tier, wire, trail);
    assert PollScript(tier)[..k + 1] == PollScript(tier)[..k] + [Bridge.BatchRequest(tier, k)];
  }

  // ----- Commands

  datatype ApplyError = TransitionInProgress | ContextDone | Dispatch(error: Error)

  /** A command that fails leaves its register as it was, or as one of its writes would have it, and every other
      register alone. */
  predicate Attempted(cmd: Command, before: Bank, after: Bank) {
    var addr := Target(cmd);
    && after == before[addr := after[addr]]
    && (|| after[addr] == before[addr]
        || after[addr] == Achieves(cmd, before[addr])
        || (cmd.SetPower? && after[addr] == 1))
  }

  class ApplyCommand {
    const dispatcher: CommandDispatcher
    const snapshots: Poller
    const powerOffPause: nat

    constructor (dispatcher: CommandDispatcher, snapshots: Poller, powerOffPause: nat)
      ensures this.dispatcher == dispatcher && this.snapshots == snapshots && this.powerOffPause == powerOffPause
    {
      this.dispatcher := dispatcher;
      this.snapshots := snapshots;
      this.powerOffPause := powerOffPause;
    }

    ghost predicate Ready(cfg: Config, t: Tid, r: Run)
      reads this, dispatcher, dispatcher.client, dispatcher.client.world, dispatcher.notifier
    {
      dispatcher.Ready(cfg, t, r) && r.cur.threads[t] == Idle
    }

    /** What Apply leaves. In a transition nothing is requested. Otherwise the requests made are the first n of the
        script, each after the one before succeeded; the wire operations are those the command allows, with the dwell
        between two edges; and success means that all its writes were acknowledged and the register is set. */
    twostate predicate Applied(cfg: Config, t: Tid, r: Run, r': Run, cmd: Command, new err: Option<ApplyError>,
                               n: nat, wire: seq<Event>)
      reads this, dispatcher, dispatcher.client, dispatcher.client.world, dispatcher.notifier, snapshots
    {
      && Ready(cfg, t, r') && r'.start == r.start && r.acts <= r'.acts && r'.cur.threads == r.cur.threads
      && Leaves(powerOffPause, t, r, r', cmd, snapshots.latest.operation, n, wire, err.None?)
      && Reports(t, r', cmd, snapshots.latest.operation, err, n,
                 dispatcher.client.world.cuts - old(dispatcher.client.world.cuts),
                 old(dispatcher.client.world.memory.holding), dispatcher.client.world.memory.holding)
    }

    /** The dwell between the two edges, or the context done first. */
    method Dwell(ghost cfg: Config, ghost t: Tid, ghost r: Run) returns (elapsed: bool, ghost r': Run)
      requires Ready(cfg, t, r)
      modifies dispatcher.client.world
      ensures dispatcher.client.world.cuts == old(dispatcher.client.world.cuts) + if elapsed then 0 else 1
      ensures Ready(cfg, t, r') && r'.start == r.start && r.acts <= r'.acts && r'.cur.threads == r.cur.threads
      ensures LedgerOf(r'.cur.trace, t) == LedgerOf(r.cur.trace, t)
      ensures WireBy(r'.cur.trace, t) == WireBy(r.cur.trace, t)
      ensures dispatcher.client.world.memory.holding == old(dispatcher.client.world.memory.holding)
      ensures elapsed ==> dispatcher.client.world.now >= old(dispatcher.client.world.now) + powerOffPause
    {
      var world := dispatcher.client.world;
      elapsed := world.Sleep(world.now + powerOffPause);
      r' := CatchUp(cfg, r, t, world.now, world.memory.input);
    }

    /** One write of Power_Dev. */
    method Edge(value: Word, ghost cfg: Config, ghost t: Tid, ghost r: Run)
        returns (err: Option<ApplyError>, ghost trail: seq<Event>, ghost r': Run)
      requires Ready(cfg, t, r)
      modifies dispatcher, dispatcher.notifier, dispatcher.client`connected, dispatcher.client`lastOpAt,
               dispatcher.client.world
      ensures Ready(cfg, t, r') && r'.start == r.start && r.acts <= r'.acts && r'.cur.threads == r.cur.threads
      ensures WritesPower(t, r, r', value, trail, old(dispatcher.client.world.now), dispatcher.client.world.now,
                          err.None?)
      ensures IsWritten(value, err, dispatcher.client.world.cuts - old(dispatcher.client.world.cuts),
                        old(dispatcher.client.world.memory.holding), dispatcher.client.world.memory.holding)
    {
      var res;
      res, r' := dispatcher.WriteHolding(POWER_DEV, value, cfg, t, r);
      trail := Trail(r'.cur.trace, t);
      WriteResult(t, Write(POWER_DEV, value), trail, res);
      err := if res.Ok? then None else Some(Dispatch(res.error));
    }

    /** The rest of OFF after its 1: the dwell, then 0, whose write starts at down or later. */
    method DwellAndFall(ghost cfg: Config, ghost t: Tid, ghost r: Run)
        returns (err: Option<ApplyError>, ghost falling: seq<Event>, ghost down: Time, ghost r': Run)
      requires Ready(cfg, t, r)
      modifies dispatcher, dispatcher.notifier, dispatcher.client`connected, dispatcher.client`lastOpAt,
               dispatcher.client.world
      ensures Ready(cfg, t, r') && r'.start == r.start && r.acts <= r'.acts && r'.cur.threads == r.cur.threads
      ensures var cuts := dispatcher.client.world.cuts - old(dispatcher.client.world.cuts);
              var before, after := old(dispatcher.client.world.memory.holding), dispatcher.client.world.memory.holding;
              if err == Some(ContextDone) then
                && LedgerOf(r'.cur.trace, t) == LedgerOf(r.cur.trace, t)
                && WireBy(r'.cur.trace, t) == WireBy(r.cur.trace, t) && after == before && cuts == 1
              else
                && WritesPower(t, r, r', 0, falling, down, dispatcher.client.world.now, err.None?)
                && old(dispatcher.client.world.now) + powerOffPause <= down
                && IsWritten(0, err, cuts, before, after)
    {
      var elapsed;
      falling, down := [], 0;
      elapsed, r' := Dwell(cfg, t, r);
      if !elapsed {
        return Some(ContextDone), falling, down, r';
      }
      down := dispatcher.client.world.now;
      err, falling, r' := Edge(0, cfg, t, r');
    }

    /** setPower past its guard: 1 for ON; 1, the dwell, 0 for OFF. */
    method SetPowerEdges(on: bool, ghost cfg: Config, ghost t: Tid, ghost r: Run)
        returns (err: Option<ApplyError>, ghost n: nat, ghost wire: seq<Event>, ghost r': Run)
      requires Ready(cfg, t, r) && !(1 <= snapshots.latest.operation <= 12)
      modifies dispatcher, dispatcher.notifier, dispatcher.client`connected, dispatcher.client`lastOpAt,
               dispatcher.client.world
      ensures Applied(cfg, t, r, r', SetPower(on), err, n, wire)
    {
      ghost var op, start := snapshots.latest.operation, dispatcher.client.world.now;
      ghost var before := dispatcher.client.world.memory.holding;
      ghost var rising, r1;
      err, rising, r1 := Edge(1, cfg, t, r);
      n, wire, r' := 1, rising, r1;
      ghost var up, raised := dispatcher.client.world.now, dispatcher.client.world.memory.holding;
      OneEdge(powerOffPause, t, r, r1, on, op, rising, start, up, err.None?);
      OneEdgeReports(t, r, r1, on, op, err, rising, start, up,
                     dispatcher.client.world.cuts - old(dispatcher.client.world.cuts), before, raised);
      if err.Some? || on {
        return;
      }
      ghost var down, falling := 0, [];
      err, falling, down, r' := DwellAndFall(cfg, t, r1);
      ghost var now, lowered := dispatcher.client.world.now, dispatcher.client.world.memory.holding;
      if err != Some(ContextDone) {
        TwoEdges(powerOffPause, t, r, r1, r', op, rising, falling, start, up, down, now, err.None?);
        TwoEdgesReport(t, r1, r', op, err, falling, down, now,
                       dispatcher.client.world.cuts - old(dispatcher.client.world.cuts), before, raised, lowered);
        n, wire := 2, rising + falling;
      }
    }

    /** setMode, setTemperature and setFan past their guards. */
    method SetModeBits(mode: Mode, ghost cfg: Config, ghost t: Tid, ghost r: Run)
        returns (err: Option<ApplyError>, ghost wire: seq<Event>, ghost r': Run)
      requires Ready(cfg, t, r) && !(1 <= snapshots.latest.operation <= 12)
      modifies dispatcher, dispatcher.notifier, dispatcher.client`connected, dispatcher.client`lastOpAt,
               dispatcher.client.world
      ensures Applied(cfg, t, r, r', SetMode(mode), err, 1, wire)
    {
      var res;
      res, r' := dispatcher.ModifyHolding(DEV_KEYS_2, ModeUpdate(mode), cfg, t, r);
      wire := Trail(r'.cur.trace, t);
      OneRequest(t, SetMode(mode), wire, res);
      err := if res.Ok? then None else Some(Dispatch(res.error));
    }

    method SetSetpoint(temperature: Temperature, ghost cfg: Config, ghost t: Tid, ghost r: Run)
        returns (err: Option<ApplyError>, ghost wire: seq<Event>, ghost r': Run)
      requires Ready(cfg, t, r) && !(1 <= snapshots.latest.operation <= 12)
      modifies dispatcher, dispatcher.notifier, dispatcher.client`connected, dispatcher.client`lastOpAt,
               dispatcher.client.world
      ensures Applied(cfg, t, r, r', SetTemperature(temperature), err, 1, wire)
    {
      var res;
      res, r' := dispatcher.WriteHolding(TEMP_TARGET, Raw(temperature), cfg, t, r);
      wire := Trail(r'.cur.trace, t);
      OneRequest(t, SetTemperature(temperature), wire, res);
      err := if res.Ok? then None else Some(Dispatch(res.error));
    }

    method SetFanSpeed(speed: Word, ghost cfg: Config, ghost t: Tid, ghost r: Run)
        returns (err: Option<ApplyError>, ghost wire: seq<Event>, ghost r': Run)
      requires Ready(cfg, t, r) && !(1 <= snapshots.latest.operation <= 12)
      modifies dispatcher, dispatcher.notifier, dispatcher.client`connected, dispatcher.client`lastOpAt,
               dispatcher.client.world
      ensures Applied(cfg, t, r, r', SetFan(speed), err, 1, wire)
    {
      var res;
      res, r' := dispatcher.WriteHolding(FAN_TARGET_1, speed, cfg, t, r);
      wire := Trail(r'.cur.trace, t);
      OneRequest(t, SetFan(speed), wire, res);
      err := if res.Ok? then None else Some(Dispatch(res.error));
    }

    /** Applies one command. */
    method Apply(cmd: Command, ghost cfg: Config, ghost t: Tid, ghost r: Run)
        returns (err: Option<ApplyError>, ghost n: nat, ghost wire: seq<Event>, ghost r': Run)
      requires Ready(cfg, t, r)
      modifies dispatcher, dispatcher.notifier, dispatcher.client`connected, dispatcher.client`lastOpAt,
               dispatcher.client.world
      ensures Applied(cfg, t, r, r', cmd, err, n, wire)
    {
      if IsTransitional(snapshots.latest.operation) {
        return Some(TransitionInProgress), 0, [], r;
      }
      n := 1;
      match cmd {
        case SetPower(on) => err, n, wire, r' := SetPowerEdges(on, cfg, t, r);
        case SetMode(mode) => err, wire, r' := SetModeBits(mode, cfg, t, r);
        case SetTemperature(temperature) => err, wire, r' := SetSetpoint(temperature, cfg, t, r);
        case SetFan(speed) => err, wire, r' := SetFanSpeed(speed, cfg, t, r);
      }
    }
  }

  /** What a command says of itself, and what it leaves in the registers. */
  ghost predicate Reports(t: Tid, r: Run, cmd: Command, op: OperatingState, err: Option<ApplyError>, n: nat, cuts: int,
                          before: Bank, after: Bank) {
    && (1 <= op <= 12 <==> err == Some(TransitionInProgress))
    && (1 <= op <= 12 <==> n == 0)
    && Justified(t, r, cmd, err, n, cuts)
    && (if err.None? then after == before[Target(cmd) := Achieves(cmd, before[Target(cmd)])]
        else if n == 0 then after == before
        else Attempted(cmd, before, after))
  }

  /** One write of Power_Dev. */
  predicate IsWritten(value: Word, err: Option<ApplyError>, cuts: int, before: Bank, after: Bank) {
    && (err.None? || err.value.Dispatch?)
    && cuts == (if err == Some(Dispatch(GuardCancelled)) then 1 else 0)
    && (after == before[POWER_DEV := value] || (err.Some? && after == before))
  }

  lemma OneEdgeReports(t: Tid, r: Run, r1: Run, on: bool, op: OperatingState, err: Option<ApplyError>,
                       trail: seq<Event>, from: Time, to: Time, cuts: int, before: Bank, after: Bank)
    requires WritesPower(t, r, r1, 1, trail, from, to, err.None?) && !(1 <= op <= 12)
    requires IsWritten(1, err, cuts, before, after)
    ensures err.Some? || on ==> Reports(t, r1, SetPower(on), op, err, 1, cuts, before, after)
    ensures err.None? ==> Reports(t, r1, SetPower(false), op, Some(ContextDone), 1, 1, before, after)
  {
  }

  lemma TwoEdgesReport(t: Tid, r1: Run, r2: Run, op: OperatingState, err: Option<ApplyError>, falling: seq<Event>,
                       from: Time, to: Time, cuts: int, before: Bank, raised: Bank, after: Bank)
    requires WritesPower(t, r1, r2, 0, falling, from, to, err.None?) && !(1 <= op <= 12)
    requires raised == before[POWER_DEV := 1] && IsWritten(0, err, cuts, raised, after)
    ensures Reports(t, r2, SetPower(false), op, err, 2, cuts, before, after)
  {
  }

  /** Why a command was given up: it was refused, or its last request was counted as failed, or it is an OFF whose 1
      went through and whose dwell a context cut short. cuts is how many waits were cut short, the guard's included. */
  ghost predicate Justified(t: Tid, r: Run, cmd: Command, err: Option<ApplyError>, n: nat, cuts: int) {
    var outcomes := OutcomesBy(r.cur.trace, t);
    match err
    case None => cuts == 0
    case Some(TransitionInProgress) => cuts == 0 && n == 0
    case Some(ContextDone) =>
      cmd == SetPower(false) && n == 1 && cuts == 1 && outcomes != [] && outcomes[|outcomes| - 1]
    case Some(Dispatch(e)) =>
      n > 0 && outcomes != [] && !outcomes[|outcomes| - 1] && cuts == if e == GuardCancelled then 1 else 0
  }

  /** From r to r' thread t made the first n of these requests, each after the one before had succeeded; all is their
      success if ok. */
  ghost predicate Makes(t: Tid, r: Run, r': Run, requests: seq<Request>, n: nat, ok: bool) {
    var outcomes, outcomes' := OutcomesBy(r.cur.trace, t), OutcomesBy(r'.cur.trace, t);
    && n <= |requests| && (ok ==> n == |requests|)
    && CallsBy(r'.cur.trace, t) == CallsBy(r.cur.trace, t) + requests[..n]
    && |outcomes'| == |outcomes| + n && outcomes <= outcomes'
    && forall i :: |outcomes| <= i < |outcomes'| && (ok || i < |outcomes'| - 1) ==> outcomes'[i]
  }

  /** The wire operation of one write of Power_Dev, if it came to that, between two moments. */
  ghost predicate IsEdge(t: Tid, value: Word, trail: seq<Event>, from: Time, to: Time, ok: bool) {
    && |trail| <= 1
    && (trail != [] ==>
          IsWire(trail[0], t, Write(POWER_DEV, value), First) && from <= trail[0].start && trail[0].end <= to)
    && (ok <==> trail != [] && trail[0].reply.Ack?)
  }

  /** What a command's requests leave in the run. */
  ghost predicate Leaves(pause: nat, t: Tid, r: Run, r': Run, cmd: Command, op: OperatingState, n: nat,
                         wire: seq<Event>, ok: bool) {
    && Makes(t, r, r', Script(cmd), n, ok)
    && WireBy(r'.cur.trace, t) == WireBy(r.cur.trace, t) + wire
    && WireFits(pause, t, cmd, op, wire)
    && (ok <==> Achieved(cmd, wire))
  }

  /** Thread t's last request was counted as failed, or a wait was cut short. */
  ghost predicate GivenUp(t: Tid, r: Run, cuts: int) {
    var outcomes := OutcomesBy(r.cur.trace, t);
    cuts == 1 || (outcomes != [] && !outcomes[|outcomes| - 1])
  }

  /** From r to r' thread t wrote Power_Dev once. */
  ghost predicate WritesPower(t: Tid, r: Run, r': Run, value: Word, trail: seq<Event>, from: Time, to: Time, ok: bool) {
    && CallsBy(r'.cur.trace, t) == CallsBy(r.cur.trace, t) + [Write(POWER_DEV, value)]
    && OutcomesBy(r'.cur.trace, t) == OutcomesBy(r.cur.trace, t) + [ok]
    && WireBy(r'.cur.trace, t) == WireBy(r.cur.trace, t) + trail
    && IsEdge(t, value, trail, from, to, ok)
  }

  /** After the first edge: all there is to ON, and all there is to an OFF that stops here. */
  lemma OneEdge(pause: nat, t: Tid, r: Run, r1: Run, on: bool, op: OperatingState, trail: seq<Event>, from: Time,
                to: Time, ok: bool)
    requires WritesPower(t, r, r1, 1, trail, from, to, ok) && !(1 <= op <= 12)
    ensures Leaves(pause, t, r, r1, SetPower(on), op, 1, trail, ok && on)
  {
    assert Script(SetPower(on))[..1] == [Write(POWER_DEV, 1)];
  }

  /** After both edges, with the dwell between up and down. */
  lemma TwoEdges(pause: nat, t: Tid, r: Run, r1: Run, r2: Run, op: OperatingState, rising: seq<Event>,
                 falling: seq<Event>, from: Time, up: Time, down: Time, to: Time, ok: bool)
    requires WritesPower(t, r, r1, 1, rising, from, up, true) && !(1 <= op <= 12) && up + pause <= down
    requires CallsBy(r2.cur.trace, t) == CallsBy(r1.cur.trace, t) + [Write(POWER_DEV, 0)]
    requires OutcomesBy(r2.cur.trace, t) == OutcomesBy(r1.cur.trace, t) + [ok]
    requires WireBy(r2.cur.trace, t) == WireBy(r1.cur.trace, t) + falling
    requires IsEdge(t, 0, falling, down, to, ok)
    ensures Leaves(pause, t, r, r2, SetPower(false), op, 2, rising + falling, ok)
  {
    assert Script(SetPower(false))[..2] == [Write(POWER_DEV, 1)] + [Write(POWER_DEV, 0)];
  }

  /** A command of one request: it achieves its write exactly when the request succeeds. */
  lemma OneRequest(t: Tid, cmd: Command, wire: seq<Event>, res: Result)
    requires |Script(cmd)| == 1 && Performs(t, Script(cmd)[0], wire) && Yields(Script(cmd)[0], wire, res)
    ensures res.Ok? <==> Achieved(cmd, wire)
  {
    if cmd.SetMode? {
      ModifyResult(t, Script(cmd)[0], wire, res);
    } else {
      WriteResult(t, Script(cmd)[0], wire, res);
    }
  }

  // ----- Messages

  /** The requests of several commands, one script after the other. */
  function Scripts(cmds: seq<Command>): seq<Request> {
    if cmds == [] then [] else Script(cmds[0]) + Scripts(cmds[1..])
  }

  function Flat(wires: seq<seq<Event>>): seq<Event> {
    if wires == [] then [] else Flat(wires[..|wires| - 1]) + wires[|wires| - 1]
  }

  /** The commands with these wire operations were applied in turn, each after the one before had achieved its writes;
      ok means that all were applied and achieved theirs. */
  ghost predicate InTurn(pause: nat, t: Tid, cmds: seq<Command>, op: OperatingState, wires: seq<seq<Event>>, ok: bool) {
    && |wires| <= |cmds|
    && (forall k :: 0 <= k < |wires| ==> WireFits(pause, t, cmds[k], op, wires[k]))
    && (forall k :: 0 <= k < |wires| && (ok || k < |wires| - 1) ==> Achieved(cmds[k], wires[k]))
    && (ok ==> |wires| == |cmds|)
    && (!ok ==> wires != [] && !Achieved(cmds[|wires| - 1], wires[|wires| - 1]))
  }

  lemma MakesOn(t: Tid, r: Run, r1: Run, r2: Run, first: seq<Request>, second: seq<Request>, n: nat, ok: bool)
    requires Makes(t, r, r1, first, |first|, true) && Makes(t, r1, r2, second, n, ok)
    ensures Makes(t, r, r2, first + second, |first| + n, ok)
  {
    assert (first + second)[..|first| + n] == first[..|first|] + second[..n];
  }

  /** What the commands of a message leave in the run. */
  ghost predicate LeavesAll(pause: nat, t: Tid, r: Run, r': Run, cmds: seq<Command>, op: OperatingState, n: nat,
                            wires: seq<seq<Event>>, ok: bool) {
    && Makes(t, r, r', Scripts(cmds), n, ok)
    && WireBy(r'.cur.trace, t) == WireBy(r.cur.trace, t) + Flat(wires)
    && InTurn(pause, t, cmds, op, wires, ok)
  }

  lemma LeavesOne(pause: nat, t: Tid, r: Run, r': Run, cmd: Command, op: OperatingState, n: nat, wire: seq<Event>,
                  ok: bool)
    requires Leaves(pause, t, r, r', cmd, op, n, wire, ok)
    ensures LeavesAll(pause, t, r, r', [cmd], op, n, [wire], ok)
  {
    ScriptsOfOne(cmd);
    FlatOfOne(wire);
  }

  lemma LeavesFirst(pause: nat, t: Tid, r: Run, r': Run, first: Command, second: Command, op: OperatingState,
                    wire: seq<Event>, n: nat, ok: bool)
    requires LeavesAll(pause, t, r, r', [first], op, n, [wire], ok)
    ensures !ok ==> LeavesAll(pause, t, r, r', [first, second], op, n, [wire], ok)
  {
    ScriptsOfTwo(first, second);
  }

  lemma LeavesBoth(pause: nat, t: Tid, r: Run, r1: Run, r2: Run, first: Command, second: Command, op: OperatingState,
                   wire1: seq<Event>, wire2: seq<Event>, n: nat, m: nat, ok: bool)
    requires LeavesAll(pause, t, r, r1, [first], op, n, [wire1], true)
    requires LeavesAll(pause, t, r1, r2, [second], op, m, [wire2], ok)
    ensures LeavesAll(pause, t, r, r2, [first, second], op, n + m, [wire1, wire2], ok)
  {
    ScriptsOfTwo(first, second);
    MakesOn(t, r, r1, r2, Script(first), Script(second), m, ok);
    FlatOfTwo(wire1, wire2);
    InTurnOn(pause, t, first, second, op, wire1, wire2, ok);
  }

  lemma InTurnOn(pause: nat, t: Tid, first: Command, second: Command, op: OperatingState, wire1: seq<Event>,
                 wire2: seq<Event>, ok: bool)
    requires InTurn(pause, t, [first], op, [wire1], true) && InTurn(pause, t, [second], op, [wire2], ok)
    ensures InTurn(pause, t, [first, second], op, [wire1, wire2], ok)
  {
    assert Achieved([first][0], [wire1][0]) && WireFits(pause, t, [first][0], op, [wire1][0]);
    assert WireFits(pause, t, [second][0], op, [wire2][0]) && (ok ==> Achieved([second][0], [wire2][0]));
  }

  class CommandSubscriber {
    const applier: ApplyCommand

    constructor (applier: ApplyCommand)
      ensures this.applier == applier
    {
      this.applier := applier;
    }

    /** What a handler leaves when its payload asks for cmds. The commands applied are the first of cmds, each after the
        one before had achieved all its writes: wires are their wire operations. Of the requests of cmds the first n
        were made, each after the one before had succeeded. ok means that every command achieved its writes, and then
        the registers are as commanded. Without ok, in a transition nothing was requested, and otherwise the last
        request was counted as failed or a context has cut the dwell short. */
    twostate predicate Handled(cfg: Config, t: Tid, r: Run, r': Run, cmds: seq<Command>, n: nat,
                               wires: seq<seq<Event>>, ok: bool)
      reads applier, applier.dispatcher, applier.dispatcher.client, applier.dispatcher.client.world,
            applier.dispatcher.notifier, applier.snapshots
    {
      var op := applier.snapshots.latest.operation;
      var before := old(applier.dispatcher.client.world.memory.holding);
      var after := applier.dispatcher.client.world.memory.holding;
      && applier.Ready(cfg, t, r') && r'.start == r.start && r.acts <= r'.acts && r'.cur.threads == r.cur.threads
      && LeavesAll(applier.powerOffPause, t, r, r', cmds, op, n, wires, ok)
      && (ok ==> after == AllAchieved(cmds, before))
      && (n == 0 ==> after == before)
      && (n == 0 <==> cmds == [] || 1 <= op <= 12)
      && var cuts := applier.dispatcher.client.world.cuts - old(applier.dispatcher.client.world.cuts);
         if ok then cuts == 0 else n == 0 || GivenUp(t, r', cuts)
    }

    method ApplyOne(cmd: Command, ghost cfg: Config, ghost t: Tid, ghost r: Run)
        returns (ok: bool, ghost n: nat, ghost wire: seq<Event>, ghost r': Run)
      requires applier.Ready(cfg, t, r)
      modifies applier.dispatcher, applier.dispatcher.notifier, applier.dispatcher.client`connected,
               applier.dispatcher.client`lastOpAt, applier.dispatcher.client.world
      ensures Handled(cfg, t, r, r', [cmd], n, [wire], ok)
    {
      var err;
      ghost var pause, op := applier.powerOffPause, applier.snapshots.latest.operation;
      ghost var before := applier.dispatcher.client.world.memory.holding;
      err, n, wire, r' := applier.Apply(cmd, cfg, t, r);
      ok := err.None?;
      LeavesOne(pause, t, r, r', cmd, op, n, wire, ok);
      AchievedByOne(cmd, before);
    }

    /** The second command is skipped if the first fails. */
    method ApplyTwo(first: Command, second: Command, ghost cfg: Config, ghost t: Tid, ghost r: Run)
        returns (ok: bool, ghost n: nat, ghost wires: seq<seq<Event>>, ghost r': Run)
      requires applier.Ready(cfg, t, r)
      modifies applier.dispatcher, applier.dispatcher.notifier, applier.dispatcher.client`connected,
               applier.dispatcher.client`lastOpAt, applier.dispatcher.client.world
      ensures Handled(cfg, t, r, r', [first, second], n, wires, ok)
    {
      ghost var pause, op := applier.powerOffPause, applier.snapshots.latest.operation;
      ghost var wire1, r1;
      ok, n, wire1, r1 := ApplyOne(first, cfg, t, r);
      LeavesFirst(pause, t, r, r1, first, second, op, wire1, n, ok);
      if !ok {
        return ok, n, [wire1], r1;
      }
      ghost var m, wire2, r2;
      ok, m, wire2, r2 := ApplyOne(second, cfg, t, r1);
      LeavesBoth(pause, t, r, r1, r2, first, second, op, wire1, wire2, n, m, ok);
      AchievedInTurn(first, second, old(applier.dispatcher.client.world.memory.holding));
      return ok, n + m, [wire1, wire2], r2;
    }

    method HandlePower(payload: string, ghost cfg: Config, ghost t: Tid, ghost r: Run)
        returns (ok: bool, ghost n: nat, ghost wires: seq<seq<Event>>, ghost r': Run)
      requires applier.Ready(cfg, t, r)
      modifies applier.dispatcher, applier.dispatcher.notifier, applier.dispatcher.client`connected,
               applier.dispatcher.client`lastOpAt, applier.dispatcher.client.world
      ensures Handled(cfg, t, r, r', CommandsOf(PowerMessage(payload)), n, wires, ok)
    {
      ghost var wire;
      ok, n, wires, r' := true, 0, [], r;
      if Lower(payload) == "on" {
        ok, n, wire, r' := ApplyOne(SetPower(true), cfg, t, r);
        wires := [wire];
      } else if Lower(payload) == "off" {
        ok, n, wire, r' := ApplyOne(SetPower(false), cfg, t, r);
        wires := [wire];
      }
    }

    method HandleHvacMode(payload: string, ghost cfg: Config, ghost t: Tid, ghost r: Run)
        returns (ok: bool, ghost n: nat, ghost wires: seq<seq<Event>>, ghost r': Run)
      requires applier.Ready(cfg, t, r)
      modifies applier.dispatcher, applier.dispatcher.notifier, applier.dispatcher.client`connected,
               applier.dispatcher.client`lastOpAt, applier.dispatcher.client.world
      ensures Handled(cfg, t, r, r', CommandsOf(HvacModeMessage(payload)), n, wires, ok)
    {
      ghost var wire;
      ok, n, wires, r' := true, 0, [], r;
      if Lower(payload) == "off" {
        ok, n, wire, r' := ApplyOne(SetPower(false), cfg, t, r);
        wires := [wire];
      } else if Lower(payload) == "heat" {
        ok, n, wires, r' := ApplyTwo(SetPower(true), SetMode(MODE_HEAT), cfg, t, r);
      } else if Lower(payload) == "fan_only" {
        ok, n, wires, r' := ApplyTwo(SetPower(true), SetMode(MODE_OFF), cfg, t, r);
      }
    }

    method HandleTargetTemperature(celsius: Option<Number>, ghost cfg: Config, ghost t: Tid, ghost r: Run)
        returns (ok: bool, ghost n: nat, ghost wires: seq<seq<Event>>, ghost r': Run)
      requires applier.Ready(cfg, t, r)
      modifies applier.dispatcher, applier.dispatcher.notifier, applier.dispatcher.client`connected,
               applier.dispatcher.client`lastOpAt, applier.dispatcher.client.world
      ensures Handled(cfg, t, r, r', CommandsOf(TargetTemperatureMessage(celsius)), n, wires, ok)
    {
      ghost var wire;
      ok, n, wires, r' := true, 0, [], r;
      if celsius.None? {
        return;
      }
      var temperature := NewTemperature(celsius.value);
      if temperature.None? {
        return;
      }
      ok, n, wire, r' := ApplyOne(SetTemperature(temperature.value), cfg, t, r);
      wires := [wire];
    }

    method HandleFanTarget(parsed: Option<Word>, ghost cfg: Config, ghost t: Tid, ghost r: Run)
        returns (ok: bool, ghost n: nat, ghost wires: seq<seq<Event>>, ghost r': Run)
      requires applier.Ready(cfg, t, r)
      modifies applier.dispatcher, applier.dispatcher.notifier, applier.dispatcher.client`connected,
               applier.dispatcher.client`lastOpAt, applier.dispatcher.client.world
      ensures Handled(cfg, t, r, r', CommandsOf(FanTargetMessage(parsed)), n, wires, ok)
    {
      ghost var wire;
      ok, n, wires, r' := true, 0, [], r;
      if parsed.None? {
        return;
      }
      var speed := NewFanSpeed(parsed.value);
      if speed.None? {
        return;
      }
      ok, n, wire, r' := ApplyOne(SetFan(speed.value), cfg, t, r);
      wires := [wire];
    }
  }

  lemma FlatOfOne(wire: seq<Event>)
    ensures Flat([wire]) == wire
  {
    assert [wire][..0] == [];
  }

  lemma FlatOfTwo(first: seq<Event>, second: seq<Event>)
    ensures Flat([first]) == first && Flat([second]) == second
    ensures Flat([first, second]) == first + second
  {
    FlatOfOne(first);
    FlatOfOne(second);
    assert [first, second][..1] == [first];
  }

  lemma ScriptsOfOne(cmd: Command)
    ensures Scripts([cmd]) == Script(cmd)
  {
  }

  lemma ScriptsOfTwo(first: Command, second: Command)
    ensures Scripts([first, second]) == Script(first) + Script(second)
    ensures Scripts([first]) == Script(first) && Scripts([second]) == Script(second)
  {
  }

  lemma AchievedByOne(cmd: Command, before: Bank)
    ensures AllAchieved([cmd], before) == before[Target(cmd) := Achieves(cmd, before[Target(cmd)])]
  {
    assert [cmd][1..] == [];
  }

  lemma AchievedInTurn(first: Command, second: Command, before: Bank)
    ensures AllAchieved([first, second], before) == AllAchieved([second], AllAchieved([first], before))
  {
  }

  /** The registers after power was raised and the mode set: the mode bits of Dev_Keys_2 changed, its other fourteen
      bits and all other registers as they were. */
  predicate Running(mode: Mode, before: Bank, after: Bank) {
    after == before[2 := 1][86 := after[86]] && after[86] % 4 == mode && after[86] / 4 == before[86] / 4
  }

  /** What a message leaves in the controller when its handler succeeds: h2, h31, h32 or h86 as it asks; malformed and
      out-of-range payloads leave everything alone. */
  lemma MessageMeans(m: Message, before: Bank)
    ensures var after := AllAchieved(CommandsOf(m), before);
            match m
            case PowerMessage(payload) =>
              if Spells(payload, "on") then after == before[2 := 1]
              else if Spells(payload, "off") then after == before[2 := 0]
              else after == before
            case HvacModeMessage(payload) =>
              if Spells(payload, "off") then after == before[2 := 0]
              else if Spells(payload, "heat") then Running(1, before, after)
              else if Spells(payload, "fan_only") then Running(0, before, after)
              else after == before
            case TargetTemperatureMessage(celsius) =>
              if celsius.Some? && celsius.value.Finite? && 5.0 <= celsius.value.value <= 30.0 then
                after == before[31 := after[31]] && NearestTenth(after[31], celsius.value.value)
              else after == before
            case FanTargetMessage(speed) =>
              if speed.Some? && 1 <= speed.value <= 10 then after == before[32 := speed.value]
              else after == before
  {
    PayloadsMean(m);
    match m {
      case HvacModeMessage(payload) =>
        AchievedInTurn(SetPower(true), SetMode(MODE_HEAT), before);
        AchievedInTurn(SetPower(true), SetMode(MODE_OFF), before);
        ModeFieldUpdate(before[DEV_KEYS_2], MODE_HEAT);
        ModeFieldUpdate(before[DEV_KEYS_2], MODE_OFF);
        ApplyIsArithmetic(before[DEV_KEYS_2], MODE_HEAT);
        ApplyIsArithmetic(before[DEV_KEYS_2], MODE_OFF);
      case TargetTemperatureMessage(celsius) =>
        if celsius.Some? && NewTemperature(celsius.value).Some? {
          RawIsNearest(celsius.value);
        }
      case _ =>
    }
  }
}
