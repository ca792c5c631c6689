/** The failure-counting wrapper around the client (application/service/command_dispatcher.go), and the supervisor it
    signals (application/service/connection_supervisor.go). Their methods' contracts, like the client's, say that
    they are runs of the machine's steps. */
module Dispatcher {
  import opened Words
  import opened Snapshots
  import opened Modbus
  import opened Machine
  import opened Transactions
  import opened Client
  import Safety
  import B = Backoff

  /** So many failed dials, and then perhaps one that succeeded. */
  predicate Tried(before: seq<bool>, dials: seq<bool>, failures: nat, ok: bool) {
    dials == before + seq(failures, _ => false) + if ok then [true] else []
  }

  lemma OneMoreFailure(before: seq<bool>, dials: seq<bool>, failures: nat)
    requires Tried(before, dials, failures, false)
    ensures Tried(before, dials + [false], failures + 1, false)
    ensures Tried(before, dials + [true], failures, true)
  {
    assert seq(failures + 1, _ => false) == seq(failures, _ => false) + [false];
  }

  /** The capacity-1 channel between the two. */
  class TriggerChannel {
    var full: bool

    constructor ()
      ensures !full
    {
      full := false;
    }

    /** Non-blocking: a send into a full channel is dropped. */
    method Send()
      modifies this
      ensures full
    {
      if !full {
        full := true;
      }
    }

    method Receive()
      requires full
      modifies this
      ensures !full
    {
      full := false;
    }
  }

  class CommandDispatcher {
    const client: Client
    const notifier: TriggerChannel
    const threshold: int
    var consecutiveErrs: nat

    constructor (client: Client, notifier: TriggerChannel, threshold: int)
      requires threshold > 0
      ensures this.client == client && this.notifier == notifier && this.threshold == threshold
      ensures consecutiveErrs == 0
    {
      this.client := client;
      this.notifier := notifier;
      this.threshold := threshold;
      consecutiveErrs := 0;
    }

    /** The machine is where client, counter and channel are, and thread t may call. */
    ghost predicate Ready(cfg: Config, t: Tid, r: Run)
      reads this, client, client.world, notifier
    {
      && client.Agrees(cfg, r) && cfg.threshold == threshold
      && r.cur.errs == consecutiveErrs && r.cur.token == notifier.full
      && r.cur.owner == Nobody && t in r.cur.threads
    }

    /** Counts the outcome; at the threshold, and at every failure after it, signals the supervisor. The call then
        returns. */
    method RecordOutcome(ok: bool, ghost cfg: Config, ghost t: Tid, ghost r: Run) returns (ghost r': Run)
      requires Ready(cfg, t, r) && r.cur.threads[t].Report? && r.cur.threads[t].res.Ok? == ok
      modifies this, notifier
      ensures Ready(cfg, t, r')
      ensures r'.start == r.start && r.acts <= r'.acts
      ensures r'.cur.threads == r.cur.threads[t := Idle]
      ensures r'.cur.sup == r.cur.sup && r'.cur.link == r.cur.link
      ensures LedgerOf(r'.cur.trace, t)
              == LedgerOf(r.cur.trace, t).(outcomes := OutcomesBy(r.cur.trace, t) + [ok])
      ensures CallLeft(t, r.cur.threads[t].req, r.cur.threads[t].res, r')
      ensures consecutiveErrs == if ok then 0 else old(consecutiveErrs) + 1
      ensures notifier.full == (old(notifier.full) || (!ok && consecutiveErrs >= threshold))
    {
      r' := Settle(cfg, t, r);
      if ok {
        consecutiveErrs := 0;
        return;
      }
      consecutiveErrs := consecutiveErrs + 1;
      var current := consecutiveErrs;
      if current >= threshold {
        notifier.Send();
      }
    }

    /** What a proxy leaves: the call done and returned, its outcome counted, and its wire operations those the
        request allows, with the result that their last reply means. */
    twostate predicate Proxied(cfg: Config, t: Tid, r: Run, r': Run, req: Request, res: Result)
      reads this, client, client.world, notifier
    {
      && Ready(cfg, t, r') && r'.start == r.start && r.acts <= r'.acts
      && r'.cur.threads == r.cur.threads && r'.cur.sup == r.cur.sup
      && CallsBy(r'.cur.trace, t) == CallsBy(r.cur.trace, t) + [req]
      && OutcomesBy(r'.cur.trace, t) == OutcomesBy(r.cur.trace, t) + [res.Ok?]
      && WireBy(r'.cur.trace, t) == WireBy(r.cur.trace, t) + Trail(r'.cur.trace, t)
      && CallLeft(t, req, res, r') && CalledAt(r'.cur.trace, t) == r.cur.link.now
      && old(client.world.now) <= client.world.now
      && consecutiveErrs == (if res.Ok? then 0 else old(consecutiveErrs) + 1)
      && notifier.full == (old(notifier.full) || (res.Err? && consecutiveErrs >= threshold))
      && Excused(old(client.world.cuts), client.world.cuts, Finished(res))
      && (res == Err(NotConnected) <==> ValidCount(req) && !old(client.connected))
    }

    /** ReadInput and ReadHolding. */
    method Read(bank: BankName, start: Addr, count: Addr, ghost cfg: Config, ghost t: Tid, ghost r: Run)
        returns (res: Result, ghost r': Run)
      requires Ready(cfg, t, r) && r.cur.threads[t] == Idle
      modifies this, notifier, client`connected, client`lastOpAt, client.world
      ensures Proxied(cfg, t, r, r', Request.Read(bank, start, count), res)
      ensures client.world.memory.holding == old(client.world.memory.holding)
      ensures TrueRead(ReadRegisters(bank, start, count), client.world.memory, res)
    {
      r' := Place(cfg, t, Request.Read(bank, start, count), r);
      res, r' := client.Read(bank, start, count, cfg, t, r');
      r' := RecordOutcome(res.Ok?, cfg, t, r');
      WireSplits(r'.cur.trace, t);
    }

    method WriteHolding(addr: Addr, value: Word, ghost cfg: Config, ghost t: Tid, ghost r: Run)
        returns (res: Result, ghost r': Run)
      requires Ready(cfg, t, r) && r.cur.threads[t] == Idle
      modifies this, notifier, client`connected, client`lastOpAt, client.world
      ensures Proxied(cfg, t, r, r', Write(addr, value), res)
      ensures LegEffect(WriteRegister(addr, value), old(client.world.memory.holding), client.world.memory.holding,
                        Finished(res))
    {
      r' := Place(cfg, t, Write(addr, value), r);
      res, r' := client.DoOp(Write(addr, value), cfg, t, r');
      r' := RecordOutcome(res.Ok?, cfg, t, r');
      WireSplits(r'.cur.trace, t);
    }

    method ModifyHolding(addr: Addr, update: Word -> Option<Word>, ghost cfg: Config, ghost t: Tid, ghost r: Run)
        returns (res: Result, ghost r': Run)
      requires Ready(cfg, t, r) && r.cur.threads[t] == Idle
      modifies this, notifier, client`connected, client`lastOpAt, client.world
      ensures Proxied(cfg, t, r, r', Modify(addr, update), res)
      ensures var before, after := old(client.world.memory.holding), client.world.memory.holding;
              var updated := update(before[addr]);
              if res.Ok? then updated.Some? && after == before[addr := updated.value]
              else after == before || (updated.Some? && after == before[addr := updated.value])
    {
      r' := Place(cfg, t, Modify(addr, update), r);
      res, r' := client.ModifyHolding(addr, update, cfg, t, r');
      r' := RecordOutcome(res.Ok?, cfg, t, r');
      WireSplits(r'.cur.trace, t);
    }
  }

  class ConnectionSupervisor {
    const conn: Client
    const backoff: B.Backoff
    const trigger: TriggerChannel

    constructor (conn: Client, backoff: B.Backoff, trigger: TriggerChannel)
      ensures this.conn == conn && this.backoff == backoff && this.trigger == trigger
    {
      this.conn := conn;
      this.backoff := backoff;
      this.trigger := trigger;
    }

    ghost predicate Ready(cfg: Config, r: Run)
      reads this, conn, conn.world, backoff, trigger
    {
      conn.Agrees(cfg, r) && backoff.Valid() && r.cur.token == trigger.full && r.cur.owner == Nobody
    }

    /** The timer against the context: false when the context is done first, which ends the supervisor. */
    method Rest(delay: nat, ghost cfg: Config, ghost r: Run) returns (ok: bool, ghost r': Run)
      requires Ready(cfg, r) && r.cur.sup.Resting? && r.cur.sup.until == conn.world.now + delay
      modifies conn.world`now, conn.world`memory, conn.world`cuts
      ensures conn.world.cuts == old(conn.world.cuts) + if ok then 0 else 1
      ensures Ready(cfg, r') && Supervises(cfg, r, r')
      ensures conn.world.now >= old(conn.world.now) && (ok ==> conn.world.now >= old(conn.world.now) + delay)
      ensures r'.cur.sup == if ok then WantsDial(r.cur.sup.boot) else Stopped
    {
      ok := conn.world.Sleep(conn.world.now + delay);
      r' := Do(cfg, r, Tick(conn.world.now));
      r' := Do(cfg, r', Drift(conn.world.memory.input));
      if ok {
        r' := Do(cfg, r', SupWake);
      } else {
        r' := Do(cfg, r', SupStop);
      }
    }

    /** The backoff's next delay, waited out. */
    method Pause(random: B.Sample, ghost cfg: Config, ghost r: Run) returns (ok: bool, ghost r': Run)
      requires Ready(cfg, r)
      requires r.cur.sup.Resting? && r.cur.sup.until == conn.world.now + B.Wait(backoff.cfg, backoff.calls, random)
      modifies conn.world`now, conn.world`memory, conn.world`cuts, backoff
      ensures conn.world.cuts == old(conn.world.cuts) + if ok then 0 else 1
      ensures Ready(cfg, r') && Supervises(cfg, r, r') && backoff.calls == old(backoff.calls) + 1
      ensures conn.world.now >= old(conn.world.now)
      ensures ok ==> conn.world.now >= old(conn.world.now) + B.Wait(backoff.cfg, old(backoff.calls), random)
      ensures r'.cur.sup == if ok then WantsDial(r.cur.sup.boot) else Stopped
    {
      var delay := backoff.Next(random);
      ok, r' := Rest(delay, cfg, r);
    }

    /** One attempt; a success starts the backoff over. delay is the wait that will follow a failure. */
    method Attempt(ghost cfg: Config, ghost delay: nat, ghost r: Run) returns (ok: bool, ghost r': Run)
      requires Ready(cfg, r) && r.cur.sup.WantsDial?
      modifies conn, conn.world`now, conn.world`memory, conn.world`dials, backoff
      ensures conn.world.dials == old(conn.world.dials) + [ok]
      ensures Ready(cfg, r') && Supervises(cfg, r, r') && conn.world.now >= old(conn.world.now)
      ensures ok ==> conn.connected && r'.cur.sup == Listening && backoff.calls == 0
      ensures !ok ==> r'.cur.sup == Resting(r.cur.sup.boot, conn.world.now + delay)
      ensures !ok ==> backoff.calls == old(backoff.calls)
    {
      Safety.InvAlways(cfg, r.start, r.acts);
      ok, r' := conn.Connect(cfg, delay, r);
      if ok {
        backoff.Reset();
      }
    }

    /** An attempt, and after a failure the next delay of the backoff. */
    method TryOnce(random: B.Sample, ghost cfg: Config, ghost r: Run) returns (ok: bool, rested: bool, ghost r': Run)
      requires Ready(cfg, r) && r.cur.sup == WantsDial(true)
      modifies conn, conn.world, backoff
      ensures Ready(cfg, r') && Supervises(cfg, r, r') && conn.world.now >= old(conn.world.now)
      ensures !ok && rested ==> conn.world.now >= old(conn.world.now) + B.Wait(backoff.cfg, old(backoff.calls), random)
      ensures conn.world.dials == old(conn.world.dials) + [ok]
      ensures conn.world.cuts == old(conn.world.cuts) + if rested then 0 else 1
      ensures ok ==> rested && conn.connected && r'.cur.sup == Listening && backoff.calls == 0
      ensures !ok ==>
                backoff.calls == old(backoff.calls) + 1 && r'.cur.sup == if rested then WantsDial(true) else Stopped
    {
      rested := true;
      ok, r' := Attempt(cfg, B.Wait(backoff.cfg, backoff.calls, random), r);
      if !ok {
        rested, r' := Pause(random, cfg, r');
      }
    }

    /** Connects, with backoff between attempts, until it succeeds or the context is done; samples holds the random
        samples of the attempts the context leaves time for. The waits are the backoff's, and were waited out. */
    method InitialConnect(samples: seq<B.Sample>, ghost cfg: Config, ghost r: Run)
        returns (ok: bool, ghost waits: seq<nat>, ghost r': Run)
      requires Ready(cfg, r) && r.cur.sup == WantsDial(true)
      modifies conn, conn.world, backoff
      ensures Ready(cfg, r') && Supervises(cfg, r, r')
      ensures ok ==> conn.connected && r'.cur.sup == Listening && backoff.calls == 0
      ensures !ok ==> r'.cur.sup == Stopped || (r'.cur.sup == WantsDial(true) && |waits| == |samples|)
      ensures Tried(old(conn.world.dials), conn.world.dials, |waits|, ok)
      ensures conn.world.cuts == old(conn.world.cuts) + if r'.cur.sup.Stopped? then 1 else 0
      ensures B.Waited(backoff.cfg, old(backoff.calls), samples, waits, conn.world.now - old(conn.world.now),
                       r'.cur.sup.Stopped?)
    {
      r' := r;
      ok := false;
      waits := [];
      ghost var first, start := backoff.calls, conn.world.now;
      for i := 0 to |samples|
        invariant Ready(cfg, r') && Supervises(cfg, r, r') && r'.cur.sup == WantsDial(true)
        invariant |waits| == i && backoff.calls == first + i
        invariant B.Waited(backoff.cfg, first, samples, waits, conn.world.now - start, false)
        invariant Tried(old(conn.world.dials), conn.world.dials, i, false) && conn.world.cuts == old(conn.world.cuts)
      {
        ghost var before, delay := conn.world.now - start, B.Wait(backoff.cfg, backoff.calls, samples[i]);
        OneMoreFailure(old(conn.world.dials), conn.world.dials, i);
        var connected, rested;
        connected, rested, r' := TryOnce(samples[i], cfg, r');
        B.MoreTime(backoff.cfg, first, samples, waits, before, conn.world.now - start);
        if connected {
          return true, waits, r';
        }
        B.OneMoreWait(backoff.cfg, first, samples, waits, before, delay, conn.world.now - start);
        waits := waits + [delay];
        if !rested {
          return false, waits, r';
        }
      }
    }

    /** One turn of the run loop after a token: teardown, then delayed attempts until one succeeds or the context is
        done. On success the client is connected, the backoff starts over, and the token is gone. */
    method Serve(samples: seq<B.Sample>, ghost cfg: Config, ghost r: Run)
        returns (ok: bool, ghost waits: seq<nat>, ghost r': Run)
      requires Ready(cfg, r) && r.cur.sup == Listening && trigger.full && |samples| > 0
      modifies conn, conn.world, backoff, trigger
      ensures Ready(cfg, r') && !trigger.full && r'.start == r.start && r.acts <= r'.acts
      ensures r'.cur.threads == r.cur.threads && r'.cur.errs == r.cur.errs
      ensures ok ==> conn.connected && r'.cur.sup == Listening && backoff.calls == 0
      ensures !ok ==> r'.cur.sup == Stopped || (r'.cur.sup.Resting? && |waits| == |samples|)
      ensures waits != []
      ensures var failures := if ok || r'.cur.sup.Stopped? then |waits| - 1 else |waits|;
              Tried(old(conn.world.dials), conn.world.dials, failures, ok)
      ensures conn.world.cuts == old(conn.world.cuts) + if r'.cur.sup.Stopped? then 1 else 0
      ensures B.Waited(backoff.cfg, old(backoff.calls), samples, waits, conn.world.now - old(conn.world.now),
                       r'.cur.sup.Stopped?)
    {
      trigger.Receive();
      r' := Do(cfg, r, SupReceive);
      ghost var next := B.Wait(backoff.cfg, backoff.calls, samples[0]);
      r' := conn.ForceClose(cfg, next, r');
      ok, waits, r' := ReconnectLoop(samples, cfg, r');
    }

    /** The next delay of the backoff, and then an attempt; next is the wait that will follow a failure. */
    method Retry(random: B.Sample, ghost cfg: Config, ghost next: nat, ghost r: Run)
        returns (rested: bool, ok: bool, ghost r': Run)
      requires Ready(cfg, r) && r.cur.sup == Resting(false, conn.world.now + B.Wait(backoff.cfg, backoff.calls, random))
      modifies conn, conn.world, backoff
      ensures Ready(cfg, r') && Supervises(cfg, r, r') && conn.world.now >= old(conn.world.now)
      ensures rested ==> conn.world.now >= old(conn.world.now) + B.Wait(backoff.cfg, old(backoff.calls), random)
      ensures conn.world.cuts == old(conn.world.cuts) + if rested then 0 else 1
      ensures conn.world.dials == old(conn.world.dials) + if rested then [ok] else []
      ensures !rested ==> !ok && r'.cur.sup == Stopped
      ensures ok ==> conn.connected && r'.cur.sup == Listening && backoff.calls == 0
      ensures rested && !ok ==>
                r'.cur.sup == Resting(false, conn.world.now + next) && backoff.calls == old(backoff.calls) + 1
    {
      ok := false;
      rested, r' := Pause(random, cfg, r);
      if rested {
        ok, r' := Attempt(cfg, next, r');
      }
    }

    /** Each attempt comes after the next delay of the backoff. */
    method ReconnectLoop(samples: seq<B.Sample>, ghost cfg: Config, ghost r: Run)
        returns (ok: bool, ghost waits: seq<nat>, ghost r': Run)
      requires Ready(cfg, r) && |samples| > 0
      requires r.cur.sup == Resting(false, conn.world.now + B.Wait(backoff.cfg, backoff.calls, samples[0]))
      modifies conn, conn.world, backoff
      ensures Ready(cfg, r') && Supervises(cfg, r, r')
      ensures ok ==> conn.connected && r'.cur.sup == Listening && backoff.calls == 0
      ensures !ok ==> r'.cur.sup == Stopped || (r'.cur.sup.Resting? && |waits| == |samples|)
      ensures waits != []
      ensures var failures := if ok || r'.cur.sup.Stopped? then |waits| - 1 else |waits|;
              Tried(old(conn.world.dials), conn.world.dials, failures, ok)
      ensures conn.world.cuts == old(conn.world.cuts) + if r'.cur.sup.Stopped? then 1 else 0
      ensures B.Waited(backoff.cfg, old(backoff.calls), samples, waits, conn.world.now - old(conn.world.now),
                       r'.cur.sup.Stopped?)
    {
      r' := r;
      ok := false;
      waits := [];
      ghost var first, start := backoff.calls, conn.world.now;
      for i := 0 to |samples|
        invariant Ready(cfg, r') && Supervises(cfg, r, r')
        invariant r'.cur.sup.Resting? && !r'.cur.sup.boot
        invariant i < |samples| ==>
                    r'.cur.sup.until == conn.world.now + B.Wait(backoff.cfg, backoff.calls, samples[i])
        invariant |waits| == i && backoff.calls == first + i
        invariant B.Waited(backoff.cfg, first, samples, waits, conn.world.now - start, false)
        invariant Tried(old(conn.world.dials), conn.world.dials, i, false) && conn.world.cuts == old(conn.world.cuts)
      {
        ghost var before, delay := conn.world.now - start, B.Wait(backoff.cfg, backoff.calls, samples[i]);
        ghost var next :=
          if i + 1 < |samples| then B.Wait(backoff.cfg, backoff.calls + 1, samples[i + 1]) else 0;
        OneMoreFailure(old(conn.world.dials), conn.world.dials, i);
        var rested, connected;
        rested, connected, r' := Retry(samples[i], cfg, next, r');
        B.OneMoreWait(backoff.cfg, first, samples, waits, before, delay, conn.world.now - start);
        waits := waits + [delay];
        if !rested || connected {
          return connected, waits, r';
        }
      }
    }
  }
}
