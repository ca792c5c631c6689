/** From a register to the published snapshot, and from a command to the snapshot that shows it. */
module Readback {
  import opened Words
  import opened Values
  import opened Snapshots
  import opened Modbus
  import opened Commands
  import opened Machine
  import opened Invariants
  import opened Transactions
  import opened Bridge
  import opened Calls
  import opened Histories
  import opened Handling
  import opened Guarantees

  // ----- Commands, one by one

  predicate StartsCommand(own: seq<Event>) {
    own != [] && own[0].Noted? && own[0].note.Began?
  }

  /** No wire operation, and no success reported. */
  predicate IsSilent(own: seq<Event>) {
    forall i :: 0 <= i < |own| ==> !own[i].Exchanged? && (own[i].Noted? && own[i].note.Ended? ==> !own[i].note.ok)
  }

  lemma RefusedIsSilent(cfg: Settings, t: Tid, own: seq<Event>)
    requires Lawful(cfg, t, own) && StartsCommand(own)
    ensures 1 <= own[0].note.operation <= 12 ==> IsSilent(own)
  {
    if 1 <= own[0].note.operation <= 12 {
      forall i: nat | i < |own|
        ensures !own[i].Exchanged? && (own[i].Noted? && own[i].note.Ended? ==> !own[i].note.ok)
      {
        RefusedLeavesNothing(cfg, t, own, i);
      }
    }
  }

  lemma RefusedLeavesNothing(cfg: Settings, t: Tid, own: seq<Event>, i: nat)
    requires Lawful(cfg, t, own) && i < |own| && own[0].Noted? && own[0].note.Began?
    requires 1 <= own[0].note.operation <= 12
    ensures !own[i].Exchanged? && (own[i].Noted? && own[i].note.Ended? ==> !own[i].note.ok)
  {
  }

  /** In every run, a command that returns reports success exactly when the controller acknowledged all its writes;
      an OFF command that succeeds has sent its 1 and then its 0 and had both acknowledged. */
  lemma {:induction false} SuccessMeansAcknowledged(cfg: Settings, b: System, steps: seq<Step>, t: Tid, p: nat)
    requires cfg.core.Valid() && Initial(b) && Follows(cfg, b, steps)
    requires t in b.tasks && p <= |Final(cfg, b, steps).core.trace|
    ensures var own := Own(Final(cfg, b, steps).core.trace[..p], t);
            own != [] && own[0].Noted? && own[0].note.Began? && IsEnded(own[|own| - 1], t) ==>
              && (own[|own| - 1].note.ok <==> Achieved(own[0].note.cmd, own[1..|own| - 1]))
              && (own[0].note.cmd == SetPower(false) && own[|own| - 1].note.ok ==>
                    |own| == 4 && IsRising(own[1]) && IsFalling(own[2]) && own[2].reply.Ack?)
  {
    CommandsAreLawful(cfg, b, steps, t, p);
    var own := Own(Final(cfg, b, steps).core.trace[..p], t);
    if own != [] && own[0].Noted? && own[0].note.Began? && IsEnded(own[|own| - 1], t) {
      ResultIsAchieved(cfg, t, own);
    }
  }

  lemma ResultIsAchieved(cfg: Settings, t: Tid, own: seq<Event>)
    requires Lawful(cfg, t, own) && own != [] && own[0].Noted? && own[0].note.Began?
    requires IsEnded(own[|own| - 1], t)
    ensures own[|own| - 1].note.ok <==> Achieved(own[0].note.cmd, own[1..|own| - 1])
    ensures own[0].note.cmd == SetPower(false) && own[|own| - 1].note.ok ==>
              |own| == 4 && IsRising(own[1]) && IsFalling(own[2]) && own[2].reply.Ack?
  {
  }

  /** Everything after a command's opening note is a wire operation, while it has no result. */
  lemma WireIsExchanges(cfg: Settings, t: Tid, cmd: Command, op: OperatingState, own: seq<Event>, i: nat)
    requires own != [] && WireFits(cfg.powerOffPause, t, cmd, op, own[1..]) && 1 <= i < |own|
    ensures own[i].Exchanged?
  {
  }

  // ----- Polls decode the memory

  /** The poll a publication belongs to. */
  lemma PublishedShape(cfg: Settings, t: Tid, own: seq<Event>)
      returns (got: seq<seq<Word>>)
    requires Lawful(cfg, t, own) && own != [] && IsPublished(own[|own| - 1])
    ensures |own| == 5 && own[4].t == t && |got| == 3 && PollSoFar(t, own[4].note.merged.tier, got, own[..4])
    ensures var m := own[4].note.merged;
            FullReplies(m.tier, got) && m.partial == Assemble(m.tier, got, m.partial.polledAt)
  {
    var last: nat := |own| - 1;
    if PollShape(t, own) {
      if tr :| UnpublishedPoll(t, tr, own) {
        UnpublishedHasNone(t, tr, own);
        assert false;
      }
      got := [WordsOf(own[1]), WordsOf(own[2]), WordsOf(own[3])];
    } else {
      var cmd, op :| Validated(cmd) && CommandShape(cfg, t, own, cmd, op);
      if WireFits(cfg.powerOffPause, t, cmd, op, own[1..]) && |own| > 1 {
        WireIsExchanges(cfg, t, cmd, op, own, last);
      }
      assert false;
    }
  }

  lemma UnpublishedHasNone(t: Tid, tier: Tier, own: seq<Event>)
    requires UnpublishedPoll(t, tier, own)
    ensures !IsPublished(own[|own| - 1])
  {
  }

  lemma OwnUpTo(tr: seq<Event>, p: nat)
    requires p < |tr| && IsPublished(tr[p])
    ensures var own, idx := Own(tr[..p + 1], tr[p].t), OwnAt(tr[..p + 1], tr[p].t);
            && |idx| == |own| > 0 && idx[|idx| - 1] == p && own[|own| - 1] == tr[p]
            && (forall i :: 0 <= i < |idx| ==> idx[i] < |tr| && tr[idx[i]] == own[i])
            && (forall i, j :: 0 <= i < j < |idx| ==> idx[i] < idx[j])
  {
    var t, pre := tr[p].t, tr[..p + 1];
    assert pre == tr[..p] + [tr[p]];
    OwnSnoc(tr[..p], t, tr[p]);
    OwnPositions(pre, t);
    LastOwn(pre, t);
    assert forall i :: 0 <= i <= p ==> pre[i] == tr[i];
  }

  /** Where a publication's poll is in the history: its beginning, its three full reads, its publication. */
  lemma PublicationPositions(cfg: Settings, tr: seq<Event>, p: nat)
      returns (q: nat, j1: nat, j2: nat, j3: nat, got: seq<seq<Word>>)
    requires p < |tr| && IsPublished(tr[p])
    requires Lawful(cfg, tr[p].t, Own(tr[..p + 1], tr[p].t))
    ensures q < j1 < j2 < j3 < p
    ensures OwnAt(tr[..p + 1], tr[p].t) == [q, j1, j2, j3, p]
    ensures tr[q] == Noted(tr[p].t, PollBegan(tr[p].note.merged.tier))
    ensures |got| == 3 && FullReplies(tr[p].note.merged.tier, got)
    ensures IsFullRead(tr[j1], tr[p].t, tr[p].note.merged.tier, 0, got[0])
    ensures IsFullRead(tr[j2], tr[p].t, tr[p].note.merged.tier, 1, got[1])
    ensures IsFullRead(tr[j3], tr[p].t, tr[p].note.merged.tier, 2, got[2])
    ensures var m := tr[p].note.merged; m.partial == Assemble(m.tier, got, m.partial.polledAt)
  {
    var t, pre := tr[p].t, tr[..p + 1];
    OwnUpTo(tr, p);
    var own, idx := Own(pre, t), OwnAt(pre, t);
    got := PublishedShape(cfg, t, own);
    q, j1, j2, j3 := idx[0], idx[1], idx[2], idx[3];
    assert idx == [q, j1, j2, j3, p];
    assert own[..4] == [tr[q], tr[j1], tr[j2], tr[j3]];
    assert forall k :: 0 <= k < 3 ==> IsFullRead(own[..4][k + 1], t, tr[p].note.merged.tier, k, got[k]);
  }

  /** A full read decodes to the registers of its batch in the memory of that moment. */
  lemma ReadDecodes(m0: Memory, ts: set<Tid>, tr: seq<Event>, j: nat, t: Tid, tier: Tier, k: nat, words: seq<Word>)
    requires j < |tr| && WireInv(m0, ts, tr) && k < 3 && IsFullRead(tr[j], t, tier, k, words)
    ensures words == SliceOf(MemoryAt(m0, tr[..j]), Batches(tier)[k])
  {
    DecodeAfterEncode(SliceOf(MemoryAt(m0, tr[..j]), Batches(tier)[k]));
  }

  /** Every publication, wherever it is in the run, decodes the controller's memory: its fields are those of
      the registers themselves, at the moments of its poll's three reads, all after the poll began. */
  lemma PublicationDecodes(cfg: Settings, m0: Memory, ts: set<Tid>, tr: seq<Event>, p: nat)
      returns (q: nat, j1: nat, j2: nat, j3: nat)
    requires p < |tr| && IsPublished(tr[p]) && WireInv(m0, ts, tr)
    requires Lawful(cfg, tr[p].t, Own(tr[..p + 1], tr[p].t))
    ensures q < j1 < j2 < j3 < p
    ensures tr[q] == Noted(tr[p].t, PollBegan(tr[p].note.merged.tier))
    ensures OwnAt(tr[..p + 1], tr[p].t) == [q, j1, j2, j3, p]
    ensures DecodesRegisters(tr[p].note.merged.tier, tr[p].note.merged.partial,
                             MemoryAt(m0, tr[..j1]), MemoryAt(m0, tr[..j2]), MemoryAt(m0, tr[..j3]))
  {
    var got;
    q, j1, j2, j3, got := PublicationPositions(cfg, tr, p);
    var t, tier := tr[p].t, tr[p].note.merged.tier;
    ReadDecodes(m0, ts, tr, j1, t, tier, 0, got[0]);
    ReadDecodes(m0, ts, tr, j2, t, tier, 1, got[1]);
    ReadDecodes(m0, ts, tr, j3, t, tier, 2, got[2]);
    AssembledDecodes(tier, got, tr[p].note.merged.partial.polledAt, MemoryAt(m0, tr[..j1]), MemoryAt(m0, tr[..j2]),
                     MemoryAt(m0, tr[..j3]));
  }

  lemma AssembledDecodes(tier: Tier, got: seq<seq<Word>>, at: Time, m1: Memory, m2: Memory, m3: Memory)
    requires |got| == 3 && FullReplies(tier, got)
    requires got[0] == SliceOf(m1, Batches(tier)[0]) && got[1] == SliceOf(m2, Batches(tier)[1])
    requires got[2] == SliceOf(m3, Batches(tier)[2])
    ensures DecodesRegisters(tier, Assemble(tier, got, at), m1, m2, m3)
  {
    AssembleDecodesRegisters(tier, m1, m2, m3, at);
    assert got == [got[0], got[1], got[2]];
  }

  /** In every run, every publication decodes the controller's memory: its fields are those of the registers
      themselves, at the moments of its poll's three reads, all after the poll began. */
  lemma {:induction false} PublicationDecodesMemory(cfg: Settings, b: System, steps: seq<Step>, p: nat)
      returns (q: nat, j1: nat, j2: nat, j3: nat)
    requires cfg.core.Valid() && Initial(b) && Follows(cfg, b, steps)
    requires var tr := Final(cfg, b, steps).core.trace;
             p < |tr| && IsPublished(tr[p])
    ensures var tr, m0 := Final(cfg, b, steps).core.trace, b.core.link.memory;
            && q < j1 < j2 < j3 < p
            && tr[q] == Noted(tr[p].t, PollBegan(tr[p].note.merged.tier))
            && DecodesRegisters(tr[p].note.merged.tier, tr[p].note.merged.partial,
                                MemoryAt(m0, tr[..j1]), MemoryAt(m0, tr[..j2]), MemoryAt(m0, tr[..j3]))
  {
    BridgeInvAlways(cfg, b, steps);
    var b' := Final(cfg, b, steps);
    PublisherIsKnown(b', p);
    q, j1, j2, j3 := PublicationDecodes(cfg, b.core.link.memory, b'.tasks.Keys, b'.core.trace, p);
  }

  // ----- The transition guard, on the register

  predicate IsHotPoll(e: Event) {
    IsPublished(e) && e.note.merged.tier == Hot
  }

  /** tr[j] is the first read of the poll that tr[p] publishes, and that poll is the hot tier's last before tr[q]. */
  predicate LastHotRead(tr: seq<Event>, q: nat, p: nat, j: nat) {
    && j < p < q <= |tr| && IsHotPoll(tr[p]) && (forall k :: p < k < q ==> !IsHotPoll(tr[k]))
    && var at := OwnAt(tr[..p + 1], tr[p].t);
       |at| == 5 && at[1] == j
  }

  /** raw is what State_1 held when the last hot poll published before tr[q] read it, and 0 if there was none. */
  ghost predicate StateRead(m0: Memory, tr: seq<Event>, q: nat, raw: Word)
    requires q <= |tr|
  {
    || (raw == 0 && forall k :: 0 <= k < q ==> !IsHotPoll(tr[k]))
    || exists p: nat, j: nat :: LastHotRead(tr, q, p, j) && raw == MemoryAt(m0, tr[..j]).input[3]
  }

  /** The last publication of a tier, if there is one, and its partial. */
  lemma {:induction false} LastOfTier(tr: seq<Event>, tier: Tier) returns (p: Option<nat>)
    ensures p.None? ==>
              && LastOf(MergesIn(tr), tier) == EMPTY
              && forall k :: 0 <= k < |tr| ==> !(IsPublished(tr[k]) && tr[k].note.merged.tier == tier)
    ensures p.Some? ==>
              && p.value < |tr| && IsPublished(tr[p.value]) && tr[p.value].note.merged.tier == tier
              && LastOf(MergesIn(tr), tier) == tr[p.value].note.merged.partial
              && forall k :: p.value < k < |tr| ==> !(IsPublished(tr[k]) && tr[k].note.merged.tier == tier)
  {
    if tr == [] {
      p := None;
    } else {
      var before, e := tr[..|tr| - 1], tr[|tr| - 1];
      p := LastOfTier(before, tier);
      assert tr == before + [e];
      MergesSnoc(before, e);
      if IsPublished(e) {
        LastOfSnoc(MergesIn(before), e.note.merged, tier);
      } else {
        assert MergesIn(before) + [] == MergesIn(before);
      }
      if IsPublished(e) && e.note.merged.tier == tier {
        p := Some(|tr| - 1);
      }
    }
  }

  lemma OperationIsHot(merges: seq<Merged>)
    ensures Replay(merges).operation == LastOf(merges, Hot).operation
  {
    MergeRefinement(merges);
  }

  lemma HotOperation(s: Snapshot, m1: Memory, m2: Memory, m3: Memory)
    requires DecodesRegisters(Hot, s, m1, m2, m3)
    ensures s.operation == if m1.input[3] % 32 <= 12 then m1.input[3] % 32 else -1
  {
    FieldDecoders(m1.input[3]);
  }

  /** The operation a hot poll publishes is the one its first read saw. */
  lemma HotShowsState(cfg: Settings, m0: Memory, ts: set<Tid>, tr: seq<Event>, p: nat) returns (j: nat)
    requires p < |tr| && IsHotPoll(tr[p]) && WireInv(m0, ts, tr)
    requires Lawful(cfg, tr[p].t, Own(tr[..p + 1], tr[p].t))
    ensures j < p && |OwnAt(tr[..p + 1], tr[p].t)| == 5 && OwnAt(tr[..p + 1], tr[p].t)[1] == j
    ensures var raw := MemoryAt(m0, tr[..j]).input[3];
            tr[p].note.merged.partial.operation == if raw % 32 <= 12 then raw % 32 else -1
  {
    var q, j2, j3;
    q, j, j2, j3 := PublicationDecodes(cfg, m0, ts, tr, p);
    HotOperation(tr[p].note.merged.partial, MemoryAt(m0, tr[..j]), MemoryAt(m0, tr[..j2]), MemoryAt(m0, tr[..j3]));
  }

  /** The operation of the snapshot at tr[q] is the one the last hot poll read. */
  lemma SnapshotShowsState(cfg: Settings, m0: Memory, ts: set<Tid>, tr: seq<Event>, q: nat) returns (raw: Word)
    requires q <= |tr| && WireInv(m0, ts, tr)
    requires forall p: nat :: p < |tr| && IsPublished(tr[p]) ==> Lawful(cfg, tr[p].t, Own(tr[..p + 1], tr[p].t))
    ensures StateRead(m0, tr, q, raw)
    ensures Replay(MergesIn(tr[..q])).operation == if raw % 32 <= 12 then raw % 32 else -1
  {
    OperationIsHot(MergesIn(tr[..q]));
    var p := LastOfTier(tr[..q], Hot);
    assert forall k :: 0 <= k < q ==> tr[..q][k] == tr[k];
    if p.None? {
      raw := 0;
      EmptyMeans();
    } else {
      var j := HotShowsState(cfg, m0, ts, tr, p.value);
      raw := MemoryAt(m0, tr[..j]).input[3];
      assert LastHotRead(tr, q, p.value, j);
    }
  }

  /** In no prefix of any run has a command put anything on the wire, or reported success, that was begun while the low
      five bits of State_1, as the last hot poll before had read it, were in 1..12; with any other value, and before the
      first hot poll, it was not in a transition. */
  lemma {:induction false} TransitionRefused(cfg: Settings, b: System, steps: seq<Step>, t: Tid, p: nat)
      returns (raw: Word)
    requires cfg.core.Valid() && Initial(b) && Follows(cfg, b, steps)
    requires t in b.tasks && p <= |Final(cfg, b, steps).core.trace|
    ensures var tr := Final(cfg, b, steps).core.trace;
            var own, at := Own(tr[..p], t), OwnAt(tr[..p], t);
            StartsCommand(own) ==>
              && at != [] && at[0] < p && tr[at[0]] == own[0]
              && StateRead(b.core.link.memory, tr, at[0], raw)
              && own[0].note.operation == (if raw % 32 <= 12 then raw % 32 else -1)
              && (1 <= raw % 32 <= 12 ==> IsSilent(own))
  {
    CommandsAreLawful(cfg, b, steps, t, p);
    var tr := Final(cfg, b, steps).core.trace;
    OwnPositions(tr[..p], t);
    if StartsCommand(Own(tr[..p], t)) {
      raw := BeganAt(cfg, b, steps, OwnAt(tr[..p], t)[0]);
      RefusedIsSilent(cfg, t, Own(tr[..p], t));
    } else {
      raw := 0;
    }
  }

  /** The operation a command is checked against, on the register. */
  lemma BeganAt(cfg: Settings, b: System, steps: seq<Step>, q: nat) returns (raw: Word)
    requires cfg.core.Valid() && Initial(b) && Follows(cfg, b, steps)
    requires var tr := Final(cfg, b, steps).core.trace;
             q < |tr| && tr[q].Noted? && tr[q].note.Began?
    ensures StateRead(b.core.link.memory, Final(cfg, b, steps).core.trace, q, raw)
    ensures Final(cfg, b, steps).core.trace[q].note.operation == if raw % 32 <= 12 then raw % 32 else -1
  {
    BridgeInvAlways(cfg, b, steps);
    var b' := Final(cfg, b, steps);
    PublishersAreLawful(cfg, b');
    raw := SnapshotShowsState(cfg, b.core.link.memory, b'.tasks.Keys, b'.core.trace, q);
  }

  lemma PublishersAreLawful(cfg: Settings, b: System)
    requires AlwaysLawful(cfg, b) && NotesInv(b.tasks.Keys, b.core.trace)
    ensures forall p: nat :: p < |b.core.trace| && IsPublished(b.core.trace[p]) ==>
              Lawful(cfg, b.core.trace[p].t, Own(b.core.trace[..p + 1], b.core.trace[p].t))
  {
    forall p: nat | p < |b.core.trace| && IsPublished(b.core.trace[p])
      ensures Lawful(cfg, b.core.trace[p].t, Own(b.core.trace[..p + 1], b.core.trace[p].t))
    {
      PublisherIsKnown(b, p);
    }
  }

  // ----- Commands read back

  /** tr[k] may have changed the register. */
  predicate Touches(e: Event, addr: Addr) {
    e.Exchanged? && AccessOf(e.req, e.leg).WriteRegister? && AccessOf(e.req, e.leg).addr == addr && Applied(e.reply)
  }

  /** A register keeps the last value that was written to it. */
  lemma {:induction false} LastWriteStays(m0: Memory, tr: seq<Event>, i: nat, addr: Addr)
    requires i < |tr| && Touches(tr[i], addr)
    requires forall k :: i < k < |tr| ==> !Touches(tr[k], addr)
    ensures MemoryAt(m0, tr).holding[addr] == AccessOf(tr[i].req, tr[i].leg).value
  {
    if i < |tr| - 1 {
      LastWriteStays(m0, tr[..|tr| - 1], i, addr);
    }
  }

  /** The registers a tier's last batch reads. */
  predicate PollsRegister(tier: Tier, addr: Addr) {
    (tier == Hot && (addr == TEMP_TARGET || addr == FAN_TARGET_1)) || (tier == Medium && addr == DEV_KEYS_2)
  }

  /** What a snapshot says about a register's value. */
  predicate Shows(s: Snapshot, addr: Addr, value: Word) {
    && (addr == TEMP_TARGET ==> s.targetTemp == TemperatureFromRaw(value))
    && (addr == FAN_TARGET_1 ==> s.fanTarget1 == value)
    && (addr == DEV_KEYS_2 ==> s.currentMode == ModeFromRegister(value))
  }

  /** tr[i] writes a register, no other write reaches it before tr[j], and tr[p] publishes a poll of the right tier
      whose last read is tr[j]. */
  ghost predicate WriteThenPoll(tr: seq<Event>, i: nat, j: nat, p: nat, addr: Addr) {
    && i < j < p < |tr|
    && Touches(tr[i], addr) && (forall k :: i < k < j ==> !Touches(tr[k], addr))
    && IsPublished(tr[p]) && PollsRegister(tr[p].note.merged.tier, addr)
    && tr[j].Exchanged? && tr[j].t == tr[p].t && (forall k :: j < k < p ==> !IsOwn(tr[k], tr[p].t))
  }

  /** A poll shows the registers of its last read. */
  lemma DecodedShows(tier: Tier, s: Snapshot, m1: Memory, m2: Memory, m3: Memory, addr: Addr)
    requires DecodesRegisters(tier, s, m1, m2, m3) && PollsRegister(tier, addr)
    ensures Shows(s, addr, m3.holding[addr])
  {
  }

  /** The last write before tr[j] shows in the publication at tr[p], if the memory at tr[j] does. */
  lemma LastShows(m0: Memory, tr: seq<Event>, i: nat, j: nat, p: nat, addr: Addr)
    requires WriteThenPoll(tr, i, j, p, addr) && KeepsOwn(tr[p].note.merged, tr[p].note.snapshot)
    requires Shows(tr[p].note.merged.partial, addr, MemoryAt(m0, tr[..j]).holding[addr])
    ensures Shows(tr[p].note.merged.partial, addr, AccessOf(tr[i].req, tr[i].leg).value)
    ensures Shows(tr[p].note.snapshot, addr, AccessOf(tr[i].req, tr[i].leg).value)
  {
    LastWriteStays(m0, tr[..j], i, addr);
  }

  /** Read-back, on registers, in every run: whatever wrote the register, such a poll publishes the written value. */
  lemma {:induction false} WriteIsReadBack(cfg: Settings, b: System, steps: seq<Step>, i: nat, j: nat, p: nat,
                                           addr: Addr)
    requires cfg.core.Valid() && Initial(b) && Follows(cfg, b, steps)
    requires WriteThenPoll(Final(cfg, b, steps).core.trace, i, j, p, addr)
    ensures var tr := Final(cfg, b, steps).core.trace;
            && Shows(tr[p].note.merged.partial, addr, AccessOf(tr[i].req, tr[i].leg).value)
            && Shows(tr[p].note.snapshot, addr, AccessOf(tr[i].req, tr[i].leg).value)
  {
    BridgeInvAlways(cfg, b, steps);
    var b' := Final(cfg, b, steps);
    PublisherIsKnown(b', p);
    var m0, tr := b.core.link.memory, b'.core.trace;
    var q, j1, j2, j3 := PublicationDecodes(cfg, m0, b'.tasks.Keys, tr, p);
    LastRead(tr, tr[p].t, q, j1, j2, j3, j, p);
    DecodedShows(tr[p].note.merged.tier, tr[p].note.merged.partial, MemoryAt(m0, tr[..j1]), MemoryAt(m0, tr[..j2]),
                 MemoryAt(m0, tr[..j]), addr);
    MergedLast(tr, p);
    LastShows(m0, tr, i, j, p, addr);
  }

  /** The last of a poll's own events before its publication is its third read. */
  lemma LastRead(tr: seq<Event>, t: Tid, q: nat, j1: nat, j2: nat, j3: nat, j: nat, p: nat)
    requires q < j1 < j2 < j3 < p < |tr| && OwnAt(tr[..p + 1], t) == [q, j1, j2, j3, p]
    requires j < p && IsOwn(tr[j], t) && forall k :: j < k < p ==> !IsOwn(tr[k], t)
    ensures j == j3
  {
    var pre := tr[..p + 1];
    OwnPositions(pre, t);
    OwnsAt(pre, t, 0);
    OwnsAt(pre, t, 3);
    OwnComplete(pre, t, j);
  }

  lemma {:induction false} OwnsAt(tr: seq<Event>, t: Tid, i: nat)
    requires i < |OwnAt(tr, t)|
    ensures OwnAt(tr, t)[i] < |tr| && IsOwn(tr[OwnAt(tr, t)[i]], t)
  {
    var n := |tr| - 1;
    if !Opens(tr[n], t) && (!IsOwn(tr[n], t) || i < |OwnAt(tr[..n], t)|) {
      OwnsAt(tr[..n], t, i);
    }
  }

  /** The merged snapshot has these fields from the partial of their tier. */
  predicate KeepsOwn(m: Merged, s: Snapshot) {
    && (m.tier == Hot ==> s.targetTemp == m.partial.targetTemp && s.fanTarget1 == m.partial.fanTarget1)
    && (m.tier == Medium ==> s.currentMode == m.partial.currentMode)
  }

  lemma MergedLast(tr: seq<Event>, p: nat)
    requires p < |tr| && IsPublished(tr[p]) && PublicationsReplay(tr)
    ensures KeepsOwn(tr[p].note.merged, tr[p].note.snapshot)
  {
  }

  /** What an acknowledged command leaves in its register shows in a snapshot as what was commanded. */
  lemma CommandedValueShows(s: Snapshot, cmd: Command, before: Word)
    requires Validated(cmd)
    ensures match cmd
            case SetTemperature(t) => Shows(s, TEMP_TARGET, Raw(t)) ==> Raw(s.targetTemp) == Raw(t)
            case SetFan(v) => Shows(s, FAN_TARGET_1, v) ==> s.fanTarget1 == v
            case SetMode(mode) =>
              && ApplyMode(before, mode).Some?
              && (Shows(s, DEV_KEYS_2, ApplyMode(before, mode).value) ==> s.currentMode == mode % 4)
            case SetPower(_) => true
  {
    match cmd {
      case SetTemperature(t) =>
        RawIsNearest(Finite(t.celsius));
        RawRoundTrip(Raw(t));
      case SetMode(mode) => ModeFieldUpdate(before, mode);
      case _ =>
    }
  }

  /** The snapshot shows the command. */
  predicate ShowsCommand(s: Snapshot, cmd: Command) {
    match cmd
    case SetTemperature(t) => Raw(s.targetTemp) == Raw(t)
    case SetFan(v) => s.fanTarget1 == v
    case SetMode(mode) => s.currentMode == mode % 4
    case SetPower(_) => true
  }

  /** tr[i] is the acknowledged write of a command. */
  ghost predicate AcknowledgedWrite(e: Event, cmd: Command) {
    && e.Exchanged? && e.reply.Ack? && AccessOf(e.req, e.leg).WriteRegister?
    && |Script(cmd)| == 1 && e.req == Script(cmd)[0]
  }

  /** Read-back, on commands: after a temperature, fan or mode command's write was acknowledged, a poll of the
      matching tier whose last read comes later publishes what was commanded, through the encoding, the
      read-modify-write, the batched read, the decoding and the merge, unless another write reached that register
      before the read. */
  lemma {:induction false} CommandIsReadBack(cfg: Settings, b: System, steps: seq<Step>, cmd: Command, i: nat, j: nat,
                                             p: nat)
    requires cfg.core.Valid() && Initial(b) && Follows(cfg, b, steps)
    requires Validated(cmd) && !cmd.SetPower?
    requires var tr := Final(cfg, b, steps).core.trace;
             && i < |tr| && AcknowledgedWrite(tr[i], cmd)
             && WriteThenPoll(tr, i, j, p, AccessOf(tr[i].req, tr[i].leg).addr)
    ensures ShowsCommand(Final(cfg, b, steps).core.trace[p].note.merged.partial, cmd)
    ensures ShowsCommand(Final(cfg, b, steps).core.trace[p].note.snapshot, cmd)
  {
    var m0, tr := b.core.link.memory, Final(cfg, b, steps).core.trace;
    WriteIsReadBack(cfg, b, steps, i, j, p, AccessOf(tr[i].req, tr[i].leg).addr);
    assert NoLostUpdate(m0, tr) by {
      BridgeInvAlways(cfg, b, steps);
    }
    WrittenIsCommanded(m0, tr, cmd, i, tr[p].note.merged.partial);
    WrittenIsCommanded(m0, tr, cmd, i, tr[p].note.snapshot);
  }

  lemma WrittenIsCommanded(m0: Memory, tr: seq<Event>, cmd: Command, i: nat, s: Snapshot)
    requires NoLostUpdate(m0, tr) && Validated(cmd) && !cmd.SetPower?
    requires i < |tr| && AcknowledgedWrite(tr[i], cmd)
    requires Shows(s, AccessOf(tr[i].req, tr[i].leg).addr, AccessOf(tr[i].req, tr[i].leg).value)
    ensures ShowsCommand(s, cmd)
  {
    CommandedValueShows(s, cmd, MemoryAt(m0, tr[..i]).holding[DEV_KEYS_2]);
  }

  lemma PublisherIsKnown(b: System, p: nat)
    requires NotesInv(b.tasks.Keys, b.core.trace) && p < |b.core.trace| && IsPublished(b.core.trace[p])
    ensures b.core.trace[p].t in b.tasks
  {
  }

  // ----- The shared snapshot and its subscribers

  /** After any interleaving of polls, the shared snapshot is the record built field by field from the last
      successful poll of each field's tier, with the timestamp of the last merge. */
  lemma {:induction false} LatestIsComposition(cfg: Settings, b: System, steps: seq<Step>)
    requires cfg.core.Valid() && Initial(b) && Follows(cfg, b, steps)
    ensures var merges := MergesIn(Final(cfg, b, steps).core.trace);
            Final(cfg, b, steps).latest
            == Compose(LastOf(merges, Hot), LastOf(merges, Medium), LastOf(merges, Slow), LastPolledAt(merges))
  {
    BridgeInvAlways(cfg, b, steps);
    MergeRefinement(MergesIn(Final(cfg, b, steps).core.trace));
  }

  /** A poll's last read comes after everything its thread published before. */
  lemma ReadAfterPublication(tr: seq<Event>, q: nat, j1: nat, j2: nat, j3: nat, k: nat, p: nat)
    requires k < p < |tr| && IsPublished(tr[p]) && IsPublished(tr[k]) && tr[k].t == tr[p].t
    requires q < j1 < j2 < j3 < p && OwnAt(tr[..p + 1], tr[p].t) == [q, j1, j2, j3, p]
    requires !IsPublished(tr[q]) && tr[j1].Exchanged? && tr[j2].Exchanged? && tr[j3].Exchanged?
    ensures k < j3
  {
    if k > q {
      OwnComplete(tr[..p + 1], tr[p].t, k);
      assert false;
    }
  }

  lemma OrderedAt(tr: seq<Event>, q: nat, j1: nat, j2: nat, j3: nat, p: nat)
    requires p < |tr| && IsPublished(tr[p]) && PublishedFresh(tr)
    requires q < j1 < j2 < j3 < p && OwnAt(tr[..p + 1], tr[p].t) == [q, j1, j2, j3, p]
    requires !IsPublished(tr[q]) && tr[j1].Exchanged? && tr[j2].Exchanged? && tr[j3].Exchanged? && tr[j3].t == tr[p].t
    ensures forall k :: j3 < k < p ==> !IsOwn(tr[k], tr[p].t)
    ensures tr[j3].end <= StampOf(tr[p])
    ensures forall k :: 0 <= k < j3 && IsPublished(tr[k]) ==> StampOf(tr[k]) <= StampOf(tr[p])
    ensures forall k :: 0 <= k < p && IsPublished(tr[k]) && tr[k].t == tr[p].t ==> k < j3
  {
    assert Fresh(tr[..p], tr[p].t, StampOf(tr[p]));
    assert tr[..p][j3] == tr[j3] && Moment(tr[j3]) == Some(tr[j3].end);
    forall k | 0 <= k < j3 && IsPublished(tr[k]) ensures StampOf(tr[k]) <= StampOf(tr[p]) {
      assert tr[..p][k] == tr[k] && Moment(tr[k]) == Some(StampOf(tr[k]));
    }
    forall k | j3 < k < p ensures !IsOwn(tr[k], tr[p].t) {
      if IsOwn(tr[k], tr[p].t) {
        OwnComplete(tr[..p + 1], tr[p].t, k);
        assert false;
      }
    }
    forall k | 0 <= k < p && IsPublished(tr[k]) && tr[k].t == tr[p].t ensures k < j3 {
      ReadAfterPublication(tr, q, j1, j2, j3, k, p);
    }
  }

  /** A poll is stamped after its last read, at j, and no earlier than any other that was published before that: so the
      polls of one poller are stamped in the order in which it publishes them. */
  lemma {:induction false} PollsAreStampedInOrder(cfg: Settings, b: System, steps: seq<Step>, p: nat) returns (j: nat)
    requires cfg.core.Valid() && Initial(b) && Follows(cfg, b, steps)
    requires p < |Final(cfg, b, steps).core.trace| && IsPublished(Final(cfg, b, steps).core.trace[p])
    ensures var tr := Final(cfg, b, steps).core.trace;
            && j < p && tr[j].Exchanged? && tr[j].t == tr[p].t && (forall k :: j < k < p ==> !IsOwn(tr[k], tr[p].t))
            && tr[j].end <= StampOf(tr[p])
            && (forall k :: 0 <= k < j && IsPublished(tr[k]) ==> StampOf(tr[k]) <= StampOf(tr[p]))
            && (forall k :: 0 <= k < p && IsPublished(tr[k]) && tr[k].t == tr[p].t ==>
                  StampOf(tr[k]) <= StampOf(tr[p]))
  {
    BridgeInvAlways(cfg, b, steps);
    var b' := Final(cfg, b, steps);
    PublisherIsKnown(b', p);
    var q, j1, j2, j3, got := PublicationPositions(cfg, b'.core.trace, p);
    j := j3;
    OrderedAt(b'.core.trace, q, j1, j2, j3, p);
  }

  lemma SnapshotHasStamp(tr: seq<Event>, p: nat)
    requires p < |tr| && IsPublished(tr[p]) && PublicationsReplay(tr)
    ensures tr[p].note.snapshot.polledAt == StampOf(tr[p])
  {
  }

  /** PolledAt of the shared snapshot can turn back only between two pollers: if the publication at p carries an earlier
      PolledAt than one before it, at i, then another poller published there, after the last read, at j, of the poll
      that p publishes. */
  lemma {:induction false} TurnsBackOnlyAcrossPollers(cfg: Settings, b: System, steps: seq<Step>, i: nat, p: nat)
      returns (j: nat)
    requires cfg.core.Valid() && Initial(b) && Follows(cfg, b, steps)
    requires var tr := Final(cfg, b, steps).core.trace;
             && i < p < |tr| && IsPublished(tr[i]) && IsPublished(tr[p])
             && tr[p].note.snapshot.polledAt < tr[i].note.snapshot.polledAt
    ensures var tr := Final(cfg, b, steps).core.trace;
            && j < i && tr[i].t != tr[p].t
            && tr[j].Exchanged? && tr[j].t == tr[p].t && forall k :: j < k < p ==> !IsOwn(tr[k], tr[p].t)
  {
    j := PollsAreStampedInOrder(cfg, b, steps, p);
    assert PublicationsReplay(Final(cfg, b, steps).core.trace) by {
      BridgeInvAlways(cfg, b, steps);
    }
    SnapshotHasStamp(Final(cfg, b, steps).core.trace, i);
    SnapshotHasStamp(Final(cfg, b, steps).core.trace, p);
  }

  /** Once subscriber k is registered and poller t in no round that began without it, it receives from t what it was
      owed then, and every later publication, each once, in order, and nothing else; at most the one being handed out is
      still missing. */
  lemma {:induction false} EachPublicationDeliveredOnce(cfg: Settings, b: System, steps: seq<Step>, more: seq<Step>,
                                                        t: Tid, k: nat)
      returns (later: seq<Snapshot>)
    requires Initial(b) && Follows(cfg, b, steps) && Follows(cfg, b, steps + more) && Sees(Final(cfg, b, steps), t, k)
    ensures Served(Final(cfg, b, steps), Final(cfg, b, steps + more), t, k, later)
  {
    if more == [] {
      assert steps + more == steps;
      later := [];
    } else {
      var longer, st := steps + more[..|more| - 1], more[|more| - 1];
      assert steps + more == longer + [st];
      Snoc(longer, st);
      var sofar := EachPublicationDeliveredOnce(cfg, b, steps, more[..|more| - 1], t, k);
      TasksStay(cfg, b, longer);
      var new' := ServedByStep(cfg, Final(cfg, b, longer), st, t, k);
      ServedOn(Final(cfg, b, steps), Final(cfg, b, longer), Final(cfg, b, steps + more), t, k, sofar, new');
      later := sofar + new';
    }
  }

  /** A subscriber registered before the start has received, from each poller, that poller's publications in
      order and nothing else; at most the one being handed out is still missing. */
  lemma {:induction false} EarlySubscribersMissNothing(cfg: Settings, b: System, steps: seq<Step>, t: Tid, k: nat)
    requires Initial(b) && Follows(cfg, b, steps) && k < b.subscribers && t in b.tasks
    ensures var b' := Final(cfg, b, steps);
            var published, delivered := PublishedBy(b'.core.trace, t), DeliveredTo(b'.core.trace, t, k);
            && t in b'.tasks
            && delivered <= published && |published| <= |delivered| + 1
            && (!b'.tasks[t].Copying? && !b'.tasks[t].Notifying? ==> delivered == published)
  {
    assert [] + steps == steps;
    var later := EachPublicationDeliveredOnce(cfg, b, [], steps, t, k);
  }

  /** A subscriber that registers while poller t hands nothing out receives all that t publishes from then on, each
      once, in order, and nothing else; at most the one being handed out is still missing. */
  lemma {:induction false} LateSubscribersMissNothing(cfg: Settings, b: System, steps: seq<Step>, more: seq<Step>,
                                                      t: Tid)
      returns (later: seq<Snapshot>)
    requires Initial(b) && Follows(cfg, b, steps) && Follows(cfg, b, steps + [Bridge.Subscribe] + more)
    requires var b1 := Final(cfg, b, steps); t in b1.tasks && !b1.tasks[t].Copying? && !b1.tasks[t].Notifying?
    ensures var b1, b2 := Final(cfg, b, steps), Final(cfg, b, steps + [Bridge.Subscribe] + more);
            && t in b2.tasks && b1.subscribers < b2.subscribers   // its number is b1.subscribers
            && PublishedBy(b2.core.trace, t) == PublishedBy(b1.core.trace, t) + later
            && DeliveredTo(b2.core.trace, t, b1.subscribers) + Undelivered(b2.tasks[t], b1.subscribers) == later
  {
    var k := Registers(cfg, b, steps, t);
    later := EachPublicationDeliveredOnce(cfg, b, steps + [Bridge.Subscribe], more, t, k);
  }

  lemma Registers(cfg: Settings, b: System, steps: seq<Step>, t: Tid) returns (k: nat)
    requires Initial(b) && Follows(cfg, b, steps)
    requires var b1 := Final(cfg, b, steps); t in b1.tasks && !b1.tasks[t].Copying? && !b1.tasks[t].Notifying?
    ensures Follows(cfg, b, steps + [Bridge.Subscribe])
    ensures var b1, b2 := Final(cfg, b, steps), Final(cfg, b, steps + [Bridge.Subscribe]);
            && k == b1.subscribers < b2.subscribers && Sees(b2, t, k)
            && b2.core == b1.core && Granted(b2, t, k) == []
  {
    Snoc(steps, Bridge.Subscribe);
    NotYetServed(cfg, b, steps, t);
    k := Final(cfg, b, steps).subscribers;
  }

  /** Nobody gets anything before registering. */
  lemma {:induction false} NotYetServed(cfg: Settings, b: System, steps: seq<Step>, t: Tid)
    requires Initial(b) && Follows(cfg, b, steps)
    ensures NoneBefore(Final(cfg, b, steps), t)
  {
    if steps != [] {
      NotYetServed(cfg, b, steps[..|steps| - 1], t);
      NoneBeforeKept(cfg, Final(cfg, b, steps[..|steps| - 1]), steps[|steps| - 1], t);
    }
  }
}
