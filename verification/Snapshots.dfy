/** The polled snapshot: batched reads, decoding, and the tier merge
    (domain/entity/controller.go, application/usecase/poll_controller.go, application/service/poller.go). */
module Snapshots {
  import opened Words
  import opened Values

  /** Nanoseconds since the zero time; every clock reading is positive, 0 is Go's zero time.Time. */
  type Time = int

  const ZERO_TIME: Time := 0

  datatype BankName = InputRegisters | HoldingRegisters

  datatype Tier = Hot | Medium | Slow

  datatype DeviceConfig = DeviceConfig(heater: nat, cooler: nat, recuperator: nat, raw: Word)

  /** The source's Snapshot without its Errors field, which the poll path never fills. */
  datatype Snapshot = Snapshot(
    firmware: Word,
    deviceId: Word,
    deviceConfig: DeviceConfig,
    powerOn: bool,
    switching: bool,
    heatCapable: bool,
    coolCapable: bool,
    currentMode: Mode,
    operation: OperatingState,
    operationSecondsLeft: nat,
    targetTemp: Temperature,
    roomTemp: Temperature,
    supplyTemp: Temperature,
    fanTarget1: Word,
    fanState1: Word,
    fanState2: Word,
    heaterPwm: bool,
    damperOpen: bool,
    pidDemand: Word,
    filterPct: int,
    rawError0: Word,
    rawError1: Word,
    rawError2: Word,
    rawError3: Word,
    roomHumidity: Word,
    polledAt: Time)

  /** Go's zero value. */
  const EMPTY := Snapshot(0, 0, DeviceConfig(0, 0, 0, 0), false, false, false, false, MODE_OFF, OP_IDLE, 0,
                          NO_TEMPERATURE, NO_TEMPERATURE, NO_TEMPERATURE, 0, 0, 0, false, false, 0, 0,
                          0, 0, 0, 0, 0, ZERO_TIME)

  /** It shows an idle controller that was never polled: until the first hot poll no command is refused, and the
      watcher sees it as stale. */
  lemma EmptyMeans()
    ensures EMPTY.operation == 0 && !IsTransitional(EMPTY.operation) && EMPTY.polledAt == 0
    ensures EMPTY.currentMode == 0 && EMPTY.targetTemp.celsius == 0.0 && EMPTY.fanTarget1 == 0 && !EMPTY.powerOn
  {
  }

  // ----- Field decoders

  function Signed(raw: Word): int {
    if raw < 0x8000 then raw else raw - 0x10000
  }

  /** A sensor reading; anything NewTemperature rejects collapses to the zero temperature. */
  function SignedTempFromRaw(raw: Word): Temperature {
    match NewTemperature(Finite(Signed(raw) as real / 10.0))
    case Some(t) => t
    case None => NO_TEMPERATURE
  }

  /** Last_Time: minutes in the high byte, seconds in the low byte. */
  function ParseLastTime(raw: Word): nat {
    60 * High(raw) + Low(raw)
  }

  function DeviceConfigFromRegister(raw: Word): DeviceConfig {
    DeviceConfig(And(raw, 0xF), And(raw / 16, 0xF), And(raw / 256, 0xF), raw)
  }

  /** What the field decoders compute, in arithmetic: int16 by two's complement, the operation from five bits with
      13..31 unknown, the nibbles of Type_Dev, the seconds of Last_Time. */
  lemma FieldDecoders(raw: Word)
    ensures -0x8000 <= Signed(raw) < 0x8000 && (raw - Signed(raw)) % 0x10000 == 0
    ensures OperatingStateFromRegister(raw) == if raw % 32 <= 12 then raw % 32 else -1
    ensures IsTransitional(OperatingStateFromRegister(raw)) <==> 1 <= raw % 32 <= 12
    ensures DeviceConfigFromRegister(raw)
            == DeviceConfig(raw % 16, raw / 16 % 16, raw / 256 % 16, raw)
    ensures ParseLastTime(raw) == 60 * (raw / 256) + raw % 256
  {
    NibblesOf(raw, Pow2(4), Pow2(5));
  }

  lemma NibblesOf(raw: Word, sixteen: nat, thirtyTwo: nat)
    requires sixteen == Pow2(4) && thirtyTwo == Pow2(5)
    ensures And(raw, thirtyTwo - 1) == raw % thirtyTwo
    ensures And(raw, sixteen - 1) == raw % sixteen
    ensures And(raw / 16, sixteen - 1) == raw / 16 % sixteen
    ensures And(raw / 256, sixteen - 1) == raw / 256 % sixteen
  {
    LowMask(raw, 5, thirtyTwo);
    LowMask(raw, 4, sixteen);
    LowMask(raw / 16, 4, sixteen);
    LowMask(raw / 256, 4, sixteen);
  }

  /** A sensor register shows its temperature exactly when that is one a setpoint could have, and reads zero
      otherwise, negative readings included. */
  lemma SensorTemperature(raw: Word)
    ensures 10.0 * SignedTempFromRaw(raw).celsius == if 50 <= raw <= 300 then raw as real else 0.0
    ensures 50 <= raw <= 300 ==> Raw(SignedTempFromRaw(raw)) == raw
  {
  }

  // ----- Batched polls

  datatype Batch = Batch(bank: BankName, start: Addr, count: nat)

  /** The three reads of a tier, in order. */
  function Batches(tier: Tier): (b: seq<Batch>)
    ensures |b| == 3
    ensures forall i :: 0 <= i < 3 ==> 1 <= b[i].count <= 125 && b[i].start + b[i].count <= BANK_SIZE
  {
    match tier
    case Hot => [Batch(InputRegisters, 2, 17), Batch(InputRegisters, 25, 6), Batch(HoldingRegisters, 31, 2)]
    case Medium => [Batch(InputRegisters, 57, 2), Batch(InputRegisters, 69, 2), Batch(HoldingRegisters, 86, 1)]
    case Slow => [Batch(InputRegisters, 0, 1), Batch(InputRegisters, 79, 1), Batch(HoldingRegisters, 0, 1)]
  }

  /** The replies to a tier's batches have the lengths that were asked for. */
  predicate FullReplies(tier: Tier, got: seq<seq<Word>>) {
    |got| == 3 && forall i :: 0 <= i < 3 ==> |got[i]| == Batches(tier)[i].count
  }

  /** The partial snapshot a tier's poll builds: decoding by offset into the batches. */
  function Assemble(tier: Tier, got: seq<seq<Word>>, at: Time): Snapshot
    requires FullReplies(tier, got)
  {
    var in1, in2, hold := got[0], got[1], got[2];
    match tier
    case Hot =>
      assert |in1| == 17 && |in2| == 6 && |hold| == 2;
      var dout := in1[14];
      EMPTY.(powerOn := And(in1[0], 0x01) != 0,
             switching := And(in1[0], 0x02) != 0,
             heatCapable := And(in1[0], 0x40) != 0,
             coolCapable := And(in1[0], 0x80) != 0,
             operation := OperatingStateFromRegister(in1[1]),
             operationSecondsLeft := ParseLastTime(in1[4]),
             supplyTemp := SignedTempFromRaw(in1[7]),
             filterPct := Signed(in1[12]),
             heaterPwm := And(dout, 0x3) > 0,
             damperOpen := And(dout, 0x20) != 0,
             pidDemand := in1[16],
             fanState1 := in2[0],
             fanState2 := in2[5],
             targetTemp := TemperatureFromRaw(hold[0]),
             fanTarget1 := hold[1],
             polledAt := at,
             rawError0 := in1[2],
             rawError1 := in1[3])
    case Medium =>
      assert |in1| == 2 && |in2| == 2 && |hold| == 1;
      EMPTY.(roomTemp := SignedTempFromRaw(in1[0]),
             roomHumidity := in1[1],
             currentMode := ModeFromRegister(hold[0]),
             polledAt := at,
             rawError2 := in2[0],
             rawError3 := in2[1])
    case Slow =>
      assert |in1| == 1 && |in2| == 1 && |hold| == 1;
      EMPTY.(firmware := in1[0],
             deviceId := in2[0],
             deviceConfig := DeviceConfigFromRegister(hold[0]),
             polledAt := at)
  }

  /** The controller's memory at one instant. */
  datatype Memory = Memory(input: Bank, holding: Bank)

  function BankOf(m: Memory, b: BankName): Bank {
    match b
    case InputRegisters => m.input
    case HoldingRegisters => m.holding
  }

  function Slice(m: Memory, b: BankName, start: nat, count: nat): seq<Word>
    requires start + count <= BANK_SIZE
  {
    BankOf(m, b)[start..start + count]
  }

  /** Register addresses as the register catalogue (domain/catalog/registers.go) names them. */
  const FIRMWARE: Addr := 0
  const DEVICE_ID: Addr := 79
  const STATE_0: Addr := 2
  const STATE_1: Addr := 3
  const ERROR_CODE: Addr := 4
  const ERROR_CODE_1: Addr := 5
  const LAST_TIME: Addr := 6
  const SUPPLY_TEMP: Addr := 9
  const FILTER: Addr := 14
  const D_OUTPUTS: Addr := 16
  const REG: Addr := 18
  const FAN_STATE_1: Addr := 25
  const FAN_STATE_2: Addr := 30
  const ROOM_TEMP: Addr := 57
  const ROOM_HUMIDITY: Addr := 58
  const ERROR_CODE_2: Addr := 69
  const ERROR_CODE_3: Addr := 70
  const TYPE_DEV: Addr := 0
  const POWER_DEV: Addr := 2
  const TEMP_TARGET: Addr := 31
  const FAN_TARGET_1: Addr := 32
  const DEV_KEYS_2: Addr := 86

  /** What a tier's partial snapshot should say: each field decoded from its own catalogued register,
      in the memory its batch saw. */
  ghost predicate DecodesRegisters(tier: Tier, p: Snapshot, m1: Memory, m2: Memory, m3: Memory) {
    match tier
    case Hot =>
      && p.powerOn == Bit(m1.input[STATE_0], 0)
      && p.switching == Bit(m1.input[STATE_0], 1)
      && p.heatCapable == Bit(m1.input[STATE_0], 6)
      && p.coolCapable == Bit(m1.input[STATE_0], 7)
      && p.operation == OperatingStateFromRegister(m1.input[STATE_1])
      && p.rawError0 == m1.input[ERROR_CODE]
      && p.rawError1 == m1.input[ERROR_CODE_1]
      && p.operationSecondsLeft == ParseLastTime(m1.input[LAST_TIME])
      && p.supplyTemp == SignedTempFromRaw(m1.input[SUPPLY_TEMP])
      && p.filterPct == Signed(m1.input[FILTER])
      && p.heaterPwm == (Bit(m1.input[D_OUTPUTS], 0) || Bit(m1.input[D_OUTPUTS], 1))
      && p.damperOpen == Bit(m1.input[D_OUTPUTS], 5)
      && p.pidDemand == m1.input[REG]
      && p.fanState1 == m2.input[FAN_STATE_1]
      && p.fanState2 == m2.input[FAN_STATE_2]
      && p.targetTemp == TemperatureFromRaw(m3.holding[TEMP_TARGET])
      && p.fanTarget1 == m3.holding[FAN_TARGET_1]
    case Medium =>
      && p.roomTemp == SignedTempFromRaw(m1.input[ROOM_TEMP])
      && p.roomHumidity == m1.input[ROOM_HUMIDITY]
      && p.rawError2 == m2.input[ERROR_CODE_2]
      && p.rawError3 == m2.input[ERROR_CODE_3]
      && p.currentMode == ModeFromRegister(m3.holding[DEV_KEYS_2])
    case Slow =>
      && p.firmware == m1.input[FIRMWARE]
      && p.deviceId == m2.input[DEVICE_ID]
      && p.deviceConfig == DeviceConfigFromRegister(m3.holding[TYPE_DEV])
  }

  function SliceOf(m: Memory, b: Batch): seq<Word>
    requires b.start + b.count <= BANK_SIZE
  {
    Slice(m, b.bank, b.start, b.count)
  }

  /** Batched polls equal direct decoding, whatever memory each of the three batches saw. */
  lemma AssembleDecodesRegisters(tier: Tier, m1: Memory, m2: Memory, m3: Memory, at: Time)
    ensures var b := Batches(tier);
            var got := [SliceOf(m1, b[0]), SliceOf(m2, b[1]), SliceOf(m3, b[2])];
            && FullReplies(tier, got)
            && DecodesRegisters(tier, Assemble(tier, got, at), m1, m2, m3)
            && Assemble(tier, got, at).polledAt == at
  {
    match tier {
      case Hot =>
        SingleBits(m1.input[STATE_0]);
        SingleBits(m1.input[D_OUTPUTS]);
      case Medium =>
      case Slow =>
    }
  }

  /** Masking with one bit (or with the two low ones) tests it. */
  lemma SingleBits(w: Word)
    ensures And(w, 0x01) != 0 <==> Bit(w, 0)
    ensures And(w, 0x02) != 0 <==> Bit(w, 1)
    ensures And(w, 0x20) != 0 <==> Bit(w, 5)
    ensures And(w, 0x40) != 0 <==> Bit(w, 6)
    ensures And(w, 0x80) != 0 <==> Bit(w, 7)
    ensures And(w, 0x3) > 0 <==> Bit(w, 0) || Bit(w, 1)
  {
    assert Pow2(0) == 1 && Pow2(1) == 2 && Pow2(5) == 32 && Pow2(6) == 64 && Pow2(7) == 128;
    OneBitMask(w, 0);
    OneBitMask(w, 1);
    OneBitMask(w, 5);
    OneBitMask(w, 6);
    OneBitMask(w, 7);
    TwoBitField(w / 4, w % 4, 0);
    assert And(w, 3) == w % 4;
    BitOne(w);
  }

  lemma {:induction false} OneBitMask(w: nat, k: nat)
    ensures And(w, Pow2(k)) != 0 <==> Bit(w, k)
  {
    ZeroHasNoBits(k);
    if k > 0 {
      OneBitMask(w / 2, k - 1);
    } else {
      ZeroLaw(w / 2);
    }
  }

  lemma ZeroLaw(w: nat)
    ensures And(w, 0) == 0
  {
  }

  // ----- Merging

  /** defaultMerger: the fields a tier owns come from the partial, all others stay. */
  function Merge(tier: Tier, prev: Snapshot, partial: Snapshot): Snapshot {
    match tier
    case Hot =>
      prev.(powerOn := partial.powerOn,
            switching := partial.switching,
            heatCapable := partial.heatCapable,
            coolCapable := partial.coolCapable,
            operation := partial.operation,
            operationSecondsLeft := partial.operationSecondsLeft,
            rawError0 := partial.rawError0,
            rawError1 := partial.rawError1,
            supplyTemp := partial.supplyTemp,
            filterPct := partial.filterPct,
            heaterPwm := partial.heaterPwm,
            damperOpen := partial.damperOpen,
            pidDemand := partial.pidDemand,
            fanState1 := partial.fanState1,
            fanState2 := partial.fanState2,
            targetTemp := partial.targetTemp,
            fanTarget1 := partial.fanTarget1,
            polledAt := partial.polledAt)
    case Medium =>
      prev.(roomTemp := partial.roomTemp,
            roomHumidity := partial.roomHumidity,
            rawError2 := partial.rawError2,
            rawError3 := partial.rawError3,
            currentMode := partial.currentMode,
            polledAt := partial.polledAt)
    case Slow =>
      prev.(firmware := partial.firmware,
            deviceId := partial.deviceId,
            deviceConfig := partial.deviceConfig,
            polledAt := partial.polledAt)
  }

  /** The record built field by field: each field from the given snapshot of its owning tier. */
  function Compose(hot: Snapshot, medium: Snapshot, slow: Snapshot, at: Time): Snapshot {
    Snapshot(slow.firmware, slow.deviceId, slow.deviceConfig,
             hot.powerOn, hot.switching, hot.heatCapable, hot.coolCapable,
             medium.currentMode, hot.operation, hot.operationSecondsLeft,
             hot.targetTemp, medium.roomTemp, hot.supplyTemp,
             hot.fanTarget1, hot.fanState1, hot.fanState2, hot.heaterPwm, hot.damperOpen, hot.pidDemand,
             hot.filterPct, hot.rawError0, hot.rawError1, medium.rawError2, medium.rawError3,
             medium.roomHumidity, at)
  }

  /** One successful poll: its tier and what it decoded. */
  datatype Merged = Merged(tier: Tier, partial: Snapshot)

  function Replay(merges: seq<Merged>): Snapshot {
    if merges == [] then EMPTY
    else var last := merges[|merges| - 1];
         Merge(last.tier, Replay(merges[..|merges| - 1]), last.partial)
  }

  /** The last partial of a tier, the zero snapshot if there is none. */
  function LastOf(merges: seq<Merged>, tier: Tier): Snapshot {
    if merges == [] then EMPTY
    else if merges[|merges| - 1].tier == tier then merges[|merges| - 1].partial
    else LastOf(merges[..|merges| - 1], tier)
  }

  function LastPolledAt(merges: seq<Merged>): Time {
    if merges == [] then ZERO_TIME else merges[|merges| - 1].partial.polledAt
  }

  /** One merge replaces one part of the composition. */
  lemma MergeOfComposition(tier: Tier, hot: Snapshot, medium: Snapshot, slow: Snapshot, at: Time, p: Snapshot)
    ensures Merge(tier, Compose(hot, medium, slow, at), p)
            == match tier
               case Hot => Compose(p, medium, slow, p.polledAt)
               case Medium => Compose(hot, p, slow, p.polledAt)
               case Slow => Compose(hot, medium, p, p.polledAt)
  {
  }

  /** Whatever the order of the merges, the result depends only on the last partial of each tier and on
      the last timestamp. */
  lemma {:induction false} MergeRefinement(merges: seq<Merged>)
    ensures Replay(merges) == Compose(LastOf(merges, Hot), LastOf(merges, Medium), LastOf(merges, Slow),
                                      LastPolledAt(merges))
  {
    if merges != [] {
      var before, last := merges[..|merges| - 1], merges[|merges| - 1];
      MergeRefinement(before);
      MergeOfComposition(last.tier, LastOf(before, Hot), LastOf(before, Medium), LastOf(before, Slow),
                         LastPolledAt(before), last.partial);
    }
  }

  /** Merges of different tiers commute, except on the timestamp. */
  lemma MergesCommute(merges: seq<Merged>, a: Merged, b: Merged)
    requires a.tier != b.tier
    ensures Replay(merges + [a, b]).polledAt == b.partial.polledAt
    ensures Replay(merges + [b, a]) == Replay(merges + [a, b]).(polledAt := a.partial.polledAt)
  {
    LastOfTwo(merges, a, b);
    LastOfTwo(merges, b, a);
    MergeRefinement(merges + [a, b]);
    MergeRefinement(merges + [b, a]);
    Retimed(LastOf(merges + [a, b], Hot), LastOf(merges + [a, b], Medium), LastOf(merges + [a, b], Slow),
            b.partial.polledAt, a.partial.polledAt);
  }

  lemma Retimed(hot: Snapshot, medium: Snapshot, slow: Snapshot, at: Time, at': Time)
    ensures Compose(hot, medium, slow, at).(polledAt := at') == Compose(hot, medium, slow, at')
  {
  }

  lemma LastOfSnoc(merges: seq<Merged>, m: Merged, tier: Tier)
    ensures LastOf(merges + [m], tier) == if m.tier == tier then m.partial else LastOf(merges, tier)
  {
    assert (merges + [m])[..|merges|] == merges;
  }

  lemma LastOfTwo(merges: seq<Merged>, a: Merged, b: Merged)
    ensures forall t :: LastOf(merges + [a, b], t)
                        == if b.tier == t then b.partial else if a.tier == t then a.partial else LastOf(merges, t)
  {
    assert (merges + [a, b])[..|merges| + 1] == merges + [a];
    assert (merges + [a])[..|merges|] == merges;
  }
}
