/** The validated value objects a command carries and a poll decodes
    (domain/valueobject, domain/entity/operating_state.go). */
module Values {
  import opened Words

  // ----- Mode: bits 0..1 of Dev_Keys_2 (h86)

  /** The source's Mode is an int; only its two low bits reach the wire. */
  type Mode = int

  const MODE_OFF: Mode := 0
  const MODE_HEAT: Mode := 1

  /** `m & 3` on a two's-complement integer. */
  function ModeBits(m: Mode): Word {
    m % 4
  }

  function ModeFromRegister(v: Word): Mode {
    And(v, 3)
  }

  function ApplyToRegister(reg: Word, m: Mode): (r: nat)
  {
    Or(AndNot(reg, 3), ModeBits(m))
  }

  /** What a mode write must leave alone: bits 2..15. */
  function UpperBits(w: nat): nat {
    w / 4
  }

  /** The bit expression replaces the two low bits and nothing else. */
  lemma ModeFieldUpdate(reg: Word, m: Mode)
    ensures ApplyToRegister(reg, m) < 65536
    ensures ModeFromRegister(ApplyToRegister(reg, m)) == m % 4
    ensures UpperBits(ApplyToRegister(reg, m)) == UpperBits(reg)
    ensures forall k: nat :: Bit(ApplyToRegister(reg, m), k) == if k < 2 then Bit(m % 4, k) else Bit(reg, k)
  {
    ApplyIsArithmetic(reg, m);
    var r := ApplyToRegister(reg, m);
    forall k: nat ensures Bit(r, k) == if k < 2 then Bit(m % 4, k) else Bit(reg, k) {
      FieldBits(r, reg, m % 4, k);
    }
  }

  lemma ApplyIsArithmetic(reg: Word, m: Mode)
    ensures ApplyToRegister(reg, m) == 4 * (reg / 4) + m % 4
    ensures And(ApplyToRegister(reg, m), 3) == m % 4
  {
    TwoBitField(reg / 4, reg % 4, m % 4);
    TwoBitField(reg / 4, m % 4, 0);
  }

  lemma FieldBits(r: nat, reg: nat, low: nat, k: nat)
    requires low < 4 && r == 4 * (reg / 4) + low
    ensures Bit(r, k) == if k < 2 then Bit(low, k) else Bit(reg, k)
  {
    if k == 0 {
      assert r % 2 == low % 2;
    } else if k == 1 {
      assert r / 2 % 2 == low / 2 % 2;
      BitOne(r);
      BitOne(low);
    } else {
      assert r / 4 == reg / 4;
      TwoBitsDown(r, k);
      TwoBitsDown(reg, k);
    }
  }

  lemma BitOne(n: nat)
    ensures Bit(n, 1) == (n / 2 % 2 == 1)
  {
  }

  lemma TwoBitsDown(n: nat, k: nat)
    requires k >= 2
    ensures Bit(n, k) == Bit(n / 4, k - 2)
  {
  }

  lemma TwoBitField(q: nat, low: nat, new': nat)
    requires low < 4 && new' < 4
    ensures And(4 * q + low, 3) == low
    ensures Or(AndNot(4 * q + low, 3), new') == 4 * q + new'
  {
    AndThree(2 * q + low / 2, low % 2, q, low / 2);
    AndNotThree(2 * q + low / 2, low % 2, q, low / 2);
    OrLow(2 * q, q, new' / 2, new' % 2);
  }

  lemma AndThree(a: nat, x: nat, q: nat, y: nat)
    requires x < 2 && y < 2 && a == 2 * q + y
    ensures And(2 * a + x, 3) == 2 * y + x
  {
  }

  lemma AndNotThree(a: nat, x: nat, q: nat, y: nat)
    requires x < 2 && y < 2 && a == 2 * q + y
    ensures AndNot(2 * a + x, 3) == 4 * q
  {
    assert (2 * a + x) / 2 == a && a / 2 == q;
    AndNotZero(q);
    assert AndNot(a, 1) == 2 * q;
  }

  lemma OrLow(a: nat, q: nat, y: nat, x: nat)
    requires x < 2 && y < 2 && a == 2 * q
    ensures Or(2 * a, 2 * y + x) == 2 * a + 2 * y + x
  {
    assert (2 * a) / 2 == a && a / 2 == q && (2 * y + x) / 2 == y;
    assert Or(a, y) == a + y;
  }

  lemma {:induction false} AndNotZero(v: nat)
    ensures AndNot(v, 0) == v
  {
    if v > 0 {
      AndNotZero(v / 2);
    }
  }

  // ----- Temperature

  /** A parsed float: IEEE arithmetic is modelled as exact reals plus the two unusable kinds. */
  datatype Number = Finite(value: real) | NaN | Infinite

  datatype Temperature = Temperature(celsius: real)

  const NO_TEMPERATURE := Temperature(0.0)
  const RAW_MIN := 50
  const RAW_MAX := 300

  function NewTemperature(c: Number): Option<Temperature> {
    match c
    case NaN => None
    case Infinite => None
    case Finite(v) => if v < 5.0 || v > 30.0 then None else Some(Temperature(v))
  }

  /** math.Round: to the nearest integer, halves away from zero. */
  function Round(x: real): int {
    if x >= 0.0 then (x + 0.5).Floor else -((0.5 - x).Floor)
  }

  function Raw(t: Temperature): Word {
    var scaled := Round(t.celsius * 10.0);
    if scaled < RAW_MIN then RAW_MIN else if scaled > RAW_MAX then RAW_MAX else scaled
  }

  function TemperatureFromRaw(raw: Word): Temperature {
    Temperature(raw as real / 10.0)
  }

  /** raw is the tenth of a degree nearest to the temperature, the warmer of two that are equally near. */
  predicate NearestTenth(raw: int, celsius: real) {
    -0.5 < raw as real - 10.0 * celsius <= 0.5
  }

  /** A validated temperature is written as the nearest tenth of a degree, in 50..300; any other temperature as the
      nearer end of that range. */
  lemma RawIsNearest(c: Number)
    ensures NewTemperature(c).Some? <==> c.Finite? && 5.0 <= c.value <= 30.0
    ensures NewTemperature(c).Some? ==>
              50 <= Raw(NewTemperature(c).value) <= 300 && NearestTenth(Raw(NewTemperature(c).value), c.value)
    ensures c.Finite? && c.value < 5.0 ==> Raw(Temperature(c.value)) == 50
    ensures c.Finite? && c.value > 30.0 ==> Raw(Temperature(c.value)) == 300
  {
  }

  /** A register stands for tenths of a degree, and Raw undoes that exactly on the registers in the write range. */
  lemma RawRoundTrip(raw: Word)
    ensures 10.0 * TemperatureFromRaw(raw).celsius == raw as real
    ensures Raw(TemperatureFromRaw(raw)) == raw <==> 50 <= raw <= 300
  {
  }

  // ----- Fan speed

  function NewFanSpeed(v: Word): Option<Word> {
    if v < 1 || v > 10 then None else Some(v)
  }

  // ----- Operating state: bits 0..4 of State_1 (i3)

  /** -1 is the source's OpUnknown, 0 its OpIdle, 1..12 the transitional operations. */
  type OperatingState = s: int | -1 <= s <= 12 witness 0

  const OP_UNKNOWN: OperatingState := -1
  const OP_IDLE: OperatingState := 0

  function OperatingStateFromRegister(raw: Word): OperatingState {
    var bits := And(raw, 0x1F);
    if bits > 12 then OP_UNKNOWN else bits
  }

  predicate IsTransitional(s: OperatingState) {
    s != OP_IDLE && s != OP_UNKNOWN
  }
}
