/** Commands, the MQTT payloads they come from, and the registers they write
    (application/dto/command.go, interface/mqtt/command_subscriber.go, application/usecase/apply_command.go). */
module Commands {
  import opened Words
  import opened Values
  import opened Snapshots
  import opened Modbus

  datatype Command =
    | SetPower(on: bool)
    | SetMode(mode: Mode)
    | SetTemperature(temperature: Temperature)
    | SetFan(speed: Word)

  /** A received MQTT message: its command topic, and its payload as text or as strconv parsed it. */
  datatype Message =
    | PowerMessage(payload: string)
    | HvacModeMessage(payload: string)
    | TargetTemperatureMessage(celsius: Option<Number>)
    | FanTargetMessage(speed: Option<Word>)

  /** Case folding. The letters of the accepted payloads fold only to their ASCII counterparts. */
  function Lower(s: string): (r: string)
    ensures |r| == |s|
  {
    seq(|s|, i requires 0 <= i < |s| => if 'A' <= s[i] <= 'Z' then s[i] - 'A' + 'a' else s[i])
  }

  /** s is the word, each of whose letters may be a capital. The word is in lower case. */
  predicate Spells(s: string, word: string) {
    |s| == |word| && forall i :: 0 <= i < |s| ==> s[i] == word[i] || ('a' <= word[i] <= 'z' && s[i] == Capital(word[i]))
  }

  function Capital(c: char): char
    requires 'a' <= c <= 'z'
  {
    (c as int - 32) as char
  }

  lemma LowerSpells(s: string, word: string)
    requires forall i :: 0 <= i < |word| ==> 'a' <= word[i] <= 'z' || word[i] == '_'
    ensures Lower(s) == word <==> Spells(s, word)
  {
    if Spells(s, word) {
      assert forall i :: 0 <= i < |s| ==> Lower(s)[i] == word[i];
    } else if |s| == |word| {
      var i :| 0 <= i < |s| && !(s[i] == word[i] || ('a' <= word[i] <= 'z' && s[i] == Capital(word[i])));
      assert Lower(s)[i] != word[i];
    }
  }

  /** The commands a message asks for, in order; none if it is malformed or out of range. */
  function CommandsOf(m: Message): seq<Command> {
    match m
    case PowerMessage(payload) =>
      if Lower(payload) == "on" then [SetPower(true)]
      else if Lower(payload) == "off" then [SetPower(false)]
      else []
    case HvacModeMessage(payload) =>
      if Lower(payload) == "off" then [SetPower(false)]
      else if Lower(payload) == "heat" then [SetPower(true), SetMode(MODE_HEAT)]
      else if Lower(payload) == "fan_only" then [SetPower(true), SetMode(MODE_OFF)]
      else []
    case TargetTemperatureMessage(celsius) =>
      if celsius.None? then []
      else (match NewTemperature(celsius.value)
            case None => []
            case Some(t) => [SetTemperature(t)])
    case FanTargetMessage(speed) =>
      if speed.None? then []
      else (match NewFanSpeed(speed.value)
            case None => []
            case Some(v) => [SetFan(v)])
  }

  /** What the value objects guarantee about a command that came from a message. */
  predicate Validated(cmd: Command) {
    match cmd
    case SetPower(_) => true
    case SetMode(_) => true
    case SetTemperature(t) => 5.0 <= t.celsius <= 30.0
    case SetFan(v) => 1 <= v <= 10
  }

  /** Which payloads ask for what: power takes "on" and "off", hvac_mode "off", "heat" and "fan_only", in any mixture of
      cases; setpoints are 5 to 30 degrees and fan speeds 1 to 10. Every other payload asks for nothing. */
  lemma PayloadsMean(m: Message)
    ensures CommandsOf(m)
            == match m
               case PowerMessage(payload) =>
                 if Spells(payload, "on") then [SetPower(true)]
                 else if Spells(payload, "off") then [SetPower(false)]
                 else []
               case HvacModeMessage(payload) =>
                 if Spells(payload, "off") then [SetPower(false)]
                 else if Spells(payload, "heat") then [SetPower(true), SetMode(1)]
                 else if Spells(payload, "fan_only") then [SetPower(true), SetMode(0)]
                 else []
               case TargetTemperatureMessage(celsius) =>
                 if celsius.Some? && celsius.value.Finite? && 5.0 <= celsius.value.value <= 30.0 then
                   [SetTemperature(Temperature(celsius.value.value))]
                 else []
               case FanTargetMessage(speed) =>
                 if speed.Some? && 1 <= speed.value <= 10 then [SetFan(speed.value)] else []
  {
    if m.PowerMessage? || m.HvacModeMessage? {
      LowerSpells(m.payload, "on");
      LowerSpells(m.payload, "off");
      LowerSpells(m.payload, "heat");
      LowerSpells(m.payload, "fan_only");
    }
  }

  /** So the payloads the bridge announces to Home Assistant work: "ON" writes 1 to h2, "OFF" 1 and then 0. */
  lemma AnnouncedPayloads()
    ensures CommandsOf(PowerMessage("ON")) == [SetPower(true)] && Script(SetPower(true)) == [Write(2, 1)]
    ensures CommandsOf(PowerMessage("OFF")) == [SetPower(false)]
    ensures Script(SetPower(false)) == [Write(2, 1), Write(2, 0)]
  {
    PayloadsMean(PowerMessage("ON"));
    PayloadsMean(PowerMessage("OFF"));
    assert Spells("ON", "on") && Spells("OFF", "off");
  }

  lemma MessagesYieldValidated(m: Message)
    ensures forall cmd :: cmd in CommandsOf(m) ==> Validated(cmd)
    ensures |CommandsOf(m)| <= 2
  {
  }

  /** The update setMode hands to ModifyHolding. */
  function ModeUpdate(mode: Mode): Word -> Option<Word> {
    (w: Word) => ApplyMode(w, mode)
  }

  function ApplyMode(w: Word, mode: Mode): Option<Word> {
    ModeFieldUpdate(w, mode);
    Some(ApplyToRegister(w, mode))
  }

  /** The dispatcher requests of a command, in order. */
  function Script(cmd: Command): (requests: seq<Request>)
    ensures 1 <= |requests| <= 2
  {
    match cmd
    case SetPower(on) => if on then [Write(POWER_DEV, 1)] else [Write(POWER_DEV, 1), Write(POWER_DEV, 0)]
    case SetMode(mode) => [Modify(DEV_KEYS_2, ModeUpdate(mode))]
    case SetTemperature(t) => [Write(TEMP_TARGET, Raw(t))]
    case SetFan(v) => [Write(FAN_TARGET_1, v)]
  }

  /** The register a command writes. */
  function Target(cmd: Command): Addr {
    match cmd
    case SetPower(_) => POWER_DEV
    case SetMode(_) => DEV_KEYS_2
    case SetTemperature(_) => TEMP_TARGET
    case SetFan(_) => FAN_TARGET_1
  }

  /** What the command's register holds after it succeeded. */
  function Achieves(cmd: Command, before: Word): Word {
    match cmd
    case SetPower(on) => if on then 1 else 0
    case SetMode(mode) =>
      ModeFieldUpdate(before, mode);
      ApplyToRegister(before, mode)
    case SetTemperature(t) => Raw(t)
    case SetFan(v) => v
  }

  /** The registers after several commands succeeded. */
  function AllAchieved(cmds: seq<Command>, before: Bank): Bank {
    if cmds == [] then before
    else AllAchieved(cmds[1..], before[Target(cmds[0]) := Achieves(cmds[0], before[Target(cmds[0])])])
  }
}
