/** The state of one simulated burner ("gorelka") as a value, and the effect
    of each of its commands on that value.

    The class Gorelka in module ExtrusionGorelka holds this state in mutable
    fields; its command methods are specified by Apply below, and the
    properties of the commands (what they leave alone, that they overwrite
    rather than accumulate, which of them commute) are proved here once. */
module GorelkaSpec {

  /** One fan: its speed in percent and whether it runs. The speed is not
      clamped to 0..100: whatever integer a command passes is stored. */
  datatype Fan = Fan(procent: int, on: bool)

  /** Every mutable field of a burner. */
  datatype DeviceState = DeviceState(
    setTempMain: int,  // commanded boiler temperature
    tempMain: int,     // measured boiler temperature
    tempExt: int,
    tempDisel: int,
    tempOil: int,
    isOn: bool,
    fire: int,
    isNightMode: bool,
    isAlarm: bool,
    fan1: Fan,
    fan2: Fan,
    mainStatus: string)

  /** The operating modes a status may name. */
  const Modes: set<string> := {"work", "sleep", "heat_od"}

  /** The state of a freshly built burner. */
  const Initial: DeviceState :=
    DeviceState(20, 20, 20, 20, 20, false, 1000, false, false, Fan(0, false), Fan(0, false), "work")

  /** The commands a burner accepts, one per command method of the device. */
  datatype Command =
    | SetTempCotel(temp: int)
    | SwitchOn
    | SwitchOff
    | SwitchNightModeOn
    | SwitchNightModeOff
    | SetFan1Procent(procent: int)
    | SetFan1On(procent: int)
    | SetFan1Off
    | SetFan2Procent(procent: int)
    | SetFan2On(procent: int)
    | SetFan2Off

  /** The fields a command may write. The readings (the four measured
      temperatures, fire, alarm and status) are not among them. */
  datatype Field = SetTempMain | IsOn | IsNightMode | Fan1Procent | Fan1On | Fan2Procent | Fan2On

  /** The value a field holds, as an integer or a flag. */
  datatype FieldValue = Num(n: int) | Flag(b: bool)

  /** The value state s holds in field f. */
  function Value(s: DeviceState, f: Field): FieldValue {
    match f
    case SetTempMain => Num(s.setTempMain)
    case IsOn => Flag(s.isOn)
    case IsNightMode => Flag(s.isNightMode)
    case Fan1Procent => Num(s.fan1.procent)
    case Fan1On => Flag(s.fan1.on)
    case Fan2Procent => Num(s.fan2.procent)
    case Fan2On => Flag(s.fan2.on)
  }

  /** s and t show the same readings: measured temperatures, fire, alarm and status. */
  predicate SameReadings(s: DeviceState, t: DeviceState) {
    s.tempMain == t.tempMain && s.tempExt == t.tempExt && s.tempDisel == t.tempDisel &&
    s.tempOil == t.tempOil && s.fire == t.fire && s.isAlarm == t.isAlarm &&
    s.mainStatus == t.mainStatus
  }

  /** The fields command c writes. */
  function Writes(c: Command): set<Field> {
    match c
    case SetTempCotel(_) => {SetTempMain}
    case SwitchOn => {IsOn}
    case SwitchOff => {IsOn}
    case SwitchNightModeOn => {IsNightMode}
    case SwitchNightModeOff => {IsNightMode}
    case SetFan1Procent(_) => {Fan1Procent}
    case SetFan1On(_) => {Fan1Procent, Fan1On}
    case SetFan1Off => {Fan1On}
    case SetFan2Procent(_) => {Fan2Procent}
    case SetFan2On(_) => {Fan2Procent, Fan2On}
    case SetFan2Off => {Fan2On}
  }

  /** The state after command c. A command never touches the readings nor
      any field outside Writes(c). */
  function Apply(s: DeviceState, c: Command): (r: DeviceState)
    ensures SameReadings(s, r)
    ensures forall f :: f !in Writes(c) ==> Value(s, f) == Value(r, f)
  {
    match c
    case SetTempCotel(t) => s.(setTempMain := t)
    case SwitchOn => s.(isOn := true)
    case SwitchOff => s.(isOn := false)
    case SwitchNightModeOn => s.(isNightMode := true)
    case SwitchNightModeOff => s.(isNightMode := false)
    case SetFan1Procent(p) => s.(fan1 := s.fan1.(procent := p))
    case SetFan1On(p) => s.(fan1 := Fan(p, true))
    case SetFan1Off => s.(fan1 := s.fan1.(on := false))
    case SetFan2Procent(p) => s.(fan2 := s.fan2.(procent := p))
    case SetFan2On(p) => s.(fan2 := Fan(p, true))
    case SetFan2Off => s.(fan2 := s.fan2.(on := false))
  }

  /** The state after the commands cs, issued in order. No sequence of
      commands changes the readings. */
  function Run(s: DeviceState, cs: seq<Command>): (r: DeviceState)
    ensures SameReadings(s, r)
    decreases |cs|
  {
    if cs == [] then s else Run(Apply(s, cs[0]), cs[1..])
  }

  /** Issuing one more command extends a run by one Apply. */
  lemma {:induction false} RunSnoc(s: DeviceState, cs: seq<Command>, c: Command)
    ensures Run(s, cs + [c]) == Apply(Run(s, cs), c)
    decreases |cs|
  {
    if cs == [] {
      assert cs + [c] == [c];
      assert [c][1..] == [];
    } else {
      assert (cs + [c])[0] == cs[0];
      assert (cs + [c])[1..] == cs[1..] + [c];
      RunSnoc(Apply(s, cs[0]), cs[1..], c);
    }
  }

  /** A run of two commands is the second applied after the first. */
  lemma RunPair(s: DeviceState, a: Command, b: Command)
    ensures Run(s, [a, b]) == Apply(Apply(s, a), b)
  {
    assert [a, b][1..] == [b] && [b][1..] == [];
    assert Run(s, [a, b]) == Run(Apply(s, a), [b]);
    assert Run(Apply(s, a), [b]) == Run(Apply(Apply(s, a), b), []);
  }

  /** Two states that agree on every field and on the readings are equal. */
  lemma Extensionality(s: DeviceState, t: DeviceState)
    requires forall f :: Value(s, f) == Value(t, f)
    requires SameReadings(s, t)
    ensures s == t
  {
    assert Value(s, SetTempMain) == Value(t, SetTempMain);
    assert Value(s, IsOn) == Value(t, IsOn) && Value(s, IsNightMode) == Value(t, IsNightMode);
    assert Value(s, Fan1Procent) == Value(t, Fan1Procent) && Value(s, Fan1On) == Value(t, Fan1On);
    assert Value(s, Fan2Procent) == Value(t, Fan2Procent) && Value(s, Fan2On) == Value(t, Fan2On);
  }

  /** A command writes values that depend on the command alone, never on the
      state it is applied to: commands are blind writes. */
  lemma BlindWrite(s: DeviceState, t: DeviceState, c: Command, f: Field)
    requires f in Writes(c)
    ensures Value(Apply(s, c), f) == Value(Apply(t, c), f)
  {
  }

  /** A command that writes every field an earlier one wrote erases the
      earlier one's effect: for instance SwitchOn then SwitchOff is SwitchOff,
      and SetFan1Procent(x) then SetFan1On(p) is SetFan1On(p). */
  lemma Overwrite(s: DeviceState, a: Command, b: Command)
    requires Writes(a) <= Writes(b)
    ensures Apply(Apply(s, a), b) == Apply(s, b)
  {
    var l, r := Apply(Apply(s, a), b), Apply(s, b);
    forall f ensures Value(l, f) == Value(r, f) {
      if f in Writes(b) {
        BlindWrite(Apply(s, a), s, b, f);
      } else {
        assert f !in Writes(a);
      }
    }
    Extensionality(l, r);
  }

  /** Every command is idempotent: issuing it twice is issuing it once. */
  lemma Idempotent(s: DeviceState, c: Command)
    ensures Apply(Apply(s, c), c) == Apply(s, c)
  {
    Overwrite(s, c, c);
  }

  /** Commands that write disjoint fields commute: for instance commands to
      fan 1 and commands to fan 2, or SwitchOn and SwitchNightModeOff. */
  lemma Commute(s: DeviceState, a: Command, b: Command)
    requires Writes(a) !! Writes(b)
    ensures Apply(Apply(s, a), b) == Apply(Apply(s, b), a)
  {
    var l, r := Apply(Apply(s, a), b), Apply(Apply(s, b), a);
    forall f ensures Value(l, f) == Value(r, f) {
      if f in Writes(a) {
        assert f !in Writes(b);
        BlindWrite(s, Apply(s, b), a, f);
      } else if f in Writes(b) {
        BlindWrite(Apply(s, a), s, b, f);
      }
    }
    Extensionality(l, r);
  }

  /** A field that no command of a run writes keeps its value: for instance a
      run of fan 1 commands leaves fan 2, power and night mode alone. */
  lemma {:induction false} RunFrame(s: DeviceState, cs: seq<Command>, f: Field)
    requires forall i :: 0 <= i < |cs| ==> f !in Writes(cs[i])
    ensures Value(s, f) == Value(Run(s, cs), f)
    decreases |cs|
  {
    if cs != [] {
      assert f !in Writes(cs[0]);
      RunFrame(Apply(s, cs[0]), cs[1..], f);
      assert Value(Apply(s, cs[0]), f) == Value(Run(s, cs), f);
    }
  }

  /** Switching a fan off keeps its speed: setting the speed to p and then
      switching off leaves the fan at p, stopped; the other fan is untouched. */
  lemma SpeedSurvivesOff(s: DeviceState, p: int)
    ensures Run(s, [SetFan1Procent(p), SetFan1Off]).fan1 == Fan(p, false)
    ensures Run(s, [SetFan1Procent(p), SetFan1Off]).fan2 == s.fan2
    ensures Run(s, [SetFan2Procent(p), SetFan2Off]).fan2 == Fan(p, false)
    ensures Run(s, [SetFan2Procent(p), SetFan2Off]).fan1 == s.fan1
  {
    RunPair(s, SetFan1Procent(p), SetFan1Off);
    RunPair(s, SetFan2Procent(p), SetFan2Off);
  }

  /** Whatever commands a burner receives after it is built, its readings stay
      at their initial values and its status stays one of the known modes. */
  lemma ReadingsStayInitial(cs: seq<Command>)
    ensures var r := Run(Initial, cs);
      r.tempMain == 20 && r.tempExt == 20 && r.tempDisel == 20 && r.tempOil == 20 &&
      r.fire == 1000 && !r.isAlarm && r.mainStatus == "work" && r.mainStatus in Modes
  {
  }
}
