/**
 * The Enfora frame decoder: a frame is either a command acknowledgement
 * (it holds "OK" or "ERROR") or a telemetry report whose text, from byte 7
 * on, is matched against the decoder's pattern and read group by group.
 */
module Enfora {
  import opened Wrappers
  import opened Ascii
  import opened Numbers
  import opened Parsing
  import opened Dates

  // ------------------------------------------------------ pattern layout

  // The capture groups of the telemetry pattern, numbered from 0
  // (the matcher's group i + 1), in the order the pattern declares them.
  const EventGroup := 0
  const ImeiGroup := 1
  const StatusGroup := 2
  const Adc1Group := 3
  const Adc2Group := 4
  const HourGroup := 5
  const MinuteGroup := 6
  const SecondGroup := 7
  const ValidityGroup := 8
  const LatitudeGroup := 9     // degrees, minutes, hemisphere: 9, 10, 11
  const LongitudeGroup := 12   // degrees, minutes, hemisphere: 12, 13, 14
  const SpeedGroup := 15
  const CourseGroup := 16
  const DayGroup := 17
  const MonthGroup := 18
  const YearGroup := 19
  const AltitudeGroup := 20
  const SatellitesGroup := 21
  const BatteryGroup := 22
  const TripOdometerGroup := 23
  const OdometerGroup := 24
  const PowerGroup := 25
  const GroupCount := 26

  /**
   * What a successful match of the pattern guarantees: all 26 groups exist,
   * and the groups outside every optional part always take part (the `d*`
   * ones possibly empty).
   */
  predicate MatchShape(g: seq<Option<string>>) {
    && |g| == GroupCount
    && g[EventGroup].Some? && g[ImeiGroup].Some?
    && g[StatusGroup].Some? && g[Adc1Group].Some? && g[Adc2Group].Some?
    && g[HourGroup].Some? && g[MinuteGroup].Some? && g[SecondGroup].Some?
    && g[ValidityGroup].Some?
    && g[LatitudeGroup].Some? && g[LatitudeGroup + 1].Some? && g[LatitudeGroup + 2].Some?
    && g[LongitudeGroup].Some? && g[LongitudeGroup + 1].Some? && g[LongitudeGroup + 2].Some?
    && g[DayGroup].Some? && g[MonthGroup].Some? && g[YearGroup].Some?
    && g[TripOdometerGroup].Some? && g[OdometerGroup].Some?
  }

  type Groups = g: seq<Option<string>> | MatchShape(g) witness seq(GroupCount, i => Some("0"))

  // ------------------------------------------------------ records

  type DeviceId = int

  /** Attribute keys of a position (`Position.KEY_*`, `PREFIX_IO + i`, `PREFIX_ADC + i`). */
  datatype Key =
    | Ignition | Alarm | Io(index: nat) | Adc(index: nat)
    | Satellites | BatteryLevel | TripOdometer | Odometer | Power | Result

  /** Attribute values; `Milli(raw)` is the double `raw * 0.001`. */
  datatype Value = Flag(b: bool) | Count(n: int) | Milli(raw: int) | Text(s: string)

  datatype AlarmType =
    Sos | PowerCut | PowerRestored | PowerOff | PowerOn | GpsAntennaCut | Overspeed | Braking | Acceleration

  /** The last known fix the session keeps for a device, as `getLastLocation` copies it. */
  datatype Snapshot = Snapshot(
    valid: bool, latitude: real, longitude: real, altitude: real,
    speed: real, course: real, fixTime: int, deviceTime: int)

  /** A decoded telemetry report. */
  datatype Telemetry = Telemetry(
    deviceId: DeviceId, valid: bool,
    latitude: RawCoordinate, longitude: RawCoordinate,
    speed: real, course: real, altitude: real,
    time: DateTime, attributes: map<Key, Value>)

  /** A decoded command acknowledgement. */
  datatype Acknowledgement = Acknowledgement(deviceId: DeviceId, fix: Snapshot, attributes: map<Key, Value>)

  /** What `decode` gives back: `null`, an exception, or a position. */
  datatype Outcome = Dropped | Fault | Reported(position: Telemetry) | Acknowledged(result: Acknowledgement)

  /**
   * The collaborators of the decoder: the session bound to the connection,
   * the session lookup by IMEI, the last known fix per device, and the
   * pattern matcher applied to the sentence.
   */
  datatype Env = Env(
    connectionDevice: Option<DeviceId>,
    deviceByImei: string -> Option<DeviceId>,
    lastLocation: DeviceId -> Snapshot,
    matchPattern: string -> Option<Groups>)

  // ------------------------------------------------------ names

  /**
   * The attribute name a key is stored under: `Position.KEY_*`, or the
   * prefix `io` / `adc` followed by `Integer.toString` of the index.
   */
  function KeyName(k: Key): string {
    match k
    case Ignition => "ignition"
    case Alarm => "alarm"
    case Io(i) => "io" + Numeral(i)
    case Adc(i) => "adc" + Numeral(i)
    case Satellites => "sat"
    case BatteryLevel => "batteryLevel"
    case TripOdometer => "tripOdometer"
    case Odometer => "odometer"
    case Power => "power"
    case Result => "result"
  }

  /** The key an attribute name stands for: a fixed name, or `io` / `adc` followed by digits. */
  function KeyOfName(name: string): Option<Key> {
    if name == "ignition" then Some(Ignition)
    else if name == "alarm" then Some(Alarm)
    else if name == "sat" then Some(Satellites)
    else if name == "batteryLevel" then Some(BatteryLevel)
    else if name == "tripOdometer" then Some(TripOdometer)
    else if name == "odometer" then Some(Odometer)
    else if name == "power" then Some(Power)
    else if name == "result" then Some(Result)
    else if |name| > 2 && name[..2] == "io" && IsDigits(name[2..]) then Some(Io(DigitsValue(name[2..])))
    else if |name| > 3 && name[..3] == "adc" && IsDigits(name[3..]) then Some(Adc(DigitsValue(name[3..])))
    else None
  }

  /** The `Position.ALARM_*` string an alarm is stored as. */
  function AlarmName(a: AlarmType): string {
    match a
    case Sos => "sos"
    case PowerCut => "powerCut"
    case PowerRestored => "powerRestored"
    case PowerOff => "powerOff"
    case PowerOn => "powerOn"
    case GpsAntennaCut => "gpsAntennaCut"
    case Overspeed => "overspeed"
    case Braking => "hardBraking"
    case Acceleration => "hardAcceleration"
  }

  /** The alarm an `alarm` attribute value names. */
  function AlarmOfName(name: string): Option<AlarmType> {
    if name == "sos" then Some(Sos)
    else if name == "powerCut" then Some(PowerCut)
    else if name == "powerRestored" then Some(PowerRestored)
    else if name == "powerOff" then Some(PowerOff)
    else if name == "powerOn" then Some(PowerOn)
    else if name == "gpsAntennaCut" then Some(GpsAntennaCut)
    else if name == "overspeed" then Some(Overspeed)
    else if name == "hardBraking" then Some(Braking)
    else if name == "hardAcceleration" then Some(Acceleration)
    else None
  }

  /** The event code each alarm is reported under. */
  function AlarmCode(a: AlarmType): int32 {
    match a
    case Sos => 12
    case PowerCut => 14
    case PowerRestored => 15
    case PowerOff => 17
    case PowerOn => 18
    case GpsAntennaCut => 19
    case Overspeed => 40
    case Braking => 91
    case Acceleration => 92
  }

  // ------------------------------------------------------ alarm mapper

  /** `decodeAlarm`: the alarm an event code stands for, `None` for any other code. */
  function DecodeAlarm(code: int32): (r: Option<AlarmType>)
    ensures r.Some? <==> code in {12, 14, 15, 17, 18, 19, 40, 91, 92}
    ensures r.Some? ==> AlarmCode(r.value) == code
  {
    match code
    case 12 => Some(Sos)
    case 14 => Some(PowerCut)
    case 15 => Some(PowerRestored)
    case 17 => Some(PowerOff)
    case 18 => Some(PowerOn)
    case 19 => Some(GpsAntennaCut)
    case 40 => Some(Overspeed)
    case 91 => Some(Braking)
    case 92 => Some(Acceleration)
    case _ => None
  }

  // ------------------------------------------------------ attribute specifications

  /**
   * The ignition or alarm attribute an event code sets: events 10 and 11
   * set only the ignition flag (true for 10); any other positive event sets
   * only the alarm its code maps to, and nothing when it maps to none (a
   * `null` alarm is not stored); event 0 (or a negative one) sets neither.
   */
  function EventAttributes(event: int32): (attributes: map<Key, Value>)
    ensures attributes.Keys <= {Ignition, Alarm}
    ensures Ignition in attributes <==> event == 10 || event == 11
    ensures Ignition in attributes ==> attributes[Ignition] == Flag(event == 10)
    ensures Alarm in attributes <==> event > 0 && event != 10 && event != 11 && DecodeAlarm(event).Some?
    ensures Alarm in attributes ==> attributes[Alarm] == Text(AlarmName(DecodeAlarm(event).value))
    ensures event == 0 ==> attributes == map[]
  {
    if event == 10 || event == 11 then map[Ignition := Flag(event == 10)]
    else if event > 0 && DecodeAlarm(event).Some? then map[Alarm := Text(AlarmName(DecodeAlarm(event).value))]
    else map[]
  }

  /** The flags io1 .. ion taken from bits 0 .. n - 1 of the status word. */
  function IoUpTo(status: int32, n: nat): map<Key, Value>
    requires n <= 9
  {
    if n == 0 then map[] else IoUpTo(status, n - 1)[Io(n) := Flag(Check(status, n - 1))]
  }

  function IoAttributes(status: int32): map<Key, Value> {
    IoUpTo(status, 9)
  }

  function PutCount(m: map<Key, Value>, k: Key, r: Reading<int32>): map<Key, Value> {
    if r.Read? then m[k := Count(r.value as int)] else m
  }

  function PutMilli(m: map<Key, Value>, k: Key, r: Reading<int32>): map<Key, Value> {
    if r.Read? then m[k := Milli(r.value as int)] else m
  }

  /** The status and analog groups hold numbers or are absent. */
  predicate FlagsWellFormed(g: Groups) {
    && !ReadInt(g[StatusGroup]).Malformed?
    && !ReadInt(g[Adc1Group]).Malformed?
    && !ReadInt(g[Adc2Group]).Malformed?
  }

  /** The time, speed, course and date groups read as numbers (absent ones as 0). */
  predicate FixWellFormed(g: Groups) {
    && ReadIntOr(g[HourGroup], 0).Read?
    && ReadIntOr(g[MinuteGroup], 0).Read?
    && ReadIntOr(g[SecondGroup], 0).Read?
    && ReadDoubleOr(g[SpeedGroup], 0.0).Read?
    && ReadDoubleOr(g[CourseGroup], 0.0).Read?
    && ReadIntOr(g[DayGroup], 0).Read?
    && ReadIntOr(g[MonthGroup], 0).Read?
    && ReadIntOr(g[YearGroup], 0).Read?
  }

  /** The trailing groups hold numbers or are absent. */
  predicate TrailingWellFormed(g: Groups) {
    && !ReadDouble(g[AltitudeGroup]).Malformed?
    && !ReadInt(g[SatellitesGroup]).Malformed?
    && !ReadInt(g[BatteryGroup]).Malformed?
    && !ReadInt(g[TripOdometerGroup]).Malformed?
    && !ReadInt(g[OdometerGroup]).Malformed?
    && !ReadInt(g[PowerGroup]).Malformed?
  }

  /** Every numeric group the decoder parses holds a number or is absent. */
  predicate NumbersWellFormed(g: Groups) {
    FlagsWellFormed(g) && FixWellFormed(g) && TrailingWellFormed(g)
  }

  /** The event, io and analog attributes, each read from its own group. */
  function FlagAttributes(g: Groups, event: int32): map<Key, Value> {
    var status := ReadInt(g[StatusGroup]);
    var flags := if status.Read? then EventAttributes(event) + IoAttributes(status.value) else EventAttributes(event);
    PutMilli(PutMilli(flags, Adc(1), ReadInt(g[Adc1Group])), Adc(2), ReadInt(g[Adc2Group]))
  }

  /** `m` with the trailing attributes added, each read from its own group. */
  function TrailingAttributes(g: Groups, m: map<Key, Value>): map<Key, Value> {
    var counts := PutCount(PutCount(PutCount(m,
      Satellites, ReadInt(g[SatellitesGroup])),
      BatteryLevel, ReadInt(g[BatteryGroup])),
      TripOdometer, ReadInt(g[TripOdometerGroup]));
    PutMilli(PutCount(counts, Odometer, ReadInt(g[OdometerGroup])), Power, ReadInt(g[PowerGroup]))
  }

  function ReportAttributes(g: Groups, event: int32): map<Key, Value> {
    TrailingAttributes(g, FlagAttributes(g, event))
  }

  function ReportTime(g: Groups): DateTime
    requires FixWellFormed(g)
  {
    DateTime(
      ReadIntOr(g[YearGroup], 0).value as int,
      ReadIntOr(g[MonthGroup], 0).value as int,
      ReadIntOr(g[DayGroup], 0).value as int,
      ReadIntOr(g[HourGroup], 0).value as int,
      ReadIntOr(g[MinuteGroup], 0).value as int,
      ReadIntOr(g[SecondGroup], 0).value as int)
  }

  function ReportAltitude(g: Groups): real {
    var altitude := ReadDouble(g[AltitudeGroup]);
    if altitude.Read? then altitude.value else 0.0
  }

  /** The report built from the groups of a match, each field from its own group. */
  function Report(g: Groups, device: DeviceId, event: int32): Telemetry
    requires NumbersWellFormed(g)
  {
    Telemetry(
      device,
      g[ValidityGroup].value == "A",
      RawCoordinate(g[LatitudeGroup], g[LatitudeGroup + 1], g[LatitudeGroup + 2]),
      RawCoordinate(g[LongitudeGroup], g[LongitudeGroup + 1], g[LongitudeGroup + 2]),
      ReadDoubleOr(g[SpeedGroup], 0.0).value,
      ReadDoubleOr(g[CourseGroup], 0.0).value,
      ReportAltitude(g),
      ReportTime(g),
      ReportAttributes(g, event))
  }

  // ------------------------------------------------------ decoder specification

  const OK: seq<byte> := Encode("OK")
  const ERROR: seq<byte> := Encode("ERROR")

  /** The classifier: the frame holds "OK" or "ERROR" somewhere. */
  predicate IsAcknowledgement(buf: seq<byte>) {
    Contains(buf, OK) || Contains(buf, ERROR)
  }

  /** The text handed to the pattern: every byte from offset 7 on. */
  function Sentence(buf: seq<byte>): string
    requires |buf| >= 7
  {
    AsciiString(buf[7..])
  }

  function ResultSpec(env: Env, buf: seq<byte>): Outcome {
    match env.connectionDevice
    case None => Dropped
    case Some(device) =>
      if |buf| < 11 then Fault
      else
        var last := env.lastLocation(device);
        var text := AsciiString(buf[9..|buf| - 2]);
        Acknowledged(Acknowledgement(device, last.(fixTime := last.deviceTime),
          if |text| > 0 then map[Result := Text(text)] else map[]))
  }

  function TelemetrySpec(env: Env, buf: seq<byte>): Outcome {
    if |buf| < 7 then Fault
    else match env.matchPattern(Sentence(buf))
      case None => Dropped
      case Some(g) =>
        match ReadIntOr(g[EventGroup], 0)
        case Read(event) =>
          (match env.deviceByImei(g[ImeiGroup].value)
           case None => Dropped
           case Some(device) => if NumbersWellFormed(g) then Reported(Report(g, device, event)) else Fault)
        case _ => Fault
  }

  function DecodeSpec(env: Env, buf: seq<byte>): Outcome {
    if IsAcknowledgement(buf) then ResultSpec(env, buf) else TelemetrySpec(env, buf)
  }

  // ------------------------------------------------------ decoder

  /** `decode`: route the frame by the classifier. */
  method Decode(env: Env, buf: seq<byte>) returns (r: Outcome)
    ensures r == DecodeSpec(env, buf)
  {
    var at := IndexOf(buf, OK);
    if at == -1 {
      at := IndexOf(buf, ERROR);
    }
    if at != -1 {
      r := DecodeResult(env, buf);
    } else {
      r := DecodeTelemetry(env, buf);
    }
  }

  /** `decodeResult`: the acknowledgement text, anchored at the device's last known fix. */
  method DecodeResult(env: Env, buf: seq<byte>) returns (r: Outcome)
    ensures r == ResultSpec(env, buf)
  {
    if env.connectionDevice.None? {
      return Dropped;
    }
    var device := env.connectionDevice.value;
    var fix := env.lastLocation(device);
    fix := fix.(fixTime := fix.deviceTime);
    var readerIndex := 0;
    if |buf| - readerIndex < 9 {
      return Fault;
    }
    readerIndex := readerIndex + 9;
    var length := |buf| - readerIndex - 2;
    if length < 0 {
      return Fault;
    }
    var result := AsciiString(buf[readerIndex..readerIndex + length]);
    var attributes: map<Key, Value> := map[];
    if |result| > 0 {
      attributes := attributes[Result := Text(result)];
    }
    r := Acknowledged(Acknowledgement(device, fix, attributes));
  }

  /** The `for i in 1..9` loop: io flags from bits 0..8 of the status word. */
  method SetIoFlags(attributes: map<Key, Value>, status: int32) returns (result: map<Key, Value>)
    ensures result == attributes + IoAttributes(status)
  {
    result := attributes;
    for i := 1 to 10
      invariant result == attributes + IoUpTo(status, i - 1)
    {
      result := result[Io(i) := Flag(Check(status, i - 1))];
    }
  }

  /** The telemetry half of `decode`. */
  method DecodeTelemetry(env: Env, buf: seq<byte>) returns (r: Outcome)
    ensures r == TelemetrySpec(env, buf)
  {
    if |buf| < 7 {
      return Fault;
    }
    var sentence := AsciiString(buf[7..7 + (|buf| - 7)]);
    assert sentence == Sentence(buf);
    var matched := env.matchPattern(sentence);
    if matched.None? {
      return Dropped;
    }
    var g := matched.value;
    var parser := new Parser(g);
    var event := parser.NextIntOr(0);
    if !event.Read? {
      return Fault;
    }
    var imei := parser.Next();
    var device := env.deviceByImei(imei.value);
    if device.None? {
      return Dropped;
    }
    r := DecodeFields(parser, g, device.value, event.value);
  }

  /** Everything `decode` reads after the IMEI, in the order of the pattern. */
  method DecodeFields(parser: Parser, g: Groups, device: DeviceId, event: int32) returns (r: Outcome)
    requires parser.groups == g && parser.position == StatusGroup
    modifies parser
    ensures r == if NumbersWellFormed(g) then Reported(Report(g, device, event)) else Fault
  {
    var ok, attributes := ReadFlags(parser, g, event);
    if !ok {
      return Fault;
    }
    var valid, latitude, longitude, speed, course, time;
    ok, valid, latitude, longitude, speed, course, time := ReadFix(parser, g);
    if !ok {
      return Fault;
    }
    var altitude;
    ok, altitude, attributes := ReadTrailing(parser, g, attributes);
    if !ok {
      return Fault;
    }
    r := Reported(Telemetry(device, valid, latitude, longitude, speed, course, altitude, time, attributes));
  }

  /** The event test of `decode`: the ignition flag or the alarm, set on a fresh position. */
  method SetEventAttributes(event: int32) returns (attributes: map<Key, Value>)
    ensures attributes == EventAttributes(event)
  {
    attributes := map[];
    if event == 10 || event == 11 {
      attributes := attributes[Ignition := Flag(event == 10)];
    } else if event > 0 {
      var alarm := DecodeAlarm(event);
      if alarm.Some? {
        attributes := attributes[Alarm := Text(AlarmName(alarm.value))];
      }
    }
  }

  /** Lines of `decode` from the event test to the second analog channel. */
  method ReadFlags(parser: Parser, g: Groups, event: int32) returns (ok: bool, attributes: map<Key, Value>)
    requires parser.groups == g && parser.position == StatusGroup
    modifies parser
    ensures ok == FlagsWellFormed(g)
    ensures ok ==> parser.position == HourGroup && attributes == FlagAttributes(g, event)
  {
    attributes := SetEventAttributes(event);
    var present := parser.HasNext();
    if present {
      var status := parser.NextInt();
      if !status.Read? {
        return false, attributes;
      }
      attributes := SetIoFlags(attributes, status.value);
    }
    var adc1 := NextIntIfPresent(parser);
    if adc1.Malformed? {
      return false, attributes;
    }
    attributes := PutMilli(attributes, Adc(1), adc1);
    var adc2 := NextIntIfPresent(parser);
    if adc2.Malformed? {
      return false, attributes;
    }
    attributes := PutMilli(attributes, Adc(2), adc2);
    ok := true;
  }

  /** Lines of `decode` from the time triple to the date triple. */
  method ReadFix(parser: Parser, g: Groups)
    returns (ok: bool, valid: bool, latitude: RawCoordinate, longitude: RawCoordinate,
             speed: real, course: real, time: DateTime)
    requires parser.groups == g && parser.position == HourGroup
    modifies parser
    ensures ok == FixWellFormed(g)
    ensures ok ==> parser.position == AltitudeGroup
    ensures ok ==> valid == (g[ValidityGroup].value == "A")
    ensures ok ==> latitude == RawCoordinate(g[LatitudeGroup], g[LatitudeGroup + 1], g[LatitudeGroup + 2])
    ensures ok ==> longitude == RawCoordinate(g[LongitudeGroup], g[LongitudeGroup + 1], g[LongitudeGroup + 2])
    ensures ok ==> speed == ReadDoubleOr(g[SpeedGroup], 0.0).value
    ensures ok ==> course == ReadDoubleOr(g[CourseGroup], 0.0).value
    ensures ok ==> time == ReportTime(g)
  {
    var date := new DateBuilder();
    var hour := parser.NextIntOr(0);
    var minute := parser.NextIntOr(0);
    var second := parser.NextIntOr(0);
    if !hour.Read? || !minute.Read? || !second.Read? {
      return false, false, RawCoordinate(None, None, None), RawCoordinate(None, None, None), 0.0, 0.0, date.GetDate();
    }
    date.SetTime(hour.value as int, minute.value as int, second.value as int);

    var validity := parser.Next();
    valid := validity.value == "A";
    latitude := parser.NextCoordinate();
    longitude := parser.NextCoordinate();
    var speedRead := parser.NextDoubleOr(0.0);
    var courseRead := parser.NextDoubleOr(0.0);
    if !speedRead.Read? || !courseRead.Read? {
      return false, valid, latitude, longitude, 0.0, 0.0, date.GetDate();
    }
    speed, course := speedRead.value, courseRead.value;

    var day := parser.NextIntOr(0);
    var month := parser.NextIntOr(0);
    var year := parser.NextIntOr(0);
    if !day.Read? || !month.Read? || !year.Read? {
      return false, valid, latitude, longitude, speed, course, date.GetDate();
    }
    date.SetDateReverse(day.value as int, month.value as int, year.value as int);
    time := date.GetDate();
    ok := true;
  }

  /** `if (parser.hasNext()) { ... parser.nextInt() ... }`: read the group under the cursor when it is present. */
  method NextIntIfPresent(parser: Parser) returns (r: Reading<int32>)
    requires parser.position < |parser.groups|
    modifies parser
    ensures r == ReadInt(parser.groups[old(parser.position)])
    ensures parser.position == old(parser.position) + 1
  {
    var present := parser.HasNext();
    if present {
      r := parser.NextInt();
    } else {
      r := Missing;
    }
  }

  /** Lines of `decode` from the altitude to the power voltage. */
  method ReadTrailing(parser: Parser, g: Groups, attributes: map<Key, Value>)
    returns (ok: bool, altitude: real, result: map<Key, Value>)
    requires parser.groups == g && parser.position == AltitudeGroup
    modifies parser
    ensures ok == TrailingWellFormed(g)
    ensures ok ==> altitude == ReportAltitude(g) && result == TrailingAttributes(g, attributes)
  {
    result := attributes;
    altitude := 0.0;
    var present := parser.HasNext();
    if present {
      var a := parser.NextDouble();
      if !a.Read? {
        return false, altitude, result;
      }
      altitude := a.value;
    }
    var satellites := NextIntIfPresent(parser);
    if satellites.Malformed? {
      return false, altitude, result;
    }
    result := PutCount(result, Satellites, satellites);
    var battery := NextIntIfPresent(parser);
    if battery.Malformed? {
      return false, altitude, result;
    }
    result := PutCount(result, BatteryLevel, battery);
    var trip := NextIntIfPresent(parser);
    if trip.Malformed? {
      return false, altitude, result;
    }
    result := PutCount(result, TripOdometer, trip);
    var odometer := NextIntIfPresent(parser);
    if odometer.Malformed? {
      return false, altitude, result;
    }
    result := PutCount(result, Odometer, odometer);
    var power := NextIntIfPresent(parser);
    if power.Malformed? {
      return false, altitude, result;
    }
    result := PutMilli(result, Power, power);
    ok := true;
  }
}
