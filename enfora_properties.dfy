/** What the decoder promises, proved about its specification. */
module EnforaProperties {
  import opened Wrappers
  import opened Ascii
  import opened Numbers
  import opened Parsing
  import opened Dates
  import opened Enfora

  // ------------------------------------------------------ alarm table

  /** Every alarm comes back from its own code: the table has no gaps or overlaps. */
  lemma AlarmCodeRoundTrip(a: AlarmType)
    ensures DecodeAlarm(AlarmCode(a)) == Some(a)
  {
  }

  /** The stored alarm string identifies the alarm: reading it back gives the alarm again. */
  lemma AlarmNameRoundTrip(a: AlarmType)
    ensures AlarmOfName(AlarmName(a)) == Some(a)
  {
  }

  /** Two distinct alarms are never reported under the same name. */
  lemma AlarmNamesDistinct(a: AlarmType, b: AlarmType)
    ensures AlarmName(a) == AlarmName(b) ==> a == b
  {
    AlarmNameRoundTrip(a);
    AlarmNameRoundTrip(b);
  }

  /**
   * The stored attribute name identifies the key: reading it back, the
   * digits after `io` or `adc` included, gives the key again.
   */
  lemma KeyNameRoundTrip(k: Key)
    ensures KeyOfName(KeyName(k)) == Some(k)
  {
    match k
    case Io(i) => IoNameRoundTrip(i);
    case Adc(i) => AdcNameRoundTrip(i);
    case _ =>
  }

  lemma IoNameRoundTrip(i: nat)
    ensures KeyOfName("io" + Numeral(i)) == Some(Io(i))
  {
    var name := "io" + Numeral(i);
    NumeralValue(i);
    assert name[..2] == "io" && name[2..] == Numeral(i);
    assert name[0] == 'i' && name[1] == 'o';
  }

  lemma AdcNameRoundTrip(i: nat)
    ensures KeyOfName("adc" + Numeral(i)) == Some(Adc(i))
  {
    var name := "adc" + Numeral(i);
    NumeralValue(i);
    assert name[..3] == "adc" && name[3..] == Numeral(i);
    assert name[0] == 'a' && name[1] == 'd';
  }

  /** Distinct attribute keys are stored under distinct names. */
  lemma KeyNamesDistinct(a: Key, b: Key)
    ensures KeyName(a) == KeyName(b) ==> a == b
  {
    KeyNameRoundTrip(a);
    KeyNameRoundTrip(b);
  }

  // ------------------------------------------------------ io flags

  lemma {:induction false} IoUpToSpec(status: int32, n: nat)
    requires n <= 9
    ensures forall k :: k in IoUpTo(status, n) <==> k.Io? && 1 <= k.index <= n
    ensures forall i :: 1 <= i <= n ==> IoUpTo(status, n)[Io(i)] == Flag(Check(status, i - 1))
  {
    if n > 0 {
      IoUpToSpec(status, n - 1);
    }
  }

  /** The status word sets exactly io1 .. io9, and io_i is bit i - 1 of it. */
  lemma IoAttributesSpec(status: int32)
    ensures forall k :: k in IoAttributes(status) <==> k.Io? && 1 <= k.index <= 9
    ensures forall i :: 1 <= i <= 9 ==> IoAttributes(status)[Io(i)] == Flag(Check(status, i - 1))
  {
    IoUpToSpec(status, 9);
  }

  /** Bits 9 and above of the status word do not affect the io flags. */
  lemma IoIgnoresHighBits(s: int32, t: int32)
    requires s as int % 512 == t as int % 512
    ensures IoAttributes(s) == IoAttributes(t)
  {
    IoAttributesSpec(s);
    IoAttributesSpec(t);
    forall i | 1 <= i <= 9 ensures IoAttributes(s)[Io(i)] == IoAttributes(t)[Io(i)] {
      CheckLowBits(s, t, i - 1);
    }
  }

  // ------------------------------------------------------ classifier

  /**
   * The classifier decides the path: an acknowledgement is only ever
   * produced for a frame holding "OK" or "ERROR", and a report only for a
   * frame holding neither.
   */
  lemma ClassifierRoutes(env: Env, buf: seq<byte>)
    ensures IsAcknowledgement(buf) ==> DecodeSpec(env, buf) == ResultSpec(env, buf)
    ensures !IsAcknowledgement(buf) ==> DecodeSpec(env, buf) == TelemetrySpec(env, buf)
    ensures DecodeSpec(env, buf).Acknowledged? ==> IsAcknowledgement(buf)
    ensures DecodeSpec(env, buf).Reported? ==> !IsAcknowledgement(buf)
  {
  }

  /** "OK" anywhere in a frame, even inside what looks like a report, makes it an acknowledgement. */
  lemma OkAnywhereIsAcknowledgement(before: seq<byte>, after: seq<byte>)
    ensures IsAcknowledgement(before + OK + after)
    ensures IsAcknowledgement(before + ERROR + after)
  {
    var b := before + OK + after;
    assert b[|before|..|before| + |OK|] == OK;
    assert OccursAt(b, OK, |before|);
    var c := before + ERROR + after;
    assert c[|before|..|before| + |ERROR|] == ERROR;
    assert OccursAt(c, ERROR, |before|);
  }

  // ------------------------------------------------------ acknowledgement path

  /** Without a session on the connection an acknowledgement yields nothing. */
  lemma UnknownConnectionDropped(env: Env, buf: seq<byte>)
    requires IsAcknowledgement(buf) && env.connectionDevice.None?
    ensures DecodeSpec(env, buf) == Dropped
  {
  }

  /**
   * A known session yields the text between the 9-byte header and the
   * 2-byte trailer as the result attribute (nothing when that text is
   * empty), with the fix time moved to the last known device time.
   */
  lemma AcknowledgementContents(env: Env, buf: seq<byte>, device: DeviceId)
    requires IsAcknowledgement(buf) && env.connectionDevice == Some(device)
    ensures |buf| < 11 <==> DecodeSpec(env, buf) == Fault
    ensures |buf| >= 11 ==> DecodeSpec(env, buf).Acknowledged?
    ensures DecodeSpec(env, buf).Acknowledged? ==>
      var a := DecodeSpec(env, buf).result;
      && a.deviceId == device
      && a.fix.fixTime == a.fix.deviceTime == env.lastLocation(device).deviceTime
      && a.fix.(fixTime := 0) == env.lastLocation(device).(fixTime := 0)
      && a.attributes.Keys <= {Result}
      && (Result in a.attributes <==> |buf| > 11)
      && (Result in a.attributes ==>
            a.attributes[Result].Text? && |a.attributes[Result].s| == |buf| - 11
            && forall i :: 0 <= i < |buf| - 11 ==> a.attributes[Result].s[i] == DecodeByte(buf[9 + i]))
  {
  }

  // ------------------------------------------------------ telemetry path

  /** The first seven bytes never matter: the pattern sees bytes 7 onwards and nothing else. */
  lemma HeaderIgnored(env: Env, a: seq<byte>, b: seq<byte>)
    requires !IsAcknowledgement(a) && !IsAcknowledgement(b)
    requires |a| >= 7 && |b| >= 7 && a[7..] == b[7..]
    ensures DecodeSpec(env, a) == DecodeSpec(env, b)
  {
  }

  /** The sentence is exactly bytes 7 .. length of the frame, read as ASCII. */
  lemma SentenceBytes(buf: seq<byte>)
    requires |buf| >= 7
    ensures |Sentence(buf)| == |buf| - 7
    ensures forall i :: 7 <= i < |buf| ==> Sentence(buf)[i - 7] == DecodeByte(buf[i])
  {
  }

  /** A frame too short for its header, or whose sentence does not match, yields nothing. */
  lemma UnmatchedDropped(env: Env, buf: seq<byte>)
    requires !IsAcknowledgement(buf)
    ensures |buf| < 7 ==> DecodeSpec(env, buf) == Fault
    ensures |buf| >= 7 && env.matchPattern(Sentence(buf)).None? ==> DecodeSpec(env, buf) == Dropped
  {
  }

  /** An IMEI without a session yields nothing, whatever the rest of the sentence holds. */
  lemma UnknownImeiDropped(env: Env, buf: seq<byte>, g: Groups)
    requires !IsAcknowledgement(buf) && |buf| >= 7 && env.matchPattern(Sentence(buf)) == Some(g)
    requires ReadIntOr(g[EventGroup], 0).Read?
    requires env.deviceByImei(g[ImeiGroup].value).None?
    ensures DecodeSpec(env, buf) == Dropped
  {
  }

  /** A report is the one `Report` builds from the groups of the match. */
  lemma ReportedIsReport(env: Env, buf: seq<byte>, g: Groups, p: Telemetry)
    requires !IsAcknowledgement(buf) && |buf| >= 7 && env.matchPattern(Sentence(buf)) == Some(g)
    requires DecodeSpec(env, buf) == Reported(p)
    ensures ReadIntOr(g[EventGroup], 0).Read? && NumbersWellFormed(g)
    ensures env.deviceByImei(g[ImeiGroup].value) == Some(p.deviceId)
    ensures p == Report(g, p.deviceId, ReadIntOr(g[EventGroup], 0).value)
  {
  }

  /** The keys the trailing groups can add. */
  predicate IsTrailingKey(k: Key) {
    k in {Satellites, BatteryLevel, TripOdometer, Odometer, Power}
  }

  lemma TrailingKeepsOthers(g: Groups, m: map<Key, Value>, k: Key)
    requires !IsTrailingKey(k)
    ensures k in TrailingAttributes(g, m) <==> k in m
    ensures k in m ==> TrailingAttributes(g, m)[k] == m[k]
  {
  }

  /** The ignition and alarm attributes of a report come from the event code alone. */
  lemma ReportedEvent(env: Env, buf: seq<byte>, g: Groups, p: Telemetry)
    requires !IsAcknowledgement(buf) && |buf| >= 7 && env.matchPattern(Sentence(buf)) == Some(g)
    requires DecodeSpec(env, buf) == Reported(p)
    ensures ReadIntOr(g[EventGroup], 0).Read?
    ensures var event := ReadIntOr(g[EventGroup], 0).value;
      && (Ignition in p.attributes <==> event == 10 || event == 11)
      && (Ignition in p.attributes ==> p.attributes[Ignition] == Flag(event == 10))
      && (Alarm in p.attributes <==> event > 0 && event != 10 && event != 11 && DecodeAlarm(event).Some?)
      && (Alarm in p.attributes ==> p.attributes[Alarm] == Text(AlarmName(DecodeAlarm(event).value)))
  {
    ReportedIsReport(env, buf, g, p);
    var event := ReadIntOr(g[EventGroup], 0).value;
    FlagAttributesOther(g, event, Ignition);
    FlagAttributesOther(g, event, Alarm);
    TrailingKeepsOthers(g, FlagAttributes(g, event), Ignition);
    TrailingKeepsOthers(g, FlagAttributes(g, event), Alarm);
  }

  /** Apart from the io and analog keys, the flag stage holds what the event code sets. */
  lemma FlagAttributesOther(g: Groups, event: int32, k: Key)
    requires !k.Io? && !k.Adc?
    ensures k in FlagAttributes(g, event) <==> k in EventAttributes(event)
    ensures k in FlagAttributes(g, event) ==> FlagAttributes(g, event)[k] == EventAttributes(event)[k]
  {
    var status := ReadInt(g[StatusGroup]);
    var flags := if status.Read? then EventAttributes(event) + IoAttributes(status.value) else EventAttributes(event);
    if status.Read? {
      IoKeepsOthers(EventAttributes(event), status.value, k);
    }
    var a1 := PutMilli(flags, Adc(1), ReadInt(g[Adc1Group]));
    PutMilliKeepsOthers(flags, Adc(1), ReadInt(g[Adc1Group]), k);
    PutMilliKeepsOthers(a1, Adc(2), ReadInt(g[Adc2Group]), k);
  }

  /** The io flags leave every other key as it was. */
  lemma IoKeepsOthers(m: map<Key, Value>, status: int32, k: Key)
    requires !k.Io?
    ensures k in m + IoAttributes(status) <==> k in m
    ensures k in m ==> (m + IoAttributes(status))[k] == m[k]
  {
    IoAttributesSpec(status);
    assert k !in IoAttributes(status);
  }

  /** Storing one key leaves every other key as it was. */
  lemma PutMilliKeepsOthers(m: map<Key, Value>, key: Key, r: Reading<int32>, k: Key)
    requires k != key
    ensures k in PutMilli(m, key, r) <==> k in m
    ensures k in m ==> PutMilli(m, key, r)[k] == m[k]
  {
  }


  /**
   * A present status group sets exactly io1 .. io9 from its bits 0 .. 8;
   * an absent one sets no io flag.
   */
  lemma ReportedIoFlags(env: Env, buf: seq<byte>, g: Groups, p: Telemetry)
    requires !IsAcknowledgement(buf) && |buf| >= 7 && env.matchPattern(Sentence(buf)) == Some(g)
    requires DecodeSpec(env, buf) == Reported(p)
    ensures forall k :: k in p.attributes && k.Io? ==> Present(g[StatusGroup]) && 1 <= k.index <= 9
    ensures Present(g[StatusGroup]) ==>
      var status := ParseInt(g[StatusGroup].value);
      && status.Some?
      && forall i :: 1 <= i <= 9 ==> Io(i) in p.attributes && p.attributes[Io(i)] == Flag(Check(status.value, i - 1))
  {
    ReportedIsReport(env, buf, g, p);
    var event := ReadIntOr(g[EventGroup], 0).value;
    var status := ReadInt(g[StatusGroup]);
    if status.Read? {
      IoAttributesSpec(status.value);
      forall i | 1 <= i <= 9 ensures Io(i) in p.attributes && p.attributes[Io(i)] == Flag(Check(status.value, i - 1)) {
        TrailingKeepsOthers(g, FlagAttributes(g, event), Io(i));
      }
    }
    forall k | k in p.attributes && k.Io? ensures Present(g[StatusGroup]) && 1 <= k.index <= 9 {
      TrailingKeepsOthers(g, FlagAttributes(g, event), k);
    }
  }

  /** The analog channels are set exactly when their groups are present, to their values. */
  lemma FlagAttributesAnalog(g: Groups, event: int32)
    requires FlagsWellFormed(g)
    ensures Adc(1) in FlagAttributes(g, event) <==> Present(g[Adc1Group])
    ensures Adc(2) in FlagAttributes(g, event) <==> Present(g[Adc2Group])
    ensures Adc(1) in FlagAttributes(g, event) ==> Some(FlagAttributes(g, event)[Adc(1)]) == MilliOf(g[Adc1Group])
    ensures Adc(2) in FlagAttributes(g, event) ==> Some(FlagAttributes(g, event)[Adc(2)]) == MilliOf(g[Adc2Group])
  {
    var status := ReadInt(g[StatusGroup]);
    if status.Read? {
      IoAttributesSpec(status.value);
    }
  }

  /** The trailing attributes are set exactly when their groups are present, to their values. */
  lemma TrailingAttributesSpec(g: Groups, m: map<Key, Value>)
    requires TrailingWellFormed(g)
    ensures Satellites in TrailingAttributes(g, m) <==> Satellites in m || Present(g[SatellitesGroup])
    ensures BatteryLevel in TrailingAttributes(g, m) <==> BatteryLevel in m || Present(g[BatteryGroup])
    ensures TripOdometer in TrailingAttributes(g, m) <==> TripOdometer in m || Present(g[TripOdometerGroup])
    ensures Odometer in TrailingAttributes(g, m) <==> Odometer in m || Present(g[OdometerGroup])
    ensures Power in TrailingAttributes(g, m) <==> Power in m || Present(g[PowerGroup])
    ensures Present(g[SatellitesGroup]) ==> Some(TrailingAttributes(g, m)[Satellites]) == CountOf(g[SatellitesGroup])
    ensures Present(g[BatteryGroup]) ==> Some(TrailingAttributes(g, m)[BatteryLevel]) == CountOf(g[BatteryGroup])
    ensures Present(g[TripOdometerGroup]) ==> Some(TrailingAttributes(g, m)[TripOdometer]) == CountOf(g[TripOdometerGroup])
    ensures Present(g[OdometerGroup]) ==> Some(TrailingAttributes(g, m)[Odometer]) == CountOf(g[OdometerGroup])
    ensures Present(g[PowerGroup]) ==> Some(TrailingAttributes(g, m)[Power]) == MilliOf(g[PowerGroup])
  {
  }

  /** No step before the trailing groups sets a trailing key. */
  lemma FlagAttributesNotTrailing(g: Groups, event: int32, k: Key)
    requires IsTrailingKey(k)
    ensures k !in FlagAttributes(g, event)
  {
    FlagAttributesOther(g, event, k);
  }

  /**
   * Each optional attribute is set exactly when its own group is present,
   * to that group's value: an absent group never moves a later value into
   * the wrong key.
   */
  lemma ReportedOptionalGroups(env: Env, buf: seq<byte>, g: Groups, p: Telemetry)
    requires !IsAcknowledgement(buf) && |buf| >= 7 && env.matchPattern(Sentence(buf)) == Some(g)
    requires DecodeSpec(env, buf) == Reported(p)
    ensures Adc(1) in p.attributes <==> Present(g[Adc1Group])
    ensures Adc(2) in p.attributes <==> Present(g[Adc2Group])
    ensures Satellites in p.attributes <==> Present(g[SatellitesGroup])
    ensures BatteryLevel in p.attributes <==> Present(g[BatteryGroup])
    ensures TripOdometer in p.attributes <==> Present(g[TripOdometerGroup])
    ensures Odometer in p.attributes <==> Present(g[OdometerGroup])
    ensures Power in p.attributes <==> Present(g[PowerGroup])
    ensures Adc(1) in p.attributes ==> Some(p.attributes[Adc(1)]) == MilliOf(g[Adc1Group])
    ensures Adc(2) in p.attributes ==> Some(p.attributes[Adc(2)]) == MilliOf(g[Adc2Group])
    ensures Satellites in p.attributes ==> Some(p.attributes[Satellites]) == CountOf(g[SatellitesGroup])
    ensures BatteryLevel in p.attributes ==> Some(p.attributes[BatteryLevel]) == CountOf(g[BatteryGroup])
    ensures TripOdometer in p.attributes ==> Some(p.attributes[TripOdometer]) == CountOf(g[TripOdometerGroup])
    ensures Odometer in p.attributes ==> Some(p.attributes[Odometer]) == CountOf(g[OdometerGroup])
    ensures Power in p.attributes ==> Some(p.attributes[Power]) == MilliOf(g[PowerGroup])
    ensures p.altitude == if Present(g[AltitudeGroup]) then ParseDouble(g[AltitudeGroup].value).value else 0.0
  {
    ReportedIsReport(env, buf, g, p);
    var event := ReadIntOr(g[EventGroup], 0).value;
    var flags := FlagAttributes(g, event);
    assert p.attributes == TrailingAttributes(g, flags);
    FlagAttributesAnalog(g, event);
    TrailingKeepsOthers(g, flags, Adc(1));
    TrailingKeepsOthers(g, flags, Adc(2));
    FlagAttributesNotTrailing(g, event, Satellites);
    FlagAttributesNotTrailing(g, event, BatteryLevel);
    FlagAttributesNotTrailing(g, event, TripOdometer);
    FlagAttributesNotTrailing(g, event, Odometer);
    FlagAttributesNotTrailing(g, event, Power);
    TrailingAttributesSpec(g, flags);
  }

  /** The value an integer group stands for, `Integer.parseInt` of its text. */
  function CountOf(group: Option<string>): Option<Value> {
    if group.Some? && ParseInt(group.value).Some? then Some(Count(ParseInt(group.value).value as int)) else None
  }

  /** The value a millivolt group stands for, `Integer.parseInt` of its text times 0.001. */
  function MilliOf(group: Option<string>): Option<Value> {
    if group.Some? && ParseInt(group.value).Some? then Some(Milli(ParseInt(group.value).value as int)) else None
  }

  /**
   * The time triple (groups 5 .. 7) and the date triple (groups 17 .. 19,
   * day first on the wire) make up the fix time as year, month, day, hour,
   * minute, second; the fix is valid exactly when its flag is "A".
   */
  lemma ReportedFix(env: Env, buf: seq<byte>, g: Groups, p: Telemetry)
    requires !IsAcknowledgement(buf) && |buf| >= 7 && env.matchPattern(Sentence(buf)) == Some(g)
    requires DecodeSpec(env, buf) == Reported(p)
    ensures p.valid <==> g[ValidityGroup] == Some("A")
    ensures p.time.day == IntOr(g[DayGroup]) && p.time.month == IntOr(g[MonthGroup]) && p.time.year == IntOr(g[YearGroup])
    ensures p.time.hour == IntOr(g[HourGroup]) && p.time.minute == IntOr(g[MinuteGroup]) && p.time.second == IntOr(g[SecondGroup])
    ensures p.latitude == RawCoordinate(g[LatitudeGroup], g[LatitudeGroup + 1], g[LatitudeGroup + 2])
    ensures p.longitude == RawCoordinate(g[LongitudeGroup], g[LongitudeGroup + 1], g[LongitudeGroup + 2])
  {
    ReportedIsReport(env, buf, g, p);
  }

  /** `nextInt(0)` as a plain number: the parsed group, or 0 when it is absent or does not parse. */
  function IntOr(group: Option<string>): int {
    if Present(group) && ParseInt(group.value).Some? then ParseInt(group.value).value as int else 0
  }

  /** The concrete case of the date assembly: 01 02 23 / 10 20 30 is 23-02-01 10:20:30. */
  lemma DateOrderExample(env: Env, buf: seq<byte>, g: Groups, p: Telemetry)
    requires !IsAcknowledgement(buf) && |buf| >= 7 && env.matchPattern(Sentence(buf)) == Some(g)
    requires DecodeSpec(env, buf) == Reported(p)
    requires g[DayGroup] == Some("01") && g[MonthGroup] == Some("02") && g[YearGroup] == Some("23")
    requires g[HourGroup] == Some("10") && g[MinuteGroup] == Some("20") && g[SecondGroup] == Some("30")
    ensures p.time == DateTime(23, 2, 1, 10, 20, 30)
  {
    ReportedFix(env, buf, g, p);
    TwoDigits("01");
    TwoDigits("02");
    TwoDigits("23");
    TwoDigits("10");
    TwoDigits("20");
    TwoDigits("30");
  }

  lemma TwoDigits(s: string)
    requires |s| == 2 && IsDigit(s[0]) && IsDigit(s[1])
    ensures ParseInt(s) == Some((10 * DigitValue(s[0]) + DigitValue(s[1])) as int32)
    ensures IntOr(Some(s)) == 10 * DigitValue(s[0]) + DigitValue(s[1])
  {
    assert IsDigits(s);
    assert s[..1][..0] == [];
    assert s[..1] == [s[0]];
    assert DigitsValue(s[..1]) == DigitValue(s[0]);
    assert DigitsValue(s) == 10 * DigitValue(s[0]) + DigitValue(s[1]);
  }
}
