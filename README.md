# Enfora frame decoder, modelled in Dafny

This project models the Enfora protocol decoder of the Traccar GPS tracking server
(`EnforaProtocolDecoder`). A frame arrives as a byte buffer. The decoder classifies it:

- A frame that holds the ASCII text `OK` or `ERROR` anywhere is a **command acknowledgement**.
  Its text runs from byte 9 up to the last two bytes. It becomes the `result` attribute of a
  position anchored at the device's last known fix, with the fix time set to the device time.
- Any other frame is a **telemetry report**. The text from byte 7 onwards is matched against
  the decoder's pattern, and a parser cursor then reads the capture groups left to right:
  - the event code becomes the ignition flag or an alarm;
  - the IMEI resolves the device session;
  - a status word gives the nine io flags;
  - the two analog channels, the time, validity, coordinates, speed, course and date follow;
  - the optional altitude, satellites, battery level, odometers and power voltage come last.

Modules:

- `Ascii` (`ascii.dfy`): bytes, US-ASCII decoding, and the first-occurrence search the
  classifier uses.
- `Numbers` (`numbers.dfy`): `Integer.parseInt`, `Double.parseDouble` and `BitUtil.check` on a
  32-bit `int`.
- `Parsing` (`parsing.dfy`): the capture-group cursor, as a class whose `position` advances.
- `Dates` (`dates.dfy`): the `DateBuilder` the time and date triples are written into.
- `Enfora` (`enfora.dfy`):
  - the group layout of the pattern and the record types;
  - the alarm table;
  - the reference specification `DecodeSpec`, which reads field k straight from group k;
  - the imperative decoder (`Decode`, `DecodeResult`, `DecodeTelemetry` and its stages),
    proved equal to that specification.
- `EnforaProperties` (`enfora_properties.dfy`): what the decoder promises, proved about the
  specification.

The central fact is the `ensures` of `Enfora.DecodeTelemetry`. Every parser call consumes
exactly one group: `hasNext` steps past an absent group. So the cursor-driven decoder equals
`TelemetrySpec`, which takes every field from its own fixed group. An absent group can
therefore never shift a later value into the wrong key.

Collaborators are parameters, gathered in `Enfora.Env`:
- the session bound to the connection;
- the session lookup by IMEI;
- the last known fix per device (this includes the clock reading that `getLastLocation`
  stores as device time);
- the pattern matcher, which returns the 26 capture groups of a match or nothing.

The outcome of a decode is one of:
- `Dropped`: the Java code returns `null`;
- `Fault`: an exception escapes `decode`, such as a number that does not parse or a buffer
  shorter than its header;
- `Reported`: a telemetry report;
- `Acknowledged`: an acknowledgement.

Two details of the buffer handling:

- `buf.toString(7, buf.readableBytes() - 7, ...)` takes an index and a length. So the sentence is
  every byte from offset 7 to the end of the frame, and any trailer is left to the pattern's
  final `.any()`. `Sentence` and `EnforaProperties.SentenceBytes` state this.
- A frame shorter than its header (7 bytes for telemetry, 11 for an acknowledgement) makes the
  buffer access throw. It is modelled as `Fault`.

Two behaviours come from library code that this model does not contain. `Position.set` with a
string ignores `null` and the empty string. So an event code with no alarm sets no `alarm`
key, and an acknowledgement with empty text sets no `result` key. The attribute key and alarm
names are the `Position` constants (`io1`, `adc1`, `sat`, `hardBraking`, ...).

## Model

| member | source | states |
|---|---|---|
| `Enfora.DecodeAlarm` | src/main/java/org/traccar/protocol/EnforaProtocolDecoder.java:68-91 | An alarm is returned exactly for codes 12, 14, 15, 17, 18, 19, 40, 91 and 92, and the alarm returned is the one whose code is the input (partner `AlarmCode`) |
| `EnforaProperties.AlarmCodeRoundTrip` | src/main/java/org/traccar/protocol/EnforaProtocolDecoder.java:68-91 | Every alarm is what its own code decodes to, so the table maps 12→SOS, 14→power cut, 15→power restored, 17→power off, 18→power on, 19→GPS antenna cut, 40→overspeed, 91→braking and 92→acceleration |
| `EnforaProperties.AlarmNameRoundTrip` | src/main/java/org/traccar/protocol/EnforaProtocolDecoder.java:70-87 | The `Position.ALARM_*` string stored as the `alarm` attribute identifies the alarm: `AlarmOfName`, the reverse table, reads it back to the same alarm |
| `EnforaProperties.AlarmNamesDistinct` | src/main/java/org/traccar/protocol/EnforaProtocolDecoder.java:70-87 | Distinct alarms are reported under distinct names |
| `EnforaProperties.KeyNamesDistinct` | src/main/java/org/traccar/protocol/EnforaProtocolDecoder.java:139-192 | Distinct attribute keys have distinct names (`io1`..`io9`, `adc1`, `adc2`, `sat`, ...), so no setter overwrites another's value |
| `EnforaProperties.KeyNameRoundTrip` | src/main/java/org/traccar/protocol/EnforaProtocolDecoder.java:139-192 | Every attribute name the decoder stores identifies its key. A fixed `Position.KEY_*` name, or `io`/`adc` followed by the digits of the index, reads back to the same key |
| `Ascii.IndexOf` | src/main/java/org/traccar/protocol/EnforaProtocolDecoder.java:116 | Returns -1 exactly when the needle occurs nowhere in the buffer; otherwise returns the first offset where it occurs |
| `Ascii.AsciiString` | src/main/java/org/traccar/protocol/EnforaProtocolDecoder.java:120 | US-ASCII decoding keeps the length; bytes below 128 are their own character and every other byte is one replacement character |
| `Enfora.Decode` | src/main/java/org/traccar/protocol/EnforaProtocolDecoder.java:110-118 | The classifier (search for "OK", then for "ERROR") followed by either path equals `DecodeSpec` |
| `EnforaProperties.ClassifierRoutes` | src/main/java/org/traccar/protocol/EnforaProtocolDecoder.java:116-118 | A frame holding "OK" or "ERROR" goes to the acknowledgement path and any other frame to the telemetry path; an acknowledgement only comes from the first kind and a report only from the second |
| `EnforaProperties.OkAnywhereIsAcknowledgement` | src/main/java/org/traccar/protocol/EnforaProtocolDecoder.java:116 | "OK" or "ERROR" at any offset, whatever surrounds it, makes the frame an acknowledgement |
| `Enfora.DecodeResult` | src/main/java/org/traccar/protocol/EnforaProtocolDecoder.java:93-108 | The reader-index version (skip 9 bytes, then read all but the last 2) equals `ResultSpec`, which slices bytes 9 to length−2 directly |
| `EnforaProperties.UnknownConnectionDropped` | src/main/java/org/traccar/protocol/EnforaProtocolDecoder.java:94-97 | An acknowledgement frame with no session on the connection yields null |
| `EnforaProperties.AcknowledgementContents` | src/main/java/org/traccar/protocol/EnforaProtocolDecoder.java:98-105 | With a session: frames under 11 bytes fault and longer ones are acknowledged. The fix time equals the last device time and all other fix fields are the last known ones. The only attribute is `result`, present exactly when the frame is over 11 bytes, and it is the ASCII reading of bytes 9 to length−2 |
| `Enfora.DecodeTelemetry` | src/main/java/org/traccar/protocol/EnforaProtocolDecoder.java:120-133 | The cursor-driven decoder equals `TelemetrySpec`, which reads each field from its fixed group: groups are consumed strictly in pattern order |
| `EnforaProperties.SentenceBytes` | src/main/java/org/traccar/protocol/EnforaProtocolDecoder.java:120 | The text given to the pattern is exactly bytes 7 to the end of the frame, decoded as ASCII |
| `EnforaProperties.HeaderIgnored` | src/main/java/org/traccar/protocol/EnforaProtocolDecoder.java:120 | Two telemetry frames that agree from byte 7 on decode alike |
| `EnforaProperties.UnmatchedDropped` | src/main/java/org/traccar/protocol/EnforaProtocolDecoder.java:120-125 | A telemetry frame under 7 bytes faults; a sentence the pattern does not match yields null |
| `EnforaProperties.UnknownImeiDropped` | src/main/java/org/traccar/protocol/EnforaProtocolDecoder.java:127-133 | Once the event code parses, an IMEI without a session yields null, whatever the later groups hold |
| `EnforaProperties.ReportedIsReport` | src/main/java/org/traccar/protocol/EnforaProtocolDecoder.java:127-195 | A report exists only when the event and every numeric group parse and the IMEI has a session; the report is then `Report` of the groups |
| `Enfora.DecodeFields` | src/main/java/org/traccar/protocol/EnforaProtocolDecoder.java:135-195 | After the IMEI, the decoder yields `Report` of the groups if every numeric group parses, and faults otherwise |
| `Enfora.ReadFlags` | src/main/java/org/traccar/protocol/EnforaProtocolDecoder.java:138-157 | The event, status and analog steps succeed exactly when those groups parse or are absent; they leave the cursor on the hour group with the attributes `FlagAttributes` names |
| `Enfora.EventAttributes` | src/main/java/org/traccar/protocol/EnforaProtocolDecoder.java:138-142 | Events 10 and 11 set only `ignition` (true for 10). Other positive events set only `alarm`, to the name of the mapped alarm, and only when there is one. Event 0 sets nothing |
| `Enfora.SetEventAttributes` | src/main/java/org/traccar/protocol/EnforaProtocolDecoder.java:138-142 | The imperative event test (ignition for 10 and 11, otherwise the alarm of a positive code when there is one) builds exactly `EventAttributes` |
| `EnforaProperties.FlagAttributesOther` | src/main/java/org/traccar/protocol/EnforaProtocolDecoder.java:138-157 | After the status and analog steps, every key other than io and adc is present exactly as the event step set it, with the same value |
| `EnforaProperties.ReportedEvent` | src/main/java/org/traccar/protocol/EnforaProtocolDecoder.java:138-142 | In a decoded report, `ignition` and `alarm` are present and valued exactly as the event code dictates; no later step touches them |
| `Enfora.SetIoFlags` | src/main/java/org/traccar/protocol/EnforaProtocolDecoder.java:146-148 | The `for i = 1..9` loop adds exactly the io flags of the status word to the attributes, overriding earlier values |
| `EnforaProperties.IoAttributesSpec` | src/main/java/org/traccar/protocol/EnforaProtocolDecoder.java:144-149 | The status word sets exactly the keys io1..io9, and io_i is bit i−1 of the word |
| `EnforaProperties.IoIgnoresHighBits` | src/main/java/org/traccar/protocol/EnforaProtocolDecoder.java:146-148 | Status words that agree on bits 0..8 give the same io flags: bits 9 and above do not matter |
| `EnforaProperties.ReportedIoFlags` | src/main/java/org/traccar/protocol/EnforaProtocolDecoder.java:144-149 | In a decoded report, a present status group sets io1..io9 from its parsed value; an io key appears only if the status group is present and its index is 1..9 |
| `EnforaProperties.FlagAttributesAnalog` | src/main/java/org/traccar/protocol/EnforaProtocolDecoder.java:151-157 | `adc1` and `adc2` are set exactly when their groups are present, to the raw millivolt value |
| `Enfora.NextIntIfPresent` | src/main/java/org/traccar/protocol/EnforaProtocolDecoder.java:175-177 | A `hasNext` guard followed by `nextInt` reads the group under the cursor if it is present and always advances the cursor by one |
| `Enfora.ReadFix` | src/main/java/org/traccar/protocol/EnforaProtocolDecoder.java:159-169 | The time, validity, coordinate, speed, course and date steps succeed exactly when their numbers parse. The cursor ends on the altitude group. Validity is "A", the coordinates are groups 9–11 and 12–14 (counting from 0, as everywhere in the model), and the date is year/month/day from the reversed triple |
| `EnforaProperties.ReportedFix` | src/main/java/org/traccar/protocol/EnforaProtocolDecoder.java:159-169 | Validity is true iff its group is "A". The time triple fills hour, minute and second. The date triple, day first on the wire, fills day, month and year. Each coordinate is its own three groups |
| `EnforaProperties.DateOrderExample` | src/main/java/org/traccar/protocol/EnforaProtocolDecoder.java:159-169 | Date groups 01 02 23 and time groups 10 20 30 give year 23, month 2, day 1, 10:20:30 |
| `Enfora.ReadTrailing` | src/main/java/org/traccar/protocol/EnforaProtocolDecoder.java:171-193 | The trailing steps succeed exactly when those groups parse or are absent; they yield the altitude and the attributes `TrailingAttributes` names |
| `EnforaProperties.TrailingAttributesSpec` | src/main/java/org/traccar/protocol/EnforaProtocolDecoder.java:175-193 | Satellites, battery level, trip odometer, odometer and power are each set when their own group is present, to that group's value |
| `EnforaProperties.ReportedOptionalGroups` | src/main/java/org/traccar/protocol/EnforaProtocolDecoder.java:151-193 | In a decoded report, each optional attribute is present exactly when its own group is and holds that group's value. Altitude is the parsed group when present and 0 otherwise |
| `Parsing.Parser.HasNext` | src/main/java/org/traccar/protocol/EnforaProtocolDecoder.java:144 | True exactly for a present (non-null, non-empty) group, without moving; an absent group is stepped over |
| `Parsing.Parser.Next` | src/main/java/org/traccar/protocol/EnforaProtocolDecoder.java:129 | Returns the group under the cursor and advances by one |
| `Parsing.Parser.NextInt` | src/main/java/org/traccar/protocol/EnforaProtocolDecoder.java:145 | Reads one group as an `int`, giving null when it is absent; always advances by one |
| `Parsing.Parser.NextIntOr` | src/main/java/org/traccar/protocol/EnforaProtocolDecoder.java:127 | Like `NextInt`, but an absent group reads as the default |
| `Parsing.Parser.NextDouble` | src/main/java/org/traccar/protocol/EnforaProtocolDecoder.java:172 | Reads one group as a double, giving null when it is absent; always advances by one |
| `Parsing.Parser.NextDoubleOr` | src/main/java/org/traccar/protocol/EnforaProtocolDecoder.java:165-166 | Like `NextDouble`, but an absent group reads as the default |
| `Parsing.Parser.NextCoordinate` | src/main/java/org/traccar/protocol/EnforaProtocolDecoder.java:163-164 | Consumes exactly three groups (degrees, minutes, hemisphere) |
| `Parsing.ReadInt` | src/main/java/org/traccar/protocol/EnforaProtocolDecoder.java:145 | The value of `nextInt()`. It is missing exactly when the group is absent or empty. It is a fault exactly when the group is present and `Integer.parseInt` rejects it. Otherwise it is the parsed value |
| `Parsing.ReadDouble` | src/main/java/org/traccar/protocol/EnforaProtocolDecoder.java:172 | The value of `nextDouble()`. It is missing exactly when the group is absent or empty. It is a fault exactly when the group is present and `Double.parseDouble` rejects it. Otherwise it is the parsed value |
| `Parsing.ReadDoubleOr` | src/main/java/org/traccar/protocol/EnforaProtocolDecoder.java:165-166 | `nextDouble(0)` is never missing: an absent group reads as the default, and a present one is parsed |
| `Parsing.ReadIntOr` | src/main/java/org/traccar/protocol/EnforaProtocolDecoder.java:160 | `nextInt(0)` never yields null: an absent group reads as the default, and a present one is parsed |
| `Dates.DateBuilder.constructor` | src/main/java/org/traccar/protocol/EnforaProtocolDecoder.java:159 | A new `DateBuilder` starts at the epoch, 1970-01-01 00:00:00 |
| `Dates.DateBuilder.SetDateReverse` | src/main/java/org/traccar/protocol/EnforaProtocolDecoder.java:168 | Arguments given as day, month, year are stored as year, month, day; the time fields are untouched |
| `Dates.DateBuilder.SetTime` | src/main/java/org/traccar/protocol/EnforaProtocolDecoder.java:159-160 | Stores hour, minute and second; the date fields are untouched |
| `Numbers.ParseInt` | src/main/java/org/traccar/protocol/EnforaProtocolDecoder.java:127-152 | `Integer.parseInt` accepts only digits with an optional leading sign. For digits d, optionally preceded by '+' or '-', let v be ±d. The text parses exactly when −2^31 ≤ v < 2^31, and then to v. A leading '-' gives a value of at most 0, and any other accepted form a value of at least 0 |
| `Numbers.ParseDouble` | src/main/java/org/traccar/protocol/EnforaProtocolDecoder.java:165-172 | `Double.parseDouble` rejects the empty text. Digits d, optionally preceded by '+' or '-', read as the whole number ±d, as for the `-?d*` altitude group. A leading '-' gives a value of at most 0, and any other accepted form a value of at least 0 |
| `Numbers.Check` | src/main/java/org/traccar/protocol/EnforaProtocolDecoder.java:147 | `BitUtil.check` of a two's-complement word. A non-negative word below 2^i has bit i clear. A word in [2^i, 2^(i+1)) has bit i set. A negative word of at least −2^i has bit i set, so bit 31 is the sign |
| `Numbers.CheckIsBit` | src/main/java/org/traccar/protocol/EnforaProtocolDecoder.java:147 | For every word and every i < 32, `BitUtil.check` gives exactly bit i of the two's-complement form: floor(v / 2^i) mod 2 |
| `Numbers.ParseIntNumeral` | src/main/java/org/traccar/protocol/EnforaProtocolDecoder.java:127 | `Integer.parseInt` inverts `Integer.toString` for every `int`, negative ones included |
| `Numbers.Numeral` | src/main/java/org/traccar/protocol/EnforaProtocolDecoder.java:147 | `Integer.toString` of a non-negative `int`, as in `PREFIX_IO + i`: at least one digit, digits only, and no leading zero except for 0 itself. `Numbers.ParseIntNumeral` shows that `Integer.parseInt` reads it back |
| `Numbers.ParseIntBareSign` | src/main/java/org/traccar/protocol/EnforaProtocolDecoder.java:152 | A group holding only "-", which the `-?d*` groups allow, does not parse (the decode faults) |
| `Numbers.ParseDoubleDecimal` | src/main/java/org/traccar/protocol/EnforaProtocolDecoder.java:165-166 | A `d+.d+` speed or course group always parses, to its exact decimal value |
| `Numbers.CheckLowBits` | src/main/java/org/traccar/protocol/EnforaProtocolDecoder.java:147 | `BitUtil.check` of bits 0..8 depends only on the low nine bits of the word (the word modulo 512) |

## Left out

- Netty plumbing (`ByteBuf`, `Channel`, `SocketAddress`). A frame is a byte sequence whose reader index is 0 when `decode` starts.
- The regex engine and `PatternBuilder`. The matcher is the parameter `Env.matchPattern`. What a match guarantees is only its shape: 26 groups, and every group outside an optional part takes part, possibly as an empty string. Which texts the groups can hold (digits only, fixed widths) is not constrained.
- The session machinery. Lookup by connection and by IMEI are parameters. Binding a session to the connection as a side effect of the IMEI lookup is not modelled.
- `getLastLocation` is the parameter `Env.lastLocation`. It stands for the copy of the last position and the wall-clock reading that becomes the device time. The `outdated` flag it sets is not modelled.
- Floating point: the `* 0.001` scalings keep the raw integer (`Milli`). Speed, course and altitude are exact decimals, not rounded to binary64.
- Numbers.ParseDouble: covers the forms the pattern's groups can hold (sign, digits, one '.'). Whitespace, exponents, `NaN`, `Infinity`, hexadecimal and the `d`/`f` suffixes are not modelled.
- Numbers.ParseInt: accepts ASCII digits only. Java also takes other Unicode digits, but the sentence comes from US-ASCII decoding, so no other digit can reach it.
- Parsing.Parser.NextCoordinate: returns the three groups unconverted. The degree and minute arithmetic lives in the parser library, which is not part of this model.
- Dates.DateBuilder.SetDateReverse: stores the two-digit year as given. Century expansion, calendar normalisation and the conversion to an instant belong to the date library, which is not part of this model.
- `Position` storage: a decoded position is a value record with a key-to-value attribute map. The decoder builds that map one key at a time and creates the record once all groups are read, not as an object updated in place. The protocol name is not recorded.
- Exceptions all collapse to `Fault`. Which exception is thrown and how Netty's channel pipeline reports it are not modelled.
