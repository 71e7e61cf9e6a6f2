/**
 * `verifyPayload`: the validator that turns the raw telemetry string
 * `<deviceId>:<unixMillis>:'Temperature':<temperature>` into a record, or
 * reports the first check that failed.
 */
module Payload {
  import opened Wrappers
  import opened Integers
  import opened Strings
  import opened Decimal
  import opened GoTime

  const SEPARATOR: char := ':'

  /** The third field must be exactly this token, single quotes included. */
  const TEMPERATURE_KEY: string := "'Temperature'"

  const MILLIS_PER_SECOND: int := 1000

  /**
   * `strconv.ParseFloat(s, 64)`, supplied by the caller: `None` for a non-nil
   * error, otherwise the parsed value.
   */
  type FloatParser = string -> Option<real>

  /** One parsed reading. A record exists only after every check has passed. */
  datatype TempData = TempData(deviceId: Int32, timestamp: Instant, temperature: real)

  /** Which of the five checks rejected the payload, in the order they run. */
  datatype ParseError =
    | MalformedStructure
    | InvalidDeviceId
    | InvalidTimestamp
    | TemperatureKeyMissing
    | InvalidTemperature

  /**
   * `time.Unix(ts/1000, ts%1000)` with Go's truncating operators. The second
   * argument of `time.Unix` counts nanoseconds, so the millisecond remainder
   * lands in the instant as that many nanoseconds.
   */
  function MillisInstant(ts: int): (t: Instant)
    ensures Normalised(t)
    ensures Nanos(t) == TruncDiv(ts, MILLIS_PER_SECOND) * NANOS_PER_SECOND + TruncRem(ts, MILLIS_PER_SECOND)
    ensures -MILLIS_PER_SECOND < TruncRem(ts, MILLIS_PER_SECOND) < MILLIS_PER_SECOND
  {
    Unix(TruncDiv(ts, MILLIS_PER_SECOND), TruncRem(ts, MILLIS_PER_SECOND))
  }

  /**
   * The validator. Checks run in order and the first failure is the result:
   * the part count, the device id, the timestamp, the key, the temperature.
   */
  function VerifyPayload(data: string, parseFloat: FloatParser): (r: Result<TempData, ParseError>)
    ensures r == Err(MalformedStructure) <==> Count(data, SEPARATOR) != 3
  {
    var parts := Split(data, SEPARATOR);
    if |parts| != 4 then Err(MalformedStructure)
    else
      match ParseInt64(parts[0])
      case None => Err(InvalidDeviceId)
      case Some(deviceId) =>
        match ParseInt64(parts[1])
        case None => Err(InvalidTimestamp)
        case Some(unixTs) =>
          if parts[2] != TEMPERATURE_KEY then Err(TemperatureKeyMissing)
          else
            match parseFloat(parts[3])
            case None => Err(InvalidTemperature)
            case Some(temperature) =>
              Ok(TempData(WrapInt32(deviceId), MillisInstant(unixTs), temperature))
  }

  /** The four fields written out with the separator between them. */
  function Fields(device: string, ts: string, key: string, temp: string): string {
    device + [SEPARATOR] + ts + [SEPARATOR] + key + [SEPARATOR] + temp
  }

  predicate NoSeparator(s: string) {
    SEPARATOR !in s
  }

  /** Every string with exactly three separators is the `Fields` of its own parts. */
  lemma FieldsOfSplit(data: string)
    requires Count(data, SEPARATOR) == 3
    ensures var parts := Split(data, SEPARATOR);
      data == Fields(parts[0], parts[1], parts[2], parts[3])
      && NoSeparator(parts[0]) && NoSeparator(parts[1]) && NoSeparator(parts[2]) && NoSeparator(parts[3])
  {
    var parts := Split(data, SEPARATOR);
    JoinSplit(data, SEPARATOR);
    assert parts == [parts[0], parts[1], parts[2], parts[3]];
    JoinFour(parts[0], parts[1], parts[2], parts[3]);
  }

  lemma JoinFour(device: string, ts: string, key: string, temp: string)
    ensures Join([device, ts, key, temp], SEPARATOR) == Fields(device, ts, key, temp)
  {
    var parts := [device, ts, key, temp];
    assert parts[1..] == [ts, key, temp];
    assert parts[1..][1..] == [key, temp];
    assert parts[1..][1..][1..] == [temp];
    calc {
      Join(parts, SEPARATOR);
      device + [SEPARATOR] + Join([ts, key, temp], SEPARATOR);
      device + [SEPARATOR] + (ts + [SEPARATOR] + Join([key, temp], SEPARATOR));
      device + [SEPARATOR] + (ts + [SEPARATOR] + (key + [SEPARATOR] + temp));
      Fields(device, ts, key, temp);
    }
  }

  lemma SplitFields(device: string, ts: string, key: string, temp: string)
    requires NoSeparator(device) && NoSeparator(ts) && NoSeparator(key) && NoSeparator(temp)
    ensures Split(Fields(device, ts, key, temp), SEPARATOR) == [device, ts, key, temp]
  {
    var parts := [device, ts, key, temp];
    SplitJoin(parts, SEPARATOR);
    JoinFour(device, ts, key, temp);
  }

  /**
   * On a payload of four separator-free fields, the first failing check
   * decides the error, and the payload is accepted exactly when all four
   * field checks pass; the record then carries all three values together.
   */
  lemma {:induction false} VerifyFields(device: string, ts: string, key: string, temp: string, parseFloat: FloatParser)
    requires NoSeparator(device) && NoSeparator(ts) && NoSeparator(key) && NoSeparator(temp)
    ensures var r := VerifyPayload(Fields(device, ts, key, temp), parseFloat);
      && (ParseInt64(device).None? ==> r == Err(InvalidDeviceId))
      && (ParseInt64(device).Some? && ParseInt64(ts).None? ==> r == Err(InvalidTimestamp))
      && (ParseInt64(device).Some? && ParseInt64(ts).Some? && key != TEMPERATURE_KEY
          ==> r == Err(TemperatureKeyMissing))
      && (ParseInt64(device).Some? && ParseInt64(ts).Some? && key == TEMPERATURE_KEY && parseFloat(temp).None?
          ==> r == Err(InvalidTemperature))
      && (r.Ok? <==> ParseInt64(device).Some? && ParseInt64(ts).Some? && key == TEMPERATURE_KEY && parseFloat(temp).Some?)
      && (r.Ok? ==> r.value == TempData(WrapInt32(ParseInt64(device).value),
                                        MillisInstant(ParseInt64(ts).value),
                                        parseFloat(temp).value))
  {
    SplitFields(device, ts, key, temp);
  }

  /** A success means the string had three separators and a quoted key in third place. */
  lemma AcceptedShape(data: string, parseFloat: FloatParser)
    requires VerifyPayload(data, parseFloat).Ok?
    ensures Count(data, SEPARATOR) == 3
    ensures var parts := Split(data, SEPARATOR);
      data == Fields(parts[0], parts[1], TEMPERATURE_KEY, parts[3])
  {
    FieldsOfSplit(data);
  }

  /**
   * A payload written from two `int64` values, the key and a temperature
   * text is accepted exactly when the temperature parses, and the record
   * holds the wrapped device id and the instant built from the timestamp.
   */
  lemma AcceptsFormatted(device: Int64, ts: Int64, temp: string, parseFloat: FloatParser)
    requires NoSeparator(temp)
    ensures VerifyPayload(Fields(Format(device), Format(ts), TEMPERATURE_KEY, temp), parseFloat)
         == match parseFloat(temp)
            case None => Err(InvalidTemperature)
            case Some(t) => Ok(TempData(WrapInt32(device), MillisInstant(ts), t))
  {
    ParseFormat(device);
    ParseFormat(ts);
    FormatNoSeparator(device);
    FormatNoSeparator(ts);
    VerifyFields(Format(device), Format(ts), TEMPERATURE_KEY, temp, parseFloat);
  }

  /** The key without its quotes is rejected, however good the other fields are. */
  lemma UnquotedKeyRejected(device: Int64, ts: Int64, temp: string, parseFloat: FloatParser)
    requires NoSeparator(temp)
    ensures VerifyPayload(Fields(Format(device), Format(ts), "Temperature", temp), parseFloat)
         == Err(TemperatureKeyMissing)
  {
    ParseFormat(device);
    ParseFormat(ts);
    FormatNoSeparator(device);
    FormatNoSeparator(ts);
    assert "Temperature" != TEMPERATURE_KEY;
    VerifyFields(Format(device), Format(ts), "Temperature", temp, parseFloat);
  }

  lemma FormatNoSeparator(v: int)
    ensures NoSeparator(Format(v))
  {
    var w: int := if v < 0 then -v else v;
    ValueFormatNat(w);
    var digits := FormatNat(w);
    assert forall i :: 0 <= i < |digits| ==> digits[i] != SEPARATOR;
    if v < 0 {
      assert Format(v) == "-" + digits;
    }
  }

  /**
   * The stored instant is the intended one, `ts` milliseconds after the epoch,
   * only when `ts` is a whole number of seconds: otherwise the remainder is
   * read as nanoseconds instead of milliseconds.
   */
  lemma MillisInstantExactIff(ts: int)
    ensures Nanos(MillisInstant(ts)) == ts * 1_000_000 <==> TruncRem(ts, MILLIS_PER_SECOND) == 0
  {
  }

  /**
   * The reading `42:1690000000123:'Temperature':91.5`: device 42, the instant
   * 1690000000 s plus 123 ns (not 123 ms), temperature 91.5.
   */
  lemma ExampleReading(parseFloat: FloatParser)
    requires parseFloat("91.5") == Some(91.5)
    ensures VerifyPayload(Fields(Format(42), Format(1690000000123), TEMPERATURE_KEY, "91.5"), parseFloat)
         == Ok(TempData(42, Instant(1690000000, 123), 91.5))
  {
    AcceptsFormatted(42, 1690000000123, "91.5", parseFloat);
  }

  /** 1.5 seconds after the epoch comes out as one second and 500 nanoseconds. */
  lemma MillisInstantExample()
    ensures MillisInstant(1500) == Instant(1, 500)
    ensures MillisInstant(-1500) == Instant(-2, NANOS_PER_SECOND - 500)
  {
  }
}
