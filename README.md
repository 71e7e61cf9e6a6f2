# Telemetry payload validator and error log

A Dafny model of the core of a small Go service (`main.go`) that accepts
device telemetry over HTTP. A client posts a raw string of the form
`<deviceId>:<unixMillis>:'Temperature':<temperature>`. The service
validates it in `verifyPayload`, flags readings of 90 or more as
"overtemp", and keeps every rejected raw string in a process-wide log
(`payloadErrors`). The log can be read (`GET /errors`) and emptied
(`DELETE /errors`).

Modules, one per concern of `main.go`:

- `Wrappers` — `Option` and `Result`.
- `Integers` — Go's `int32`/`int64` ranges, the `int32(v)` wrap-around
  conversion, and Go's truncating `/` and `%` (Dafny's are Euclidean).
- `Strings` — `strings.Split` on one separator character, with `Join` as its
  proved inverse.
- `Decimal` — `strconv.ParseInt(s, 10, 64)`, proved against a reference
  decimal formatter (`Format`).
- `GoTime` — `time.Unix(sec, nsec)` as a normalised (seconds, nanoseconds)
  instant.
- `Payload` — `verifyPayload`: the five checks in their order and the record
  they build.
- `Overtemp` — the threshold rule that builds the response, and which JSON
  keys `omitempty` keeps.
- `Handlers` — the `ErrorLog` class (the `payloadErrors` slice as a `seq`
  field with `Append`, `Snapshot`, `Clear`) and the `POST /temp` handler as
  a method over it.

Two library calls the code depends on are parameters of the model:
`strconv.ParseFloat` is a `FloatParser` (`string -> Option<real>`), and
`Time.Format("2006-01-02 15:04:05")` is a `TimeFormatter` (`Instant -> string`).
The log is the global `payloadErrors` in the source. Here it is an
`ErrorLog` object: `POST /temp` is the method `AddTemperatureData`, which
takes the log as a parameter, and `GET /errors` and `DELETE /errors` are the
log's own `Snapshot` and `Clear` methods.

Behaviour the model follows as written:

- **Timestamp.** `time.Unix` takes nanoseconds as its second argument, so
  in `time.Unix(ts/1000, ts%1000)` the millisecond remainder becomes that
  many nanoseconds. The instant is `ts/1000` seconds plus `ts%1000` ns, with
  truncating division. `Payload.MillisInstantExactIff` shows that this
  equals `ts` milliseconds after the epoch exactly when `ts` is a whole
  number of seconds.
- **Device id.** Any `int64` is accepted and narrowed to `int32` by
  wrap-around. For example, `4294967338` becomes `42`.
- **Response keys.** `omitempty` drops `device_id` when it is 0. So an
  overtemp reading from device 0 has no `device_id` key
  (`Overtemp.OvertempBody`).

## Model

| member | source | states |
|---|---|---|
| `Integers.WrapInt32` | main.go:61 | the result is an `int32`, congruent to the parsed value modulo 2^32, and equal to it when it already fits |
| `Integers.WrapInt32Unique` | main.go:61 | the wrapped value is the only `int32` congruent to the input modulo 2^32 |
| `Integers.WrapInt32Examples` | main.go:61 | 2^32+42 wraps to 42; one past either end of the `int32` range lands on the other end |
| `Integers.TruncDiv` | main.go:70 | `ts/1000` rounds toward zero: the quotient times the divisor is within one divisor of `a`, on the same side of zero |
| `Integers.TruncRem` | main.go:70 | `ts%1000` satisfies `a == b*q + r`, lies in (-b, b) and has the sign of `a` |
| `Strings.Split` | main.go:48 | a split has exactly one part more than the string has separators (the empty string gives one empty part), and no part contains the separator |
| `Strings.JoinSplit` | main.go:48 | joining the parts of a split with the separator gives back the original string |
| `Strings.SplitJoin` | main.go:48 | splitting a join of separator-free parts gives back those parts |
| `Decimal.ParseInt64` | main.go:56-59 | parsing succeeds exactly on an optional sign followed by one or more ASCII digits whose value fits in `int64`, and returns that value; the empty string fails |
| `Decimal.ParseFormat` | main.go:64-67 | every `int64` written in canonical decimal is accepted and read back unchanged |
| `Decimal.PlusSign` | main.go:56 | a leading `+` before digits does not change the result |
| `Decimal.LeadingZero` | main.go:64 | leading zeros do not change the value of a digit string |
| `Decimal.RangeEdge` | main.go:56-59 | the largest and smallest `int64` are accepted, and one past either end is rejected |
| `GoTime.Unix` | main.go:70 | the instant has its nanosecond part in [0, 1e9) and denotes exactly `sec` seconds plus `nsec` nanoseconds |
| `GoTime.UnixEqual` | main.go:70 | two `time.Unix` calls give the same instant if and only if they denote the same nanosecond |
| `Payload.MillisInstant` | main.go:64-70 | the stored instant is `ts/1000` seconds plus `ts%1000` nanoseconds, with the remainder strictly between -1000 and 1000 |
| `Payload.MillisInstantExactIff` | main.go:69-70 | the stored instant equals `ts` milliseconds after the epoch if and only if `ts` is a multiple of 1000 |
| `Payload.MillisInstantExample` | main.go:70 | 1500 ms gives 1 s + 500 ns; -1500 ms gives -2 s + (1e9 - 500) ns |
| `Payload.VerifyPayload` | main.go:42-84 | the result is the part-count error if and only if the string does not hold exactly three `:` |
| `Payload.FieldsOfSplit` | main.go:48-53 | a string with exactly three `:` is its four separator-free parts joined by `:` |
| `Payload.VerifyFields` | main.go:51-83 | the first failing check decides the error (device id, then timestamp, then key, then temperature); success holds if and only if all pass, and then the record carries the wrapped id, the instant and the temperature together |
| `Payload.AcceptedShape` | main.go:48-75 | an accepted string has exactly three `:` and the quoted key as its third field |
| `Payload.AcceptsFormatted` | main.go:55-83 | a payload written from two `int64` values, the key and a temperature text is accepted exactly when the temperature parses, with the expected record |
| `Payload.UnquotedKeyRejected` | main.go:72-75 | `Temperature` without quotes fails with the key error even when the numeric fields are valid |
| `Payload.ExampleReading` | main.go:42-84 | `42:1690000000123:'Temperature':91.5` gives device 42, instant 1690000000 s + 123 ns, temperature 91.5 |
| `Overtemp.Evaluate` | main.go:111-119 | overtemp holds if and only if the temperature is at least 90; then the device id and formatted instant are carried, otherwise both are at their zero values |
| `Overtemp.JsonKeys` | main.go:27-32 | `overtemp` is always written; `device_id` only if non-zero; `formatted_time` only if non-empty |
| `Overtemp.BelowThresholdBody` | main.go:112-119 | below 90 the response body is exactly `{"overtemp": false}` |
| `Overtemp.OvertempBody` | main.go:114-119 | at or above 90 the body carries `device_id` exactly when the id is non-zero, and `formatted_time` exactly when the formatted text is non-empty |
| `Handlers.ErrorLog.constructor` | main.go:39 | the log starts empty |
| `Handlers.ErrorLog.Append` | main.go:106 | the raw string is added at the end and earlier entries are unchanged |
| `Handlers.ErrorLog.Snapshot` | main.go:125-129 | reading returns the entries in append order and changes nothing |
| `Handlers.ErrorLog.Clear` | main.go:131-136 | the log is empty afterwards whatever it held, so a second clear changes nothing and a following read returns no entries |
| `Handlers.ReplyTo` | main.go:86-123 | the reply is a bad request if and only if the body was unreadable, the JSON did not decode, or the validator rejected the payload; otherwise it is the threshold response for the parsed record |
| `Handlers.LogAfter` | main.go:103-109 | a rejected payload is appended verbatim; a success, an unreadable body or bad JSON leaves the log unchanged; the old log is always a prefix |
| `Handlers.AddTemperatureData` | main.go:86-123 | the handler's reply and its new log are those of `ReplyTo` and `LogAfter` |
| `Handlers.RejectedDataCount` | main.go:104-106 | the rejected payloads of a run of requests number exactly the rejected requests |
| `Handlers.ReplayAppendsRejected` | main.go:104-106 | after any run of requests the log is the old log followed by exactly the rejected payloads, in arrival order, one entry per rejection |

## Left out

- HTTP transport: the gin router, routes, status codes, the server's bind
  address and `main` (main.go:139-151). The reply is modelled only as bad
  request or accepted, not as an HTTP status.
- `ioutil.ReadAll` and `json.Unmarshal` of the request body (main.go:90,
  main.go:97). Their outcome is an input of the handler (`Request`).
- JSON encoding of the replies. `JsonKeys` states only which response keys
  `omitempty` keeps. The log is `nil` at start (main.go:39) and after a
  clear (main.go:135), and Go encodes a `nil` log as `"errors": null`
  rather than `[]`. In the model both are just the empty sequence.
- `strconv.ParseFloat` and IEEE-754. The temperature is a `real` from a
  caller-supplied parser, so NaN and infinities, which Go's parser accepts,
  are not modelled, and `>= 90` is comparison on reals.
- `Time.Format` and the process's time zone. The formatter is a
  caller-supplied function of the instant.
- Decimal.ParseInt64: does not model which `strconv` error (syntax or range)
  is returned, because the source only tests `err != nil`.
- Payload.VerifyPayload: does not return the partly filled record that Go
  returns beside an error, because the only caller discards it.
- Concurrent access to `payloadErrors`. The source takes no lock, and the
  model is sequential.
