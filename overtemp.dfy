/**
 * The threshold rule applied to a parsed reading, and the shape of the
 * response body it produces.
 */
module Overtemp {
  import opened Integers
  import opened GoTime
  import opened Payload

  const THRESHOLD: real := 90.0

  /**
   * `Time.Format("2006-01-02 15:04:05")`, supplied by the caller: it depends
   * on the process's time zone, so the model takes it as given.
   */
  type TimeFormatter = Instant -> string

  /** The response body; zero values stand for "not set". */
  datatype ResponseData = ResponseData(overtemp: bool, deviceId: Int32, formattedTime: string)

  /** The response for an accepted reading: only a reading at or above 90 is flagged. */
  function Evaluate(rec: TempData, format: TimeFormatter): (r: ResponseData)
    ensures r.overtemp <==> rec.temperature >= THRESHOLD
    ensures r.overtemp ==> r.deviceId == rec.deviceId && r.formattedTime == format(rec.timestamp)
    ensures !r.overtemp ==> r.deviceId == 0 && r.formattedTime == ""
  {
    var initial := ResponseData(false, 0, "");
    if rec.temperature >= THRESHOLD then
      ResponseData(true, rec.deviceId, format(rec.timestamp))
    else
      initial
  }

  /**
   * The keys `encoding/json` writes for a response: `overtemp` always, and
   * `device_id` and `formatted_time` only when they are not at their zero
   * value (`omitempty`).
   */
  function JsonKeys(r: ResponseData): (keys: seq<string>)
    ensures "overtemp" in keys
    ensures "device_id" in keys <==> r.deviceId != 0
    ensures "formatted_time" in keys <==> r.formattedTime != ""
  {
    ["overtemp"]
    + (if r.deviceId != 0 then ["device_id"] else [])
    + (if r.formattedTime != "" then ["formatted_time"] else [])
  }

  /** Below the threshold the body is `{"overtemp": false}` and nothing else. */
  lemma BelowThresholdBody(rec: TempData, format: TimeFormatter)
    requires rec.temperature < THRESHOLD
    ensures Evaluate(rec, format) == ResponseData(false, 0, "")
    ensures JsonKeys(Evaluate(rec, format)) == ["overtemp"]
  {
  }

  /**
   * At or above the threshold the device id is written only when it is not
   * zero: an overtemp reading from device 0 has no `device_id` in its body.
   */
  lemma OvertempBody(rec: TempData, format: TimeFormatter)
    requires rec.temperature >= THRESHOLD
    ensures Evaluate(rec, format).overtemp
    ensures "device_id" in JsonKeys(Evaluate(rec, format)) <==> rec.deviceId != 0
    ensures "formatted_time" in JsonKeys(Evaluate(rec, format)) <==> format(rec.timestamp) != ""
  {
  }
}
