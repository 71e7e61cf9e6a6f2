/**
 * The in-memory log of rejected payloads and the three handlers that touch
 * it: `POST /temp` appends on a validation failure, `GET /errors` reads it,
 * `DELETE /errors` empties it.
 */
module Handlers {
  import opened Payload
  import opened Overtemp

  /** The process-wide `payloadErrors` value, passed explicitly to each handler. */
  class ErrorLog {
    var errors: seq<string>

    /** The log starts empty. */
    constructor ()
      ensures errors == []
    {
      errors := [];
    }

    /** Adds one raw payload at the end; earlier entries stay as they were. */
    method Append(raw: string)
      modifies this
      ensures errors == old(errors) + [raw]
    {
      errors := errors + [raw];
    }

    /** The current entries, in the order they were appended. Reading changes nothing. */
    method Snapshot() returns (s: seq<string>)
      ensures s == errors
    {
      s := errors;
    }

    /** Empties the log, whatever it held: clearing twice is clearing once. */
    method Clear()
      modifies this
      ensures errors == []
    {
      errors := [];
    }
  }

  /** What reached `POST /temp`, as far as the body reading and JSON decoding go. */
  datatype Request =
    | BodyUnreadable
    | MalformedJson
    | Decoded(data: string)

  /** The handler's answer: a generic bad request, or the response body of an accepted reading. */
  datatype Reply = BadRequest | Accepted(response: ResponseData)

  /** True of the requests whose payload the handler records: decoded, then rejected by the validator. */
  predicate Rejected(req: Request, parseFloat: FloatParser) {
    req.Decoded? && VerifyPayload(req.data, parseFloat).Err?
  }

  /** The reply `POST /temp` sends. */
  function ReplyTo(req: Request, parseFloat: FloatParser, format: TimeFormatter): (reply: Reply)
    ensures reply.BadRequest? <==> !req.Decoded? || Rejected(req, parseFloat)
    ensures reply.Accepted? ==> reply.response == Evaluate(VerifyPayload(req.data, parseFloat).value, format)
  {
    match req
    case BodyUnreadable => BadRequest
    case MalformedJson => BadRequest
    case Decoded(data) =>
      match VerifyPayload(data, parseFloat)
      case Err(_) => BadRequest
      case Ok(rec) => Accepted(Evaluate(rec, format))
  }

  /** The log after `POST /temp`: a rejected payload is appended verbatim, anything else leaves it alone. */
  function LogAfter(errors: seq<string>, req: Request, parseFloat: FloatParser): (next: seq<string>)
    ensures |next| == |errors| + (if Rejected(req, parseFloat) then 1 else 0)
    ensures next[..|errors|] == errors
    ensures Rejected(req, parseFloat) ==> next[|errors|] == req.data
  {
    if Rejected(req, parseFloat) then errors + [req.data] else errors
  }

  /** `POST /temp`. */
  method AddTemperatureData(log: ErrorLog, req: Request, parseFloat: FloatParser, format: TimeFormatter)
    returns (reply: Reply)
    modifies log
    ensures reply == ReplyTo(req, parseFloat, format)
    ensures log.errors == LogAfter(old(log.errors), req, parseFloat)
  {
    match req {
      case BodyUnreadable =>
        reply := BadRequest;
      case MalformedJson =>
        reply := BadRequest;
      case Decoded(data) =>
        var result := VerifyPayload(data, parseFloat);
        if result.Err? {
          log.Append(data);
          reply := BadRequest;
        } else {
          reply := Accepted(Evaluate(result.value, format));
        }
    }
  }

  /** The payloads, in order, of the requests in `reqs` that the validator rejected. */
  function RejectedData(reqs: seq<Request>, parseFloat: FloatParser): seq<string> {
    if |reqs| == 0 then []
    else
      (if Rejected(reqs[0], parseFloat) then [reqs[0].data] else [])
      + RejectedData(reqs[1..], parseFloat)
  }

  /** The number of requests in `reqs` that the validator rejected. */
  function RejectedCount(reqs: seq<Request>, parseFloat: FloatParser): nat {
    if |reqs| == 0 then 0
    else (if Rejected(reqs[0], parseFloat) then 1 else 0) + RejectedCount(reqs[1..], parseFloat)
  }

  /** The log after handling `reqs` one after another, starting from `errors`. */
  function Replay(errors: seq<string>, reqs: seq<Request>, parseFloat: FloatParser): seq<string> {
    if |reqs| == 0 then errors
    else LogAfter(Replay(errors, reqs[..|reqs| - 1], parseFloat), reqs[|reqs| - 1], parseFloat)
  }

  lemma {:induction false} RejectedDataSnoc(reqs: seq<Request>, req: Request, parseFloat: FloatParser)
    ensures RejectedData(reqs + [req], parseFloat)
         == RejectedData(reqs, parseFloat) + (if Rejected(req, parseFloat) then [req.data] else [])
    decreases |reqs|
  {
    if |reqs| > 0 {
      assert (reqs + [req])[1..] == reqs[1..] + [req];
      RejectedDataSnoc(reqs[1..], req, parseFloat);
    } else {
      assert reqs + [req] == [req];
    }
  }

  /** One log entry per rejected request. */
  lemma {:induction false} RejectedDataCount(reqs: seq<Request>, parseFloat: FloatParser)
    ensures |RejectedData(reqs, parseFloat)| == RejectedCount(reqs, parseFloat)
    decreases |reqs|
  {
    if |reqs| > 0 {
      RejectedDataCount(reqs[1..], parseFloat);
    }
  }

  /**
   * No lost and no invented entries: after a run of requests the log holds
   * what it held before followed by exactly the rejected payloads, verbatim,
   * in the order they arrived, one per rejected request.
   */
  lemma {:induction false} ReplayAppendsRejected(errors: seq<string>, reqs: seq<Request>, parseFloat: FloatParser)
    ensures Replay(errors, reqs, parseFloat) == errors + RejectedData(reqs, parseFloat)
    ensures |Replay(errors, reqs, parseFloat)| == |errors| + RejectedCount(reqs, parseFloat)
    decreases |reqs|
  {
    if |reqs| > 0 {
      var init, last := reqs[..|reqs| - 1], reqs[|reqs| - 1];
      ReplayAppendsRejected(errors, init, parseFloat);
      assert reqs == init + [last];
      RejectedDataSnoc(init, last, parseFloat);
    }
    RejectedDataCount(reqs, parseFloat);
  }
}
