/**
 * The siteverify exchange, seen from the server: the form the class posts,
 * the reply it gets back (abstracted to what `wp_remote_post` and
 * `json_decode` hand over), and how `verify` turns that reply into an outcome
 * object.
 */
module SiteVerify {
  import opened Php
  import opened Wrappers

  /** A decoded JSON value, as `json_decode` returns it (objects as `stdClass`). */
  datatype Json =
    | JNull
    | JBool(b: bool)
    | JInt(i: int)
    | JStr(s: string)
    | JArray(items: seq<Json>)
    | JObject(fields: map<string, Json>)

  /** PHP truthiness of a decoded value: objects are always true, arrays when non-empty. */
  predicate Truthy(j: Json) {
    match j
    case JNull => false
    case JBool(b) => b
    case JInt(i) => i != 0
    case JStr(s) => StrTruthy(s)
    case JArray(items) => items != []
    case JObject(_) => true
  }

  /**
   * What the HTTP layer reports: a transport error (DNS, refused connection,
   * timeout), or a status code together with the body after `json_decode`
   * (which yields `JNull` for a body that is not JSON).
   */
  datatype Reply = TransportError(message: string) | Response(status: int, body: Json)

  /** The outcome object the caller reads: `$result->success`. */
  predicate Succeeded(outcome: Json) {
    outcome.JObject? && "success" in outcome.fields && Truthy(outcome.fields["success"])
  }

  /** The outcome object's `error-codes` list, or nothing when it has none. */
  function ErrorCodes(outcome: Json): seq<Json> {
    if outcome.JObject? && "error-codes" in outcome.fields && outcome.fields["error-codes"].JArray?
    then outcome.fields["error-codes"].items
    else []
  }

  /** A failure outcome built locally: `{success: false, error-codes: [code]}`. */
  function FailureOutcome(code: string): (outcome: Json)
    ensures !Succeeded(outcome)
    ensures ErrorCodes(outcome) == [JStr(code)]
  {
    JObject(map["success" := JBool(false), "error-codes" := JArray([JStr(code)])])
  }

  /** The code `verify` reports for a non-200 status. */
  function HttpErrorCode(status: int): (code: string)
    ensures "http_error_" <= code
  {
    "http_error_" + IntToString(status)
  }

  /** An outcome and the diagnostic lines written while producing it. */
  datatype Verification = Verification(outcome: Json, log: seq<string>)

  /**
   * `verify` after the request has been sent: a transport error, then a
   * non-200 status, then a falsy decoded body each give a failure outcome and
   * one log line; anything else is the decoded body itself.
   */
  function Classify(reply: Reply): Verification {
    match reply
    case TransportError(message) =>
      Verification(FailureOutcome("api_failure"), ["Turnstile verification failed: " + message])
    case Response(status, body) =>
      if status != 200 then
        Verification(FailureOutcome(HttpErrorCode(status)),
                     ["Turnstile verification failed with HTTP status: " + IntToString(status)])
      else if !Truthy(body) then
        Verification(FailureOutcome("invalid_response"),
                     ["Turnstile verification failed: Invalid response body"])
      else Verification(body, [])
  }

  /** The reply is handed back unchanged: a 200 status with a truthy body. */
  predicate PassesThrough(reply: Reply) {
    reply.Response? && reply.status == 200 && Truthy(reply.body)
  }

  /**
   * Every outcome built locally is a failure with exactly one error code,
   * logged once; a passed-through body is returned verbatim with nothing logged.
   */
  lemma ClassifyShape(reply: Reply)
    ensures PassesThrough(reply) ==> Classify(reply) == Verification(reply.body, [])
    ensures !PassesThrough(reply) ==>
      !Succeeded(Classify(reply).outcome) && |ErrorCodes(Classify(reply).outcome)| == 1
      && |Classify(reply).log| == 1
  {
  }

  /**
   * Success is never inferred from the transport: an outcome reports success
   * only if the service answered 200 with a body whose own `success` is true.
   */
  lemma SuccessComesFromService(reply: Reply)
    ensures Succeeded(Classify(reply).outcome) <==>
      reply.Response? && reply.status == 200 && Succeeded(reply.body)
  {
  }

  /** The checks run in order: the first that fails decides the single error code. */
  lemma ClassifyOrder(reply: Reply)
    ensures reply.TransportError? ==> ErrorCodes(Classify(reply).outcome) == [JStr("api_failure")]
    ensures reply.Response? && reply.status != 200 ==>
      ErrorCodes(Classify(reply).outcome) == [JStr(HttpErrorCode(reply.status))]
    ensures reply.Response? && reply.status == 200 && !Truthy(reply.body) ==>
      ErrorCodes(Classify(reply).outcome) == [JStr("invalid_response")]
  {
  }

  /** The status can be read back from the error code: different statuses, different codes. */
  lemma HttpErrorCodeInjective(s: int, t: int)
    ensures HttpErrorCode(s) == HttpErrorCode(t) <==> s == t
  {
    if HttpErrorCode(s) == HttpErrorCode(t) {
      var p := "http_error_";
      assert IntToString(s) == HttpErrorCode(s)[|p|..];
      assert IntToString(t) == HttpErrorCode(t)[|p|..];
    }
    IntToStringInjective(s, t);
  }

  /** The locally built codes never collide: the failing check can be told from the code alone. */
  lemma SyntheticCodesDistinct(status: int)
    ensures HttpErrorCode(status) != "api_failure"
    ensures HttpErrorCode(status) != "invalid_response"
    ensures HttpErrorCode(status) != "missing-input-secret"
  {
    assert HttpErrorCode(status)[0] == 'h';
  }

  // ---------------------------------------------------------------- request

  /** The POST form: parameter names and values, in insertion order. */
  type Form = seq<(string, Value)>

  function Keys(form: Form): (keys: seq<string>)
    ensures |keys| == |form|
    ensures forall k :: 0 <= k < |form| ==> keys[k] == form[k].0
  {
    if form == [] then [] else [form[0].0] + Keys(form[1..])
  }

  /** The value posted under `key`, if any. */
  function Lookup(form: Form, key: string): (v: Option<Value>)
    ensures v.Some? <==> key in Keys(form)
    ensures v.Some? ==> (key, v.value) in form
  {
    if form == [] then None
    else if form[0].0 == key then Some(form[0].1)
    else Lookup(form[1..], key)
  }
}
