/**
 * `parseError`: turning the error codes of a verification outcome into one
 * human-readable line. Translation (`__`) is the identity on these strings.
 */
module ErrorText {

  /** The fixed table from error code to message. */
  const Messages: map<string, string> := map[
    "missing-input-secret" := "Missing server configuration",
    "invalid-input-secret" := "Invalid server secret",
    "missing-input-response" := "Verification not completed",
    "invalid-input-response" := "Invalid or expired verification token",
    "bad-request" := "Invalid request format",
    "timeout-or-duplicate" := "Verification session timed out",
    "internal-error" := "Verification service temporarily unavailable",
    "api_failure" := "Unable to connect to verification service",
    "invalid_response" := "Verification service returned invalid response",
    "http_error_400" := "Verification service request error",
    "http_error_429" := "Too many requests to verification service",
    "http_error_500" := "Verification service internal error"
  ]

  /** What `parseError` returns for an empty list of codes. */
  const UnknownError: string := "Unknown error"

  /** The start of the message for a code that is not in the table. */
  const UnknownPrefix: string := "Unknown error: "

  /** The message for one code: its table entry, or the "Unknown error: <code>" template. */
  function Message(code: string): string {
    if code in Messages then Messages[code] else UnknownPrefix + code
  }

  /** `array_map` of `Message` over the codes: one message per code, in order. */
  function MessagesOf(codes: seq<string>): (ms: seq<string>)
    ensures |ms| == |codes|
    ensures forall k :: 0 <= k < |codes| ==> ms[k] == Message(codes[k])
  {
    if codes == [] then [] else [Message(codes[0])] + MessagesOf(codes[1..])
  }

  /** `implode($sep, $parts)`. */
  function Join(parts: seq<string>, sep: string): string {
    if |parts| == 0 then ""
    else if |parts| == 1 then parts[0]
    else parts[0] + sep + Join(parts[1..], sep)
  }

  /** `parseError`: "Unknown error" for no codes, otherwise the ", "-joined messages. */
  function ParseError(codes: seq<string>): string {
    if codes == [] then UnknownError else Join(MessagesOf(codes), ", ")
  }

  /** The only tabled codes in the `http_error_` family are those for 400, 429 and 500. */
  lemma TabledHttpCodes(code: string)
    requires code in Messages && "http_error_" <= code
    ensures code == "http_error_400" || code == "http_error_429" || code == "http_error_500"
  {
    // Of the twelve keys, only the three below start with an 'h'.
    assert code[..11] == "http_error_" && code[0] == 'h';
  }

  /** Tabled messages are never in the "Unknown error: " form; untabled ones always are. */
  lemma MessageIsTabledIff(code: string)
    ensures code in Messages <==> !(UnknownPrefix <= Message(code))
  {
    if code in Messages {
      // The third letter of every tabled message differs from the 'k' of "Unknown".
      var m := Messages[code];
      assert |m| > 2 && m[2] != 'k';
    }
  }

  /** The template keeps the code: it can be read back from an untabled message. */
  lemma UnknownMessageKeepsCode(code: string)
    requires code !in Messages
    ensures Message(code)[|UnknownPrefix|..] == code
  {
  }

  /** Every message is longer than the bare "Unknown error". */
  lemma MessageLongerThanUnknown(code: string)
    ensures |Message(code)| > |UnknownError|
  {
  }

  /** The messages of a concatenation are the messages of its parts, concatenated. */
  lemma MessagesOfAppend(a: seq<string>, b: seq<string>)
    ensures MessagesOf(a + b) == MessagesOf(a) + MessagesOf(b)
  {
    var l, r := MessagesOf(a + b), MessagesOf(a) + MessagesOf(b);
    forall k | 0 <= k < |l|
      ensures l[k] == r[k]
    {
      if k < |a| {
        assert (a + b)[k] == a[k];
      } else {
        assert (a + b)[k] == b[k - |a|];
      }
    }
  }

  /** Joining a non-empty list gives a string that begins with its first part. */
  lemma JoinStartsWithFirst(parts: seq<string>, sep: string)
    requires |parts| > 0
    ensures parts[0] <= Join(parts, sep)
  {
  }

  /** Joining two non-empty lists: the joins of each, with one separator between. */
  lemma {:induction false} JoinAppend(a: seq<string>, b: seq<string>, sep: string)
    requires |a| > 0 && |b| > 0
    ensures Join(a + b, sep) == Join(a, sep) + sep + Join(b, sep)
    decreases |a|
  {
    if |a| == 1 {
      assert a + b == [a[0]] + b;
    } else {
      assert (a + b)[1..] == a[1..] + b;
      JoinAppend(a[1..], b, sep);
    }
  }

  /** `parseError` says "Unknown error" exactly when there are no codes. */
  lemma ParseErrorUnknownIff(codes: seq<string>)
    ensures ParseError(codes) == UnknownError <==> codes == []
  {
    if codes != [] {
      var ms := MessagesOf(codes);
      JoinStartsWithFirst(ms, ", ");
      MessageLongerThanUnknown(codes[0]);
    }
  }

  /** A single code renders as exactly its message. */
  lemma ParseErrorSingle(code: string)
    ensures ParseError([code]) == Message(code)
  {
  }

  /**
   * The messages of a concatenation are the messages of each part, joined by
   * ", ": order is kept and nothing is deduplicated.
   */
  lemma ParseErrorAppend(a: seq<string>, b: seq<string>)
    requires a != [] && b != []
    ensures ParseError(a + b) == ParseError(a) + ", " + ParseError(b)
  {
    MessagesOfAppend(a, b);
    JoinAppend(MessagesOf(a), MessagesOf(b), ", ");
  }

  /** A repeated code is reported twice. */
  lemma ParseErrorKeepsDuplicates(code: string)
    ensures ParseError([code, code]) == Message(code) + ", " + Message(code)
  {
    ParseErrorAppend([code], [code]);
    assert [code] + [code] == [code, code];
  }

  /** Three worked examples: no codes, a tabled code, an untabled code. */
  lemma ParseErrorExamples()
    ensures ParseError([]) == "Unknown error"
    ensures ParseError(["invalid-input-response"]) == "Invalid or expired verification token"
    ensures ParseError(["not-a-real-code"]) == "Unknown error: not-a-real-code"
  {
    assert "not-a-real-code" !in Messages;
  }
}
