/**
 * Whole call chains on a fresh builder, as an application would write them,
 * with what they emit, and two lemmas they rest on. Each chain is proved from
 * the contracts of the builder's methods alone; the encoder stays a parameter.
 */
module Scenarios {
  import opened Json
  import opened HeaderTable
  import opened Replio

  /** The content-type test ignores letter case and matches the whole name only. */
  lemma ContentTypeNames()
    ensures IsContentType("content-type") && IsContentType("Content-Type") && IsContentType("CONTENT-TYPE")
    ensures !IsContentType("X-Trace") && !IsContentType("Content-Type-Options")
  {
    assert LowerChar('X') == 'x' != 'c';
  }

  /** A builder whose only header is `(k, v)` emits its status and that header
      line, then, unless `k` is a content type, the JSON default, then the body. */
  lemma OneHeaderEmits(status: int, k: string, v: string, response: Envelope, options: int, encode: Encoder)
    ensures var out := Emitted(status, [(k, v)], response, options, encode);
            |out| > 1 && out[..2] == [Status(status), Header(k + ": " + v)]
            && out[2..] == (if IsContentType(k) then [] else [Header(DefaultContentType)])
                           + BodyEvents(encode(EnvelopeValue(response), options), encode)
  {
    var t := [(k, v)];
    assert t[..0] == [];
    assert HeaderLines(t) == [Header(HeaderLine((k, v)))];
    assert HasContentType(t) <==> IsContentType(t[0].0);
  }

  /** A one-header builder whose envelope encoding throws emits its status,
      its header line and the JSON default, and nothing after them. */
  lemma OneHeaderThrows(status: int, k: string, v: string, response: Envelope, options: int, encode: Encoder)
    requires !IsContentType(k)
    requires encode(EnvelopeValue(response), options).Thrown?
    ensures Emitted(status, [(k, v)], response, options, encode)
              == [Status(status), Header(k + ": " + v), Header(DefaultContentType)]
  {
    OneHeaderEmits(status, k, v, response, options, encode);
    var out := Emitted(status, [(k, v)], response, options, encode);
    assert out == out[..2] + out[2..];
  }

  /** `(new Replio())->success('ok', ['id' => 1])->send()`: the header table
      was never assigned, so `send` stops with an error right after the status. */
  method SuccessWithoutHeaders(encode: Encoder) returns (out: seq<Event>, fault: bool)
    ensures fault
    ensures out == [Status(HttpOk)]
  {
    var b := new Replio();
    b := b.Success("ok", Object([("id", Int(1))]));
    out, fault := b.Send(encode);
  }

  /** An empty `withHeaders([])` stores nothing and so does not initialise the table either. */
  method EmptyHeadersStillFail(encode: Encoder) returns (out: seq<Event>, fault: bool)
    ensures fault
    ensures out == [Status(HttpOk)]
  {
    var b := new Replio();
    b := b.WithHeaders([]);
    b := b.Success();
    out, fault := b.Send(encode);
  }

  /** A custom header without a content type gets the JSON default after it. */
  method TraceHeaderGetsDefaultContentType(encode: Encoder) returns (out: seq<Event>, fault: bool)
    ensures fault <==> EncodingThrows(encode(EnvelopeValue(Envelope(true, "", Null, [])), 0), encode)
    ensures |out| > 1 && out[..2] == [Status(HttpOk), Header("X-Trace: abc")]
    ensures out[2..] == [Header(DefaultContentType)] + BodyEvents(encode(EnvelopeValue(Envelope(true, "", Null, [])), 0), encode)
  {
    assert "X-Trace" + ": " + "abc" == "X-Trace: abc";
    var b := new Replio();
    b := b.WithHeaders([("X-Trace", "abc")]);
    assert b.headers == [("X-Trace", "abc")];
    b := b.Success();
    out, fault := b.Send(encode);
    assert !IsContentType("X-Trace") by { ContentTypeNames(); }
    OneHeaderEmits(HttpOk, "X-Trace", "abc", b.response, 0, encode);
  }

  /** A content type in any letter case replaces the default: after the
      status and that one header, nothing else is a header. */
  method OwnContentTypeIsNotDuplicated(encode: Encoder) returns (out: seq<Event>, fault: bool)
    ensures fault <==> EncodingThrows(encode(EnvelopeValue(Envelope(true, "", Null, [])), 0), encode)
    ensures |out| > 1 && out[..2] == [Status(HttpOk), Header("content-type: text/plain")]
    ensures forall i :: 2 <= i < |out| ==> !out[i].Header?
  {
    assert "content-type" + ": " + "text/plain" == "content-type: text/plain";
    var b := new Replio();
    b := b.WithHeaders([("content-type", "text/plain")]);
    assert b.headers == [("content-type", "text/plain")];
    b := b.Success();
    out, fault := b.Send(encode);
    assert IsContentType("content-type") by { ContentTypeNames(); }
    OneHeaderEmits(HttpOk, "content-type", "text/plain", b.response, 0, encode);
    var body := out[2..];
    forall i | 2 <= i < |out| ensures !out[i].Header? {
      assert out[i] == body[i - 2];
    }
  }

  /** An error response keeps its status; when the envelope cannot be
      encoded, the 500 comes after the status and headers already sent. */
  method BadInput(encode: Encoder) returns (out: seq<Event>, fault: bool)
    ensures var first := encode(EnvelopeValue(Envelope(false, "bad input", Null, [Str("field x required")])), 0);
            fault <==> EncodingThrows(first, encode)
    ensures |out| > 1 && out[..2] == [Status(HttpBadRequest), Header("Content-Type: text/plain")]
    ensures var first := encode(EnvelopeValue(Envelope(false, "bad input", Null, [Str("field x required")])), 0);
            out[2..] == BodyEvents(first, encode)
  {
    assert "Content-Type" + ": " + "text/plain" == "Content-Type: text/plain";
    var b := new Replio();
    b := b.WithHeaders([("Content-Type", "text/plain")]);
    assert b.headers == [("Content-Type", "text/plain")];
    b := b.Error("bad input", HttpBadRequest, [Str("field x required")]);
    out, fault := b.Send(encode);
    assert IsContentType("Content-Type") by { ContentTypeNames(); }
    OneHeaderEmits(HttpBadRequest, "Content-Type", "text/plain", b.response, 0, encode);
  }

  /** With JSON_THROW_ON_ERROR set, data that `json_encode` cannot encode
      (a value holding invalid UTF-8, say) makes it throw: the log ends after
      the headers, with neither the 500 nor the fallback body. */
  method ThrowOnErrorSkipsFallback(d: Value, encode: Encoder) returns (out: seq<Event>, fault: bool)
    requires encode(EnvelopeValue(Envelope(false, "", d, [])), JsonThrowOnError).Thrown?
    ensures fault
    ensures out == [Status(HttpOk), Header("X-Trace: abc"), Header(DefaultContentType)]
  {
    assert "X-Trace" + ": " + "abc" == "X-Trace: abc";
    var b := new Replio();
    b := b.WithData(d);
    b := b.WithJsonOptions(JsonThrowOnError);
    b := b.WithHeaders([("X-Trace", "abc")]);
    assert b.headers == [("X-Trace", "abc")];
    out, fault := b.Send(encode);
    assert !IsContentType("X-Trace") by { ContentTypeNames(); }
    OneHeaderThrows(HttpOk, "X-Trace", "abc", b.response, JsonThrowOnError, encode);
  }

  /** `send` has no terminal state: the builder can be changed and sent
      again, and a second send of an unchanged builder repeats the first. */
  method SendTwice(encode: Encoder) returns (first: seq<Event>, second: seq<Event>, third: seq<Event>)
    ensures first == second
    ensures |first| > 0 && |third| > 0
    ensures third[0] == Status(HttpNotFound) && third[1..] == first[1..]
  {
    var b := new Replio();
    b := b.WithHeaders([("X-Trace", "abc")]);
    var fault;
    first, fault := b.Send(encode);
    second, fault := b.Send(encode);
    b := b.WithStatus(HttpNotFound);
    third, fault := b.Send(encode);
    StatusLeadsOnly(HttpOk, HttpNotFound, b.headers, b.response, b.jsonOptions, encode);
  }
}
