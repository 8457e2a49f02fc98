/**
 * The Replio response builder: an envelope (`success`, `message`, `data`,
 * `errors`), an HTTP status, an ordered header table and the JSON-encoding
 * flags, changed in place by chainable mutators and emitted by `send`.
 *
 * `http_response_code`, `header` and `echo` are process-wide output; here
 * `send` returns the calls it makes, in order, as a log of events.
 */
module Replio {
  import opened Wrappers
  import opened Json
  import opened HeaderTable

  const HttpOk := 200
  const HttpCreated := 201
  const HttpBadRequest := 400
  const HttpUnauthorized := 401
  const HttpForbidden := 403
  const HttpNotFound := 404
  const HttpInternalServerError := 500

  /** The message of the body sent when the envelope cannot be encoded. */
  const FallbackMessage := "Errore interno: impossibile generare la risposta JSON."

  const DefaultContentType := "Content-Type: application/json"

  /** PHP's JSON_THROW_ON_ERROR flag: `json_encode` throws instead of returning `false`. */
  const JsonThrowOnError := 0x40_0000

  /** The `$response` array. */
  datatype Envelope = Envelope(success: bool, message: string, data: Value, errors: seq<Value>)

  /** One call `send` makes: `http_response_code`, `header` or `echo`. */
  datatype Event = Status(code: int) | Header(line: string) | Body(text: string)

  /** The PHP array `json_encode` receives: the four keys in declaration order. */
  function EnvelopeValue(env: Envelope): (j: Value)
    ensures j.Object? && |j.members| == 4
    ensures Member(j.members, "success") == Some(Bool(env.success))
    ensures Member(j.members, "message") == Some(Str(env.message))
    ensures Member(j.members, "data") == Some(env.data)
    ensures Member(j.members, "errors") == Some(List(env.errors))
  {
    var members := [("success", Bool(env.success)), ("message", Str(env.message)),
                    ("data", env.data), ("errors", List(env.errors))];
    assert Member(members[2..], "errors") == Some(List(env.errors));
    assert Member(members[1..], "data") == Some(env.data);
    Object(members)
  }

  /** The array encoded when the envelope cannot be: it has no `data` key. */
  function FallbackValue(diagnostic: string): (j: Value)
    ensures j.Object? && |j.members| == 3
    ensures Member(j.members, "success") == Some(Bool(false))
    ensures Member(j.members, "message") == Some(Str(FallbackMessage))
    ensures Member(j.members, "data") == None
    ensures Member(j.members, "errors") == Some(List([Str(diagnostic)]))
  {
    var members := [("success", Bool(false)), ("message", Str(FallbackMessage)),
                    ("errors", List([Str(diagnostic)]))];
    assert Member(members[1..], "errors") == Some(List([Str(diagnostic)]));
    Object(members)
  }

  /** What `echo` prints for a `json_encode` result that was returned: `false` prints nothing. */
  function Echo(e: Encoding): (r: string)
    requires !e.Thrown?
    ensures e.Encoded? ==> r == e.text
    ensures e.Failed? ==> r == ""
  {
    match e
    case Encoded(text) => text
    case Failed(_) => ""
  }

  function HeaderLine(entry: (string, string)): string
  {
    entry.0 + ": " + entry.1
  }

  /** `strtolower` on one character: ASCII letters only, as PHP 8.2 and later do it. */
  function LowerChar(c: char): (r: char)
    ensures !('A' <= r <= 'Z')
    ensures 'A' <= c <= 'Z' ==> r as int == c as int + ('a' as int - 'A' as int)
    ensures !('A' <= c <= 'Z') ==> r == c
  {
    if 'A' <= c <= 'Z' then (c as int + 32) as char else c
  }

  /** `strtolower` on a string. */
  function Lower(s: string): (r: string)
    ensures |r| == |s|
    ensures forall i :: 0 <= i < |s| ==> r[i] == LowerChar(s[i])
  {
    if s == [] then [] else [LowerChar(s[0])] + Lower(s[1..])
  }

  /** `strtolower($key) === 'content-type'`, compared character by character. */
  predicate IsContentType(key: string)
  {
    |key| == |"content-type"| && forall i :: 0 <= i < |key| ==> LowerChar(key[i]) == "content-type"[i]
  }

  /** The character-wise test is the source's test: the lowercased name is `content-type`. */
  lemma ContentTypeIsLowered(key: string)
    ensures IsContentType(key) <==> Lower(key) == "content-type"
  {
    var l := Lower(key);
    if IsContentType(key) {
      assert forall i :: 0 <= i < |l| ==> l[i] == "content-type"[i];
    }
    if l == "content-type" {
      assert forall i :: 0 <= i < |key| ==> LowerChar(key[i]) == l[i];
    }
  }

  /** Some stored header name lowercases to `content-type`. */
  predicate HasContentType(t: Table)
  {
    exists i :: 0 <= i < |t| && IsContentType(t[i].0)
  }

  /** A merge sets a content type exactly when the table or the batch had one. */
  lemma MergeContentType(t: Table, batch: Table)
    requires NoDupKeys(t)
    ensures HasContentType(Merge(t, batch)) <==> HasContentType(t) || HasContentType(batch)
  {
    var m := Merge(t, batch);
    MergeKeys(t, batch);
    if HasContentType(m) {
      var i :| 0 <= i < |m| && IsContentType(m[i].0);
      assert m[i].0 in KeySet(m);
    }
    if HasContentType(t) {
      var i :| 0 <= i < |t| && IsContentType(t[i].0);
      assert t[i].0 in KeySet(m);
    }
    if HasContentType(batch) {
      var i :| 0 <= i < |batch| && IsContentType(batch[i].0);
      assert batch[i].0 in KeySet(m);
    }
  }

  /** `header("$key: $value")` for each stored header, in table order. */
  function HeaderLines(t: Table): seq<Event>
  {
    if t == [] then [] else HeaderLines(t[..|t| - 1]) + [Header(HeaderLine(t[|t| - 1]))]
  }

  /** `json_encode` throws, for the envelope or for the fallback, and so ends `send`. */
  predicate EncodingThrows(first: Encoding, encode: Encoder)
  {
    first.Thrown? || (first.Failed? && encode(FallbackValue(first.diagnostic), 0).Thrown?)
  }

  /** What follows the headers: the encoding; or else a second status 500 and
      the echo of the fallback array encoded with the default options; or
      nothing more once an encoding throws. */
  function BodyEvents(first: Encoding, encode: Encoder): (r: seq<Event>)
    ensures |r| <= 2
    ensures forall i :: 0 <= i < |r| ==> !r[i].Header?
  {
    match first
    case Encoded(text) => [Body(text)]
    case Failed(diagnostic) =>
      var second := encode(FallbackValue(diagnostic), 0);
      [Status(HttpInternalServerError)] + if second.Thrown? then [] else [Body(Echo(second))]
    case Thrown(_) => []
  }

  /** Everything `send` emits from a builder whose header table is initialised. */
  function Emitted(status: int, headers: Table, response: Envelope, options: int, encode: Encoder): (r: seq<Event>)
    ensures |headers| < |r| && r[0] == Status(status)
  {
    HeaderLinesLength(headers);
    [Status(status)] + HeaderLines(headers)
    + (if HasContentType(headers) then [] else [Header(DefaultContentType)])
    + BodyEvents(encode(EnvelopeValue(response), options), encode)
  }

  lemma {:induction false} HeaderLinesAt(t: Table, i: nat)
    requires i < |t|
    ensures |HeaderLines(t)| == |t|
    ensures HeaderLines(t)[i] == Header(HeaderLine(t[i]))
  {
    if i < |t| - 1 {
      HeaderLinesAt(t[..|t| - 1], i);
    } else if |t| > 1 {
      HeaderLinesAt(t[..|t| - 1], 0);
    }
  }

  lemma {:induction false} HeaderLinesLength(t: Table)
    ensures |HeaderLines(t)| == |t|
  {
    if t != [] {
      HeaderLinesLength(t[..|t| - 1]);
    }
  }

  /** `send` emits the status first, then one line per stored header, in table order. */
  lemma EmitsStatusThenHeaders(status: int, headers: Table, response: Envelope, options: int, encode: Encoder)
    ensures var out := Emitted(status, headers, response, options, encode);
            |headers| < |out| && out[0] == Status(status) &&
            forall i :: 0 <= i < |headers| ==> out[1 + i] == Header(HeaderLine(headers[i]))
  {
    var out := Emitted(status, headers, response, options, encode);
    HeaderLinesLength(headers);
    forall i | 0 <= i < |headers| ensures out[1 + i] == Header(HeaderLine(headers[i])) {
      HeaderLinesAt(headers, i);
    }
  }

  /** The default content type is emitted, right after the stored headers,
      exactly when no stored name lowercases to `content-type`. */
  lemma DefaultContentTypeIff(status: int, headers: Table, response: Envelope, options: int, encode: Encoder)
    ensures var out := Emitted(status, headers, response, options, encode);
            (1 + |headers| < |out| && out[1 + |headers|] == Header(DefaultContentType)) <==> !HasContentType(headers)
  {
    HeaderLinesLength(headers);
  }

  /** After the headers comes the encoded envelope if encoding succeeds. If it
      returns `false`, a status 500 follows, then the encoded fallback (empty
      if that returns `false` too). Once an encoding throws, nothing more is
      emitted. */
  lemma BodyFollowsHeaders(status: int, headers: Table, response: Envelope, options: int, encode: Encoder)
    ensures var out := Emitted(status, headers, response, options, encode);
            var n := |headers| + if HasContentType(headers) then 1 else 2;
            n <= |out| &&
            match encode(EnvelopeValue(response), options)
            case Encoded(text) => out[n..] == [Body(text)]
            case Failed(diagnostic) =>
              var second := encode(FallbackValue(diagnostic), 0);
              out[n..] == [Status(HttpInternalServerError)] + if second.Thrown? then [] else [Body(Echo(second))]
            case Thrown(_) => out[n..] == []
  {
    HeaderLinesLength(headers);
    var out := Emitted(status, headers, response, options, encode);
    var n := |headers| + if HasContentType(headers) then 1 else 2;
    assert out[n..] == BodyEvents(encode(EnvelopeValue(response), options), encode);
  }

  /** The stored status shows only in the first event: two builders that
      differ in status alone emit the same log after it. */
  lemma StatusLeadsOnly(status: int, other: int, headers: Table, response: Envelope, options: int, encode: Encoder)
    ensures var out := Emitted(status, headers, response, options, encode);
            0 < |out| && Emitted(other, headers, response, options, encode) == [Status(other)] + out[1..]
  {
    var rest := HeaderLines(headers)
      + (if HasContentType(headers) then [] else [Header(DefaultContentType)])
      + BodyEvents(encode(EnvelopeValue(response), options), encode);
    assert Emitted(status, headers, response, options, encode) == [Status(status)] + rest;
    assert Emitted(other, headers, response, options, encode) == [Status(other)] + rest;
  }

  class Replio {
    var response: Envelope
    var httpStatus: int
    var headers: Table
    /** `$headers` is declared without a default value and the constructor
        never assigns it: it stays uninitialised until `withHeaders` stores
        a first entry, and `send` then fails when it reads it. */
    var headersInitialised: bool
    var jsonOptions: int

    ghost predicate Valid()
      reads this
    {
      NoDupKeys(headers) && (!headersInitialised ==> headers == [])
    }

    constructor ()
      ensures Valid()
      ensures response == Envelope(false, "", Null, [])
      ensures httpStatus == HttpOk && jsonOptions == 0
      ensures headers == [] && !headersInitialised
    {
      response := Envelope(false, "", Null, []);
      httpStatus := HttpOk;
      headers := [];
      headersInitialised := false;
      jsonOptions := 0;
    }

    /** Mark the response successful with `message` and `data`, and reset the status to 200. */
    method Success(message: string := "", data: Value := Null) returns (self: Replio)
      requires Valid()
      modifies this`response, this`httpStatus
      ensures Valid() && self == this
      ensures response == Envelope(true, message, data, old(response.errors))
      ensures httpStatus == HttpOk
      ensures headers == old(headers) && headersInitialised == old(headersInitialised)
      ensures jsonOptions == old(jsonOptions)
    {
      response := response.(success := true, message := message, data := data);
      httpStatus := HttpOk;
      self := this;
    }

    /** Mark the response failed with `message`, `status` and `errors`; `data` is kept. */
    method Error(message: string, status: int := HttpBadRequest, errors: seq<Value> := []) returns (self: Replio)
      requires Valid()
      modifies this`response, this`httpStatus
      ensures Valid() && self == this
      ensures response == Envelope(false, message, old(response.data), errors)
      ensures httpStatus == status
      ensures headers == old(headers) && headersInitialised == old(headersInitialised)
      ensures jsonOptions == old(jsonOptions)
    {
      response := response.(success := false, message := message, errors := errors);
      httpStatus := status;
      self := this;
    }

    method WithData(data: Value) returns (self: Replio)
      requires Valid()
      modifies this`response
      ensures Valid() && self == this
      ensures response == old(response).(data := data)
      ensures httpStatus == old(httpStatus) && jsonOptions == old(jsonOptions)
      ensures headers == old(headers) && headersInitialised == old(headersInitialised)
    {
      response := response.(data := data);
      self := this;
    }

    /** Replace (not extend) the error list. */
    method WithErrors(errors: seq<Value>) returns (self: Replio)
      requires Valid()
      modifies this`response
      ensures Valid() && self == this
      ensures response == old(response).(errors := errors)
      ensures httpStatus == old(httpStatus) && jsonOptions == old(jsonOptions)
      ensures headers == old(headers) && headersInitialised == old(headersInitialised)
    {
      response := response.(errors := errors);
      self := this;
    }

    /** Any integer is accepted: the status range is not checked. */
    method WithStatus(status: int) returns (self: Replio)
      requires Valid()
      modifies this`httpStatus
      ensures Valid() && self == this
      ensures httpStatus == status
      ensures response == old(response) && jsonOptions == old(jsonOptions)
      ensures headers == old(headers) && headersInitialised == old(headersInitialised)
    {
      httpStatus := status;
      self := this;
    }

    /** Store every entry of `batch` in the header table, in batch order. */
    method WithHeaders(batch: Table) returns (self: Replio)
      requires Valid()
      modifies this`headers, this`headersInitialised
      ensures Valid() && self == this
      ensures headers == Merge(old(headers), batch)
      ensures headersInitialised == (old(headersInitialised) || batch != [])
      ensures response == old(response) && httpStatus == old(httpStatus) && jsonOptions == old(jsonOptions)
    {
      for n := 0 to |batch|
        invariant NoDupKeys(headers)
        invariant headers == Merge(old(headers), batch[..n])
        invariant headersInitialised == (old(headersInitialised) || n > 0)
      {
        assert batch[..n + 1][..n] == batch[..n];
        headers := Put(headers, batch[n].0, batch[n].1);
        headersInitialised := true;
      }
      assert batch[..|batch|] == batch;
      self := this;
    }

    /** The options are passed to `json_encode` unread. */
    method WithJsonOptions(options: int) returns (self: Replio)
      requires Valid()
      modifies this`jsonOptions
      ensures Valid() && self == this
      ensures jsonOptions == options
      ensures response == old(response) && httpStatus == old(httpStatus)
      ensures headers == old(headers) && headersInitialised == old(headersInitialised)
    {
      jsonOptions := options;
      self := this;
    }

    /**
     * Emit the status, each stored header in table order, a default JSON
     * content type unless a stored name lowercases to `content-type`, then
     * the encoded envelope; if encoding fails, a second status 500 and the
     * encoded fallback envelope. The builder is left as it was. `fault`
     * reports an exception leaving `send`: the error raised when the header
     * table was never initialised, or the `JsonException` of an encoding
     * that throws, after which the log ends.
     */
    method Send(encode: Encoder) returns (out: seq<Event>, fault: bool)
      requires Valid()
      ensures fault <==> !headersInitialised || EncodingThrows(encode(EnvelopeValue(response), jsonOptions), encode)
      ensures out == if !headersInitialised then [Status(httpStatus)] else Emitted(httpStatus, headers, response, jsonOptions, encode)
    {
      out := [Status(httpStatus)];
      if !headersInitialised {
        return out, true;
      }
      var contentTypeSet := false;
      for i := 0 to |headers|
        invariant out == [Status(httpStatus)] + HeaderLines(headers[..i])
        invariant contentTypeSet == HasContentType(headers[..i])
      {
        assert headers[..i + 1][..i] == headers[..i];
        if IsContentType(headers[i].0) {
          contentTypeSet := true;
        }
        out := out + [Header(HeaderLine(headers[i]))];
      }
      assert headers[..|headers|] == headers;
      if !contentTypeSet {
        out := out + [Header(DefaultContentType)];
      }
      var first := encode(EnvelopeValue(response), jsonOptions);
      out := out + BodyEvents(first, encode);
      fault := EncodingThrows(first, encode);
    }
  }
}
