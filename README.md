# Replio response builder, in Dafny

Replio is a PHP class that builds a uniform JSON API response. It holds:

- an envelope with `success`, `message`, `data` and `errors`;
- an HTTP status;
- an ordered table of custom headers;
- the flags handed to `json_encode`.

Seven chainable mutators change that state in place and return the same object. `send` then emits the status, every stored header, and a default `Content-Type: application/json` unless a stored name lowercases to `content-type`. Last it echoes the JSON-encoded envelope. If encoding fails, it emits a second status 500 and a fixed fallback body. If the options include JSON_THROW_ON_ERROR, a failed encoding throws a `JsonException` instead and nothing more is emitted.

The model has four modules:

- `Json` (json.dfy): the values an envelope carries (`Value`). It also gives `json_encode` the type `Encoder`, a function from a value and the option flags to the encoded text, a failure with its diagnostic (`json_encode` returned `false`), or a thrown `JsonException`. The encoder is a parameter of `send`, so every result holds for any encoder.
- `HeaderTable` (header_table.dfy): the header table as a sequence of name/value pairs with PHP array semantics. `Put` is `$table[$k] = $v`: a present key is overwritten where it stands, an absent key is appended. `Merge` is the `foreach` of `withHeaders`. Lemmas give lookup after a merge, positions kept, the key set, and that merges compose.
- `Replio` (replio.dfy): the class `Replio` with the source's fields, its constructor, the seven mutators and `Send`. `Send` returns the calls it makes as a log of `Event`s: `Status(code)` for `http_response_code`, `Header(line)` for `header`, `Body(text)` for `echo`. Once the header table is initialised, it is proved equal to the specification function `Emitted`. Separate lemmas state what the log looks like.
- `Scenarios` (scenarios.dfy): call chains on a fresh builder, proved from the method contracts and the lemmas about `Emitted` (`StatusLeadsOnly` and three helper lemmas of this module: `ContentTypeNames` on sample header names, and `OneHeaderEmits` and `OneHeaderThrows` on a one-header table).

In these places the model follows the code as written:

- `$headers` has no default value and the constructor never assigns it (src/Replio.php:27, src/Replio.php:48-57). Reading it in `send` (src/Replio.php:169) raises a PHP `Error`. The field `headersInitialised` records whether `withHeaders` has stored an entry yet. `Send` returns `fault = true` with only the first status emitted when it has not. `withHeaders([])` stores nothing and leaves the table uninitialised. The model assumes PHP creates the array on the first `$this->headers[$key] = ...`, which PHP allows for an uninitialised `array` property.
- The 500 status is emitted after the original status and headers, as a second `Status` event.
- The fallback body has no `data` key. Its message is the Italian literal at src/Replio.php:186.
- There is no "sent" state. `Send` changes nothing, and the builder can be changed and sent again.

## Model

| member | source | states |
|---|---|---|
| Replio.Replio.constructor | src/Replio.php:48-57 | envelope `{success: false, message: "", data: null, errors: []}`, status 200, options 0, header table not yet initialised |
| Replio.Replio.Success | src/Replio.php:66-73 | sets success, message and data and resets the status to 200; errors, headers and options unchanged; returns the same object |
| Replio.Replio.Error | src/Replio.php:83-90 | sets success false, message, errors and the status (default 400, errors default empty); data, headers and options unchanged |
| Replio.Replio.WithData | src/Replio.php:98-102 | overwrites only `data` |
| Replio.Replio.WithErrors | src/Replio.php:110-114 | replaces only `errors` (no append) |
| Replio.Replio.WithStatus | src/Replio.php:122-126 | overwrites only the status, with any integer |
| Replio.Replio.WithHeaders | src/Replio.php:134-140 | the loop stores the batch entry by entry: the new table is the merge of the old one with the batch, the table is initialised exactly when it was or the batch is non-empty, nothing else changes |
| Replio.Replio.WithJsonOptions | src/Replio.php:148-152 | overwrites only the option flags |
| Replio.Replio.Send | src/Replio.php:164-192 | faults exactly when the header table was never initialised (after emitting only the status) or an encoding throws; otherwise its log is the full emission of status, headers, default content type and body; the builder is unchanged |
| HeaderTable.Put | src/Replio.php:137 | a present key keeps its position and takes the new value, an absent key is appended last, other entries stay; no key is ever duplicated |
| HeaderTable.Merge | src/Replio.php:136-138 | merging a batch into a table without duplicate keys yields a table without duplicate keys that is at least as long |
| HeaderTable.PutLookup | src/Replio.php:137 | after storing `v` under `k`, `k` maps to `v` and every other key keeps its value |
| HeaderTable.MergeLookup | src/Replio.php:134-140 | after `withHeaders(h)`, every key of `h` maps to its last value in `h` and every other key keeps its old value |
| HeaderTable.MergeKeepsPosition | src/Replio.php:134-140 | no existing key moves, and an entry whose key `h` does not mention is unchanged |
| HeaderTable.MergeKeys | src/Replio.php:134-140 | the keys afterwards are exactly the old keys plus the keys of `h` |
| HeaderTable.MergeFresh | src/Replio.php:134-140 | a batch with distinct keys, all new to the table, is appended as it is |
| HeaderTable.MergeAppendsNewKeys | src/Replio.php:134-140 | for any batch with distinct keys, including one that also overwrites existing keys, the entries after the old table are exactly the batch's new keys in batch order |
| HeaderTable.MergeConcat | src/Replio.php:134-140 | two `withHeaders` calls equal one call with the concatenated batches: headers accumulate across calls |
| Replio.MergeContentType | src/Replio.php:168-172 | after a merge a stored content type is found exactly when the old table or the batch had one |
| Replio.EnvelopeValue | src/Replio.php:180 | the encoded array has exactly the keys success, message, data and errors, holding the envelope's fields |
| Replio.FallbackValue | src/Replio.php:184-188 | the fallback array has success false, the fixed message, errors holding the one diagnostic, and no `data` key |
| Replio.HeaderLinesAt | src/Replio.php:169-174 | the i-th header line emitted is `key: value` of the i-th stored header |
| Replio.EmitsStatusThenHeaders | src/Replio.php:166-174 | the log starts with the stored status, followed by one `key: value` line per stored header in table order |
| Replio.DefaultContentTypeIff | src/Replio.php:168-178 | the default `Content-Type: application/json` is emitted right after the stored headers if and only if no stored name lowercases to `content-type` |
| Replio.Echo | src/Replio.php:184-190 | `echo` of an encoded text prints that text, of `false` prints nothing |
| Replio.LowerChar | src/Replio.php:170 | an ASCII capital maps to its small letter, every other character is left as it is, and no capital remains |
| Replio.Lower | src/Replio.php:170 | lowercasing keeps the length and lowercases each character in place |
| Replio.ContentTypeIsLowered | src/Replio.php:170 | the content-type test holds exactly when the lowercased name equals `content-type` |
| Replio.Emitted | src/Replio.php:166-191 | the log of an initialised builder opens with the stored status and is longer than the header table |
| Replio.BodyFollowsHeaders | src/Replio.php:180-191 | if encoding with the stored options succeeds, the rest of the log is exactly that text; if it fails, a status 500 followed by the fallback encoded with options 0 (nothing more if that also fails, the text or nothing it echoes otherwise); if it throws, nothing more |
| Replio.StatusLeadsOnly | src/Replio.php:166 | the stored status affects only the first event of the log |
| Scenarios.ContentTypeNames | src/Replio.php:170 | the content-type test ignores letter case and matches the whole name only |
| Scenarios.OneHeaderEmits | src/Replio.php:164-192 | a builder with one stored header emits its line, then the default content type unless that header is one, then the body |
| Scenarios.OneHeaderThrows | src/Replio.php:166-188 | a builder with one stored header that is not a content type, whose envelope encoding throws, emits the status, that header line and the default content type, and nothing more |
| Scenarios.SuccessWithoutHeaders | src/Replio.php:169 | `success('ok', ['id' => 1])->send()` on a fresh builder faults after emitting status 200 only |
| Scenarios.EmptyHeadersStillFail | src/Replio.php:136-138 | `withHeaders([])` does not initialise the table, so `send` still faults |
| Scenarios.TraceHeaderGetsDefaultContentType | src/Replio.php:168-178 | with only `X-Trace: abc` stored, the log is status 200, that header, the default content type, then the body; it faults only if an encoding throws |
| Scenarios.OwnContentTypeIsNotDuplicated | src/Replio.php:168-178 | with `content-type: text/plain` stored, that is the only header emitted; it faults only if an encoding throws |
| Scenarios.BadInput | src/Replio.php:164-191 | an `error('bad input', 400, [...])` response emits status 400 and its own content-type header, then the body events of its encoding, which for a failed encoding begin with status 500 |
| Scenarios.ThrowOnErrorSkipsFallback | src/Replio.php:180-188 | with JSON_THROW_ON_ERROR set and data whose encoding throws, `send` faults after the status and headers, with no 500 and no fallback |
| Scenarios.SendTwice | src/Replio.php:164-192 | sending twice emits the same log; after `withStatus(404)` only the leading status changes |

## Left out

- `json_encode` and `json_last_error_msg` are foreign calls. They are the `Encoder` parameter, a function that returns text, fails with a diagnostic, or throws. So the model does not show that the body parses back to the envelope.
- `http_response_code`, `header` and `echo` write to process-wide output. They are modelled only as events in the returned log. Header replacement and the "headers already sent" warning belong to PHP's transport layer and are not modelled.
- The options are an `int` passed to the encoder unread. Their effect is the encoder's: JSON_THROW_ON_ERROR (`JsonThrowOnError`) shows as the `Thrown` result, JSON_PARTIAL_OUTPUT_ON_ERROR as text returned despite an error, and the other bits as formatting of the text.
- The PHP `Error` that `send` raises on the uninitialised table, and a `JsonException` thrown by `json_encode`, are modelled as `fault = true` with the log cut where the throw happens. Their messages and their propagation to the caller are not modelled.
- PHP values are modelled as JSON values without floats. Values `json_encode` cannot encode (NaN, resources, invalid UTF-8) are covered only by "the encoder may fail".
- `errors` is a list. An associative `errors` array, which PHP would encode as an object, is not modelled.
- Header names and values are strings. PHP turns an integer-like key such as `"123"` into an integer and back in `"$key: $value"`, which does not change the emitted line. Non-string values interpolated into header lines are not modelled.
- `strtolower` is modelled with ASCII-only case folding, as in PHP 8.2 and later. The locale-dependent folding of earlier versions is not modelled.
- The status and option flags are PHP 64-bit integers but are unbounded here. The source does no arithmetic on them, so nothing can wrap around.
- The status constants at src/Replio.php:35-41 are Dafny constants (`HttpOk`, `HttpCreated`, ...). They carry no contract.
