/**
 * The PHP values a Replio envelope can carry, abstracted to JSON values, and
 * the shape of `json_encode`: a foreign call that either yields the encoded
 * text or fails, after which `json_last_error_msg` gives a diagnostic.
 */
module Json {
  import opened Wrappers

  /** A serialisable PHP value: null, bool, int, string, list or associative array. */
  datatype Value =
    | Null
    | Bool(b: bool)
    | Int(i: int)
    | Str(s: string)
    | List(items: seq<Value>)
    | Object(members: seq<(string, Value)>)

  /** What a call to `json_encode` does: return the text; return `false`,
      after which `json_last_error_msg` gives the diagnostic; or, when the
      flags include JSON_THROW_ON_ERROR, throw a `JsonException` instead. */
  datatype Encoding = Encoded(text: string) | Failed(diagnostic: string) | Thrown(exception: string)

  /** `json_encode($value, $options)`, left uninterpreted: any total function will do. */
  type Encoder = (Value, int) -> Encoding

  /** The value stored under `key` in an object's member list (first match). */
  function Member(members: seq<(string, Value)>, key: string): (r: Option<Value>)
    ensures r.Some? <==> exists i :: 0 <= i < |members| && members[i].0 == key
  {
    if members == [] then None
    else if members[0].0 == key then Some(members[0].1)
    else
      assert forall i :: 1 <= i < |members| ==> members[i] == members[1..][i - 1];
      Member(members[1..], key)
  }
}
