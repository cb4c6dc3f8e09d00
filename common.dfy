/** Values shared by every part of the model: optional request fields, the
    status-plus-payload shape of an HTTP answer, JavaScript truthiness of a
    string field, and ASCII lower-casing. */
module Common {

  datatype Option<T> = None | Some(value: T)

  /** Identity of a stored document (a Mongo `_id`, as the string a client sends). */
  type Id = string

  const OK := 200
  const Created := 201
  const BadRequest := 400
  const Unauthorized := 401
  const NotFound := 404
  const Conflict := 409
  const ServerError := 500

  /** An HTTP answer: the status code and, when the handler sends one, its payload. */
  datatype Response<T> = Response(status: int, payload: Option<T>)

  /** JavaScript truthiness of an optional string field: `undefined` and `""` are falsy. */
  predicate Present(s: Option<string>) {
    s.Some? && s.value != ""
  }

  function LowerChar(c: char): char {
    if 'A' <= c <= 'Z' then (c as int + 32) as char else c
  }

  /** `toLowerCase`, restricted to ASCII letters. */
  function Lower(s: string): (r: string)
    ensures |r| == |s|
    ensures forall i :: 0 <= i < |s| ==> r[i] == LowerChar(s[i])
  {
    if s == [] then [] else [LowerChar(s[0])] + Lower(s[1..])
  }

  predicate IsLower(s: string) {
    Lower(s) == s
  }

  /** Lower-casing twice is lower-casing once, so a stored lower-cased name is a fixed point. */
  lemma LowerIsLower(s: string)
    ensures IsLower(Lower(s))
  {
    var r := Lower(s);
    assert Lower(r) == r by {
      forall i | 0 <= i < |r| ensures Lower(r)[i] == r[i] {
        assert LowerChar(LowerChar(s[i])) == LowerChar(s[i]);
      }
    }
  }

  predicate Distinct<T(==)>(s: seq<T>) {
    forall i, j :: 0 <= i < j < |s| ==> s[i] != s[j]
  }
}
