/**
 * The JavaScript value semantics the route handlers lean on: values that may
 * be `null` (a database NULL, a missing form field, a signed-out user), JSON
 * fields that may also be absent (`undefined`), the truthiness tests behind
 * `if (!x)` and the `x || default` idiom, template interpolation of a possibly
 * missing value, and the handler's HTTP response.
 */
module Web {

  /** A value or `null`. */
  datatype Option<+T> = None | Some(value: T)

  /** A field read from a parsed JSON body: absent (`undefined`), `null`, or a value. */
  datatype Json<+T> = Undefined | Null | Value(value: T)

  /** What a handler sends back: `body` with status 200, or an error object with a status. */
  datatype Response<+T> = Ok(body: T) | Error(status: int, message: string)

  /** A nullable string is truthy when it is present and not the empty string. */
  predicate Truthy(s: Option<string>) {
    s.Some? && s.value != ""
  }

  /** `s || null` for a nullable string: the empty string becomes `null`. */
  function OrNull(s: Option<string>): Option<string> {
    if Truthy(s) then s else None
  }

  /** A JSON string field is truthy when it holds a non-empty string. */
  predicate TruthyText(j: Json<string>) {
    j.Value? && j.value != ""
  }

  /** `j || d` for a JSON string field. */
  function TextOr(j: Json<string>, d: string): string {
    if TruthyText(j) then j.value else d
  }

  /** `j || null` for a JSON string field. */
  function TextOrNull(j: Json<string>): Option<string> {
    if TruthyText(j) then Some(j.value) else None
  }

  /** `j || d` for a JSON number field: absent, `null` and `0` are falsy. */
  function NumberOr(j: Json<int>, d: int): int {
    if j.Value? && j.value != 0 then j.value else d
  }

  /** `${j}` in a template literal: absent and `null` print as the words "undefined" and "null". */
  function Interpolate(j: Json<string>): string {
    match j
    case Undefined => "undefined"
    case Null => "null"
    case Value(s) => s
  }

  /** `s.startsWith(p)`. */
  predicate StartsWith(s: string, p: string) {
    |p| <= |s| && s[..|p|] == p
  }
}
