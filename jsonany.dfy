/** The slice of jsoniter's lazy `Any` the extractor uses: a parsed JSON
    value with path lookup, size and string rendering. */
module JsonAny {

  /** A JSON value as jsoniter sees it. Objects and arrays keep the text
      between their brackets as it appears in the body, because ToString of
      a lazy container returns that raw text. `Invalid` is what a failed
      lookup returns (and what a malformed body parses to). */
  datatype Json =
    | Obj(fields: map<string, Json>, inner: string)
    | Arr(items: seq<Json>, inner: string)
    | Str(s: string)
    | Num(text: string)
    | Bool(b: bool)
    | Null
    | Invalid

  /** A response body: its bytes and what they parse to. */
  datatype Body = Body(bytes: string, root: Json)

  /** Any.Get(key) with a string key: the field of an object, otherwise
      an invalid value. */
  function Get(j: Json, key: string): (r: Json)
    ensures r != Invalid ==> j.Obj? && key in j.fields && r == j.fields[key]
  {
    if j.Obj? && key in j.fields then j.fields[key] else Invalid
  }

  /** Any.Get(i) with an integer index: the element of an array, otherwise
      an invalid value (objects are not indexed by position). */
  function At(j: Json, i: int): (r: Json)
    ensures r != Invalid ==> j.Arr? && 0 <= i < |j.items| && r == j.items[i]
  {
    if j.Arr? && 0 <= i < |j.items| then j.items[i] else Invalid
  }

  /** Any.Size: elements of an array, keys of an object, 0 otherwise. */
  function Size(j: Json): (n: nat)
    ensures !j.Arr? && !j.Obj? ==> n == 0
    ensures j.Arr? ==> n == |j.items|
  {
    match j
      case Arr(items, _) => |items|
      case Obj(fields, _) => |fields|
      case _ => 0
  }

  /** Any.ToString. Strings render unquoted, containers as their raw text,
      null and invalid values as "". */
  function ToString(j: Json): (s: string)
    ensures (j.Obj? || j.Arr? || j.Bool?) ==> s != ""
    ensures (j.Null? || j.Invalid?) ==> s == ""
  {
    match j
      case Obj(_, inner) => "{" + inner + "}"
      case Arr(_, inner) => "[" + inner + "]"
      case Str(s) => s
      case Num(text) => text
      case Bool(b) => if b then "true" else "false"
      case Null => ""
      case Invalid => ""
  }
}
