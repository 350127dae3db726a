/**
 * The values `json.loads` produces, and the Python `dict` that the fact
 * checker updates in place.
 */
module PyJson {
  import opened Wrappers

  /**
   * A decoded JSON document: an object becomes a `dict`, an array a `list`.
   * Numbers are one `real`: Python's split into `int` and `float`, and the
   * NaN and infinities `json.loads` accepts, are not modelled.
   */
  datatype Json =
    | JNull
    | JBool(b: bool)
    | JNumber(x: real)
    | JString(s: string)
    | JArray(items: seq<Json>)
    | JObject(fields: map<string, Json>)

  /** A JSON array of strings, element by element. */
  function StringArray(xs: seq<string>): (r: seq<Json>)
    ensures |r| == |xs|
    ensures forall i :: 0 <= i < |xs| ==> r[i] == JString(xs[i])
  {
    if xs == [] then [] else [JString(xs[0])] + StringArray(xs[1..])
  }

  /** Reads a JSON value back as a list of strings, if it is one. */
  function AsStrings(j: Json): Option<seq<string>> {
    match j
    case JArray(items) =>
      if forall i :: 0 <= i < |items| ==> items[i].JString?
      then Some(seq(|items|, i requires 0 <= i < |items| => items[i].s))
      else None
    case _ => None
  }

  /** A list of strings stored as JSON reads back as the same list. */
  lemma AsStringsOfStringArray(xs: seq<string>)
    ensures AsStrings(JArray(StringArray(xs))) == Some(xs)
  {
    var items := StringArray(xs);
    assert seq(|items|, i requires 0 <= i < |items| => items[i].s) == xs;
  }

  /** A Python `dict` with string keys, which `d[key] = value` updates in place. */
  class Dict {
    var items: map<string, Json>

    constructor (init: map<string, Json>)
      ensures items == init
    {
      items := init;
    }

    /** `d[key] = value`: adds the key or overwrites its value; no other entry changes. */
    method SetItem(key: string, value: Json)
      modifies this
      ensures items == old(items)[key := value]
    {
      items := items[key := value];
    }
  }
}
