/**
 * The values `JSONSerialization.jsonObject(with:)` produces, as far as the
 * core looks at them: dictionaries, arrays, strings and the scalars it never
 * inspects. A number is kept as its literal text.
 */
module Json {
  import opened Common

  datatype Json =
    | JNull
    | JBool(b: bool)
    | JNumber(literal: string)
    | JString(s: string)
    | JArray(items: seq<Json>)
    | JObject(fields: map<string, Json>)

  /** A `[String: Any]` dictionary as a sequence of entries, in its iteration order. */
  type Dictionary = seq<(string, Json)>

  /** What `JSONSerialization.data(withJSONObject:)` gives: the bytes, or the error it throws. */
  datatype Serialization = Serialized(bytes: seq<byte>) | Threw(reason: string)

  /** `value as? [String: Any]`. */
  function AsObject(value: Option<Json>): (r: Option<map<string, Json>>)
    ensures r.Some? <==> value.Some? && value.value.JObject?
    ensures r.Some? ==> value.value == JObject(r.value)
  {
    match value
    case Some(JObject(fields)) => Some(fields)
    case _ => None
  }

  /** `json[key] as? String` on a `[String: Any]` dictionary. */
  function StringMember(fields: map<string, Json>, key: string): (r: Option<string>)
    ensures r.Some? <==> key in fields && fields[key].JString?
    ensures r.Some? ==> fields[key] == JString(r.value)
  {
    if key in fields && fields[key].JString? then Some(fields[key].s) else None
  }

  /**
   * The first of `keys` whose member is a string, with that string; a
   * reference definition of an ordered fallback over message keys.
   */
  function FirstStringMember(fields: map<string, Json>, keys: seq<string>): (r: Option<string>)
    ensures r.None? <==> forall k :: 0 <= k < |keys| ==> StringMember(fields, keys[k]).None?
    ensures r.Some? ==> exists k :: (0 <= k < |keys| && StringMember(fields, keys[k]) == r
      && forall j :: 0 <= j < k ==> StringMember(fields, keys[j]).None?)
  {
    if keys == [] then None
    else if StringMember(fields, keys[0]).Some? then StringMember(fields, keys[0])
    else
      var r := FirstStringMember(fields, keys[1..]);
      assert forall k :: 1 <= k < |keys| ==> keys[k] == keys[1..][k - 1];
      r
  }
}
