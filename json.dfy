/** Python's view of a decoded JSON document: `dict.get`, iteration with
    `for x in value`, truthiness, and the numeric conversions the caption
    parsers apply to fields. A `None` result stands for a raised exception
    (`AttributeError`, `TypeError` or `ValueError`). */
module JsonValues {
  import opened Wrappers
  import opened Text
  import opened Models

  /** The value of the last member named `key`: `json.loads` keeps the last
      of repeated keys, so that is what `dict.get` sees. */
  function Lookup(members: seq<(string, Json)>, key: string): (r: Option<Json>)
    ensures r.None? <==> forall i | 0 <= i < |members| :: members[i].0 != key
    ensures r.Some? ==> exists i | 0 <= i < |members| :: members[i] == (key, r.value)
  {
    if members == [] then None
    else if members[|members| - 1].0 == key then Some(members[|members| - 1].1)
    else Lookup(members[..|members| - 1], key)
  }

  /** `d.get(key)` on a dict: `None` when the key is absent. */
  function Get(d: Json, key: string): Option<Json>
    requires d.JObject?
  {
    Lookup(d.members, key)
  }

  /** `d.get(key, default)` */
  function GetOr(d: Json, key: string, default: Json): Json
    requires d.JObject?
  {
    Get(d, key).GetOr(default)
  }

  /** `d.get(key) or default`: a missing or falsy value gives the default. */
  function GetTruthy(d: Json, key: string, default: Json): (r: Json)
    requires d.JObject?
    ensures r == default || (Get(d, key) == Some(r) && Truthy(r))
  {
    match Get(d, key)
    case Some(v) => if Truthy(v) then v else default
    case None => default
  }

  /** What `for x in j` visits: the items of a list, the one-character
      strings of a string, the keys of an object; `None` when `j` is not
      iterable (null, a boolean, a number). */
  function Elements(j: Json): (r: Option<seq<Json>>)
    ensures j.JArray? ==> r == Some(j.items)
    ensures r.Some? <==> (j.JArray? || j.JString? || j.JObject?)
  {
    match j
    case JArray(items) => Some(items)
    case JString(s) => Some(seq(|s|, i requires 0 <= i < |s| => JString([s[i]])))
    case JObject(ms) => Some(seq(|ms|, i requires 0 <= i < |ms| => JString(ms[i].0)))
    case _ => None
  }

  /** `float(j)`: numbers and booleans convert, a string is parsed, and
      anything else raises. */
  function ToFloat(j: Json): (r: Option<real>)
    ensures j.JNumber? ==> r == Some(j.n)
    ensures (j.JNull? || j.JArray? || j.JObject?) ==> r.None?
  {
    match j
    case JNumber(n) => Some(n)
    case JBool(b) => Some(if b then 1.0 else 0.0)
    case JString(s) => ParseFloat(s)
    case _ => None
  }

  /** `j` used directly in arithmetic (`j / 1000.0`, `j + k`): only numbers
      and booleans are accepted; a string, null, list or object raises. */
  function Arith(j: Json): (r: Option<real>)
    ensures r.Some? <==> (j.JNumber? || j.JBool?)
    ensures j.JNumber? ==> r == Some(j.n)
  {
    match j
    case JNumber(n) => Some(n)
    case JBool(b) => Some(if b then 1.0 else 0.0)
    case _ => None
  }

  /** `x is None` for a looked-up value: absent, or JSON `null`. */
  predicate IsNone(v: Option<Json>) {
    v.None? || v.value.JNull?
  }

  /** A later member overrides an earlier one with the same key. */
  lemma LookupLast(members: seq<(string, Json)>, key: string, v: Json)
    ensures Lookup(members + [(key, v)], key) == Some(v)
  {
  }
}
