/** Decoded JSON as `encoding/json` produces it for an `interface{}` target:
    nil, bool, float64, string, `[]interface{}` and `map[string]interface{}`.
    Numbers are exact reals (float64 rounding is not modelled). An object is
    the list of its members in document order; when a key repeats, the last
    member wins, as with Go's decoder. */
module Json {
  import opened Wrappers

  datatype JValue =
    | JNull
    | JBool(b: bool)
    | JNum(n: real)
    | JStr(s: string)
    | JArr(items: seq<JValue>)
    | JObj(fields: seq<Member>)

  datatype Member = Member(key: string, value: JValue)

  /** `m[key]` with the comma-ok form: the value bound to `key`, if any. */
  function Lookup(fields: seq<Member>, key: string): (r: Option<JValue>)
    ensures r.Some? <==> exists i :: 0 <= i < |fields| && fields[i].key == key
    ensures r.Some? ==> exists i :: 0 <= i < |fields| && fields[i] == Member(key, r.value)
  {
    if |fields| == 0 then None
    else if fields[|fields| - 1].key == key then Some(fields[|fields| - 1].value)
    else
      var r := Lookup(fields[..|fields| - 1], key);
      assert forall i :: 0 <= i < |fields| - 1 ==> fields[..|fields| - 1][i] == fields[i];
      r
  }

  /** A later member shadows earlier members with the same key. */
  lemma LookupShadow(fields: seq<Member>, key: string, v: JValue, other: string)
    ensures Lookup(fields + [Member(key, v)], key) == Some(v)
    ensures other != key ==> Lookup(fields + [Member(key, v)], other) == Lookup(fields, other)
  {
    assert (fields + [Member(key, v)])[..|fields|] == fields;
  }

  /** `v.(map[string]interface{})[key]`: a member of an object value. */
  function Get(v: JValue, key: string): Option<JValue>
  {
    if v.JObj? then Lookup(v.fields, key) else None
  }

  /** The value at `key` when it is an object; absent otherwise. */
  function GetObject(fields: seq<Member>, key: string): (r: Option<seq<Member>>)
    ensures r.Some? <==> Lookup(fields, key).Some? && Lookup(fields, key).value.JObj?
    ensures r.Some? ==> Lookup(fields, key) == Some(JObj(r.value))
  {
    match Lookup(fields, key)
    case Some(JObj(f)) => Some(f)
    case _ => None
  }

  /** The value at `key` when it is an array; absent otherwise. */
  function GetArray(fields: seq<Member>, key: string): (r: Option<seq<JValue>>)
    ensures r.Some? <==> Lookup(fields, key).Some? && Lookup(fields, key).value.JArr?
    ensures r.Some? ==> Lookup(fields, key) == Some(JArr(r.value))
  {
    match Lookup(fields, key)
    case Some(JArr(a)) => Some(a)
    case _ => None
  }

  /** The elements of an array that are objects, in order (the
      `item.(map[string]interface{})` filter of the loaders). */
  function Objects(items: seq<JValue>): (r: seq<seq<Member>>)
    ensures |r| <= |items|
    ensures forall i :: 0 <= i < |r| ==> JObj(r[i]) in items
  {
    if |items| == 0 then []
    else
      var rest := Objects(items[1..]);
      assert forall x :: x in items[1..] ==> x in items;
      if items[0].JObj? then [items[0].fields] + rest else rest
  }
}
