/**
 * The JSON document model the dispatcher works on, and the few accessors of the
 * JSON library (jansson) that the dispatcher calls. Parsing and serialisation
 * are collaborators and are not modelled; a parsed document is just a value.
 */
module JsonValue {

  datatype Option<T> = None | Some(value: T)

  /** A JSON value. Objects are keyed maps: the dispatcher never depends on key order. */
  datatype Json =
    | Null
    | Bool(b: bool)
    | Int(i: int)
    | Str(s: string)
    | Arr(elems: seq<Json>)
    | Obj(members: map<string, Json>)

  /** `json_object_get`: the member `key` of an object; nothing for a missing key or a non-object. */
  function ObjectGet(v: Json, key: string): (r: Option<Json>)
    ensures r.Some? <==> v.Obj? && key in v.members
    ensures r.Some? ==> r.value == v.members[key]
  {
    match v
    case Obj(m) => if key in m then Some(m[key]) else None
    case _ => None
  }

  /** `json_string_value`: the text of a string; nothing for any other kind of value. */
  function StringValue(v: Json): (r: Option<string>)
    ensures r.Some? <==> v.Str?
    ensures r.Some? ==> r.value == v.s
  {
    if v.Str? then Some(v.s) else None
  }

  /** `json_array_size`: the length of an array, and 0 for any value that is not an array. */
  function ArraySize(v: Json): (n: nat)
    ensures v.Arr? ==> n == |v.elems|
    ensures !v.Arr? ==> n == 0
  {
    if v.Arr? then |v.elems| else 0
  }

  /**
   * `json_object_set` on an object's members. A missing (NULL) value is refused by
   * the library and leaves the object as it was; a present one is added or replaces
   * the old member.
   */
  function SetMember(members: map<string, Json>, key: string, value: Option<Json>): (r: map<string, Json>)
    ensures value.None? ==> r == members
    ensures value.Some? ==> r.Keys == members.Keys + {key} && r[key] == value.value
    ensures forall k :: k in members && k != key ==> k in r && r[k] == members[k]
  {
    if value.Some? then members[key := value.value] else members
  }
}
