/** Already-parsed JSON values, as the Python code receives them from
    `json.loads`, and the dictionary operations it applies to them. */
module Json {
  import opened Wrappers

  /** A JSON value. Objects keep their members in document order. Floating
      point numbers are not modelled. */
  datatype Json =
    | JNull
    | JBool(b: bool)
    | JInt(i: int)
    | JStr(s: string)
    | JArr(items: seq<Json>)
    | JObj(members: seq<Member>)

  datatype Member = Member(key: string, value: Json)

  /** The value stored under `key` in an object's member list. */
  function Get(members: seq<Member>, key: string): (r: Option<Json>)
    ensures r.Some? <==> exists i :: 0 <= i < |members| && members[i].key == key
    ensures r.Some? ==> exists i :: 0 <= i < |members| && members[i].key == key && members[i].value == r.value
  {
    if |members| == 0 then None
    else if members[0].key == key then Some(members[0].value)
    else
      var r := Get(members[1..], key);
      assert forall i :: 0 < i < |members| ==> members[i] == members[1..][i - 1];
      r
  }

  /** `key in node` for a dictionary `node`; false for every other value. */
  predicate Has(node: Json, key: string)
  {
    node.JObj? && Get(node.members, key).Some?
  }

  /** Subscription inside `try ... except (KeyError, TypeError)`: `None` when
      `node` is not a dictionary or lacks `key`. */
  function Lookup(node: Json, key: string): Option<Json>
  {
    if node.JObj? then Get(node.members, key) else None
  }

  /** Subscription along a path of keys, `None` as soon as a step finds no
      dictionary or no key. */
  function Path(node: Json, keys: seq<string>): Option<Json>
  {
    if keys == [] then Some(node)
    else match Lookup(node, keys[0])
      case None => None
      case Some(child) => Path(child, keys[1..])
  }

  lemma PathStep(node: Json, key: string, keys: seq<string>)
    ensures Path(node, [key] + keys) == match Lookup(node, key)
      case None => None
      case Some(child) => Path(child, keys)
  {
    assert ([key] + keys)[1..] == keys;
  }

  /** `node.get(key, default)`: a value that is not a dictionary has no
      `get` method, so the call raises AttributeError. */
  function DictGet(node: Json, key: string, default: Json): (r: Result<Json>)
    ensures r.Err? <==> !node.JObj?
    ensures node.JObj? && Get(node.members, key).None? ==> r == Ok(default)
  {
    if !node.JObj? then Err("AttributeError: 'get' on a non-dict value")
    else match Get(node.members, key)
      case Some(v) => Ok(v)
      case None => Ok(default)
  }

  /** `node.get(key, default)` on a value already known to be a dictionary. */
  function GetOr(node: Json, key: string, default: Json): (r: Json)
    requires node.JObj?
    ensures Get(node.members, key).Some? ==> r == Get(node.members, key).value
    ensures Get(node.members, key).None? ==> r == default
  {
    match Get(node.members, key)
    case Some(v) => v
    case None => default
  }

  /** Python truthiness of a JSON value. */
  predicate Truthy(j: Json)
  {
    match j
    case JNull => false
    case JBool(b) => b
    case JInt(i) => i != 0
    case JStr(s) => s != ""
    case JArr(items) => items != []
    case JObj(members) => members != []
  }

  /** `x or y` on JSON values. */
  function Or(x: Json, y: Json): (r: Json)
    ensures r == x || r == y
    ensures Truthy(x) ==> r == x
  {
    if Truthy(x) then x else y
  }

  /** `isinstance(j, int)` holds for integers and, in Python, for booleans;
      the integer value of `True` is 1 and of `False` is 0. */
  function AsInt(j: Json): (r: Option<int>)
    ensures r.Some? <==> j.JInt? || j.JBool?
    ensures j.JInt? ==> r == Some(j.i)
  {
    match j
    case JInt(i) => Some(i)
    case JBool(b) => Some(if b then 1 else 0)
    case _ => None
  }

  /** The object with no members, `{}`. */
  const Empty: Json := JObj([])
}
