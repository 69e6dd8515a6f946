/**
 * JSON values as in section 3 of RFC 8259, and the property access that the
 * import validator performs on a value produced by `JSON.parse`.
 */
module Json {
  import opened Base

  /** A number is kept exactly as significand * 10^exponent. */
  datatype Json =
    | JNull
    | JBool(b: bool)
    | JNumber(significand: int, exponent: int)
    | JString(s: string)
    | JArray(items: seq<Json>)
    | JObject(members: seq<(string, Json)>)

  /** The value of the last member called `name`: `JSON.parse` keeps the last of repeated names. */
  function Lookup(members: seq<(string, Json)>, name: string): Option<Json>
  {
    if members == [] then None
    else if members[|members| - 1].0 == name then Some(members[|members| - 1].1)
    else Lookup(members[..|members| - 1], name)
  }

  /** A lookup finds nothing exactly when no member has the name, and otherwise the last such member. */
  lemma {:induction false} LookupMeaning(members: seq<(string, Json)>, name: string)
    ensures Lookup(members, name).None? <==> forall i :: 0 <= i < |members| ==> members[i].0 != name
    ensures Lookup(members, name).Some? ==>
      exists i :: 0 <= i < |members| && members[i] == (name, Lookup(members, name).value)
        && forall k :: i < k < |members| ==> members[k].0 != name
  {
    if members != [] && members[|members| - 1].0 != name {
      var init := members[..|members| - 1];
      LookupMeaning(init, name);
      assert forall i :: 0 <= i < |init| ==> init[i] == members[i];
    }
  }

  /** A name carried by a single member is looked up to that member's value. */
  lemma LookupUnique(members: seq<(string, Json)>, i: nat)
    requires i < |members| && forall k :: 0 <= k < |members| && k != i ==> members[k].0 != members[i].0
    ensures Lookup(members, members[i].0) == Some(members[i].1)
  {
    LookupMeaning(members, members[i].0);
  }

  /**
   * `v.name`: only an object has the property names the schema uses; on an
   * array, a string or any other value they are `undefined`.
   */
  function Get(v: Json, name: string): Option<Json>
  {
    match v
    case JObject(ms) => Lookup(ms, name)
    case _ => None
  }

  /** `!v || typeof v !== 'object'` is false exactly for objects and arrays. */
  predicate IsObjectLike(v: Json)
  {
    v.JObject? || v.JArray?
  }

  /** `v.name` when it is a string. */
  function GetString(v: Json, name: string): (r: Option<string>)
    ensures r.Some? <==> Get(v, name).Some? && Get(v, name).value.JString?
  {
    match Get(v, name)
    case Some(JString(s)) => Some(s)
    case _ => None
  }

  /** `v.name` when `Array.isArray` holds of it. */
  function GetArray(v: Json, name: string): (r: Option<seq<Json>>)
    ensures r.Some? <==> Get(v, name).Some? && Get(v, name).value.JArray?
  {
    match Get(v, name)
    case Some(JArray(items)) => Some(items)
    case _ => None
  }
}
