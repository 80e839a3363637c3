/** An already-parsed JSON document, as `System.Text.Json.JsonElement` exposes it. */
module JsonDom {
  import opened Outcomes

  /** A JSON value. Object members keep their written order, duplicates included;
      numbers keep their literal text (no floating point). */
  datatype Json =
    | JNull
    | JBool(b: bool)
    | JNumber(literal: string)
    | JString(s: string)
    | JArray(items: seq<Json>)
    | JObject(members: seq<(string, Json)>)

  /** The exceptions the JSON calls below throw. */
  datatype JsonError =
    | InvalidOperation  // an element of the wrong kind for the call
    | JsonException     // malformed text, or a value that does not fit the target type

  /** The value of the last member called `name`: when a name repeats, the
      last occurrence is the one `TryGetProperty` finds. */
  function LastMember(members: seq<(string, Json)>, name: string): Option<Json> {
    if |members| == 0 then None
    else if members[|members| - 1].0 == name then Some(members[|members| - 1].1)
    else LastMember(members[..|members| - 1], name)
  }

  /** `LastMember` finds nothing exactly when no member has the name, and
      otherwise the value of a member with that name that no later one shadows. */
  lemma {:induction false} LastMemberFinds(members: seq<(string, Json)>, name: string)
    ensures LastMember(members, name).None? <==> forall i :: 0 <= i < |members| ==> members[i].0 != name
    ensures LastMember(members, name).Some? ==>
              exists i :: 0 <= i < |members| && members[i] == (name, LastMember(members, name).value)
                          && forall j :: i < j < |members| ==> members[j].0 != name
    decreases |members|
  {
    if |members| > 0 && members[|members| - 1].0 != name {
      var init := members[..|members| - 1];
      LastMemberFinds(init, name);
      assert forall i :: 0 <= i < |init| ==> init[i] == members[i];
    }
  }

  /** `JsonElement.TryGetProperty`: only an object has properties; asking any
      other kind of element throws. */
  function TryGetProperty(e: Json, name: string): (r: Outcome<Option<Json>, JsonError>)
    ensures r.Throws? <==> !e.JObject?
    ensures r.Value? ==> r.value == LastMember(e.members, name)
  {
    match e
    case JObject(members) => Value(LastMember(members, name))
    case _ => Throws(InvalidOperation)
  }

  /** `JsonElement.GetString`: the text of a string, null for a JSON null,
      and an exception for every other kind. */
  function GetString(e: Json): (r: Outcome<Option<string>, JsonError>)
    ensures r.Throws? <==> !(e.JString? || e.JNull?)
    ensures r == Value(None) <==> e.JNull?
    ensures e.JString? ==> r == Value(Some(e.s))
  {
    match e
    case JString(s) => Value(Some(s))
    case JNull => Value(None)
    case _ => Throws(InvalidOperation)
  }

  /** True when `e` is an object whose property `name` (last occurrence) is `v`. */
  predicate HasMember(e: Json, name: string, v: Json) {
    e.JObject? && LastMember(e.members, name) == Some(v)
  }

  /** True when `e` is an object without a property `name`. */
  predicate LacksMember(e: Json, name: string) {
    e.JObject? && LastMember(e.members, name).None?
  }
}
