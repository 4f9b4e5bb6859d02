/**
 * The wire body as a parsed JSON tree.  Concrete text and its formatting
 * are not modelled; an object keeps its members in order, and a lookup
 * finds the last member of that name, as `JSON.parse` does.
 */
module JsonTree {
  import opened Wrappers

  datatype Json =
    | JNull
    | JBool(b: bool)
    | JNumber(r: real)
    | JString(s: string)
    | JArray(elems: seq<Json>)
    | JObject(fields: seq<(string, Json)>)

  /** What `serialize` returns and `unserialize` takes: the body as a
      parsed tree and the slot list. */
  datatype CapData = CapData(body: Json, slots: seq<string>)

  /** The position of the member named `key`, the last one if repeated. */
  function FieldIndex(fields: seq<(string, Json)>, key: string): (r: Option<nat>)
    ensures r.Some? ==>
      r.value < |fields| && fields[r.value].0 == key &&
      forall j :: r.value < j < |fields| ==> fields[j].0 != key
    ensures r.None? ==> forall j :: 0 <= j < |fields| ==> fields[j].0 != key
    decreases |fields|
  {
    if |fields| == 0 then None
    else if fields[|fields| - 1].0 == key then Some(|fields| - 1)
    else FieldIndex(fields[..|fields| - 1], key)
  }

  predicate DistinctNames(fields: seq<(string, Json)>) {
    forall a, b :: 0 <= a < b < |fields| ==> fields[a].0 != fields[b].0
  }

  lemma FieldIndexOfDistinct(fields: seq<(string, Json)>, i: nat)
    requires DistinctNames(fields) && i < |fields|
    ensures FieldIndex(fields, fields[i].0) == Some(i)
  {
  }

  /** The member named `key`, the last one if repeated. */
  function Lookup(fields: seq<(string, Json)>, key: string): (r: Option<Json>)
    ensures r.None? <==> forall j :: 0 <= j < |fields| ==> fields[j].0 != key
    ensures r.Some? ==>
      exists i :: 0 <= i < |fields| && fields[i] == (key, r.value) &&
        forall j :: i < j < |fields| ==> fields[j].0 != key
  {
    match FieldIndex(fields, key)
    case None => None
    case Some(i) => assert fields[i] == (key, fields[i].1); Some(fields[i].1)
  }

  /** A JSON number that is a natural number, as `Nat` accepts it. */
  function AsNat(j: Json): (r: Option<nat>)
    ensures r.Some? ==> j == JNumber(r.value as real)
    ensures forall n: nat :: j == JNumber(n as real) ==> r == Some(n)
  {
    if j.JNumber? && j.r >= 0.0 && j.r.Floor as real == j.r then Some(j.r.Floor) else None
  }
}
