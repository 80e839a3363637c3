/** The part of a decoded CBOR value (`CBORObject`) that the record
    constructors read: the string-key indexer, `AsString` and `Values`. */
module CborValues {
  import opened Outcomes

  /** A CBOR data item. A map keeps its entries in the order they were
      decoded; a decoded map never holds the same key twice. */
  datatype Cbor =
    | CNull
    | CUndefined
    | CBool(b: bool)
    | CInteger(i: int)
    | CText(s: string)
    | CBytes(bytes: seq<bv8>)
    | CArray(items: seq<Cbor>)
    | CMap(entries: seq<(Cbor, Cbor)>)

  /** The exceptions the calls below throw. */
  datatype CborError =
    | NotAMapOrArray   // the string indexer on something that is neither
    | NotAnIndex       // the string indexer on an array
    | NotText          // AsString on anything but a text string
    | NotACollection   // Values on anything but a map or an array
    | NullReference    // a member call on the C# null the indexer gives for a missing key

  /** The value stored under `key`, if any. */
  function Lookup(entries: seq<(Cbor, Cbor)>, key: Cbor): Option<Cbor> {
    if |entries| == 0 then None
    else if entries[0].0 == key then Some(entries[0].1)
    else Lookup(entries[1..], key)
  }

  /** `Lookup` finds nothing exactly when no entry has the key, and otherwise
      a value stored under it. */
  lemma {:induction false} LookupFinds(entries: seq<(Cbor, Cbor)>, key: Cbor)
    ensures Lookup(entries, key).None? <==> forall i :: 0 <= i < |entries| ==> entries[i].0 != key
    ensures Lookup(entries, key).Some? ==> exists i :: 0 <= i < |entries| && entries[i] == (key, Lookup(entries, key).value)
    decreases |entries|
  {
    if |entries| > 0 && entries[0].0 != key {
      var rest := entries[1..];
      LookupFinds(rest, key);
      assert forall i :: 0 <= i < |rest| ==> rest[i] == entries[i + 1];
      if Lookup(entries, key).Some? {
        var i :| 0 <= i < |rest| && rest[i] == (key, Lookup(rest, key).value);
        assert entries[i + 1] == rest[i];
      }
    }
  }

  /** `obj["key"]`: C# null for a missing key; a throw when `obj` is not a map. */
  function Index(obj: Cbor, key: string): (r: Outcome<Option<Cbor>, CborError>)
    ensures r.Value? <==> obj.CMap?
    ensures obj.CMap? ==> r == Value(Lookup(obj.entries, CText(key)))
    ensures obj.CArray? ==> r == Throws(NotAnIndex)
    ensures !(obj.CMap? || obj.CArray?) ==> r == Throws(NotAMapOrArray)
  {
    match obj
    case CMap(entries) => Value(Lookup(entries, CText(key)))
    case CArray(_) => Throws(NotAnIndex)
    case _ => Throws(NotAMapOrArray)
  }

  /** `v.AsString()` where `v` may be the C# null of a missing key. */
  function AsString(v: Option<Cbor>): (r: Outcome<string, CborError>)
    ensures r.Value? <==> v.Some? && v.value.CText?
    ensures r.Value? ==> r.value == v.value.s
    ensures r == Throws(NullReference) <==> v.None?
  {
    match v
    case None => Throws(NullReference)
    case Some(CText(s)) => Value(s)
    case Some(_) => Throws(NotText)
  }

  /** `c.Values`: the items of an array, or the values of a map. */
  function Values(c: Cbor): (r: Outcome<seq<Cbor>, CborError>)
    ensures r.Value? <==> c.CArray? || c.CMap?
    ensures c.CArray? ==> r == Value(c.items)
    ensures c.CMap? ==> r.Value? && |r.value| == |c.entries|
                        && forall i :: 0 <= i < |c.entries| ==> r.value[i] == c.entries[i].1
  {
    match c
    case CArray(items) => Value(items)
    case CMap(entries) => Value(seq(|entries|, i requires 0 <= i < |entries| => entries[i].1))
    case _ => Throws(NotACollection)
  }

  predicate AllText(vs: seq<Cbor>) {
    forall i :: 0 <= i < |vs| ==> vs[i].CText?
  }

  /** `vs.Select(n => n.AsString()).ToArray()`: the first element that is not
      text throws; otherwise the strings, one per element, in order. */
  function AllAsString(vs: seq<Cbor>): (r: Outcome<seq<string>, CborError>)
    ensures r.Value? <==> AllText(vs)
    ensures r.Throws? ==> r.error == NotText
    ensures r.Value? ==> |r.value| == |vs| && forall i :: 0 <= i < |vs| ==> r.value[i] == vs[i].s
  {
    if vs == [] then Value([])
    else
      var head :- AsString(Some(vs[0]));
      var tail :- AllAsString(vs[1..]);
      Value([head] + tail)
  }
}
