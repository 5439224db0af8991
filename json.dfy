/**
 * The JSON object tree the converter builds (Json.NET's `JToken`s): null,
 * strings, arrays, and objects whose properties keep insertion order.
 */
module Json {
  import opened Runtime

  datatype JToken =
    | JNull
    | JString(text: string)
    | JArray(items: seq<JToken>)
    | JObject(properties: seq<Property>)

  datatype Property = Property(name: string, value: JToken)

  /** The property names of an object, in order. */
  function Names(ps: seq<Property>): (r: seq<string>)
    ensures |r| == |ps| && forall k :: 0 <= k < |ps| ==> r[k] == ps[k].name
  {
    seq(|ps|, k requires 0 <= k < |ps| => ps[k].name)
  }

  /** `obj[name]` read: the value of the first property so named. */
  function Get(ps: seq<Property>, name: string): Option<JToken>
    decreases |ps|
  {
    if ps == [] then None
    else if ps[0].name == name then Some(ps[0].value)
    else Get(ps[1..], name)
  }

  /** `obj[name] = value`: replaces the value of the property so named, in
      its place, or adds the property at the end when there is none. */
  function Put(ps: seq<Property>, name: string, value: JToken): (r: seq<Property>)
    ensures (forall k :: 0 <= k < |ps| ==> ps[k].name != name) ==> r == ps + [Property(name, value)]
    decreases |ps|
  {
    if ps == [] then [Property(name, value)]
    else if ps[0].name == name then [Property(name, value)] + ps[1..]
    else [ps[0]] + Put(ps[1..], name, value)
  }

  /** After `obj[name] = value`, reading `obj[name]` gives `value`, no other
      property changes, and the names keep their order, the new one last. */
  lemma {:induction false} PutThenGet(ps: seq<Property>, name: string, value: JToken)
    ensures Get(Put(ps, name, value), name) == Some(value)
    ensures forall other :: other != name ==> Get(Put(ps, name, value), other) == Get(ps, other)
    ensures Names(Put(ps, name, value)) == if name in Names(ps) then Names(ps) else Names(ps) + [name]
    decreases |ps|
  {
    if ps != [] && ps[0].name != name {
      PutThenGet(ps[1..], name, value);
      assert Names(ps) == [ps[0].name] + Names(ps[1..]);
      var r := Put(ps, name, value);
      assert r[0] == ps[0] && r[1..] == Put(ps[1..], name, value);
    }
  }

  /** Looking a name up in a concatenation looks in the first part first. */
  lemma {:induction false} GetAppend(ps: seq<Property>, qs: seq<Property>, name: string)
    ensures Get(ps + qs, name) == if name in Names(ps) then Get(ps, name) else Get(qs, name)
    decreases |ps|
  {
    if ps == [] {
      assert ps + qs == qs;
    } else {
      assert (ps + qs)[0] == ps[0] && (ps + qs)[1..] == ps[1..] + qs;
      assert Names(ps) == [ps[0].name] + Names(ps[1..]);
      GetAppend(ps[1..], qs, name);
    }
  }

  /** The property found is the first one with the name looked up. */
  lemma {:induction false} GetAt(ps: seq<Property>, i: nat, name: string)
    requires i < |ps| && ps[i].name == name
    requires forall j :: 0 <= j < i ==> ps[j].name != name
    ensures Get(ps, name) == Some(ps[i].value)
    decreases i
  {
    if i > 0 {
      GetAt(ps[1..], i - 1, name);
    }
  }

  /** A name that no property carries is not found. */
  lemma {:induction false} GetAbsent(ps: seq<Property>, name: string)
    requires name !in Names(ps)
    ensures Get(ps, name) == None
    decreases |ps|
  {
    if ps != [] {
      assert Names(ps[1..]) == Names(ps)[1..];
      GetAbsent(ps[1..], name);
    }
  }
}
