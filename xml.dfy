/**
 * The parsed XML tree, as LINQ to XML presents it to the converter, and the
 * three queries the converter uses: `Elements(name)`, `Element(name)` and
 * `Attribute(name)?.Value`.
 */
module Xml {
  import opened Runtime

  /** An element: its name, its attributes by name, its child elements in
      document order, and its text value (`XElement.Value`, taken as given). */
  datatype XElement = XElement(
    name: string,
    attributes: map<string, string>,
    children: seq<XElement>,
    value: string)

  /** The elements of `cs` named `n`, in their order in `cs`. */
  function Named(cs: seq<XElement>, n: string): (r: seq<XElement>)
    ensures |r| <= |cs|
    ensures forall k :: 0 <= k < |r| ==> r[k].name == n && r[k] in cs
    ensures forall k :: 0 <= k < |cs| && cs[k].name == n ==> cs[k] in r
    decreases |cs|
  {
    if cs == [] then []
    else if cs[0].name == n then [cs[0]] + Named(cs[1..], n)
    else Named(cs[1..], n)
  }

  /** Selecting from a concatenation selects from each part, in order. */
  lemma {:induction false} NamedAppend(a: seq<XElement>, b: seq<XElement>, n: string)
    ensures Named(a + b, n) == Named(a, n) + Named(b, n)
    decreases |a|
  {
    if a == [] {
      assert a + b == b;
    } else {
      assert (a + b)[0] == a[0] && (a + b)[1..] == a[1..] + b;
      NamedAppend(a[1..], b, n);
    }
  }

  /** Nothing is selected when no element carries the name. */
  lemma {:induction false} NamedNone(cs: seq<XElement>, n: string)
    requires forall k :: 0 <= k < |cs| ==> cs[k].name != n
    ensures Named(cs, n) == []
    decreases |cs|
  {
    if cs != [] {
      NamedNone(cs[1..], n);
    }
  }

  /** `e.Elements(n)`: the child elements named `n`, in document order. */
  function Elements(e: XElement, n: string): seq<XElement> {
    Named(e.children, n)
  }

  /** `e.Element(n)`: the first child element named `n`, if any. */
  function Element(e: XElement, n: string): (r: Option<XElement>)
    ensures r.None? <==> forall k :: 0 <= k < |e.children| ==> e.children[k].name != n
    ensures r.Some? ==> r.value.name == n && r.value in e.children
  {
    var named := Named(e.children, n);
    if named == [] then None else Some(named[0])
  }

  /** The child `Element(n)` picks is the first one named `n`: every child
      before it has another name. */
  lemma ElementIsFirst(e: XElement, n: string, i: nat)
    requires i < |e.children| && e.children[i].name == n
    requires forall k :: 0 <= k < i ==> e.children[k].name != n
    ensures Element(e, n) == Some(e.children[i])
  {
    var cs := e.children;
    assert cs == cs[..i] + cs[i..];
    NamedAppend(cs[..i], cs[i..], n);
    NamedNone(cs[..i], n);
    assert cs[i..][0] == cs[i];
  }

  /** `e.Attribute(n)?.Value`: the attribute's value, or null when absent. */
  function Attribute(e: XElement, n: string): Option<string> {
    if n in e.attributes then Some(e.attributes[n]) else None
  }
}
