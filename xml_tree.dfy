/** The part of Python's ElementTree the provisioning tool relies on: an
    element with a tag, attributes, optional text and ordered children, and
    the `find` / `findall` / `get` lookups over it. */
module XmlTree {
  import opened Wrappers

  /** `text` is None for an element written `<Tag/>`. */
  datatype Element = Element(tag: string, attrs: map<string, string>, text: Option<string>, children: seq<Element>)

  /** `Element.findall(tag)`: the direct children with that tag, in document order. */
  function FindAll(e: Element, tag: string): (r: seq<Element>)
    ensures forall i :: 0 <= i < |r| ==> r[i].tag == tag
    ensures |r| <= |e.children|
  {
    Filter(e.children, tag)
  }

  function Filter(es: seq<Element>, tag: string): (r: seq<Element>)
    ensures forall i :: 0 <= i < |r| ==> r[i].tag == tag
    ensures |r| <= |es|
  {
    if |es| == 0 then []
    else (if es[0].tag == tag then [es[0]] else []) + Filter(es[1..], tag)
  }

  /** `Element.find(tag)`: the first direct child with that tag. */
  function Find(e: Element, tag: string): (r: Option<Element>)
    ensures r.Some? ==> r.value.tag == tag
  {
    var all := FindAll(e, tag);
    if |all| == 0 then None else Some(all[0])
  }

  /** `find('A/B')`: the first B child of any A child, in document order. */
  function FindPath(e: Element, outer: string, inner: string): (r: Option<Element>)
    ensures r.Some? ==> r.value.tag == inner
    ensures |FindAll(e, outer)| == 0 ==> r.None?
  {
    FirstWithChild(FindAll(e, outer), inner)
  }

  function FirstWithChild(es: seq<Element>, inner: string): (r: Option<Element>)
    ensures r.Some? ==> r.value.tag == inner
    ensures |es| == 0 ==> r.None?
  {
    if |es| == 0 then None
    else match Find(es[0], inner)
      case Some(x) => Some(x)
      case None => FirstWithChild(es[1..], inner)
  }

  /** All descendants of `e` (not `e` itself) in document order, as `.//` walks them. */
  function Descendants(e: Element): seq<Element>
    decreases e, 1
  {
    DescendantsOf(e.children)
  }

  function DescendantsOf(es: seq<Element>): seq<Element>
    decreases es, 0
  {
    if |es| == 0 then [] else [es[0]] + Descendants(es[0]) + DescendantsOf(es[1..])
  }

  /** `find('.//A/B')`: the first B child of any A descendant. */
  function FindDeep(e: Element, outer: string, inner: string): (r: Option<Element>)
    ensures r.Some? ==> r.value.tag == inner
  {
    FirstWithChild(Filter(Descendants(e), outer), inner)
  }

  /** `Element.get(name, default)`. */
  function Attr(e: Element, name: string, default: string): string {
    if name in e.attrs then e.attrs[name] else default
  }

  /** Python truth value of an element: it has children. */
  predicate Truthy(e: Element) { |e.children| > 0 }

  /** Truth value of the result of a `find`: present and with children. */
  predicate TruthyOpt(o: Option<Element>) { o.Some? && Truthy(o.value) }

  /** `SubElement(parent, tag).text = text` as a value. */
  function Leaf(tag: string, text: string): Element {
    Element(tag, map[], Some(text), [])
  }

  function Node(tag: string, children: seq<Element>): Element {
    Element(tag, map[], None, children)
  }
}
