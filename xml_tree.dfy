/** The in-memory XML that the generators build with xml.etree.ElementTree,
    before it is written out: elements with a tag, attributes in the order
    they were given, an optional text, and child elements in order. */
module XmlTree {
  import opened Common

  /** An attribute list, in insertion order (ElementTree keeps a dict). */
  type Attrs = seq<(string, string)>

  /** An element as a value. `text` is None until `.text` is assigned. */
  datatype Node = Node(tag: string, attrs: Attrs, text: Option<string>, children: seq<Node>)

  /** `ET.SubElement(parent, tag, **attrs)` with its `.text` set or not,
      before anything is appended to it. */
  function Leaf(tag: string, attrs: Attrs, text: Option<string>): Node {
    Node(tag, attrs, text, [])
  }

  /** The value of the attribute called `key` (`element.get(key)`). */
  function Attribute(attrs: Attrs, key: string): (r: Option<string>)
    ensures r.Some? ==> (key, r.value) in attrs
    ensures r.None? ==> forall i | 0 <= i < |attrs| :: attrs[i].0 != key
  {
    if attrs == [] then None
    else if attrs[0].0 == key then Some(attrs[0].1)
    else Attribute(attrs[1..], key)
  }

  /** A mutable ElementTree element: its children are appended one at a
      time, as `ET.SubElement` and `Element.append` do. The children are
      held as values: an element is complete when it is appended. */
  class Element {
    var tag: string
    var attrs: Attrs
    var text: Option<string>
    var children: seq<Node>

    /** `ET.Element(tag, **attrs)`. */
    constructor (tag: string, attrs: Attrs)
      ensures this.tag == tag && this.attrs == attrs
      ensures text == None && children == []
    {
      this.tag := tag;
      this.attrs := attrs;
      text := None;
      children := [];
    }

    /** The element as it stands now. */
    function ToNode(): Node
      reads this
    {
      Node(tag, attrs, text, children)
    }

    /** `ET.SubElement(self, tag, **attrs)`, followed by `.text = t` when
        `text` is `Some(t)`. */
    method SubElement(tag: string, attrs: Attrs, text: Option<string>)
      modifies this
      ensures children == old(children) + [Leaf(tag, attrs, text)]
      ensures this.tag == old(this.tag) && this.attrs == old(this.attrs) && this.text == old(this.text)
    {
      children := children + [Leaf(tag, attrs, text)];
    }

    /** `self.append(child)`. */
    method Append(child: Node)
      modifies this
      ensures children == old(children) + [child]
      ensures tag == old(tag) && attrs == old(attrs) && text == old(text)
    {
      children := children + [child];
    }
  }
}
