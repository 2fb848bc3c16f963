/** The chunk tree of a Simulink Data Dictionary (ddgen/slddgen.py): one
    `DD.ENTRY` object per bus, each wrapping a `Simulink.Bus` element whose
    `Elements_internal` property lists one `Simulink.BusElement` per
    element dictionary, then one `DD.Dictionary` object.

    The tree is given twice: as functions that say what it is (used by the
    lemmas, and by sldd_gen2.py's copies of the same code), and as methods
    that build it the way the code does, one sub-element at a time. A
    decoder reads a tree back; the round-trip lemmas show that nothing the
    document is meant to carry is lost. */
module SlddGen {
  import opened Common
  import opened XmlTree

  /** The namespace identifier that every entry of the document carries. */
  const NAMESPACE := "dacaf35e-55a5-454d-a7c1-93db038a210e"

  /** The dictionary `create_bus_element` reads. `Name`, `DataType` and
      `Dimensions` are always present; `Description` and `DocUnits` may be
      missing. dbc2sldd also sets `Units` and `IsEnum`, which are never read. */
  datatype ElementDict = ElementDict(
    name: string,
    dataType: string,
    dimensions: int,
    description: Option<string>,
    docUnits: Option<string>,
    units: Option<string>,
    isEnum: Option<bool>)

  /** What `uuid.uuid4()` and `datetime.now()` give one entry. */
  datatype Identity = Identity(uuid: string, lastMod: string)

  // ---------------------------------------------------------------------
  // The tree, as values

  /** The property names of a bus element, in the order they are written. */
  const BUS_ELEMENT_PROPS: seq<string> := [
    "Min_internal", "Max_internal", "DimensionsMode", "SamplingMode", "SampleTime",
    "Description", "DocUnits", "Name", "DataType_internal", "Complexity", "Dimensions"]

  function Prop(name: string, cls: string, text: Option<string>): Node {
    Leaf("P", [("Name", name), ("Class", cls)], text)
  }

  const MIN_INTERNAL := Leaf("P", [("Name", "Min_internal"), ("Class", "double"), ("Dimension", "0*0")], None)
  const MAX_INTERNAL := Leaf("P", [("Name", "Max_internal"), ("Class", "double"), ("Dimension", "0*0")], None)
  const DIMENSIONS_MODE := Prop("DimensionsMode", "char", Some("Fixed"))
  const SAMPLING_MODE := Prop("SamplingMode", "char", Some("Sample based"))
  const SAMPLE_TIME := Prop("SampleTime", "double", Some("-1.0"))
  const COMPLEXITY := Prop("Complexity", "char", Some("real"))

  /** The tree `create_bus_element(d)` returns. */
  function BusElementNode(d: ElementDict): Node {
    Node("Element", [("Class", "Simulink.BusElement")], None, [
      MIN_INTERNAL, MAX_INTERNAL, DIMENSIONS_MODE, SAMPLING_MODE, SAMPLE_TIME,
      Prop("Description", "char", Some(d.description.GetOr(""))),
      Prop("DocUnits", "char", Some(d.docUnits.GetOr(""))),
      Prop("Name", "char", Some(d.name)),
      Prop("DataType_internal", "char", Some(d.dataType)),
      COMPLEXITY,
      Prop("Dimensions", "double", Some(IntToString(d.dimensions)))])
  }

  function ElementNodes(elements: seq<ElementDict>): seq<Node> {
    seq(|elements|, i requires 0 <= i < |elements| => BusElementNode(elements[i]))
  }

  const ALIGNMENT := Prop("Alignment", "double", Some("-1.0"))
  const PRESERVE_DIMENSIONS := Prop("PreserveElementDimensions", "logical", Some("0"))
  const BUS_DESCRIPTION := Prop("Description", "char", None)
  const DATA_SCOPE := Prop("DataScope", "char", Some("Auto"))
  const HEADER_FILE := Prop("HeaderFile", "char", None)

  /** The `Elements_internal` property over the element trees `nodes`. */
  function ElementsInternal(nodes: seq<Node>): Node {
    Node("P", [("Name", "Elements_internal"), ("Dimension", NatToString(|nodes|) + "*1")], None, nodes)
  }

  /** The tree `create_bus(bus_name, elements)` returns; the bus name is
      not part of it. */
  function BusNode(elements: seq<ElementDict>): Node {
    Node("Element", [("Class", "Simulink.Bus")], None, [
      ALIGNMENT, PRESERVE_DIMENSIONS, ElementsInternal(ElementNodes(elements)),
      BUS_DESCRIPTION, DATA_SCOPE, HEADER_FILE])
  }

  /** The `DD.ENTRY` object for one named value. */
  function EntryNode(name: string, id: Identity, namespace: string, lastModBy: string, value: Node): Node {
    Node("Object", [("Class", "DD.ENTRY")], None, [
      Prop("Name", "char", Some(name)),
      Prop("UUID", "char", Some(id.uuid)),
      Prop("Namespace", "char", Some(namespace)),
      Prop("LastMod", "char", Some(id.lastMod)),
      Prop("LastModBy", "char", Some(lastModBy)),
      Prop("IsDerived", "char", Some("0")),
      Node("P", [("Name", "Value")], None, [value])])
  }

  /** One entry per named value, in order, each with its own identity. */
  function EntryNodes(entries: seq<(string, Node)>, ids: seq<Identity>, namespace: string, lastModBy: string): seq<Node>
    requires |ids| == |entries|
  {
    seq(|entries|, i requires 0 <= i < |entries| => EntryNode(entries[i].0, ids[i], namespace, lastModBy, entries[i].1))
  }

  const ROOT_ATTRS: Attrs := [("FormatVersion", "1"), ("MinRelease", "R2014a"), ("Arch", "win64")]

  const DICTIONARY := Node("Object", [("Class", "DD.Dictionary")], None, [Prop("AccessBaseWorkspace", "logical", Some("0"))])

  /** The `DataSource` root over the entry objects, closed by the dictionary object. */
  function DataSource(entries: seq<Node>): Node {
    Node("DataSource", ROOT_ATTRS, None, entries + [DICTIONARY])
  }

  /** Each bus entry `(bus_name, elements)` with its elements as a bus tree. */
  function BusPayloads(busEntries: seq<(string, seq<ElementDict>)>): seq<(string, Node)> {
    seq(|busEntries|, i requires 0 <= i < |busEntries| => (busEntries[i].0, BusNode(busEntries[i].1)))
  }

  /** The root `create_simulink_dd(bus_entries, ...)` builds before writing
      it out; `ids[i]` is the identity drawn for the i-th entry. */
  function SlddChunk(busEntries: seq<(string, seq<ElementDict>)>, ids: seq<Identity>): Node
    requires |ids| == |busEntries|
  {
    DataSource(EntryNodes(BusPayloads(busEntries), ids, NAMESPACE, "robot"))
  }

  // ---------------------------------------------------------------------
  // Reading a tree back

  /** What a bus element tree says about its element. */
  datatype ElementFields = ElementFields(
    name: string, dataType: string, description: string, docUnits: string, dimensions: int)

  /** What a bus element built from `d` is meant to carry: the missing
      `Description` and `DocUnits` keys read as "", and `Units` is not read. */
  function Fields(d: ElementDict): ElementFields {
    ElementFields(d.name, d.dataType, d.description.GetOr(""), d.docUnits.GetOr(""), d.dimensions)
  }

  function FieldsOf(elements: seq<ElementDict>): seq<ElementFields> {
    seq(|elements|, i requires 0 <= i < |elements| => Fields(elements[i]))
  }

  /** The text of `n` if it is the property `name` of class `cls`. */
  function PropText(n: Node, name: string, cls: string): Option<string> {
    if n.tag == "P" && n.attrs == [("Name", name), ("Class", cls)] && n.children == [] then n.text else None
  }

  function DecodeBusElement(n: Node): (r: Option<ElementFields>)
    ensures r.Some? ==> |n.children| == |BUS_ELEMENT_PROPS|
    ensures r.Some? ==> forall i | 0 <= i < |n.children| ::
      n.children[i].tag == "P" && Attribute(n.children[i].attrs, "Name") == Some(BUS_ELEMENT_PROPS[i])
  {
    if n.tag != "Element" || n.attrs != [("Class", "Simulink.BusElement")] || n.text != None || |n.children| != 11 then None
    else
      var c := n.children;
      if [c[0], c[1], c[2], c[3], c[4], c[9]] != [MIN_INTERNAL, MAX_INTERNAL, DIMENSIONS_MODE, SAMPLING_MODE, SAMPLE_TIME, COMPLEXITY] then None
      else
        match (PropText(c[5], "Description", "char"), PropText(c[6], "DocUnits", "char"), PropText(c[7], "Name", "char"),
               PropText(c[8], "DataType_internal", "char"), PropText(c[10], "Dimensions", "double"))
        case (Some(description), Some(docUnits), Some(name), Some(dataType), Some(dims)) =>
          (match ParseInt(dims)
           case Some(k) => Some(ElementFields(name, dataType, description, docUnits, k))
           case None => None)
        case _ => None
  }

  function DecodeElements(nodes: seq<Node>): (r: Option<seq<ElementFields>>)
    ensures r.Some? ==> |r.value| == |nodes|
    ensures r.Some? ==> forall i | 0 <= i < |nodes| :: DecodeBusElement(nodes[i]) == Some(r.value[i])
  {
    if nodes == [] then Some([])
    else
      match (DecodeBusElement(nodes[0]), DecodeElements(nodes[1..]))
      case (Some(f), Some(fs)) => Some([f] + fs)
      case _ => None
  }

  /** The element fields of a bus tree, provided that its element count
      matches its `Dimension` attribute. */
  function DecodeBus(n: Node): (r: Option<seq<ElementFields>>)
    ensures r.Some? ==> |n.children| == 6 && |r.value| == |n.children[2].children|
    ensures r.Some? ==> Attribute(n.children[2].attrs, "Dimension") == Some(NatToString(|r.value|) + "*1")
  {
    if n.tag != "Element" || n.attrs != [("Class", "Simulink.Bus")] || n.text != None || |n.children| != 6 then None
    else
      var c := n.children;
      if c[0] != ALIGNMENT || c[1] != PRESERVE_DIMENSIONS || c[3] != BUS_DESCRIPTION || c[4] != DATA_SCOPE || c[5] != HEADER_FILE then None
      else if c[2] != ElementsInternal(c[2].children) then None
      else DecodeElements(c[2].children)
  }

  /** What an entry object carries. */
  datatype EntryFields = EntryFields(
    name: string, uuid: string, namespace: string, lastMod: string,
    lastModBy: string, isDerived: string, value: Node)

  const ENTRY_PROPS: seq<string> := ["Name", "UUID", "Namespace", "LastMod", "LastModBy", "IsDerived"]

  function DecodeEntry(n: Node): (r: Option<EntryFields>)
    ensures r.Some? ==> n.tag == "Object" && n.attrs == [("Class", "DD.ENTRY")]
  {
    if n.tag != "Object" || n.attrs != [("Class", "DD.ENTRY")] || n.text != None || |n.children| != 7 then None
    else
      var c := n.children;
      if exists i | 0 <= i < 6 :: PropText(c[i], ENTRY_PROPS[i], "char").None? then None
      else if c[6].tag != "P" || c[6].attrs != [("Name", "Value")] || c[6].text != None || |c[6].children| != 1 then None
      else Some(EntryFields(c[0].text.value, c[1].text.value, c[2].text.value, c[3].text.value,
                            c[4].text.value, c[5].text.value, c[6].children[0]))
  }

  function DecodeEntries(nodes: seq<Node>): (r: Option<seq<EntryFields>>)
    ensures r.Some? ==> |r.value| == |nodes|
    ensures r.Some? ==> forall i | 0 <= i < |nodes| :: DecodeEntry(nodes[i]) == Some(r.value[i])
  {
    if nodes == [] then Some([])
    else
      match (DecodeEntry(nodes[0]), DecodeEntries(nodes[1..]))
      case (Some(e), Some(es)) => Some([e] + es)
      case _ => None
  }

  /** The entries of a chunk root: every child but the last is an entry
      object, and the last is the dictionary object. */
  function DecodeDataSource(n: Node): (r: Option<seq<EntryFields>>)
    ensures r.Some? ==> n.tag == "DataSource" && n.attrs == ROOT_ATTRS
    ensures r.Some? ==> |n.children| == |r.value| + 1 && n.children[|r.value|] == DICTIONARY
    ensures r.Some? ==> forall i | 0 <= i < |r.value| :: n.children[i].attrs == [("Class", "DD.ENTRY")]
  {
    if n.tag != "DataSource" || n.attrs != ROOT_ATTRS || n.text != None || n.children == [] then None
    else if n.children[|n.children| - 1] != DICTIONARY then None
    else DecodeEntries(n.children[..|n.children| - 1])
  }

  // ---------------------------------------------------------------------
  // Properties of the tree

  /** A bus element has exactly the eleven properties, in their fixed order. */
  lemma BusElementShape(d: ElementDict)
    ensures var n := BusElementNode(d);
      n.tag == "Element" && Attribute(n.attrs, "Class") == Some("Simulink.BusElement") &&
      |n.children| == 11 &&
      forall i | 0 <= i < 11 :: n.children[i].tag == "P" && Attribute(n.children[i].attrs, "Name") == Some(BUS_ELEMENT_PROPS[i])
  {
  }

  /** Reading a bus element back gives its name and data type verbatim,
      `Description` and `DocUnits` or "" where the keys are missing, and
      the dimensions; the `Units` key never reaches the tree. */
  lemma BusElementRoundTrip(d: ElementDict)
    ensures DecodeBusElement(BusElementNode(d)) == Some(Fields(d))
  {
    IntToStringRoundTrip(d.dimensions);
  }

  /** A dictionary that carries its unit under `Units` (as dbc2sldd builds
      them) yields an element whose `DocUnits` text is empty. */
  lemma UnitsKeyIsNotRead(d: ElementDict)
    requires d.docUnits == None && d.units.Some?
    ensures DecodeBusElement(BusElementNode(d)).Some?
    ensures DecodeBusElement(BusElementNode(d)).value.docUnits == ""
  {
    BusElementRoundTrip(d);
  }

  lemma {:induction false} DecodeElementsAll(nodes: seq<Node>, fields: seq<ElementFields>)
    requires |nodes| == |fields|
    requires forall i | 0 <= i < |nodes| :: DecodeBusElement(nodes[i]) == Some(fields[i])
    ensures DecodeElements(nodes) == Some(fields)
  {
    if nodes != [] {
      DecodeElementsAll(nodes[1..], fields[1..]);
      assert [fields[0]] + fields[1..] == fields;
    }
  }

  lemma ElementNodesRoundTrip(elements: seq<ElementDict>)
    ensures DecodeElements(ElementNodes(elements)) == Some(FieldsOf(elements))
  {
    forall i | 0 <= i < |elements| ensures DecodeBusElement(ElementNodes(elements)[i]) == Some(FieldsOf(elements)[i]) {
      BusElementRoundTrip(elements[i]);
    }
    DecodeElementsAll(ElementNodes(elements), FieldsOf(elements));
  }

  /** A bus tree holds one element tree per dictionary, in order, and its
      `Dimension` attribute is "<n>*1" for n elements. */
  lemma BusRoundTrip(elements: seq<ElementDict>)
    ensures DecodeBus(BusNode(elements)) == Some(FieldsOf(elements))
    ensures Attribute(BusNode(elements).children[2].attrs, "Dimension") == Some(NatToString(|elements|) + "*1")
  {
    BusShape(ElementNodes(elements));
    ElementNodesRoundTrip(elements);
  }

  /** The fixed properties around `Elements_internal` are what the decoder
      expects. */
  lemma BusShape(nodes: seq<Node>)
    ensures DecodeBus(Node("Element", [("Class", "Simulink.Bus")], None, [
      ALIGNMENT, PRESERVE_DIMENSIONS, ElementsInternal(nodes), BUS_DESCRIPTION, DATA_SCOPE, HEADER_FILE])) == DecodeElements(nodes)
  {
  }

  function EntryFieldsOf(entries: seq<(string, Node)>, ids: seq<Identity>, namespace: string, lastModBy: string): seq<EntryFields>
    requires |ids| == |entries|
  {
    seq(|entries|, i requires 0 <= i < |entries| =>
      EntryFields(entries[i].0, ids[i].uuid, namespace, ids[i].lastMod, lastModBy, "0", entries[i].1))
  }

  lemma EntryNodeRoundTrip(name: string, id: Identity, namespace: string, lastModBy: string, value: Node)
    ensures DecodeEntry(EntryNode(name, id, namespace, lastModBy, value))
         == Some(EntryFields(name, id.uuid, namespace, id.lastMod, lastModBy, "0", value))
  {
    var c := EntryNode(name, id, namespace, lastModBy, value).children;
    forall i | 0 <= i < 6 ensures PropText(c[i], ENTRY_PROPS[i], "char").Some? {
    }
  }

  lemma {:induction false} DecodeEntriesAll(nodes: seq<Node>, fields: seq<EntryFields>)
    requires |nodes| == |fields|
    requires forall i | 0 <= i < |nodes| :: DecodeEntry(nodes[i]) == Some(fields[i])
    ensures DecodeEntries(nodes) == Some(fields)
  {
    if nodes != [] {
      DecodeEntriesAll(nodes[1..], fields[1..]);
      assert [fields[0]] + fields[1..] == fields;
    }
  }

  lemma EntryNodesRoundTrip(entries: seq<(string, Node)>, ids: seq<Identity>, namespace: string, lastModBy: string)
    requires |ids| == |entries|
    ensures DecodeEntries(EntryNodes(entries, ids, namespace, lastModBy)) == Some(EntryFieldsOf(entries, ids, namespace, lastModBy))
  {
    var nodes := EntryNodes(entries, ids, namespace, lastModBy);
    var fields := EntryFieldsOf(entries, ids, namespace, lastModBy);
    forall i | 0 <= i < |entries| ensures DecodeEntry(nodes[i]) == Some(fields[i]) {
      EntryNodeRoundTrip(entries[i].0, ids[i], namespace, lastModBy, entries[i].1);
    }
    DecodeEntriesAll(nodes, fields);
  }

  /** A chunk root reads back as its entries in order, each with its
      name, identity, namespace, author and derived flag "0", followed by
      exactly one dictionary object. */
  lemma DataSourceRoundTrip(entries: seq<(string, Node)>, ids: seq<Identity>, namespace: string, lastModBy: string)
    requires |ids| == |entries|
    ensures DecodeDataSource(DataSource(EntryNodes(entries, ids, namespace, lastModBy))) == Some(EntryFieldsOf(entries, ids, namespace, lastModBy))
  {
    var nodes := EntryNodes(entries, ids, namespace, lastModBy);
    assert DataSource(nodes).children[..|nodes|] == nodes;
    EntryNodesRoundTrip(entries, ids, namespace, lastModBy);
  }

  /** The document of slddgen: the entries follow `bus_entries` in order;
      each is named by its bus, carries the fixed namespace, author
      "robot" and derived flag "0", and wraps a bus tree that reads back
      as the fields of its element dictionaries. */
  lemma SlddChunkRoundTrip(busEntries: seq<(string, seq<ElementDict>)>, ids: seq<Identity>)
    requires |ids| == |busEntries|
    ensures var r := DecodeDataSource(SlddChunk(busEntries, ids));
      && r.Some? && |r.value| == |busEntries|
      && forall i | 0 <= i < |busEntries| ::
           && r.value[i].name == busEntries[i].0
           && r.value[i].uuid == ids[i].uuid && r.value[i].lastMod == ids[i].lastMod
           && r.value[i].namespace == NAMESPACE
           && r.value[i].lastModBy == "robot" && r.value[i].isDerived == "0"
           && DecodeBus(r.value[i].value) == Some(FieldsOf(busEntries[i].1))
  {
    DataSourceRoundTrip(BusPayloads(busEntries), ids, NAMESPACE, "robot");
    forall i | 0 <= i < |busEntries| ensures DecodeBus(BusNode(busEntries[i].1)) == Some(FieldsOf(busEntries[i].1)) {
      BusRoundTrip(busEntries[i].1);
    }
  }

  // ---------------------------------------------------------------------
  // Building the tree, step by step

  /** `create_bus_element`. */
  method CreateBusElement(d: ElementDict) returns (r: Node)
    ensures r == BusElementNode(d)
  {
    var elem := new Element("Element", [("Class", "Simulink.BusElement")]);
    elem.SubElement("P", [("Name", "Min_internal"), ("Class", "double"), ("Dimension", "0*0")], None);
    elem.SubElement("P", [("Name", "Max_internal"), ("Class", "double"), ("Dimension", "0*0")], None);
    elem.SubElement("P", [("Name", "DimensionsMode"), ("Class", "char")], Some("Fixed"));
    elem.SubElement("P", [("Name", "SamplingMode"), ("Class", "char")], Some("Sample based"));
    elem.SubElement("P", [("Name", "SampleTime"), ("Class", "double")], Some("-1.0"));
    elem.SubElement("P", [("Name", "Description"), ("Class", "char")], Some(d.description.GetOr("")));
    elem.SubElement("P", [("Name", "DocUnits"), ("Class", "char")], Some(d.docUnits.GetOr("")));
    elem.SubElement("P", [("Name", "Name"), ("Class", "char")], Some(d.name));
    elem.SubElement("P", [("Name", "DataType_internal"), ("Class", "char")], Some(d.dataType));
    elem.SubElement("P", [("Name", "Complexity"), ("Class", "char")], Some("real"));
    elem.SubElement("P", [("Name", "Dimensions"), ("Class", "double")], Some(IntToString(d.dimensions)));
    r := elem.ToNode();
  }

  /** `create_bus`: the element trees are appended to `Elements_internal`
      one per dictionary, in order. */
  method CreateBus(busName: string, elements: seq<ElementDict>) returns (r: Node)
    ensures r == BusNode(elements)
  {
    var bus := new Element("Element", [("Class", "Simulink.Bus")]);
    bus.SubElement("P", [("Name", "Alignment"), ("Class", "double")], Some("-1.0"));
    bus.SubElement("P", [("Name", "PreserveElementDimensions"), ("Class", "logical")], Some("0"));
    var elementsProp := new Element("P", [("Name", "Elements_internal"), ("Dimension", NatToString(|elements|) + "*1")]);
    var i := 0;
    while i < |elements|
      modifies elementsProp
      invariant 0 <= i <= |elements|
      invariant elementsProp.tag == "P" && elementsProp.text == None
      invariant elementsProp.attrs == [("Name", "Elements_internal"), ("Dimension", NatToString(|elements|) + "*1")]
      invariant elementsProp.children == ElementNodes(elements[..i])
    {
      var e := CreateBusElement(elements[i]);
      elementsProp.Append(e);
      assert elements[..i + 1] == elements[..i] + [elements[i]];
      i := i + 1;
    }
    assert elements[..i] == elements;
    bus.Append(elementsProp.ToNode());
    bus.SubElement("P", [("Name", "Description"), ("Class", "char")], None);
    bus.SubElement("P", [("Name", "DataScope"), ("Class", "char")], Some("Auto"));
    bus.SubElement("P", [("Name", "HeaderFile"), ("Class", "char")], None);
    r := bus.ToNode();
  }

  /** `create_simulink_bus`: appends one entry object to `root` and
      leaves everything that was already there as it was. */
  method CreateSimulinkBus(root: Element, busName: string, elements: seq<ElementDict>, id: Identity)
    modifies root
    ensures root.children == old(root.children) + [EntryNode(busName, id, NAMESPACE, "robot", BusNode(elements))]
    ensures root.tag == old(root.tag) && root.attrs == old(root.attrs) && root.text == old(root.text)
  {
    var busElement := CreateBus(busName, elements);
    var obj := new Element("Object", [("Class", "DD.ENTRY")]);
    obj.SubElement("P", [("Name", "Name"), ("Class", "char")], Some(busName));
    obj.SubElement("P", [("Name", "UUID"), ("Class", "char")], Some(id.uuid));
    obj.SubElement("P", [("Name", "Namespace"), ("Class", "char")], Some(NAMESPACE));
    obj.SubElement("P", [("Name", "LastMod"), ("Class", "char")], Some(id.lastMod));
    obj.SubElement("P", [("Name", "LastModBy"), ("Class", "char")], Some("robot"));
    obj.SubElement("P", [("Name", "IsDerived"), ("Class", "char")], Some("0"));
    var value := new Element("P", [("Name", "Value")]);
    value.Append(busElement);
    assert value.ToNode() == Node("P", [("Name", "Value")], None, [BusNode(elements)]);
    obj.Append(value.ToNode());
    assert obj.ToNode() == EntryNode(busName, id, NAMESPACE, "robot", BusNode(elements));
    root.Append(obj.ToNode());
  }

  /** The root assembly of `create_simulink_dd`: one entry per bus entry,
      in order, then the dictionary object. */
  method CreateSimulinkDD(busEntries: seq<(string, seq<ElementDict>)>, ids: seq<Identity>) returns (r: Node)
    requires |ids| == |busEntries|
    ensures r == SlddChunk(busEntries, ids)
  {
    var root := new Element("DataSource", [("FormatVersion", "1"), ("MinRelease", "R2014a"), ("Arch", "win64")]);
    var i := 0;
    while i < |busEntries|
      modifies root
      invariant 0 <= i <= |busEntries|
      invariant root.tag == "DataSource" && root.attrs == ROOT_ATTRS && root.text == None
      invariant |root.children| == i
      invariant forall j | 0 <= j < i :: root.children[j] == EntryNode(busEntries[j].0, ids[j], NAMESPACE, "robot", BusNode(busEntries[j].1))
    {
      CreateSimulinkBus(root, busEntries[i].0, busEntries[i].1, ids[i]);
      i := i + 1;
    }
    assert root.children == EntryNodes(BusPayloads(busEntries), ids, NAMESPACE, "robot");
    var dictObj := new Element("Object", [("Class", "DD.Dictionary")]);
    dictObj.SubElement("P", [("Name", "AccessBaseWorkspace"), ("Class", "logical")], Some("0"));
    assert dictObj.ToNode() == DICTIONARY;
    root.Append(dictObj.ToNode());
    r := root.ToNode();
    assert r == DataSource(EntryNodes(BusPayloads(busEntries), ids, NAMESPACE, "robot"));
  }
}
