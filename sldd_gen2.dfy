/** The earlier, self-contained generator (sldd_gen2.py). Its
    `propose_data_type`, `create_bus_element` and `create_bus` are the same
    code as in ddgen/dbc2sldd.py and ddgen/slddgen.py and are modelled by
    `Dbc2Sldd.ProposeDataType`, `SlddGen.CreateBusElement` and
    `SlddGen.CreateBus`. What differs is modelled here: every message of
    the matrix becomes a bus named exactly after it, with one element per
    signal in signal order and the unit under `DocUnits`; and the buses
    are written by a document builder of its own, whose entries are signed
    "user". */
module SlddGen2 {
  import opened Common
  import opened XmlTree
  import opened CanMatrix
  import opened SlddGen
  import Dbc2Sldd

  /** The namespace `create_simulink_dd` writes into every entry; this
      generator defines its own copy of the identifier. */
  const NAMESPACE := "dacaf35e-55a5-454d-a7c1-93db038a210e"

  /** The document of `create_simulink_dd`, for buses already built. */
  function Chunk(busEntries: seq<(string, Node)>, ids: seq<Identity>): Node
    requires |ids| == |busEntries|
  {
    DataSource(EntryNodes(busEntries, ids, NAMESPACE, "user"))
  }

  /** The entries of the document follow `bus_entries` in order; each is
      named by its bus, carries the fixed namespace, author "user" and
      derived flag "0", and wraps its bus tree unchanged. */
  lemma ChunkRoundTrip(busEntries: seq<(string, Node)>, ids: seq<Identity>)
    requires |ids| == |busEntries|
    ensures var r := DecodeDataSource(Chunk(busEntries, ids));
      && r.Some? && |r.value| == |busEntries|
      && forall i | 0 <= i < |busEntries| ::
           && r.value[i].name == busEntries[i].0
           && r.value[i].uuid == ids[i].uuid && r.value[i].lastMod == ids[i].lastMod
           && r.value[i].namespace == NAMESPACE
           && r.value[i].lastModBy == "user" && r.value[i].isDerived == "0"
           && r.value[i].value == busEntries[i].1
  {
    DataSourceRoundTrip(busEntries, ids, NAMESPACE, "user");
  }

  /** The body of the loop of `create_simulink_dd`: one `DD.ENTRY` object
      built in place from the bus name, its identity and the bus tree. */
  method CreateEntryObject(busName: string, id: Identity, busElement: Node) returns (r: Node)
    ensures r == EntryNode(busName, id, NAMESPACE, "user", busElement)
  {
    var obj := new Element("Object", [("Class", "DD.ENTRY")]);
    obj.SubElement("P", [("Name", "Name"), ("Class", "char")], Some(busName));
    obj.SubElement("P", [("Name", "UUID"), ("Class", "char")], Some(id.uuid));
    obj.SubElement("P", [("Name", "Namespace"), ("Class", "char")], Some(NAMESPACE));
    obj.SubElement("P", [("Name", "LastMod"), ("Class", "char")], Some(id.lastMod));
    obj.SubElement("P", [("Name", "LastModBy"), ("Class", "char")], Some("user"));
    obj.SubElement("P", [("Name", "IsDerived"), ("Class", "char")], Some("0"));
    var value := new Element("P", [("Name", "Value")]);
    value.Append(busElement);
    assert value.ToNode() == Node("P", [("Name", "Value")], None, [busElement]);
    obj.Append(value.ToNode());
    r := obj.ToNode();
  }

  /** The root assembly of `create_simulink_dd`: one entry object per bus,
      built in place, then the dictionary object. */
  method CreateSimulinkDD(busEntries: seq<(string, Node)>, ids: seq<Identity>) returns (r: Node)
    requires |ids| == |busEntries|
    ensures r == Chunk(busEntries, ids)
  {
    var root := new Element("DataSource", [("FormatVersion", "1"), ("MinRelease", "R2014a"), ("Arch", "win64")]);
    for i := 0 to |busEntries|
      invariant root.tag == "DataSource" && root.attrs == ROOT_ATTRS && root.text == None
      invariant |root.children| == i
      invariant forall j | 0 <= j < i :: root.children[j] == EntryNode(busEntries[j].0, ids[j], NAMESPACE, "user", busEntries[j].1)
    {
      var (busName, busElement) := busEntries[i];
      var entry := CreateEntryObject(busName, ids[i], busElement);
      root.Append(entry);
    }
    assert root.children == EntryNodes(busEntries, ids, NAMESPACE, "user");
    var dictObj := new Element("Object", [("Class", "DD.Dictionary")]);
    dictObj.SubElement("P", [("Name", "AccessBaseWorkspace"), ("Class", "logical")], Some("0"));
    assert dictObj.ToNode() == DICTIONARY;
    root.Append(dictObj.ToNode());
    r := root.ToNode();
  }

  // ---------------------------------------------------------------------
  // From a matrix to buses (create_sldd_from_dbc)

  /** The element dictionary of one signal: proposed type, one dimension,
      comment and unit (or ""), the unit under `DocUnits`. */
  function SignalElement(s: Signal): ElementDict {
    ElementDict(s.name, Dbc2Sldd.ProposeDataType(s), 1, Some(s.comment.GetOr("")), Some(s.unit.GetOr("")), None, None)
  }

  function SignalElements(ss: seq<Signal>): seq<ElementDict> {
    seq(|ss|, j requires 0 <= j < |ss| => SignalElement(ss[j]))
  }

  /** One bus per frame, named after the frame. */
  function FrameBuses(frames: seq<Frame>): seq<(string, Node)> {
    seq(|frames|, i requires 0 <= i < |frames| => (frames[i].name, BusNode(SignalElements(frames[i].signals))))
  }

  /** `create_sldd_from_dbc` on a loaded matrix: the loop over frames and
      signals, then the document. */
  method CreateSlddFromDbc(db: Dbc, ids: seq<Identity>) returns (r: Node)
    requires |ids| == |db.frames|
    ensures r == Chunk(FrameBuses(db.frames), ids)
  {
    var busEntries: seq<(string, Node)> := [];
    for i := 0 to |db.frames|
      invariant busEntries == FrameBuses(db.frames[..i])
    {
      var message := db.frames[i];
      var elements: seq<ElementDict> := [];
      for j := 0 to |message.signals|
        invariant elements == SignalElements(message.signals[..j])
      {
        var signal := message.signals[j];
        elements := elements + [ElementDict(signal.name, Dbc2Sldd.ProposeDataType(signal), 1,
                                            Some(signal.comment.GetOr("")), Some(signal.unit.GetOr("")), None, None)];
      }
      assert message.signals[..|message.signals|] == message.signals;
      var busName := message.name;
      var busElement := CreateBus(busName, elements);
      busEntries := busEntries + [(busName, busElement)];
    }
    assert db.frames[..|db.frames|] == db.frames;
    r := CreateSimulinkDD(busEntries, ids);
  }

  /** Every frame becomes one entry, in frame order and nothing filtered,
      named exactly after the frame; its bus reads back as one element per
      signal in signal order (no sorting, no availability flag), each with
      the signal's name, its proposed type, one dimension, and its comment
      and unit (or ""). */
  lemma SlddFromDbcProperties(db: Dbc, ids: seq<Identity>)
    requires |ids| == |db.frames|
    ensures var r := DecodeDataSource(Chunk(FrameBuses(db.frames), ids));
      && r.Some? && |r.value| == |db.frames|
      && forall i | 0 <= i < |db.frames| ::
           && r.value[i].name == db.frames[i].name && r.value[i].lastModBy == "user"
           && var ss := db.frames[i].signals;
              var fs := DecodeBus(r.value[i].value);
              && fs.Some? && |fs.value| == |ss|
              && forall j | 0 <= j < |ss| ::
                   fs.value[j] == ElementFields(ss[j].name, Dbc2Sldd.ProposeDataType(ss[j]),
                                                ss[j].comment.GetOr(""), ss[j].unit.GetOr(""), 1)
  {
    var buses := FrameBuses(db.frames);
    ChunkRoundTrip(buses, ids);
    forall i | 0 <= i < |db.frames| ensures DecodeBus(buses[i].1) == Some(FieldsOf(SignalElements(db.frames[i].signals))) {
      BusRoundTrip(SignalElements(db.frames[i].signals));
    }
  }
}
