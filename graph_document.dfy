/** The saved form of a filter graph: a `FILTERGRAPH` document whose children are one
    `FILTER` record per node, one `CONNECTION` record per connection and one `MIDI_MAPPINGS`
    record per mapping, and the functions that write it and read it back. XML text, and the
    base64 text of the state blobs, are not modelled: a record carries typed values and the
    state bytes verbatim. */
module GraphDocument {
  import opened Wrappers
  import opened Numeric
  import opened Seqs
  import opened ProcessorGraph
  import opened NodeFactory
  import opened Positions
  import opened MidiMappings

  /** A child element of the document. `plugin` is the first child that reads as a plugin
      description and `state` the `STATE` child, either of which a file may lack;
      `OtherElem` is a child with any other tag. */
  datatype Element =
    | FilterElem(uid: int, x: real, y: real, uiLastX: int, uiLastY: int,
                 plugin: Option<Descriptor>, state: Option<Bytes>)
    | ConnectionElem(srcFilter: int, srcChannel: int, dstFilter: int, dstChannel: int)
    | MappingElem(nodeId: int, parameterIndex: int, channel: int, controller: int)
    | OtherElem

  datatype XmlDoc = XmlDoc(tag: string, children: seq<Element>)

  const RootTag: string := "FILTERGRAPH"

  /** An ASCII letter in lower case; every other character as it is. */
  function LowerAscii(c: char): (r: char)
    ensures 'A' <= c <= 'Z' ==> 'a' <= r <= 'z' && r as int == c as int + 32
    ensures !('A' <= c <= 'Z') ==> r == c
  {
    if 'A' <= c <= 'Z' then (c as int + 32) as char else c
  }

  /** `hasTagName`: tag names are compared ignoring the case of ASCII letters. */
  predicate SameTag(a: string, b: string) {
    |a| == |b| && forall i :: 0 <= i < |a| ==> LowerAscii(a[i]) == LowerAscii(b[i])
  }

  /** Any spelling of `FILTERGRAPH` in upper, lower or mixed case is taken as the root tag, and
      a tag of any other length is not. */
  lemma RootTagSpellings()
    ensures SameTag(RootTag, RootTag)
    ensures SameTag("filtergraph", RootTag) && SameTag("FilterGraph", RootTag)
    ensures !SameTag("FILTERGRAPHS", RootTag) && !SameTag("FILTER", RootTag)
    ensures forall t :: SameTag(t, RootTag) ==> |t| == |RootTag|
  {
    assert "filtergraph"[0] == 'f';
  }

  // ---------------------------------------------------------------------------
  // Writing

  /** `createNodeXml`. */
  function FilterRecord(id: NodeId, n: Node): (e: Element)
    requires Describable(n)
    ensures e.FilterElem?
    ensures IsUint32(id) ==> ToUint32(e.uid) == id && (e.uid == -1 <==> id == TWO_32 - 1)
    ensures RecordDescriptor(e) == SavedDescriptor(n) && e.state == Some(n.processor.state)
  {
    FilterElem(ToInt32(id), PropReal(n, "x"), PropReal(n, "y"), PropInt(n, "uiLastX"), PropInt(n, "uiLastY"),
               Some(SavedDescriptor(n)), Some(n.processor.state))
  }

  function ConnectionRecord(c: Connection): Element {
    ConnectionElem(ToInt32(c.srcId), c.srcChannel, ToInt32(c.dstId), c.dstChannel)
  }

  function MappingRecord(m: MidiMapping): Element {
    MappingElem(m.nodeId, m.parameterIndex, m.channel, m.controller)
  }

  ghost predicate Savable(g: Graph) {
    forall id :: id in g.order ==> id in g.nodes && Describable(g.nodes[id])
  }

  function FilterRecords(order: seq<NodeId>, nodes: map<NodeId, Node>): (r: seq<Element>)
    requires forall id :: id in order ==> id in nodes && Describable(nodes[id])
    ensures |r| == |order|
  {
    seq(|order|, i requires 0 <= i < |order| => FilterRecord(order[i], nodes[order[i]]))
  }

  function ConnectionRecords(cs: seq<Connection>): (r: seq<Element>)
    ensures |r| == |cs|
  {
    seq(|cs|, i requires 0 <= i < |cs| => ConnectionRecord(cs[i]))
  }

  function MappingRecords(ms: seq<MidiMapping>): (r: seq<Element>)
    ensures |r| == |ms|
  {
    seq(|ms|, i requires 0 <= i < |ms| => MappingRecord(ms[i]))
  }

  /** `createXml`: nodes in graph order, then connections, then mappings. */
  function Serialize(g: Graph, ms: seq<MidiMapping>): (d: XmlDoc)
    requires Savable(g)
    ensures d.tag == RootTag
    ensures |d.children| == |g.order| + |g.connections| + |ms|
  {
    XmlDoc(RootTag, FilterRecords(g.order, g.nodes) + ConnectionRecords(g.connections) + MappingRecords(ms))
  }

  /** The document has one record per node, connection and mapping, grouped in that order. */
  lemma SerializeLayout(g: Graph, ms: seq<MidiMapping>)
    requires Savable(g)
    ensures var cs := Serialize(g, ms).children;
      var n, c := |g.order|, |g.connections|;
      && |cs| == n + c + |ms|
      && (forall i :: 0 <= i < n ==> cs[i].FilterElem? && cs[i].uid == ToInt32(g.order[i]))
      && (forall i :: n <= i < n + c ==> cs[i].ConnectionElem?)
      && (forall i :: n + c <= i < |cs| ==> cs[i].MappingElem?)
  {
    var cs := Serialize(g, ms).children;
    var fr, cr, mr := FilterRecords(g.order, g.nodes), ConnectionRecords(g.connections), MappingRecords(ms);
    assert cs == fr + cr + mr;
    forall i | 0 <= i < |g.order| ensures cs[i].FilterElem? && cs[i].uid == ToInt32(g.order[i]) {
      assert cs[i] == fr[i];
    }
    forall i | |g.order| <= i < |g.order| + |g.connections| ensures cs[i].ConnectionElem? {
      assert cs[i] == cr[i - |g.order|];
    }
    forall i | |g.order| + |g.connections| <= i < |cs| ensures cs[i].MappingElem? {
      assert cs[i] == mr[i - |g.order| - |g.connections|];
    }
  }

  lemma FilterRecordsKind(order: seq<NodeId>, nodes: map<NodeId, Node>)
    requires forall id :: id in order ==> id in nodes && Describable(nodes[id])
    ensures forall e :: e in FilterRecords(order, nodes) ==> e.FilterElem?
  {
    var r := FilterRecords(order, nodes);
    forall e | e in r ensures e.FilterElem? {
      var i :| 0 <= i < |r| && r[i] == e;
    }
  }

  lemma ConnectionRecordsKind(cs: seq<Connection>)
    ensures forall e :: e in ConnectionRecords(cs) ==> e.ConnectionElem?
  {
    var r := ConnectionRecords(cs);
    forall e | e in r ensures e.ConnectionElem? {
      var i :| 0 <= i < |r| && r[i] == e;
    }
  }

  lemma MappingRecordsKind(ms: seq<MidiMapping>)
    ensures forall e :: e in MappingRecords(ms) ==> e.MappingElem?
  {
    var r := MappingRecords(ms);
    forall e | e in r ensures e.MappingElem? {
      var i :| 0 <= i < |r| && r[i] == e;
    }
  }

  // ---------------------------------------------------------------------------
  // Reading back

  /** The description `createNodeFromXml` passes on: a default one when the record has none. */
  function RecordDescriptor(e: Element): Descriptor
    requires e.FilterElem?
  {
    e.plugin.GetOr(DefaultDescriptor)
  }

  /** Every `FILTER` record yields a node (`createNodeFromXml` uses the node unchecked). */
  ghost predicate RecordsInstantiable(cs: seq<Element>, fm: FormatManager) {
    forall e :: e in cs && e.FilterElem? ==> Instantiable(RecordDescriptor(e), fm)
  }

  lemma RecordsInstantiablePrefix(cs: seq<Element>, k: nat, fm: FormatManager)
    requires RecordsInstantiable(cs, fm) && k <= |cs|
    ensures RecordsInstantiable(cs[..k], fm)
  {
    assert forall e :: e in cs[..k] ==> e in cs;
  }

  /** The id a `FILTER` record is read back under: its `uid` unless that asks for a fresh id. */
  function RecordNodeId(g: Graph, e: Element): (id: NodeId)
    requires e.FilterElem?
    ensures RequestedId(e.uid).Some? ==> id == RequestedId(e.uid).value
    ensures RequestedId(e.uid).None? ==> id == g.lastNodeId + 1
    ensures id != 0
  {
    if e.uid != -1 && ToUint32(e.uid) != 0 then ToUint32(e.uid) else g.lastNodeId + 1
  }

  /** What a node recreated from a `FILTER` record holds. */
  predicate RestoredFrom(n: Node, e: Element)
    requires e.FilterElem?
  {
    var desc := RecordDescriptor(e);
    && PropReal(n, "x") == e.x && PropReal(n, "y") == e.y
    && PropInt(n, "uiLastX") == e.uiLastX && PropInt(n, "uiLastY") == e.uiLastY
    && (e.state.Some? ==> n.processor.state == e.state.value)
    && n.processor.kind == KindOf(desc.pluginFormatName)
    && Consistent(n)
    && (InlinesDescriptor(n.processor.kind) ==> SavedDescriptor(n) == desc)
    && "pluginName" in n.properties && n.properties["pluginName"] == VStr(desc.name)
  }

  /** The automation node id after creating a node of the given description: the new node's
      `uint32` id stored in the `int` member, which reads back as that id when it is looked up
      again as a `uint32`. */
  function AutomationAfter(automationId: int, desc: Descriptor, id: NodeId): (r: int)
    ensures KindOf(desc.pluginFormatName) == AutomationTrack ==>
              -TWO_31 <= r < TWO_31 && (IsUint32(id) ==> ToUint32(r) == id)
    ensures KindOf(desc.pluginFormatName) != AutomationTrack ==> r == automationId
  {
    if KindOf(desc.pluginFormatName) == AutomationTrack then ToInt32(id) else automationId
  }

  /** The node after `createNodeFromXml` has restored the record's state (when it has one)
      and set the saved position, last editor position and the description's name. */
  function Decorated(n: Node, e: Element): Node
    requires e.FilterElem?
  {
    var p := if e.state.Some? then n.processor.(state := e.state.value) else n.processor;
    var props := n.properties["x" := VReal(e.x)]["y" := VReal(e.y)]["uiLastX" := VInt(e.uiLastX)]
                             ["uiLastY" := VInt(e.uiLastY)]["pluginName" := VStr(RecordDescriptor(e).name)];
    Node(p, props)
  }

  /** A freshly built node, once decorated, holds what the record says. */
  lemma DecoratedRestores(e: Element, fm: FormatManager, csd: CsdReader)
    requires e.FilterElem? && Instantiable(RecordDescriptor(e), fm)
    ensures RestoredFrom(Decorated(Build(RecordDescriptor(e), fm, csd).value, e), e)
  {
    var n := Build(RecordDescriptor(e), fm, csd).value;
    BuildSpec(RecordDescriptor(e), fm, csd);
    var d := Decorated(n, e);
    assert d.processor.kind == n.processor.kind && d.processor.selfDescription == n.processor.selfDescription;
    assert "pluginDesc" in d.properties <==> "pluginDesc" in n.properties;
    assert "pluginDesc" in n.properties ==> d.properties["pluginDesc"] == n.properties["pluginDesc"];
  }

  /** Decorating a node leaves what its consistency depends on: its kind, its own
      description and its stored one. */
  lemma DecoratedKeepsConsistent(g: Graph, id: NodeId, e: Element)
    requires e.FilterElem? && id in g.nodes && WellFormed(g) && AllConsistent(g)
    ensures var r := g.(nodes := g.nodes[id := Decorated(g.nodes[id], e)]);
      WellFormed(r) && AllConsistent(r)
  {
    var n := g.nodes[id];
    var d := Decorated(n, e);
    assert d.processor.kind == n.processor.kind && d.processor.selfDescription == n.processor.selfDescription;
    assert "pluginDesc" in d.properties <==> "pluginDesc" in n.properties;
    assert "pluginDesc" in n.properties ==> d.properties["pluginDesc"] == n.properties["pluginDesc"];
  }

  lemma SetPropertyReplaced(g: Graph, id: NodeId, n: Node, key: string, v: Var)
    ensures SetProperty(g.(nodes := g.nodes[id := n]), id, key, v)
         == g.(nodes := g.nodes[id := n.(properties := n.properties[key := v])])
  {
    assert g.nodes[id := n][id := n.(properties := n.properties[key := v])]
        == g.nodes[id := n.(properties := n.properties[key := v])];
  }

  lemma SetStateReplaced(g: Graph, id: NodeId, n: Node, state: Bytes)
    ensures SetState(g.(nodes := g.nodes[id := n]), id, state)
         == g.(nodes := g.nodes[id := n.(processor := n.processor.(state := state))])
  {
    assert g.nodes[id := n][id := n.(processor := n.processor.(state := state))]
        == g.nodes[id := n.(processor := n.processor.(state := state))];
  }

  /** The property and state updates `createNodeFromXml` makes one by one on the graph
      amount to replacing the node by its decorated form. */
  lemma DecorateSteps(g: Graph, id: NodeId, e: Element)
    requires e.FilterElem? && id in g.nodes
    ensures var g1 := if e.state.Some? then SetState(g, id, e.state.value) else g;
      var g2 := SetProperty(g1, id, "x", VReal(e.x));
      var g3 := SetProperty(g2, id, "y", VReal(e.y));
      var g4 := SetProperty(g3, id, "uiLastX", VInt(e.uiLastX));
      var g5 := SetProperty(g4, id, "uiLastY", VInt(e.uiLastY));
      SetProperty(g5, id, "pluginName", VStr(RecordDescriptor(e).name))
        == g.(nodes := g.nodes[id := Decorated(g.nodes[id], e)])
  {
    var n0 := g.nodes[id];
    assert g == g.(nodes := g.nodes[id := n0]);
    var n1 := if e.state.Some? then n0.(processor := n0.processor.(state := e.state.value)) else n0;
    if e.state.Some? {
      SetStateReplaced(g, id, n0, e.state.value);
    }
    var n2 := n1.(properties := n1.properties["x" := VReal(e.x)]);
    SetPropertyReplaced(g, id, n1, "x", VReal(e.x));
    var n3 := n2.(properties := n2.properties["y" := VReal(e.y)]);
    SetPropertyReplaced(g, id, n2, "y", VReal(e.y));
    var n4 := n3.(properties := n3.properties["uiLastX" := VInt(e.uiLastX)]);
    SetPropertyReplaced(g, id, n3, "uiLastX", VInt(e.uiLastX));
    var n5 := n4.(properties := n4.properties["uiLastY" := VInt(e.uiLastY)]);
    SetPropertyReplaced(g, id, n4, "uiLastY", VInt(e.uiLastY));
    SetPropertyReplaced(g, id, n5, "pluginName", VStr(RecordDescriptor(e).name));
  }

  /** `createNodeFromXml`: create the node under the saved id, restore its state, then set the
      saved position, last editor position and name. Second component: the automation node id. */
  function NodeFromRecord(g: Graph, automationId: int, e: Element, fm: FormatManager, csd: CsdReader): (r: (Graph, int))
    requires e.FilterElem? && Instantiable(RecordDescriptor(e), fm)
    ensures r.0.nodes.Keys == g.nodes.Keys + {RecordNodeId(g, e)}
    ensures r.1 == AutomationAfter(automationId, RecordDescriptor(e), RecordNodeId(g, e))
  {
    var desc := RecordDescriptor(e);
    var created := Create(g, desc, e.uid, fm, csd).value;
    var id := created.1;
    (created.0.(nodes := created.0.nodes[id := Decorated(created.0.nodes[id], e)]), AutomationAfter(automationId, desc, id))
  }

  /** The property and state updates `createNodeFromXml` makes one by one, applied to the
      graph just created from the record's description, give the graph the record reads to. */
  lemma NodeFromRecordSteps(g: Graph, automationId: int, e: Element, fm: FormatManager, csd: CsdReader,
                            created: Graph, id: NodeId)
    requires e.FilterElem? && Instantiable(RecordDescriptor(e), fm)
    requires Create(g, RecordDescriptor(e), e.uid, fm, csd) == Some((created, id))
    ensures id in created.nodes
    ensures var g1 := if e.state.Some? then SetState(created, id, e.state.value) else created;
      var g2 := SetProperty(g1, id, "x", VReal(e.x));
      var g3 := SetProperty(g2, id, "y", VReal(e.y));
      var g4 := SetProperty(g3, id, "uiLastX", VInt(e.uiLastX));
      var g5 := SetProperty(g4, id, "uiLastY", VInt(e.uiLastY));
      SetProperty(g5, id, "pluginName", VStr(RecordDescriptor(e).name))
        == NodeFromRecord(g, automationId, e, fm, csd).0
    ensures NodeFromRecord(g, automationId, e, fm, csd).1 == AutomationAfter(automationId, RecordDescriptor(e), id)
    ensures RecordNodeId(g, e) == id
  {
    DecorateSteps(created, id, e);
  }

  /** Reading one `FILTER` record sets the node under the record's id to the decorated form
      of the node built from the record's description, and moves the automation node id to it
      exactly when it is an automation track. */
  lemma NodeFromRecordNodes(g: Graph, automationId: int, e: Element, fm: FormatManager, csd: CsdReader)
    requires e.FilterElem? && Instantiable(RecordDescriptor(e), fm)
    ensures var r := NodeFromRecord(g, automationId, e, fm, csd);
      var id := RecordNodeId(g, e);
      && r.0.nodes == g.nodes[id := Decorated(Build(RecordDescriptor(e), fm, csd).value, e)]
      && r.1 == AutomationAfter(automationId, RecordDescriptor(e), id)
  {
  }

  /** Reading one `FILTER` record adds no connection, keeps the graph well formed and puts
      the record's id last in the order. */
  lemma NodeFromRecordLinks(g: Graph, automationId: int, e: Element, fm: FormatManager, csd: CsdReader)
    requires e.FilterElem? && Instantiable(RecordDescriptor(e), fm)
    ensures var r := NodeFromRecord(g, automationId, e, fm, csd).0;
      var id := RecordNodeId(g, e);
      && (forall c :: c in r.connections ==> c in g.connections)
      && (WellFormed(g) ==> WellFormed(r) && r.order == Filter(g.order, OtherThan(id)) + [id])
  {
    var desc := RecordDescriptor(e);
    var created := Create(g, desc, e.uid, fm, csd).value;
    var id := created.1;
    var g1 := created.0.(nodes := created.0.nodes[id := Decorated(created.0.nodes[id], e)]);
    assert WellFormed(created.0) ==> WellFormed(g1);
  }

  /** Reading one `FILTER` record adds (or replaces) the node under the record's id, holding
      what the record says, and leaves every other node as it was; it adds no connection, keeps
      the graph well formed and consistent, puts the id last in the order, and moves the
      automation node id to the new node exactly when it is an automation track. */
  lemma NodeFromRecordSpec(g: Graph, automationId: int, e: Element, fm: FormatManager, csd: CsdReader)
    requires e.FilterElem? && Instantiable(RecordDescriptor(e), fm)
    ensures var r := NodeFromRecord(g, automationId, e, fm, csd);
      var id := RecordNodeId(g, e);
      && r.0.nodes.Keys == g.nodes.Keys + {id}
      && (forall other :: other in g.nodes && other != id ==> r.0.nodes[other] == g.nodes[other])
      && RestoredFrom(r.0.nodes[id], e)
      && (forall c :: c in r.0.connections ==> c in g.connections)
      && (WellFormed(g) ==> WellFormed(r.0) && r.0.order == Filter(g.order, OtherThan(id)) + [id])
      && (AllConsistent(g) ==> AllConsistent(r.0))
      && r.1 == AutomationAfter(automationId, RecordDescriptor(e), id)
  {
    NodeFromRecordNodes(g, automationId, e, fm, csd);
    NodeFromRecordLinks(g, automationId, e, fm, csd);
    DecoratedRestores(e, fm, csd);
  }

  /** The `FILTER` loop of `restoreFromXml` over a prefix of the children. */
  function RestoreNodes(g: Graph, automationId: int, cs: seq<Element>, fm: FormatManager, csd: CsdReader): (Graph, int)
    requires RecordsInstantiable(cs, fm)
    decreases |cs|
  {
    if cs == [] then (g, automationId)
    else
      var init := cs[..|cs| - 1];
      assert forall e :: e in init ==> e in cs;
      var p := RestoreNodes(g, automationId, init, fm, csd);
      var e := cs[|cs| - 1];
      if e.FilterElem? then NodeFromRecord(p.0, p.1, e, fm, csd) else p
  }

  function ConnectionOf(e: Element): Connection
    requires e.ConnectionElem?
  {
    Connection(ToUint32(e.srcFilter), e.srcChannel, ToUint32(e.dstFilter), e.dstChannel)
  }

  /** The `CONNECTION` loop of `restoreFromXml`: each record is offered to `addConnection`. */
  function RestoreConnections(g: Graph, cs: seq<Element>, rule: Rule): Graph
    decreases |cs|
  {
    if cs == [] then g
    else
      var p := RestoreConnections(g, cs[..|cs| - 1], rule);
      var e := cs[|cs| - 1];
      if e.ConnectionElem? then AddConnection(p, ConnectionOf(e), rule).0 else p
  }

  function MappingOf(e: Element): MidiMapping
    requires e.MappingElem?
  {
    MidiMapping(e.nodeId, e.parameterIndex, e.channel, e.controller)
  }

  /** The mappings the `MIDI_MAPPINGS` loop of `restoreFromXml` appends. */
  function RestoredMappings(cs: seq<Element>): seq<MidiMapping>
    decreases |cs|
  {
    if cs == [] then []
    else
      var e := cs[|cs| - 1];
      RestoredMappings(cs[..|cs| - 1]) + (if e.MappingElem? then [MappingOf(e)] else [])
  }

  /** `restoreFromXml` on (graph, automation node id, mapping list): clear the graph, recreate
      the nodes, re-add the connections, prune illegal ones, and append the saved mappings to
      the mapping list, which is not cleared. */
  function Restore(g: Graph, automationId: int, ms: seq<MidiMapping>, doc: XmlDoc,
                   fm: FormatManager, csd: CsdReader, rule: Rule): (r: (Graph, int, seq<MidiMapping>))
    requires RecordsInstantiable(doc.children, fm)
    ensures forall c :: c in r.0.connections ==> Legal(r.0, c, rule)
    ensures |ms| <= |r.2| && r.2[..|ms|] == ms
  {
    var nodes := RestoreNodes(Clear(g), automationId, doc.children, fm, csd);
    var linked := RestoreConnections(nodes.0, doc.children, rule);
    (RemoveIllegalConnections(linked, rule).0, nodes.1, ms + RestoredMappings(doc.children))
  }

  // ---------------------------------------------------------------------------
  // Folds over concatenated children

  lemma {:induction false} RestoreNodesAppend(g: Graph, a: int, xs: seq<Element>, ys: seq<Element>,
                                              fm: FormatManager, csd: CsdReader)
    requires RecordsInstantiable(xs + ys, fm)
    ensures RecordsInstantiable(xs, fm) && RecordsInstantiable(ys, fm)
    ensures RestoreNodes(g, a, xs + ys, fm, csd)
         == var q := RestoreNodes(g, a, xs, fm, csd); RestoreNodes(q.0, q.1, ys, fm, csd)
    decreases |ys|
  {
    assert forall e :: e in xs ==> e in xs + ys;
    assert forall e :: e in ys ==> e in xs + ys;
    if ys == [] {
      assert xs + ys == xs;
    } else {
      var init := ys[..|ys| - 1];
      assert (xs + ys)[..|xs + ys| - 1] == xs + init;
      assert forall e :: e in xs + init ==> e in xs + ys;
      RestoreNodesAppend(g, a, xs, init, fm, csd);
    }
  }

  lemma {:induction false} RestoreNodesSkip(g: Graph, a: int, ys: seq<Element>, fm: FormatManager, csd: CsdReader)
    requires forall e :: e in ys ==> !e.FilterElem?
    ensures RecordsInstantiable(ys, fm)
    ensures RestoreNodes(g, a, ys, fm, csd) == (g, a)
    decreases |ys|
  {
    if ys != [] {
      var init := ys[..|ys| - 1];
      assert forall e :: e in init ==> e in ys;
      RestoreNodesSkip(g, a, init, fm, csd);
    }
  }

  /** Records after the last `FILTER` one do not change what the `FILTER` loop builds. */
  lemma RestoreNodesIgnoresTail(g: Graph, a: int, xs: seq<Element>, ys: seq<Element>, fm: FormatManager, csd: CsdReader)
    requires RecordsInstantiable(xs, fm)
    requires forall e :: e in ys ==> !e.FilterElem?
    ensures RecordsInstantiable(xs + ys, fm)
    ensures RestoreNodes(g, a, xs + ys, fm, csd) == RestoreNodes(g, a, xs, fm, csd)
  {
    var q := RestoreNodes(g, a, xs, fm, csd);
    RestoreNodesSkip(q.0, q.1, ys, fm, csd);
    RestoreNodesAppend(g, a, xs, ys, fm, csd);
  }

  lemma {:induction false} RestoreConnectionsAppend(g: Graph, xs: seq<Element>, ys: seq<Element>, rule: Rule)
    ensures RestoreConnections(g, xs + ys, rule) == RestoreConnections(RestoreConnections(g, xs, rule), ys, rule)
    decreases |ys|
  {
    if ys == [] {
      assert xs + ys == xs;
    } else {
      assert (xs + ys)[..|xs + ys| - 1] == xs + ys[..|ys| - 1];
      RestoreConnectionsAppend(g, xs, ys[..|ys| - 1], rule);
    }
  }

  lemma {:induction false} RestoreConnectionsSkip(g: Graph, ys: seq<Element>, rule: Rule)
    requires forall e :: e in ys ==> !e.ConnectionElem?
    ensures RestoreConnections(g, ys, rule) == g
    decreases |ys|
  {
    if ys != [] {
      var init := ys[..|ys| - 1];
      assert forall e :: e in init ==> e in ys;
      RestoreConnectionsSkip(g, init, rule);
    }
  }

  lemma {:induction false} RestoredMappingsAppend(xs: seq<Element>, ys: seq<Element>)
    ensures RestoredMappings(xs + ys) == RestoredMappings(xs) + RestoredMappings(ys)
    decreases |ys|
  {
    if ys == [] {
      assert xs + ys == xs;
    } else {
      assert (xs + ys)[..|xs + ys| - 1] == xs + ys[..|ys| - 1];
      RestoredMappingsAppend(xs, ys[..|ys| - 1]);
    }
  }

  lemma {:induction false} RestoredMappingsSkip(ys: seq<Element>)
    requires forall e :: e in ys ==> !e.MappingElem?
    ensures RestoredMappings(ys) == []
    decreases |ys|
  {
    if ys != [] {
      var init := ys[..|ys| - 1];
      assert forall e :: e in init ==> e in ys;
      RestoredMappingsSkip(init);
    }
  }

  // ---------------------------------------------------------------------------
  // Round trip

  /** A node recreated from a saved node keeps what the document carries: position, last
      editor position and state, and for kinds with a stored description, the kind and that
      description. */
  predicate Keeps(r: Node, n: Node) {
    && PropReal(r, "x") == PropReal(n, "x") && PropReal(r, "y") == PropReal(n, "y")
    && PropInt(r, "uiLastX") == PropInt(n, "uiLastX") && PropInt(r, "uiLastY") == PropInt(n, "uiLastY")
    && r.processor.state == n.processor.state
    && Consistent(r)
    && (InlinesDescriptor(n.processor.kind) && Describable(n) ==>
          r.processor.kind == n.processor.kind && SavedDescriptor(r) == SavedDescriptor(n))
  }

  /** What a graph must satisfy for its saved ids to read back as themselves: every id fits in
      32 bits and is neither the one that reads back as -1 nor 0, both of which ask for a fresh
      id. */
  ghost predicate IdsRoundTrip(g: Graph) {
    forall id :: id in g.nodes ==> 0 < id < TWO_32 - 1
  }

  /** After the first k `FILTER` records of a saved graph have been read back: the graph holds
      the first k saved ids, in saved order, each keeping its saved node's contents, and no
      connections yet. */
  ghost predicate RestoredPrefix(p: Graph, g: Graph, k: nat)
    requires k <= |g.order|
  {
    && WellFormed(p)
    && p.order == g.order[..k]
    && p.connections == []
    && (forall id :: id in p.nodes ==> id in g.nodes && Keeps(p.nodes[id], g.nodes[id]))
  }

  /** The id a saved node's record is read back under is the node's own id. */
  lemma RecordIdRoundTrip(g: Graph, p: Graph, k: nat)
    requires WellFormed(g) && IdsRoundTrip(g) && AllConsistent(g) && k < |g.order|
    ensures var id := g.order[k];
      Describable(g.nodes[id]) && RecordNodeId(p, FilterRecord(id, g.nodes[id])) == id
  {
    var id := g.order[k];
    assert id in g.nodes;
    assert ToInt32(id) != -1 && ToUint32(ToInt32(id)) == id && id != 0;
  }

  /** Reading a record whose id is new appends that id to the order, keeps the graph without
      connections, and keeps it well formed. */
  lemma NodeFromRecordShape(p: Graph, a: int, e: Element, id: NodeId, fm: FormatManager, csd: CsdReader)
    requires e.FilterElem? && Instantiable(RecordDescriptor(e), fm)
    requires RecordNodeId(p, e) == id && id !in p.order
    requires WellFormed(p) && p.connections == []
    ensures var r := NodeFromRecord(p, a, e, fm, csd).0;
      && WellFormed(r)
      && r.order == p.order + [id]
      && r.connections == []
      && r.nodes.Keys == p.nodes.Keys + {id}
  {
    NodeFromRecordSpec(p, a, e, fm, csd);
    assert Filter(p.order, OtherThan(id)) == p.order;
  }

  /** Reading back the record of a saved node yields a node that keeps the saved contents. */
  lemma NodeFromRecordKeeps(p: Graph, a: int, id: NodeId, n: Node, fm: FormatManager, csd: CsdReader)
    requires Consistent(n) && Instantiable(SavedDescriptor(n), fm)
    requires RecordNodeId(p, FilterRecord(id, n)) == id
    ensures var r := NodeFromRecord(p, a, FilterRecord(id, n), fm, csd).0;
      && id in r.nodes && Keeps(r.nodes[id], n)
      && (forall other :: other in p.nodes && other != id ==> r.nodes[other] == p.nodes[other])
  {
    NodeFromRecordSpec(p, a, FilterRecord(id, n), fm, csd);
  }

  /** The invariant extends by one node: a graph made from the prefix graph by adding the
      next saved id, keeping the saved contents there and changing no other node. */
  lemma RestoredPrefixExtend(g: Graph, p: Graph, r: Graph, k: nat)
    requires k < |g.order| && g.order[k] in g.nodes
    requires RestoredPrefix(p, g, k)
    requires WellFormed(r) && r.connections == []
    requires r.order == p.order + [g.order[k]] && r.nodes.Keys == p.nodes.Keys + {g.order[k]}
    requires forall other :: other in p.nodes && other != g.order[k] ==> r.nodes[other] == p.nodes[other]
    requires Keeps(r.nodes[g.order[k]], g.nodes[g.order[k]])
    ensures RestoredPrefix(r, g, k + 1)
  {
    PrefixSnoc(g.order, k + 1);
  }

  lemma RestoreNodesStep(g: Graph, p: Graph, a: int, fm: FormatManager, csd: CsdReader, k: nat)
    requires WellFormed(g) && AllConsistent(g) && IdsRoundTrip(g)
    requires forall id :: id in g.nodes ==> Instantiable(SavedDescriptor(g.nodes[id]), fm)
    requires k < |g.order| && RestoredPrefix(p, g, k)
    ensures var id := g.order[k];
      RestoredPrefix(NodeFromRecord(p, a, FilterRecord(id, g.nodes[id]), fm, csd).0, g, k + 1)
  {
    var id := g.order[k];
    var n := g.nodes[id];
    RecordIdRoundTrip(g, p, k);
    NoDupNotBefore(g.order, k);
    var e := FilterRecord(id, n);
    NodeFromRecordShape(p, a, e, id, fm, csd);
    NodeFromRecordKeeps(p, a, id, n, fm, csd);
    RestoredPrefixExtend(g, p, NodeFromRecord(p, a, e, fm, csd).0, k);
  }

  lemma FilterRecordsInstantiable(g: Graph, fm: FormatManager, k: nat)
    requires WellFormed(g) && AllConsistent(g)
    requires forall id :: id in g.nodes ==> Instantiable(SavedDescriptor(g.nodes[id]), fm)
    requires k <= |g.order|
    ensures RecordsInstantiable(FilterRecords(g.order, g.nodes)[..k], fm)
  {
    var fr := FilterRecords(g.order, g.nodes);
    forall e | e in fr[..k] && e.FilterElem? ensures Instantiable(RecordDescriptor(e), fm) {
      var i :| 0 <= i < k && fr[..k][i] == e;
      assert e == fr[i];
    }
  }

  lemma {:induction false} RestoreNodesPrefix(g: Graph, s: Graph, a: int, fm: FormatManager, csd: CsdReader, k: nat)
    requires WellFormed(g) && AllConsistent(g) && IdsRoundTrip(g)
    requires forall id :: id in g.nodes ==> Instantiable(SavedDescriptor(g.nodes[id]), fm)
    requires s.nodes == map[] && s.order == [] && s.connections == [] && WellFormed(s)
    requires k <= |g.order|
    ensures RecordsInstantiable(FilterRecords(g.order, g.nodes)[..k], fm)
    ensures RestoredPrefix(RestoreNodes(s, a, FilterRecords(g.order, g.nodes)[..k], fm, csd).0, g, k)
  {
    var fr := FilterRecords(g.order, g.nodes);
    FilterRecordsInstantiable(g, fm, k);
    if k == 0 {
      assert fr[..0] == [];
      assert g.order[..0] == [];
    } else {
      RestoreNodesPrefix(g, s, a, fm, csd, k - 1);
      PrefixSnoc(fr, k);
      var id := g.order[k - 1];
      var e := fr[..k][k - 1];
      assert e == FilterRecord(id, g.nodes[id]);
      var q := RestoreNodes(s, a, fr[..k - 1], fm, csd);
      assert RestoreNodes(s, a, fr[..k], fm, csd) == NodeFromRecord(q.0, q.1, e, fm, csd);
      RestoreNodesStep(g, q.0, q.1, fm, csd, k - 1);
    }
  }

  /** Offering a new connection to a graph whose connections are the legal ones of a list
      leaves the legal ones of the list extended by that connection. */
  lemma AddConnectionFiltered(g1: Graph, before: seq<Connection>, c: Connection, rule: Rule)
    requires c !in before
    ensures AddConnection(g1.(connections := Filter(before, LegalIn(g1.nodes, rule))), c, rule).0
         == g1.(connections := Filter(before + [c], LegalIn(g1.nodes, rule)))
  {
    FilterSnoc(before, c, LegalIn(g1.nodes, rule));
  }

  /** A saved connection's record reads back as the same connection. */
  lemma ConnectionRecordRoundTrip(g: Graph, k: nat)
    requires WellFormed(g) && IdsRoundTrip(g) && k < |g.connections|
    ensures ConnectionOf(ConnectionRecord(g.connections[k])) == g.connections[k]
  {
    assert g.connections[k] in g.connections;
  }

  lemma {:induction false} RestoreConnectionsPrefix(g: Graph, g1: Graph, rule: Rule, k: nat)
    requires WellFormed(g) && IdsRoundTrip(g)
    requires g1.connections == []
    requires k <= |g.connections|
    ensures RestoreConnections(g1, ConnectionRecords(g.connections)[..k], rule)
         == g1.(connections := Filter(g.connections[..k], LegalIn(g1.nodes, rule)))
  {
    var cr := ConnectionRecords(g.connections);
    if k == 0 {
      assert cr[..0] == [];
      assert g.connections[..0] == [];
    } else {
      RestoreConnectionsPrefix(g, g1, rule, k - 1);
      var before, c := g.connections[..k - 1], g.connections[k - 1];
      PrefixSnoc(cr, k);
      PrefixSnoc(g.connections, k);
      ConnectionRecordRoundTrip(g, k - 1);
      var p := RestoreConnections(g1, cr[..k - 1], rule);
      assert RestoreConnections(g1, cr[..k], rule) == AddConnection(p, c, rule).0;
      NoDupNotBefore(g.connections, k - 1);
      AddConnectionFiltered(g1, before, c, rule);
    }
  }

  lemma {:induction false} RestoredMappingsPrefix(ms: seq<MidiMapping>, k: nat)
    requires k <= |ms|
    ensures RestoredMappings(MappingRecords(ms)[..k]) == ms[..k]
  {
    var mr := MappingRecords(ms);
    if k == 0 {
      assert mr[..0] == [];
    } else {
      RestoredMappingsPrefix(ms, k - 1);
      PrefixSnoc(mr, k);
      PrefixSnoc(ms, k);
    }
  }

  /** The `FILTER` loop over a saved graph's node records, followed by records of other
      kinds, recreates every saved node. */
  lemma RestoreNodesOfDocument(g: Graph, rest: seq<Element>, s: Graph, a: int, fm: FormatManager, csd: CsdReader)
    requires WellFormed(g) && AllConsistent(g) && IdsRoundTrip(g)
    requires forall id :: id in g.nodes ==> Instantiable(SavedDescriptor(g.nodes[id]), fm)
    requires s.nodes == map[] && s.order == [] && s.connections == [] && WellFormed(s)
    requires forall e :: e in rest ==> !e.FilterElem?
    ensures RecordsInstantiable(FilterRecords(g.order, g.nodes) + rest, fm)
    ensures RestoredPrefix(RestoreNodes(s, a, FilterRecords(g.order, g.nodes) + rest, fm, csd).0, g, |g.order|)
  {
    var fr := FilterRecords(g.order, g.nodes);
    PrefixFull(fr);
    RestoreNodesPrefix(g, s, a, fm, csd, |g.order|);
    RestoreNodesIgnoresTail(s, a, fr, rest, fm, csd);
  }

  /** The `CONNECTION` loop over a saved document, run on a graph without connections,
      leaves the saved connections that are legal among that graph's nodes. */
  lemma RestoreConnectionsOfDocument(g: Graph, ms: seq<MidiMapping>, g1: Graph, rule: Rule)
    requires WellFormed(g) && IdsRoundTrip(g) && Savable(g)
    requires g1.connections == []
    ensures RestoreConnections(g1, Serialize(g, ms).children, rule)
         == g1.(connections := Filter(g.connections, LegalIn(g1.nodes, rule)))
  {
    var fr, cr, mr := FilterRecords(g.order, g.nodes), ConnectionRecords(g.connections), MappingRecords(ms);
    PrefixFull(cr);
    PrefixFull(g.connections);
    RestoreConnectionsAppend(g1, fr + cr, mr, rule);
    RestoreConnectionsAppend(g1, fr, cr, rule);
    FilterRecordsKind(g.order, g.nodes);
    MappingRecordsKind(ms);
    RestoreConnectionsSkip(g1, fr, rule);
    RestoreConnectionsPrefix(g, g1, rule, |g.connections|);
    RestoreConnectionsSkip(g1.(connections := Filter(g.connections, LegalIn(g1.nodes, rule))), mr, rule);
  }

  /** The `MIDI_MAPPINGS` loop over a saved document reads back exactly the saved mappings. */
  lemma RestoredMappingsOfDocument(g: Graph, ms: seq<MidiMapping>)
    requires Savable(g)
    ensures RestoredMappings(Serialize(g, ms).children) == ms
  {
    var fr, cr, mr := FilterRecords(g.order, g.nodes), ConnectionRecords(g.connections), MappingRecords(ms);
    PrefixFull(mr);
    PrefixFull(ms);
    RestoredMappingsAppend(fr + cr, mr);
    RestoredMappingsAppend(fr, cr);
    FilterRecordsKind(g.order, g.nodes);
    ConnectionRecordsKind(g.connections);
    RestoredMappingsSkip(fr);
    RestoredMappingsSkip(cr);
    RestoredMappingsPrefix(ms, |ms|);
  }

  /** Pruning a connection list that holds only legal connections removes nothing. */
  lemma PruneLegal(g1: Graph, cs: seq<Connection>, rule: Rule)
    ensures var linked := g1.(connections := Filter(cs, LegalIn(g1.nodes, rule)));
      RemoveIllegalConnections(linked, rule).0 == linked
  {
    var linked := g1.(connections := Filter(cs, LegalIn(g1.nodes, rule)));
    assert forall d :: d in linked.connections ==> LegalIn(linked.nodes, rule)(d);
  }

  /** Restoring a saved document: the recreated nodes as the `FILTER` loop builds them, the
      saved connections that are legal among them, and the saved mappings appended. */
  lemma RestoreOfDocument(g: Graph, ms: seq<MidiMapping>, h: Graph, a: int, ms0: seq<MidiMapping>,
                          fm: FormatManager, csd: CsdReader, rule: Rule)
    requires WellFormed(g) && AllConsistent(g) && IdsRoundTrip(g)
    requires forall id :: id in g.nodes ==> Instantiable(SavedDescriptor(g.nodes[id]), fm)
    ensures RecordsInstantiable(Serialize(g, ms).children, fm)
    ensures var g1 := RestoreNodes(Clear(h), a, Serialize(g, ms).children, fm, csd).0;
      var r := Restore(h, a, ms0, Serialize(g, ms), fm, csd, rule);
      && RestoredPrefix(g1, g, |g.order|)
      && r.0 == g1.(connections := Filter(g.connections, LegalIn(g1.nodes, rule)))
      && r.2 == ms0 + ms
  {
    var doc := Serialize(g, ms);
    var fr, cr, mr := FilterRecords(g.order, g.nodes), ConnectionRecords(g.connections), MappingRecords(ms);
    AppendAssoc(fr, cr, mr);
    ConnectionRecordsKind(g.connections);
    MappingRecordsKind(ms);
    RestoreNodesOfDocument(g, cr + mr, Clear(h), a, fm, csd);
    var g1 := RestoreNodes(Clear(h), a, doc.children, fm, csd).0;
    RestoreConnectionsOfDocument(g, ms, g1, rule);
    PruneLegal(g1, g.connections, rule);
    RestoredMappingsOfDocument(g, ms);
  }

  /** Saving a graph and restoring the document into any graph gives back the node ids in
      their order, each node's position, last editor position and state (and, for kinds with
      a stored description, kind and description), the saved connections that are legal
      among the recreated nodes, and the saved mappings appended to the existing ones. */
  lemma RoundTrip(g: Graph, ms: seq<MidiMapping>, h: Graph, a: int, ms0: seq<MidiMapping>,
                  fm: FormatManager, csd: CsdReader, rule: Rule)
    requires WellFormed(g) && AllConsistent(g) && IdsRoundTrip(g)
    requires forall id :: id in g.nodes ==> Instantiable(SavedDescriptor(g.nodes[id]), fm)
    ensures RecordsInstantiable(Serialize(g, ms).children, fm)
    ensures var r := Restore(h, a, ms0, Serialize(g, ms), fm, csd, rule);
      && r.0.order == g.order
      && r.0.nodes.Keys == g.nodes.Keys
      && (forall id :: id in g.nodes ==> Keeps(r.0.nodes[id], g.nodes[id]))
      && r.0.connections == Filter(g.connections, LegalIn(r.0.nodes, rule))
      && r.2 == ms0 + ms
  {
    RestoreOfDocument(g, ms, h, a, ms0, fm, csd, rule);
    PrefixFull(g.order);
  }

  /** When every saved connection is legal among the recreated nodes, the connection list
      comes back exactly. */
  lemma RoundTripConnections(g: Graph, ms: seq<MidiMapping>, h: Graph, a: int, ms0: seq<MidiMapping>,
                             fm: FormatManager, csd: CsdReader, rule: Rule)
    requires WellFormed(g) && AllConsistent(g) && IdsRoundTrip(g)
    requires forall id :: id in g.nodes ==> Instantiable(SavedDescriptor(g.nodes[id]), fm)
    requires RecordsInstantiable(Serialize(g, ms).children, fm)
    requires var r := Restore(h, a, ms0, Serialize(g, ms), fm, csd, rule).0;
      forall c :: c in g.connections ==> LegalAmong(r.nodes, c, rule)
    ensures Restore(h, a, ms0, Serialize(g, ms), fm, csd, rule).0.connections == g.connections
  {
    RoundTrip(g, ms, h, a, ms0, fm, csd, rule);
  }
}
