/** The `FilterGraph` document of the Cabbage host: it owns the audio-processor graph, the
    MIDI mapping table and the transport clock, marks itself changed when an edit changes
    the graph, and writes itself to and reads itself back from a `FILTERGRAPH` document. */
module Host {
  import opened Wrappers
  import opened Numeric
  import opened Seqs
  import opened Transport
  import opened MidiMappings
  import opened ProcessorGraph
  import opened NodeFactory
  import opened Positions
  import opened GraphDocument

  /** The counter after `k` calls of `getNextUID` starting from `start`. */
  function UidAfter(start: int, k: nat): (u: int)
    requires IsUint32(start)
    ensures IsUint32(u)
  {
    if k == 0 then start else Increment32(UidAfter(start, k - 1))
  }

  /** Until the 32-bit counter wraps, each call hands out the next integer. */
  lemma {:induction false} UidsCountUp(start: int, k: nat)
    requires IsUint32(start) && start + k < TWO_32
    ensures UidAfter(start, k) == start + k
  {
    if k > 0 {
      UidsCountUp(start, k - 1);
    }
  }

  /** From the constructor's counter of 0, the ids handed out are 1, 2, 3, ... and strictly
      increasing until the counter wraps. */
  lemma UidsIncrease(i: nat, j: nat)
    requires 0 < i < j < TWO_32
    ensures UidAfter(0, i) == i && UidAfter(0, i) < UidAfter(0, j)
  {
    UidsCountUp(0, i);
    UidsCountUp(0, j);
  }

  /** `addFilter` on (graph, automation node id) for a description that yields a node:
      the graph with the node created under a fresh id and placed at (x, y), the automation
      node id after it, and the new node's id. */
  function FilterAdded(g: Graph, automationId: int, desc: Descriptor, x: real, y: real,
                       fm: FormatManager, csd: CsdReader): (r: (Graph, int, NodeId))
    requires Instantiable(desc, fm)
    ensures r.2 == g.lastNodeId + 1
    ensures r.0.nodes.Keys == g.nodes.Keys + {r.2} && r.0.connections == g.connections
  {
    var created := Create(g, desc, -1, fm, csd).value;
    (Placed(created.0, created.1, x, y), AutomationAfter(automationId, desc, created.1), created.1)
  }

  /** The node `addFilter` adds takes the id after the graph's last one, which no node holds;
      it is the node built for the description, placed at (x, y) as given; no other node and
      no connection changes, and the graph stays well formed and consistent. */
  lemma FilterAddedSpec(g: Graph, automationId: int, desc: Descriptor, x: real, y: real,
                        fm: FormatManager, csd: CsdReader)
    requires Instantiable(desc, fm) && WellFormed(g) && AllConsistent(g)
    ensures var r := FilterAdded(g, automationId, desc, x, y, fm, csd);
      var id := r.2;
      && id == g.lastNodeId + 1 && id !in g.nodes
      && r.0.nodes.Keys == g.nodes.Keys + {id}
      && (forall other :: other in g.nodes ==> r.0.nodes[other] == g.nodes[other])
      && r.0.nodes[id].processor == Build(desc, fm, csd).value.processor
      && r.0.nodes[id].properties == Build(desc, fm, csd).value.properties["x" := VReal(x)]["y" := VReal(y)]
      && NodePosition(r.0, id) == (x, y)
      && r.0.connections == g.connections
      && WellFormed(r.0) && AllConsistent(r.0)
      && r.1 == AutomationAfter(automationId, desc, id)
  {
    var created := Create(g, desc, -1, fm, csd).value;
    CreateKeepsConsistent(g, desc, -1, fm, csd);
    PlacedPosition(created.0, created.1, created.1, x, y);
    PlacedKeepsConsistent(created.0, created.1, x, y);
  }

  class FilterGraph {
    /** The plugin loader, the Csound file reader and the graph's channel-level connection
        rule: foreign code, fixed for the life of the document. */
    const formatManager: FormatManager
    const csdReader: CsdReader
    const rule: Rule
    const PPQN: int

    var graph: Graph
    var changedFlag: bool
    var lastUID: int
    var lastNodeID: int
    var automationNodeID: int
    var midiMappings: seq<MidiMapping>

    var timeInSeconds: int
    var currentBPM: int
    var playPosition: real
    var ppqPosition: int
    var subTicks: int
    var timerRunning: bool
    var timerInterval: int
    var playHead: PlayHead

    /** The graph store is well formed and every node can be saved and rebuilt as its own
        kind; the id counter is a `uint32`; the sub-tick counter stays in 0..10. */
    ghost predicate Valid()
      reads this`graph, this`lastUID, this`subTicks
    {
      && WellFormed(graph) && AllConsistent(graph)
      && IsUint32(lastUID)
      && 0 <= subTicks <= 10
    }

    constructor (fm: FormatManager, csd: CsdReader, legality: Rule)
      ensures Valid()
      ensures formatManager == fm && csdReader == csd && rule == legality && PPQN == 24
      ensures graph == EmptyGraph && !changedFlag && midiMappings == []
      ensures lastUID == 0 && lastNodeID == 0 && automationNodeID == -1
      ensures timeInSeconds == 0 && currentBPM == 60 && playPosition == 0.0
      ensures ppqPosition == 1 && subTicks == 0
      ensures !timerRunning && timerInterval == 0
      ensures playHead == PlayHead(false, 60, 0, 0)
    {
      formatManager, csdReader, rule, PPQN := fm, csd, legality, 24;
      graph, midiMappings := EmptyGraph, [];
      lastUID, lastNodeID, automationNodeID := 0, 0, -1;
      timeInSeconds, currentBPM, playPosition, ppqPosition, subTicks := 0, 60, 0.0, 1, 0;
      playHead := PlayHead(false, 0, 0, 0);
      timerRunning, timerInterval := true, 0;
      timerRunning := false;
      changedFlag := false;
      new;
      SetBPM(60);
    }

    /** `getNextUID`: pre-increments the 32-bit counter and returns it. */
    method GetNextUID() returns (uid: int)
      requires Valid()
      modifies this`lastUID
      ensures Valid()
      ensures lastUID == Increment32(old(lastUID)) && uid == lastUID
    {
      lastUID := Increment32(lastUID);
      uid := lastUID;
    }

    // -------------------------------------------------------------------------
    // Transport

    /** `setIsPlaying (value, reset)`. */
    method SetIsPlaying(value: bool, reset: bool)
      requires Valid() && (value ==> currentBPM > 0)
      modifies this`playHead, this`timerRunning, this`timerInterval, this`timeInSeconds, this`ppqPosition
      ensures Valid()
      ensures timerRunning == value
      ensures timerInterval == if value then TimerInterval(currentBPM) else old(timerInterval)
      ensures timeInSeconds == (if reset then 0 else old(timeInSeconds))
      ensures ppqPosition == (if reset then 0 else old(ppqPosition))
      ensures playHead == if reset then old(playHead).(isPlaying := value, timeInSeconds := 0, ppqPosition := 0)
                          else old(playHead).(isPlaying := value)
    {
      playHead := playHead.(isPlaying := value);
      if value {
        timerRunning, timerInterval := true, TimerInterval(currentBPM);
      } else {
        timerRunning := false;
      }
      if reset {
        timeInSeconds := 0;
        playHead := playHead.(ppqPosition := 0);
        playHead := playHead.(timeInSeconds := 0);
        ppqPosition := 0;
        timeInSeconds := 0;
      }
    }

    /** `setBPM (bpm)`: a running timer is restarted at the new tempo's period. */
    method SetBPM(bpm: int)
      requires Valid() && (timerRunning ==> bpm > 0)
      modifies this`currentBPM, this`playHead, this`timerInterval
      ensures Valid()
      ensures currentBPM == bpm && playHead == old(playHead).(bpm := bpm)
      ensures timerInterval == if timerRunning then TimerInterval(bpm) else old(timerInterval)
    {
      currentBPM := bpm;
      playHead := playHead.(bpm := bpm);
      if timerRunning {
        timerInterval := TimerInterval(currentBPM);
      }
    }

    /** `hiResTimerCallback`: counts seconds while the play position is at 0, advances the
        musical position (handing the play head its value before the step) on every
        callback that sees sub-tick 0, and moves the sub-tick and play position on. */
    method HiResTimerCallback()
      requires Valid()
      modifies this`timeInSeconds, this`playHead, this`ppqPosition, this`subTicks, this`playPosition
      ensures Valid()
      ensures timeInSeconds == old(timeInSeconds) + (if old(playPosition) == 0.0 then 1 else 0)
      ensures ppqPosition == old(ppqPosition) + (if old(subTicks) == 0 then 1 else 0)
      ensures subTicks == NextSubTick(old(subTicks)) == SubTicksAfter(old(subTicks), 1)
      ensures playPosition == if old(playPosition) > 1.0 then 0.0 else old(playPosition) + timerInterval as real / 1000.0
      ensures playHead.isPlaying == old(playHead).isPlaying && playHead.bpm == old(playHead).bpm
      ensures playHead.timeInSeconds == if old(playPosition) == 0.0 then timeInSeconds else old(playHead).timeInSeconds
      ensures playHead.ppqPosition == if old(subTicks) == 0 then old(ppqPosition) else old(playHead).ppqPosition
    {
      if playPosition == 0.0 {
        timeInSeconds := timeInSeconds + 1;
        playHead := playHead.(timeInSeconds := timeInSeconds);
      }
      if subTicks == 0 {
        playHead := playHead.(ppqPosition := ppqPosition);
        ppqPosition := ppqPosition + 1;
      }
      subTicks := NextSubTick(subTicks);
      playPosition := if playPosition > 1.0 then 0.0 else playPosition + timerInterval as real / 1000.0;
    }

    // -------------------------------------------------------------------------
    // Nodes

    /** `createNode (desc, uid)`: builds the node for the description's format, adds it under
        the requested id (or the graph's next one) and records it as the automation node when
        it is an automation track; nothing happens when no node can be built. */
    method CreateNode(desc: Descriptor, uid: int) returns (id: Option<NodeId>)
      requires Valid()
      modifies this`graph, this`automationNodeID
      ensures Valid()
      ensures id.Some? <==> Instantiable(desc, formatManager)
      ensures id.None? ==> graph == old(graph) && automationNodeID == old(automationNodeID)
      ensures id.Some? ==> Create(old(graph), desc, uid, formatManager, csdReader) == Some((graph, id.value))
      ensures id.Some? ==> automationNodeID == AutomationAfter(old(automationNodeID), desc, id.value)
    {
      match Create(graph, desc, uid, formatManager, csdReader)
      case None =>
        id := None;
      case Some(created) =>
        CreateKeepsConsistent(old(graph), desc, uid, formatManager, csdReader);
        graph := created.0;
        id := Some(created.1);
        if KindOf(desc.pluginFormatName) == AutomationTrack {
          automationNodeID := ToInt32(created.1);
        }
    }

    /** `addFilter (desc, x, y)`: a null description does nothing; otherwise the node is
        created and placed as `FilterAdded` says, remembered as the last node added, and the
        document is marked changed. A node that cannot be built only raises an alert, which
        is not modelled. */
    method AddFilter(desc: Option<Descriptor>, x: real, y: real)
      requires Valid()
      modifies this`graph, this`automationNodeID, this`lastNodeID, this`changedFlag
      ensures Valid()
      ensures desc.None? || !Instantiable(desc.value, formatManager) ==>
                graph == old(graph) && automationNodeID == old(automationNodeID)
                && lastNodeID == old(lastNodeID) && changedFlag == old(changedFlag)
      ensures desc.Some? && Instantiable(desc.value, formatManager) ==>
                var r := FilterAdded(old(graph), old(automationNodeID), desc.value, x, y, formatManager, csdReader);
                graph == r.0 && automationNodeID == r.1 && lastNodeID == r.2 && changedFlag
    {
      if desc.Some? && Instantiable(desc.value, formatManager) {
        var r := FilterAdded(graph, automationNodeID, desc.value, x, y, formatManager, csdReader);
        FilterAddedSpec(graph, automationNodeID, desc.value, x, y, formatManager, csdReader);
        graph, automationNodeID, lastNodeID, changedFlag := r.0, r.1, r.2, true;
      }
    }

    /** `findControllerForparameter (nodeID, paramIndex)`: scans the mapping table in order
        and describes the first mapping bound to the parameter. */
    method FindControllerForParameter(nodeID: int, paramIndex: int) returns (info: string)
      ensures info == ControllerFor(midiMappings, nodeID, paramIndex)
      ensures info == "" <==> forall j :: 0 <= j < |midiMappings| ==> !Targets(midiMappings[j], nodeID, paramIndex)
    {
      var i := 0;
      while i < |midiMappings|
        invariant 0 <= i <= |midiMappings|
        invariant forall j :: 0 <= j < i ==> !Targets(midiMappings[j], nodeID, paramIndex)
      {
        if midiMappings[i].nodeId == nodeID && midiMappings[i].parameterIndex == paramIndex {
          info := "CC:" + IntToString(midiMappings[i].controller) + " Chan:" + IntToString(midiMappings[i].channel);
          return;
        }
        i := i + 1;
      }
      info := "";
    }

    /** `removeFilter (id)`: changed exactly when the node existed. */
    method RemoveFilter(id: NodeId)
      requires Valid()
      modifies this`graph, this`changedFlag
      ensures Valid()
      ensures graph == RemoveNode(old(graph), id).0
      ensures changedFlag == (old(changedFlag) || id in old(graph).nodes)
    {
      var r := RemoveNode(graph, id);
      graph := r.0;
      if r.1 {
        changedFlag := true;
      }
    }

    /** `disconnectFilter (id)`: changed exactly when some connection touched the node. */
    method DisconnectFilter(id: NodeId)
      requires Valid()
      modifies this`graph, this`changedFlag
      ensures Valid()
      ensures graph == DisconnectNode(old(graph), id).0
      ensures changedFlag == (old(changedFlag) || exists c :: c in old(graph).connections && Touches(c, id))
    {
      var r := DisconnectNode(graph, id);
      graph := r.0;
      if r.1 {
        changedFlag := true;
      }
    }

    /** `removeIllegalConnections`: changed exactly when some connection was illegal. */
    method RemoveIllegalConnections()
      requires Valid()
      modifies this`graph, this`changedFlag
      ensures Valid()
      ensures graph == ProcessorGraph.RemoveIllegalConnections(old(graph), rule).0
      ensures changedFlag == (old(changedFlag) || exists d :: d in old(graph).connections && !Legal(old(graph), d, rule))
    {
      var r := ProcessorGraph.RemoveIllegalConnections(graph, rule);
      graph := r.0;
      if r.1 {
        changedFlag := true;
      }
    }

    /** `setNodePosition (nodeId, x, y)`: the `int` id is looked up as a `uint32`; the
        position is clamped to the unit square; the document is not marked changed. */
    method SetNodePosition(nodeId: int, x: real, y: real)
      requires Valid()
      modifies this`graph
      ensures Valid()
      ensures graph == WithPosition(old(graph), ToUint32(nodeId), x, y)
      ensures forall other :: NodePosition(graph, other)
                == if other == ToUint32(nodeId) && other in old(graph).nodes then (Limit01(x), Limit01(y))
                   else NodePosition(old(graph), other)
    {
      var id := ToUint32(nodeId);
      forall other
        ensures NodePosition(WithPosition(graph, id, x, y), other)
             == if other == id && id in graph.nodes then (Limit01(x), Limit01(y)) else NodePosition(graph, other)
      {
        PositionAfterSet(graph, id, other, x, y);
      }
      PlacedKeepsConsistent(graph, id, Limit01(x), Limit01(y));
      graph := WithPosition(graph, id, x, y);
    }

    /** `getNodePosition (nodeId)`: the node's `x` and `y` read as numbers, or (0, 0) when
        there is no such node. */
    method GetNodePosition(nodeId: int) returns (x: real, y: real)
      ensures ToUint32(nodeId) !in graph.nodes ==> x == 0.0 && y == 0.0
      ensures ToUint32(nodeId) in graph.nodes ==>
                x == PropReal(graph.nodes[ToUint32(nodeId)], "x") && y == PropReal(graph.nodes[ToUint32(nodeId)], "y")
    {
      x, y := 0.0, 0.0;
      var id := ToUint32(nodeId);
      if id in graph.nodes {
        var n := graph.nodes[id];
        x := PropReal(n, "x");
        y := PropReal(n, "y");
      }
    }

    // -------------------------------------------------------------------------
    // Connections

    /** `addConnection`: adds the connection when the graph allows it and reports whether it
        did; only a successful call marks the document changed. */
    method AddConnection(srcId: NodeId, srcChannel: int, dstId: NodeId, dstChannel: int) returns (result: bool)
      requires Valid()
      modifies this`graph, this`changedFlag
      ensures Valid()
      ensures var c := Connection(srcId, srcChannel, dstId, dstChannel);
        && (result <==> CanConnect(old(graph), c, rule))
        && graph == (if result then old(graph).(connections := old(graph).connections + [c]) else old(graph))
      ensures changedFlag == (old(changedFlag) || result)
    {
      var r := ProcessorGraph.AddConnection(graph, Connection(srcId, srcChannel, dstId, dstChannel), rule);
      graph := r.0;
      result := r.1;
      if result {
        changedFlag := true;
      }
    }

    /** `removeConnection (index)`: always marks the document changed. */
    method RemoveConnectionAt(index: int)
      requires Valid()
      modifies this`graph, this`changedFlag
      ensures Valid()
      ensures graph == ProcessorGraph.RemoveConnectionAt(old(graph), index)
      ensures changedFlag
    {
      graph := ProcessorGraph.RemoveConnectionAt(graph, index);
      changedFlag := true;
    }

    /** `removeConnection (src, srcCh, dst, dstCh)`: changed exactly when it was there. */
    method RemoveConnection(srcId: NodeId, srcChannel: int, dstId: NodeId, dstChannel: int)
      requires Valid()
      modifies this`graph, this`changedFlag
      ensures Valid()
      ensures var c := Connection(srcId, srcChannel, dstId, dstChannel);
        graph == ProcessorGraph.RemoveConnection(old(graph), c).0
        && changedFlag == (old(changedFlag) || c in old(graph).connections)
    {
      var r := ProcessorGraph.RemoveConnection(graph, Connection(srcId, srcChannel, dstId, dstChannel));
      graph := r.0;
      if r.1 {
        changedFlag := true;
      }
    }

    /** `clear`: empties the graph and always marks the document changed. */
    method Clear()
      requires Valid()
      modifies this`graph, this`changedFlag
      ensures Valid()
      ensures graph == ProcessorGraph.Clear(old(graph)) && changedFlag
    {
      graph := ProcessorGraph.Clear(graph);
      changedFlag := true;
    }

    // -------------------------------------------------------------------------
    // Saving and loading

    /** `createNodeFromXml`: creates the node under the record's id, then restores its
        state and settings. The source uses the created node without a null check, hence the
        precondition. */
    method CreateNodeFromXml(e: Element)
      requires Valid() && e.FilterElem? && Instantiable(RecordDescriptor(e), formatManager)
      modifies this`graph, this`automationNodeID
      ensures Valid()
      ensures (graph, automationNodeID) == NodeFromRecord(old(graph), old(automationNodeID), e, formatManager, csdReader)
    {
      var node := CreateNode(RecordDescriptor(e), e.uid);
      RestoreNodeSettings(node.value, e);
    }

    /** The second half of `createNodeFromXml`: the record's state, when it has one, is
        handed to the processor, then the saved position, last editor position and the
        description's name are set one property at a time. */
    method RestoreNodeSettings(id: NodeId, e: Element)
      requires Valid() && e.FilterElem? && id in graph.nodes
      modifies this`graph
      ensures Valid()
      ensures graph == old(graph).(nodes := old(graph).nodes[id := Decorated(old(graph).nodes[id], e)])
    {
      DecorateSteps(graph, id, e);
      DecoratedKeepsConsistent(graph, id, e);
      if e.state.Some? {
        graph := SetState(graph, id, e.state.value);
      }
      graph := SetProperty(graph, id, "x", VReal(e.x));
      graph := SetProperty(graph, id, "y", VReal(e.y));
      graph := SetProperty(graph, id, "uiLastX", VInt(e.uiLastX));
      graph := SetProperty(graph, id, "uiLastY", VInt(e.uiLastY));
      graph := SetProperty(graph, id, "pluginName", VStr(RecordDescriptor(e).name));
    }

    /** `createXml`: one record per node in graph order, then one per connection, then one
        per mapping. */
    method CreateXml() returns (doc: XmlDoc)
      requires Valid()
      ensures doc == Serialize(graph, midiMappings)
      ensures |doc.children| == |graph.order| + |graph.connections| + |midiMappings|
    {
      ghost var fr := FilterRecords(graph.order, graph.nodes);
      ghost var cr := ConnectionRecords(graph.connections);
      ghost var mr := MappingRecords(midiMappings);
      var children: seq<Element> := [];
      var i := 0;
      while i < |graph.order|
        invariant 0 <= i <= |graph.order|
        invariant children == fr[..i]
      {
        var id := graph.order[i];
        children := children + [FilterRecord(id, graph.nodes[id])];
        PrefixSnoc(fr, i + 1);
        i := i + 1;
      }
      PrefixFull(fr);
      i := 0;
      while i < |graph.connections|
        invariant 0 <= i <= |graph.connections|
        invariant children == fr + cr[..i]
      {
        var c := graph.connections[i];
        children := children + [ConnectionElem(ToInt32(c.srcId), c.srcChannel, ToInt32(c.dstId), c.dstChannel)];
        PrefixSnoc(cr, i + 1);
        AppendAssoc(fr, cr[..i], [cr[i]]);
        i := i + 1;
      }
      PrefixFull(cr);
      i := 0;
      while i < |midiMappings|
        invariant 0 <= i <= |midiMappings|
        invariant children == fr + cr + mr[..i]
      {
        var m := midiMappings[i];
        children := children + [MappingElem(m.nodeId, m.parameterIndex, m.channel, m.controller)];
        PrefixSnoc(mr, i + 1);
        AppendAssoc(fr + cr, mr[..i], [mr[i]]);
        i := i + 1;
      }
      PrefixFull(mr);
      doc := XmlDoc(RootTag, children);
    }

    /** `restoreFromXml`: clears the graph (marking the document changed), recreates each
        `FILTER` record's node, offers each `CONNECTION` record to `addConnection`, prunes
        illegal connections without marking the document, and appends each `MIDI_MAPPINGS`
        record to the mapping table, which is not cleared. */
    method RestoreFromXml(doc: XmlDoc)
      requires Valid() && RecordsInstantiable(doc.children, formatManager)
      modifies this`graph, this`changedFlag, this`automationNodeID, this`midiMappings
      ensures Valid()
      ensures (graph, automationNodeID, midiMappings)
           == Restore(old(graph), old(automationNodeID), old(midiMappings), doc, formatManager, csdReader, rule)
      ensures changedFlag
    {
      Clear();
      RestoreFilterRecords(doc.children);
      RestoreConnectionRecords(doc.children);
      graph := ProcessorGraph.RemoveIllegalConnections(graph, rule).0;
      RestoreMappingRecords(doc.children);
    }

    /** The `FILTER` loop of `restoreFromXml`: each record's node is recreated and the
        document is marked changed after it (it already is, by the `clear` before the loop). */
    method RestoreFilterRecords(cs: seq<Element>)
      requires Valid() && changedFlag && RecordsInstantiable(cs, formatManager)
      modifies this`graph, this`automationNodeID, this`changedFlag
      ensures Valid() && changedFlag
      ensures (graph, automationNodeID) == RestoreNodes(old(graph), old(automationNodeID), cs, formatManager, csdReader)
    {
      var i := 0;
      while i < |cs|
        invariant 0 <= i <= |cs|
        invariant Valid() && changedFlag
        invariant RecordsInstantiable(cs[..i], formatManager)
        invariant (graph, automationNodeID) == RestoreNodes(old(graph), old(automationNodeID), cs[..i], formatManager, csdReader)
      {
        var e := cs[i];
        PrefixSnoc(cs, i + 1);
        RecordsInstantiablePrefix(cs, i + 1, formatManager);
        if e.FilterElem? {
          CreateNodeFromXml(e);
          changedFlag := true;
        }
        i := i + 1;
      }
      PrefixFull(cs);
    }

    /** The `CONNECTION` loop of `restoreFromXml`: each record goes through `addConnection`. */
    method RestoreConnectionRecords(cs: seq<Element>)
      requires Valid() && changedFlag
      modifies this`graph, this`changedFlag
      ensures Valid() && changedFlag
      ensures graph == RestoreConnections(old(graph), cs, rule)
    {
      var i := 0;
      while i < |cs|
        invariant 0 <= i <= |cs|
        invariant Valid() && changedFlag
        invariant graph == RestoreConnections(old(graph), cs[..i], rule)
      {
        var e := cs[i];
        PrefixSnoc(cs, i + 1);
        if e.ConnectionElem? {
          var added := AddConnection(ToUint32(e.srcFilter), e.srcChannel, ToUint32(e.dstFilter), e.dstChannel);
        }
        i := i + 1;
      }
      PrefixFull(cs);
    }

    /** The `MIDI_MAPPINGS` loop of `restoreFromXml`: each record is appended to the table. */
    method RestoreMappingRecords(cs: seq<Element>)
      modifies this`midiMappings
      ensures midiMappings == old(midiMappings) + RestoredMappings(cs)
    {
      var i := 0;
      while i < |cs|
        invariant 0 <= i <= |cs|
        invariant midiMappings == old(midiMappings) + RestoredMappings(cs[..i])
      {
        var e := cs[i];
        PrefixSnoc(cs, i + 1);
        if e.MappingElem? {
          midiMappings := midiMappings + [MidiMapping(e.nodeId, e.parameterIndex, e.channel, e.controller)];
        }
        i := i + 1;
      }
      PrefixFull(cs);
    }

    /** `loadDocument`: the graph is cleared first, without marking the document changed;
        a document that could not be parsed, or whose root is not `FILTERGRAPH` in any case, fails and
        leaves the cleared graph; otherwise the document is restored. */
    method LoadDocument(parsed: Option<XmlDoc>) returns (outcome: Outcome)
      requires Valid()
      requires parsed.Some? && SameTag(parsed.value.tag, RootTag) ==> RecordsInstantiable(parsed.value.children, formatManager)
      modifies this`graph, this`changedFlag, this`automationNodeID, this`midiMappings
      ensures Valid()
      ensures outcome.Fail? <==> parsed.None? || !SameTag(parsed.value.tag, RootTag)
      ensures outcome.Fail? ==> outcome.message == "Not a valid filter graph file"
      ensures outcome.Fail? ==> graph == ProcessorGraph.Clear(old(graph)) && changedFlag == old(changedFlag)
                                && automationNodeID == old(automationNodeID) && midiMappings == old(midiMappings)
      ensures outcome.Ok? ==> changedFlag
                              && (graph, automationNodeID, midiMappings)
                              == Restore(ProcessorGraph.Clear(old(graph)), old(automationNodeID), old(midiMappings),
                                         parsed.value, formatManager, csdReader, rule)
    {
      graph := ProcessorGraph.Clear(graph);
      if parsed.None? || !SameTag(parsed.value.tag, RootTag) {
        return Fail("Not a valid filter graph file");
      }
      RestoreFromXml(parsed.value);
      outcome := Ok;
    }
  }
}
