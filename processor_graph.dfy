/** The audio-processor graph that the filter graph document drives. It belongs to the
    JUCE library, whose code is not part of this model, so it is stated abstractly: a map
    from node id to a node record, the order in which the nodes are held, a list of
    connections, the graph's own last-assigned id, and a legality rule supplied from
    outside. Each operation returns the new graph and, where the library call does, whether
    anything changed. */
module ProcessorGraph {
  import opened Wrappers
  import opened Seqs

  type NodeId = nat
  type Bytes = seq<bv8>

  /** The fields of a `PluginDescription` that the host reads or writes. */
  datatype Descriptor = Descriptor(name: string, pluginFormatName: string, fileOrIdentifier: string,
                                   numInputChannels: int, numOutputChannels: int)

  /** A default-constructed `PluginDescription`. */
  const DefaultDescriptor: Descriptor := Descriptor("", "", "", 0, 0)

  /** The run-time class of a node's processor. */
  datatype PluginType = AutomationTrack | SoundfilePlayer | Internal | Cabbage | ThirdParty

  /** A node's processor: its class, channel configuration, opaque state, the description it
      can give of itself (only plugin instances and wrappers can) and whether it was handed
      the graph's shared play head. */
  datatype Processor = Processor(kind: PluginType, numIns: int, numOuts: int, state: Bytes,
                                 selfDescription: Option<Descriptor>, hasPlayHead: bool)

  /** A value in a node's property bag. */
  datatype Var = VInt(i: int) | VReal(r: real) | VStr(s: string) | VDesc(d: Descriptor)

  datatype Node = Node(processor: Processor, properties: map<string, Var>)

  datatype Connection = Connection(srcId: NodeId, srcChannel: int, dstId: NodeId, dstChannel: int)

  datatype Graph = Graph(nodes: map<NodeId, Node>, order: seq<NodeId>, connections: seq<Connection>,
                         lastNodeId: nat)

  /** The library's channel-level legality test, consulted with both endpoints' processors. */
  type Rule = (Connection, Processor, Processor) -> bool

  const EmptyGraph: Graph := Graph(map[], [], [], 0)

  /** The store's invariant: every node held once, ids never above the last assigned one,
      connections unique and between existing nodes. */
  ghost predicate WellFormed(g: Graph) {
    && NoDup(g.order)
    && (forall id :: id in g.nodes <==> id in g.order)
    && (forall id :: id in g.nodes ==> id <= g.lastNodeId)
    && NoDup(g.connections)
    && (forall c :: c in g.connections ==> c.srcId in g.nodes && c.dstId in g.nodes)
  }

  predicate Touches(c: Connection, id: NodeId) { c.srcId == id || c.dstId == id }

  function Untouched(id: NodeId): Connection -> bool { c => !Touches(c, id) }
  function OtherThan(id: NodeId): NodeId -> bool { x => x != id }
  function Differs(c: Connection): Connection -> bool { d => d != c }

  /** Both endpoints exist among the nodes and the library's rule accepts the channels. */
  predicate LegalAmong(nodes: map<NodeId, Node>, c: Connection, rule: Rule) {
    c.srcId in nodes && c.dstId in nodes && rule(c, nodes[c.srcId].processor, nodes[c.dstId].processor)
  }

  predicate Legal(g: Graph, c: Connection, rule: Rule) { LegalAmong(g.nodes, c, rule) }

  function LegalIn(nodes: map<NodeId, Node>, rule: Rule): Connection -> bool { c => LegalAmong(nodes, c, rule) }

  /** `canConnect`: legal and not already present. */
  predicate CanConnect(g: Graph, c: Connection, rule: Rule) {
    Legal(g, c, rule) && c !in g.connections
  }

  /** `disconnectNode`: drops every connection into or out of the node. */
  function DisconnectNode(g: Graph, id: NodeId): (r: (Graph, bool))
    ensures r.0.nodes == g.nodes && r.0.order == g.order && r.0.lastNodeId == g.lastNodeId
    ensures forall c :: c in r.0.connections <==> c in g.connections && !Touches(c, id)
    ensures r.0.connections == Filter(g.connections, Untouched(id))
    ensures r.1 <==> exists c :: c in g.connections && Touches(c, id)
    ensures WellFormed(g) ==> WellFormed(r.0)
  {
    var cs := Filter(g.connections, Untouched(id));
    (g.(connections := cs), |cs| != |g.connections|)
  }

  /** `removeNode`: disconnects the node, then removes it; reports whether it existed. */
  function RemoveNode(g: Graph, id: NodeId): (r: (Graph, bool))
    ensures r.1 <==> id in g.nodes
    ensures r.0.nodes == g.nodes - {id}
    ensures r.0.order == Filter(g.order, OtherThan(id))
    ensures r.0.connections == Filter(g.connections, Untouched(id))
    ensures forall c :: c in r.0.connections <==> c in g.connections && !Touches(c, id)
    ensures r.0.lastNodeId == g.lastNodeId
    ensures WellFormed(g) ==> WellFormed(r.0)
  {
    var g1 := DisconnectNode(g, id).0;
    (g1.(nodes := g1.nodes - {id}, order := Filter(g1.order, OtherThan(id))), id in g.nodes)
  }

  /** `addNode`: with no requested id the node gets the next id after the last one assigned;
      with a requested id any node already holding it is removed first. */
  function AddNode(g: Graph, n: Node, requested: Option<NodeId>): (r: (Graph, NodeId))
    ensures r.0.nodes == g.nodes[r.1 := n]
    ensures requested.Some? ==> r.1 == requested.value
    ensures requested.None? ==> r.1 == g.lastNodeId + 1 && r.0.connections == g.connections
    ensures WellFormed(g) && requested.None? ==> r.1 !in g.nodes
    ensures WellFormed(g) ==> r.0.order == Filter(g.order, OtherThan(r.1)) + [r.1]
    ensures requested.Some? ==> forall c :: c in r.0.connections <==> c in g.connections && !Touches(c, r.1)
    ensures WellFormed(g) ==> WellFormed(r.0)
  {
    match requested
    case None => (AddFresh(g, n), g.lastNodeId + 1)
    case Some(id) => (AddAt(g, n, id), id)
  }

  /** `addNode` without a requested id. */
  function AddFresh(g: Graph, n: Node): (r: Graph)
    ensures r.nodes == g.nodes[g.lastNodeId + 1 := n] && r.connections == g.connections
    ensures WellFormed(g) ==> g.lastNodeId + 1 !in g.nodes
    ensures WellFormed(g) ==> r.order == Filter(g.order, OtherThan(g.lastNodeId + 1)) + [g.lastNodeId + 1]
    ensures WellFormed(g) ==> WellFormed(r)
  {
    var id := g.lastNodeId + 1;
    assert WellFormed(g) ==> id !in g.order && Filter(g.order, OtherThan(id)) == g.order;
    assert WellFormed(g) ==> NoDup(g.order + [id]) by {
      if WellFormed(g) { NoDupSnoc(g.order, id); }
    }
    g.(nodes := g.nodes[id := n], order := g.order + [id], lastNodeId := id)
  }

  /** `addNode` under a requested id: a node already holding it is removed first. */
  function AddAt(g: Graph, n: Node, id: NodeId): (r: Graph)
    ensures r.nodes == g.nodes[id := n]
    ensures WellFormed(g) ==> r.order == Filter(g.order, OtherThan(id)) + [id]
    ensures forall c :: c in r.connections <==> c in g.connections && !Touches(c, id)
    ensures WellFormed(g) ==> WellFormed(r)
  {
    var g1 := RemoveNode(g, id).0;
    var r := g1.(nodes := g1.nodes[id := n], order := g1.order + [id],
                 lastNodeId := if id > g1.lastNodeId then id else g1.lastNodeId);
    assert WellFormed(g) ==> WellFormed(r) by {
      if WellFormed(g) { AddAtWellFormed(g1, n, id); }
    }
    r
  }

  /** Putting a node under an id no node holds keeps the store well formed. */
  lemma AddAtWellFormed(g1: Graph, n: Node, id: NodeId)
    requires WellFormed(g1) && id !in g1.nodes
    ensures WellFormed(g1.(nodes := g1.nodes[id := n], order := g1.order + [id],
                           lastNodeId := if id > g1.lastNodeId then id else g1.lastNodeId))
  {
    NoDupSnoc(g1.order, id);
  }

  /** `addConnection`: adds the connection when `canConnect` allows it. */
  function AddConnection(g: Graph, c: Connection, rule: Rule): (r: (Graph, bool))
    ensures r.1 <==> CanConnect(g, c, rule)
    ensures r.1 ==> r.0 == g.(connections := g.connections + [c])
    ensures !r.1 ==> r.0 == g
    ensures WellFormed(g) ==> WellFormed(r.0)
  {
    if CanConnect(g, c, rule) then
      assert WellFormed(g) ==> NoDup(g.connections + [c]) by {
        if WellFormed(g) { NoDupSnoc(g.connections, c); }
      }
      (g.(connections := g.connections + [c]), true)
    else (g, false)
  }

  /** A connection once added is held exactly once: adding it again is refused and changes nothing. */
  lemma AddConnectionOnce(g: Graph, c: Connection, rule: Rule)
    requires WellFormed(g)
    ensures var g1 := AddConnection(g, c, rule).0;
      && WellFormed(g1)
      && (c in g1.connections <==> c in g.connections || CanConnect(g, c, rule))
      && !CanConnect(g1, c, rule)
      && AddConnection(g1, c, rule) == (g1, false)
  {
  }

  /** `removeConnection (index)`: removes the connection at that position; an index out of
      range changes nothing. */
  function RemoveConnectionAt(g: Graph, index: int): (r: Graph)
    ensures r.nodes == g.nodes && r.order == g.order && r.lastNodeId == g.lastNodeId
    ensures 0 <= index < |g.connections| ==> |r.connections| == |g.connections| - 1
    ensures WellFormed(g) && 0 <= index < |g.connections| ==>
              forall c :: c in r.connections <==> c in g.connections && c != g.connections[index]
    ensures 0 <= index < |g.connections| ==>
              r.connections == g.connections[..index] + g.connections[index + 1..]
    ensures !(0 <= index < |g.connections|) ==> r == g
    ensures WellFormed(g) ==> WellFormed(r)
  {
    if 0 <= index < |g.connections| then
      var cs := g.connections;
      var rest := cs[..index] + cs[index + 1..];
      assert forall k :: 0 <= k < |rest| ==> rest[k] == cs[if k < index then k else k + 1];
      assert forall c :: c in cs ==> c == cs[index] || c in rest by {
        forall c | c in cs ensures c == cs[index] || c in rest {
          var k :| 0 <= k < |cs| && cs[k] == c;
          if k < index { assert rest[k] == c; } else if k > index { assert rest[k - 1] == c; }
        }
      }
      g.(connections := rest)
    else g
  }

  /** `removeConnection (src, srcCh, dst, dstCh)`: removes that connection; reports whether
      it was there. */
  function RemoveConnection(g: Graph, c: Connection): (r: (Graph, bool))
    ensures r.1 <==> c in g.connections
    ensures r.0.nodes == g.nodes && r.0.order == g.order && r.0.lastNodeId == g.lastNodeId
    ensures forall d :: d in r.0.connections <==> d in g.connections && d != c
    ensures r.0.connections == Filter(g.connections, Differs(c))
    ensures !r.1 ==> r.0 == g
    ensures WellFormed(g) ==> WellFormed(r.0)
  {
    (g.(connections := Filter(g.connections, Differs(c))), c in g.connections)
  }

  /** `removeIllegalConnections`: drops every connection that is no longer legal; reports
      whether it dropped any. */
  function RemoveIllegalConnections(g: Graph, rule: Rule): (r: (Graph, bool))
    ensures r.0.nodes == g.nodes && r.0.order == g.order && r.0.lastNodeId == g.lastNodeId
    ensures forall d :: d in r.0.connections <==> d in g.connections && Legal(g, d, rule)
    ensures r.0.connections == Filter(g.connections, LegalIn(g.nodes, rule))
    ensures r.1 <==> exists d :: d in g.connections && !Legal(g, d, rule)
    ensures !r.1 ==> r.0 == g
    ensures WellFormed(g) ==> WellFormed(r.0)
  {
    var cs := Filter(g.connections, LegalIn(g.nodes, rule));
    (g.(connections := cs), |cs| != |g.connections|)
  }

  /** `clear`: drops all nodes and connections; the id counter is kept. */
  function Clear(g: Graph): (r: Graph)
    ensures WellFormed(r)
    ensures r.nodes == map[] && r.order == [] && r.connections == []
    ensures r.lastNodeId == g.lastNodeId
  {
    Graph(map[], [], [], g.lastNodeId)
  }

  /** `node->properties.set (key, v)` on the node with that id; nothing for an unknown id. */
  function SetProperty(g: Graph, id: NodeId, key: string, v: Var): (r: Graph)
    ensures r.nodes.Keys == g.nodes.Keys
    ensures r.order == g.order && r.connections == g.connections && r.lastNodeId == g.lastNodeId
    ensures id in g.nodes ==> r.nodes[id] == g.nodes[id].(properties := g.nodes[id].properties[key := v])
    ensures forall other :: other in g.nodes && other != id ==> r.nodes[other] == g.nodes[other]
    ensures id !in g.nodes ==> r == g
    ensures WellFormed(g) ==> WellFormed(r)
  {
    if id in g.nodes then
      var n := g.nodes[id];
      g.(nodes := g.nodes[id := n.(properties := n.properties[key := v])])
    else g
  }

  /** `setStateInformation` on the node's processor: the opaque state is carried verbatim. */
  function SetState(g: Graph, id: NodeId, state: Bytes): (r: Graph)
    ensures r.nodes.Keys == g.nodes.Keys
    ensures r.order == g.order && r.connections == g.connections && r.lastNodeId == g.lastNodeId
    ensures id in g.nodes ==> r.nodes[id] == g.nodes[id].(processor := g.nodes[id].processor.(state := state))
    ensures forall other :: other in g.nodes && other != id ==> r.nodes[other] == g.nodes[other]
    ensures WellFormed(g) ==> WellFormed(r)
  {
    if id in g.nodes then
      var n := g.nodes[id];
      g.(nodes := g.nodes[id := n.(processor := n.processor.(state := state))])
    else g
  }

  /** After removing a node nothing refers to it: no node with that id and no connection
      touching it, and every other node and connection is still there. */
  lemma RemoveNodeLeavesNoTrace(g: Graph, id: NodeId)
    requires WellFormed(g)
    ensures var r := RemoveNode(g, id).0;
      && id !in r.nodes && id !in r.order
      && (forall c :: c in r.connections ==> !Touches(c, id))
      && (forall other :: other in g.nodes && other != id ==> other in r.nodes && r.nodes[other] == g.nodes[other])
      && (forall c :: c in g.connections && !Touches(c, id) ==> c in r.connections)
  {
  }
}
