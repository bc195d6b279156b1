/** `createNode`'s dispatch on a plugin description's format name: which processor is
    built, how it is configured, which properties are stamped on the node, and where a later
    save finds the node's description. Plugin loading and Csound file reading are foreign
    calls; their answers are the function values `FormatManager` and `CsdReader`. */
module NodeFactory {
  import opened Wrappers
  import opened Numeric
  import opened ProcessorGraph
  import opened Positions

  /** What the format manager's `createPluginInstance` produces when it succeeds: the
      instance's channel configuration, its initial state and the description it fills in. */
  datatype Instance = Instance(numIns: int, numOuts: int, state: Bytes, description: Descriptor)
  type FormatManager = Descriptor -> Option<Instance>

  /** What a Cabbage plugin reads from its Csound file: its channel count and plugin name. */
  datatype CsdInfo = CsdInfo(numChannels: int, pluginName: string)
  type CsdReader = string -> CsdInfo

  /** The backend chosen for a format name. */
  function KindOf(formatName: string): (k: PluginType)
    ensures k == ThirdParty <==>
              formatName !in ["AutomationTrack", "SoundfilePlayer", "Internal", "Cabbage"]
  {
    if formatName == "AutomationTrack" then AutomationTrack
    else if formatName == "SoundfilePlayer" then SoundfilePlayer
    else if formatName == "Internal" then Internal
    else if formatName == "Cabbage" then Cabbage
    else ThirdParty
  }

  /** The `pluginType` property stamped on a node of each kind. */
  function TypeTag(k: PluginType): (tag: string)
    ensures KindOf(tag) == k
  {
    match k
    case AutomationTrack => "AutomationTrack"
    case SoundfilePlayer => "SoundfilePlayer"
    case Internal => "Internal"
    case Cabbage => "Cabbage"
    case ThirdParty => "ThirdParty"
  }

  /** Kinds whose processors cannot describe themselves, so `createNode` stores a copy of the
      description in the node's `pluginDesc` property. */
  predicate InlinesDescriptor(k: PluginType) {
    k == AutomationTrack || k == SoundfilePlayer || k == Cabbage
  }

  /** `createNodeXml` can find a description for the node. */
  predicate Describable(n: Node) {
    if InlinesDescriptor(n.processor.kind)
    then "pluginDesc" in n.properties && n.properties["pluginDesc"].VDesc?
    else n.processor.selfDescription.Some?
  }

  /** The description `createNodeXml` writes: the processor's own for plugin instances and
      wrappers, the stored `pluginDesc` copy for the other kinds. */
  function SavedDescriptor(n: Node): Descriptor
    requires Describable(n)
  {
    if InlinesDescriptor(n.processor.kind) then n.properties["pluginDesc"].d
    else n.processor.selfDescription.value
  }

  /** A node's stored description selects the node's own kind again, so reloading it
      rebuilds a node of the same kind. */
  predicate Consistent(n: Node) {
    Describable(n) && (InlinesDescriptor(n.processor.kind) ==> KindOf(SavedDescriptor(n).pluginFormatName) == n.processor.kind)
  }

  ghost predicate AllConsistent(g: Graph) {
    forall id :: id in g.nodes ==> Consistent(g.nodes[id])
  }

  /** Setting any property but the stored description keeps every node consistent. */
  lemma SetPropertyKeepsConsistent(g: Graph, id: NodeId, key: string, v: Var)
    requires AllConsistent(g) && key != "pluginDesc"
    ensures AllConsistent(SetProperty(g, id, key, v))
  {
  }

  /** Only an internal plugin that the format manager cannot instantiate yields no node: the
      other kinds are constructed by the host, and a third-party plugin is always wrapped. */
  predicate Instantiable(desc: Descriptor, fm: FormatManager) {
    KindOf(desc.pluginFormatName) == Internal ==> fm(desc).Some?
  }

  /** The node `createNode` builds for a description, before it is added to the graph. */
  function Build(desc: Descriptor, fm: FormatManager, csd: CsdReader): (r: Option<Node>)
    ensures r.Some? <==> Instantiable(desc, fm)
  {
    match KindOf(desc.pluginFormatName)
    case AutomationTrack =>
      Some(Node(Processor(AutomationTrack, 2, 2, [], None, true),
                map["pluginType" := VStr("AutomationTrack"), "pluginName" := VStr("AutomationTrack"),
                    "pluginDesc" := VDesc(desc)]))
    case SoundfilePlayer =>
      Some(Node(Processor(SoundfilePlayer, 2, 2, [], None, true),
                map["pluginType" := VStr("SoundfilePlayer"), "pluginName" := VStr("Soundfile Player"),
                    "pluginDesc" := VDesc(desc)]))
    case Internal =>
      (match fm(desc)
       case None => None
       case Some(inst) =>
         Some(Node(Processor(Internal, inst.numIns, inst.numOuts, inst.state, Some(inst.description), false),
                   map["pluginType" := VStr("Internal"), "pluginName" := VStr(desc.name)])))
    case Cabbage =>
      var info := csd(desc.fileOrIdentifier);
      Some(Node(Processor(Cabbage, info.numChannels, info.numChannels, [], None, true),
                map["pluginName" := VStr(info.pluginName), "pluginType" := VStr("Cabbage"),
                    "pluginDesc" := VDesc(desc)]))
    case ThirdParty =>
      var inst := fm(desc);
      var described := if inst.Some? then inst.value.description else desc;
      var state := if inst.Some? then inst.value.state else [];
      Some(Node(Processor(ThirdParty, desc.numInputChannels, desc.numOutputChannels, state, Some(described), true),
                map["pluginType" := VStr("ThirdParty"), "pluginName" := VStr(desc.name)]))
  }

  /** What `createNode` builds for each kind: the kind selected by the format name, its
      `pluginType` tag and `pluginName`, its channel configuration, a stored description exactly
      for the kinds that cannot describe themselves, a description that selects the same kind
      again, and the shared play head for every kind but internal plugins; no position is set
      yet. */
  lemma BuildSpec(desc: Descriptor, fm: FormatManager, csd: CsdReader)
    requires Instantiable(desc, fm)
    ensures
      var n := Build(desc, fm, csd).value;
      var k := KindOf(desc.pluginFormatName);
      && n.processor.kind == k
      && "pluginType" in n.properties && n.properties["pluginType"] == VStr(TypeTag(k))
      && "pluginName" in n.properties
      && (k == AutomationTrack ==>
            n.properties["pluginName"] == VStr("AutomationTrack") && n.processor.numIns == 2 && n.processor.numOuts == 2)
      && (k == SoundfilePlayer ==>
            n.properties["pluginName"] == VStr("Soundfile Player") && n.processor.numIns == 2 && n.processor.numOuts == 2)
      && (k == Cabbage ==>
            var info := csd(desc.fileOrIdentifier);
            n.properties["pluginName"] == VStr(info.pluginName)
            && n.processor.numIns == info.numChannels && n.processor.numOuts == info.numChannels)
      && (k == Internal ==>
            n.properties["pluginName"] == VStr(desc.name)
            && n.processor.numIns == fm(desc).value.numIns && n.processor.numOuts == fm(desc).value.numOuts)
      && (k == ThirdParty ==>
            n.properties["pluginName"] == VStr(desc.name)
            && n.processor.numIns == desc.numInputChannels && n.processor.numOuts == desc.numOutputChannels)
      && ("pluginDesc" in n.properties <==> InlinesDescriptor(k))
      && Consistent(n)
      && (InlinesDescriptor(k) ==> SavedDescriptor(n) == desc)
      && (k == Internal ==> SavedDescriptor(n) == fm(desc).value.description)
      && (n.processor.hasPlayHead <==> k != Internal)
      && "x" !in n.properties && "y" !in n.properties
  {
  }

  /** The id `createNode` asks the graph for: the caller's unless it passed -1. The graph reads
      the id as an unsigned 32-bit number and takes 0 to mean "a fresh id", so -1 and every uid
      whose unsigned form is 0 ask for a fresh id. */
  function RequestedId(uid: int): (r: Option<NodeId>)
    ensures r.Some? <==> uid != -1 && ToUint32(uid) != 0
    ensures r.Some? ==> r.value == ToUint32(uid) && 0 < r.value < TWO_32
  {
    if uid != -1 && ToUint32(uid) != 0 then Some(ToUint32(uid)) else None
  }

  /** `createNode (desc, uid)` on the graph: the new graph and the id of the added node, or
      nothing when no node could be built. */
  function Create(g: Graph, desc: Descriptor, uid: int, fm: FormatManager, csd: CsdReader): (r: Option<(Graph, NodeId)>)
    ensures r.Some? <==> Instantiable(desc, fm)
    ensures r.Some? ==> r.value.0.nodes == g.nodes[r.value.1 := Build(desc, fm, csd).value]
    ensures r.Some? && uid != -1 && ToUint32(uid) != 0 ==> r.value.1 == ToUint32(uid)
    ensures r.Some? && (uid == -1 || ToUint32(uid) == 0) ==>
              r.value.1 == g.lastNodeId + 1 && r.value.0.connections == g.connections
    ensures r.Some? && (uid == -1 || ToUint32(uid) == 0) && WellFormed(g) ==> r.value.1 !in g.nodes
    ensures r.Some? ==> r.value.1 != 0
    ensures r.Some? && WellFormed(g) ==> WellFormed(r.value.0)
    ensures r.None? ==> Build(desc, fm, csd).None?
  {
    match Build(desc, fm, csd)
    case None => None
    case Some(n) => Some(AddNode(g, n, RequestedId(uid)))
  }

  /** Creating a node from a description that yields one keeps every node consistent. */
  lemma CreateKeepsConsistent(g: Graph, desc: Descriptor, uid: int, fm: FormatManager, csd: CsdReader)
    requires AllConsistent(g) && Instantiable(desc, fm)
    ensures AllConsistent(Create(g, desc, uid, fm, csd).value.0)
  {
    BuildSpec(desc, fm, csd);
  }

  /** Placing a node keeps every node consistent. */
  lemma PlacedKeepsConsistent(g: Graph, id: NodeId, x: real, y: real)
    requires AllConsistent(g)
    ensures AllConsistent(Placed(g, id, x, y))
  {
    SetPropertyKeepsConsistent(g, id, "x", VReal(x));
    SetPropertyKeepsConsistent(SetProperty(g, id, "x", VReal(x)), id, "y", VReal(y));
  }
}
