# FilterGraph — a Dafny model of the Cabbage host's filter graph document

The Cabbage plugin host keeps its patch in a `FilterGraph` document. The document owns:

- an audio-processor graph of plugin nodes and the connections between their channels;
- a table of MIDI mappings, each binding a node parameter to a MIDI controller;
- a transport clock that every node reads through a shared play head.

Editing operations change the graph and mark the document changed. The document is saved as a
`FILTERGRAPH` element and read back into a graph.

This project models that class (`Source/Host/FilterGraph.cpp`) as the Dafny class
`Host.FilterGraph`. Its fields are the ones the C++ class updates in place. Its methods follow
the C++ members' steps and loops, except `AddFilter`, which assigns the value of the pure function
`FilterAdded` in one step. Each method is proved against pure functions that
state what it computes, and those functions have properties of their own, proved as lemmas.

Modules:

| file | module | contents |
|---|---|---|
| `wrappers.dfy` | `Wrappers` | `Option`, `Outcome` (JUCE's `Result`) |
| `seqs.dfy` | `Seqs` | duplicate-freedom, order-preserving `Filter`, prefix lemmas |
| `numeric.dfy` | `Numeric` | `uint32`/`int32` casts and wrap-around, decimal text of integers |
| `transport.dfy` | `Transport` | timer period, the sub-tick cycle, counting musical ticks |
| `midi_mappings.dfy` | `MidiMappings` | the mapping table, first-match lookup, the display label |
| `processor_graph.dfy` | `ProcessorGraph` | value model of JUCE's `AudioProcessorGraph` |
| `node_factory.dfy` | `NodeFactory` | `createNode`'s dispatch on the plugin format name |
| `positions.dfy` | `Positions` | node positions, clamping, reading a property as a number |
| `graph_document.dfy` | `GraphDocument` | the document as records, writing and reading it, round trip |
| `filter_graph.dfy` | `Host` | the `FilterGraph` class |

The JUCE graph is library code and is not part of this model. It is represented as a value:

- a map from node id to node (processor kind, channel counts, opaque state, property bag);
- the order in which nodes are held;
- the list of connections;
- the last id the graph assigned.

The channel-level legality test is a function value, `rule`, fixed when the document is constructed.
`canConnect` is that rule applied to two existing nodes, plus the condition that the connection is
not already present. Plugin loading and reading a Csound file are foreign calls. Their answers come
from function values that are also fixed at construction: `formatManager` may be unable to build an
instance, and `csdReader` gives a Csound file's channel count and plugin name.

## Model

| member | source | states |
|---|---|---|
| Host.FilterGraph.constructor | Source/Host/FilterGraph.cpp:39-59 | empty graph, not changed, `lastUID` 0, `automationNodeID` -1, tempo 60 (also on the play head), `ppqPosition` 1, sub-tick 0, timer stopped |
| Host.FilterGraph.GetNextUID | Source/Host/FilterGraph.cpp:67-70 | pre-increments the 32-bit counter, wrapping at 2^32, and returns the new value |
| Host.UidsCountUp | Source/Host/FilterGraph.cpp:67-70 | until the counter wraps, k calls from `start` leave it at `start + k` |
| Host.UidsIncrease | Source/Host/FilterGraph.cpp:67-70 | from the constructor's 0 the ids handed out are 1, 2, 3, … and strictly increasing |
| Numeric.Increment32 | Source/Host/FilterGraph.cpp:69 | `++` on a `uint32`: the next integer, or 0 after 2^32 - 1 |
| Host.FilterGraph.SetIsPlaying | Source/Host/FilterGraph.cpp:118-137 | play flag set; playing starts the timer at the tempo's period; stopping stops it; reset zeroes seconds and ticks (play head too) and leaves the sub-tick alone |
| Transport.TimerInterval | Source/Host/FilterGraph.cpp:123 | the period is the largest whole number of milliseconds `ms` with `ms * bpm <= 6000` |
| Host.FilterGraph.SetBPM | Source/Host/FilterGraph.cpp:139-150 | tempo stored (also on the play head); the timer period changes only if the timer was running |
| Host.FilterGraph.HiResTimerCallback | Source/Host/FilterGraph.cpp:152-169 | seconds count only when the play position is 0; the tick advances by one only when the sub-tick was 0, and the play head receives its value from before the step; sub-tick moves on |
| Transport.NextSubTick | Source/Host/FilterGraph.cpp:167 | the sub-tick stays in 0..10 and steps to `(s + 1) mod 11` |
| Transport.SubTicksPeriod | Source/Host/FilterGraph.cpp:167 | from any sub-tick the counter returns after exactly 11 callbacks and not before |
| Transport.SubTicksCountUp | Source/Host/FilterGraph.cpp:167 | below the wrap point the sub-tick counts up by one per callback |
| Transport.OneAdvancePerPeriod | Source/Host/FilterGraph.cpp:161-167 | any 11 consecutive callbacks advance the tick exactly once |
| Transport.AdvancesOverPeriods | Source/Host/FilterGraph.cpp:161-167 | 11k callbacks advance the tick k times and bring the sub-tick back |
| Transport.PpqAdvancesSplit | Source/Host/FilterGraph.cpp:161-167 | tick advances over a+b callbacks are those over a plus those over the b that follow |
| NodeFactory.KindOf | Source/Host/FilterGraph.cpp:177-271 | the format names `AutomationTrack`, `SoundfilePlayer`, `Internal` and `Cabbage` select their own kinds; every other name selects a third-party plugin |
| NodeFactory.RequestedId | Source/Host/FilterGraph.cpp:186-189 | `-1`, and any uid that reads as 0 once converted to `uint32`, asks the graph for a fresh id; any other uid asks for its own `uint32` value, which is never 0 |
| NodeFactory.TypeTag | Source/Host/FilterGraph.cpp:171-293 | the `pluginType` tag stamped on each kind selects that same kind again from a format name |
| NodeFactory.Build | Source/Host/FilterGraph.cpp:171-293 | a node is built for every description except an internal plugin the loader cannot instantiate |
| NodeFactory.BuildSpec | Source/Host/FilterGraph.cpp:171-293 | the kind follows the format name; `pluginType` is set to its tag; `pluginName` is "AutomationTrack", "Soundfile Player", the Csound file's plugin name for Cabbage, and the description's name otherwise; the channel configuration is 2 in and 2 out for automation tracks and soundfile players, the Csound file's channel count both ways for Cabbage, the instance's for internal plugins and the description's for third-party plugins; `pluginDesc` is stored exactly for automation tracks, soundfile players and Cabbage plugins and is the given description; the saved description selects the same kind again; every kind but internal plugins gets the play head; no position is set |
| NodeFactory.Create | Source/Host/FilterGraph.cpp:171-293 | the node goes under the caller's id (as `uint32`) when `uid != -1` and that id is not 0, else under the graph's next id, which no node holds; the id is never 0; the graph stays well formed |
| ProcessorGraph.AddNode | Source/Host/FilterGraph.cpp:186-189 | with no id requested: the next id after the last, connections unchanged; with an id: any node holding it (and its connections) is replaced; the id goes last in the order |
| Host.FilterGraph.CreateNode | Source/Host/FilterGraph.cpp:171-293 | the graph is `Create`'s; nothing changes when no node can be built; `automationNodeID` moves to the new node exactly for an automation track, as `AutomationAfter` says |
| GraphDocument.AutomationAfter | Source/Host/FilterGraph.cpp:191 | for an automation track, the new node's `uint32` id stored as a 32-bit `int`, which converts back to the id; for any other kind the automation node id is kept |
| Host.FilterAdded | Source/Host/FilterGraph.cpp:296-322 | the id `addFilter` gets is the one after the graph's last; the graph gains exactly that node and no connection |
| Host.FilterAddedSpec | Source/Host/FilterGraph.cpp:296-322 | `addFilter` adds the built node under the id after the graph's last one, which no node held; it has the built processor and the built properties with `x` and `y` set to (x, y) unclamped; no other node and no connection changes; the graph stays well formed and consistent |
| Host.FilterGraph.AddFilter | Source/Host/FilterGraph.cpp:296-322 | a null description or one that yields no node changes nothing; otherwise the new node is placed, becomes `lastNodeID`, and the document is marked changed |
| Positions.PlacedPosition | Source/Host/FilterGraph.cpp:306-307 | right after a node is placed, its position reads back as the values placed; every other node's position is as before |
| Host.FilterGraph.FindControllerForParameter | Source/Host/FilterGraph.cpp:325-339 | the label of the first mapping, in list order, on that node and parameter; the empty string exactly when no mapping matches |
| MidiMappings.FirstMatch | Source/Host/FilterGraph.cpp:327-336 | the index found matches and no earlier entry does; none is found exactly when no entry matches |
| MidiMappings.ControllerFor | Source/Host/FilterGraph.cpp:325-339 | empty exactly when no mapping targets the parameter |
| MidiMappings.ControllerForAppend | Source/Host/FilterGraph.cpp:325-339 | appending mappings never changes an answer the table already gives; an unanswered query is answered by the appended part |
| MidiMappings.LabelRoundTrip | Source/Host/FilterGraph.cpp:334 | the label `CC:<controller> Chan:<channel>` reads back as the controller and channel |
| Numeric.IntToStringRoundTrip | Source/Host/FilterGraph.cpp:334 | an integer's decimal text reads back as the same integer |
| Host.FilterGraph.RemoveFilter | Source/Host/FilterGraph.cpp:343-349 | the node is removed; the document is marked changed exactly when the node existed |
| ProcessorGraph.RemoveNode | Source/Host/FilterGraph.cpp:347 | reports whether the node existed; drops it from the map and the order, and drops its connections |
| ProcessorGraph.RemoveNodeLeavesNoTrace | Source/Host/FilterGraph.cpp:347 | afterwards no node or connection refers to the id, and every other node and connection is still there |
| Host.FilterGraph.DisconnectFilter | Source/Host/FilterGraph.cpp:351-355 | connections touching the node are dropped; changed exactly when there was one |
| ProcessorGraph.DisconnectNode | Source/Host/FilterGraph.cpp:353 | keeps exactly the connections not touching the node, in order, and reports whether any did |
| Host.FilterGraph.RemoveIllegalConnections | Source/Host/FilterGraph.cpp:357-361 | illegal connections are dropped; changed exactly when there was one |
| ProcessorGraph.RemoveIllegalConnections | Source/Host/FilterGraph.cpp:359 | keeps exactly the legal connections, in order, and reports whether any was illegal |
| Host.FilterGraph.SetNodePosition | Source/Host/FilterGraph.cpp:363-372 | the `int` id is looked up as `uint32`; a known node's position is set clamped to [0, 1]; an unknown id, and every other node, is unchanged; not marked changed |
| Positions.Limit01 | Source/Host/FilterGraph.cpp:369-370 | `jlimit (0, 1, x)`: within [0, 1]; x itself when it already is, else the nearer bound |
| Positions.WithPosition | Source/Host/FilterGraph.cpp:363-372 | setting a position keeps the set of nodes, the order and the connections, leaves every other node as it was and keeps the graph well formed |
| Positions.NodePosition | Source/Host/FilterGraph.cpp:374-385 | an unknown id reads as (0, 0), and a missing `x` or `y` property reads as 0 |
| Positions.PositionAfterSet | Source/Host/FilterGraph.cpp:363-385 | after `setNodePosition`, `getNodePosition` gives the clamped values for that node and the old position for any other id |
| Positions.PositionInUnitSquare | Source/Host/FilterGraph.cpp:363-385 | a position that was set always reads back inside the unit square |
| Host.FilterGraph.GetNodePosition | Source/Host/FilterGraph.cpp:374-385 | (0, 0) for an unknown id, otherwise the node's `x` and `y` read as numbers |
| Positions.Truncate | Source/Host/FilterGraph.cpp:520-525 | an integer property written as text and read back as an integer is truncated toward zero |
| Host.FilterGraph.AddConnection | Source/Host/FilterGraph.cpp:411-421 | returns whether `canConnect` held; only then is the connection appended and the document marked; otherwise neither the graph nor the flag changes |
| ProcessorGraph.AddConnection | Source/Host/FilterGraph.cpp:414 | adds exactly when legal and not present; keeps the graph well formed |
| ProcessorGraph.AddConnectionOnce | Source/Host/FilterGraph.cpp:404-421 | once added a connection cannot be added again, and the repeat changes nothing |
| Host.FilterGraph.RemoveConnectionAt | Source/Host/FilterGraph.cpp:423-427 | the connection at that index is removed (out of range changes nothing); always marked changed |
| ProcessorGraph.RemoveConnectionAt | Source/Host/FilterGraph.cpp:425 | for an index in range, the list without that one entry, the others kept in order; otherwise the same graph |
| Host.FilterGraph.RemoveConnection | Source/Host/FilterGraph.cpp:429-435 | that connection is removed; marked changed exactly when it was present |
| ProcessorGraph.RemoveConnection | Source/Host/FilterGraph.cpp:432 | keeps every other connection in order and reports whether this one was present |
| Host.FilterGraph.Clear | Source/Host/FilterGraph.cpp:437-443 | no nodes, no connections; always marked changed |
| ProcessorGraph.Clear | Source/Host/FilterGraph.cpp:441 | empty and well formed; the graph's id counter is kept |
| Host.FilterGraph.LoadDocument | Source/Host/FilterGraph.cpp:454-465 | the graph is cleared first without marking the document; no document, or a root whose tag is not `FILTERGRAPH` ignoring the case of ASCII letters, fails with "Not a valid filter graph file" and leaves the cleared graph; otherwise the document is restored |
| Numeric.ToInt32 | Source/Host/FilterGraph.cpp:521 | the `(int)` cast of a node id; converting back to `uint32` gives the id again; it reads as -1 only for id 2^32 - 1 |
| GraphDocument.FilterRecord | Source/Host/FilterGraph.cpp:499-536 | a node's `FILTER` record: its `uid` converts back to the node id, and reads as -1 only for id 2^32 - 1; the description read back from it is the node's saved description; it carries the node's state |
| GraphDocument.RecordNodeId | Source/Host/FilterGraph.cpp:552 | a record is read back under its `uid` as `uint32`, unless the uid asks for a fresh id (`-1`, or 0 once converted), in which case under the graph's next id; never under 0 |
| GraphDocument.NodeFromRecord | Source/Host/FilterGraph.cpp:539-568 | reading one record adds exactly the record's id to the graph's nodes and moves the automation node id as that description's kind demands |
| Host.FilterGraph.CreateNodeFromXml | Source/Host/FilterGraph.cpp:539-568 | the node is created under the record's id, then decorated as `NodeFromRecord` says; the precondition is the unchecked use of the created node |
| Host.FilterGraph.RestoreNodeSettings | Source/Host/FilterGraph.cpp:555-567 | state restored when the record has one, then `x`, `y`, `uiLastX`, `uiLastY` and `pluginName` set one by one: the node becomes its decorated form |
| GraphDocument.DecorateSteps | Source/Host/FilterGraph.cpp:555-567 | the one-by-one state and property updates amount to replacing the node by its decorated form |
| GraphDocument.DecoratedRestores | Source/Host/FilterGraph.cpp:539-568 | a node rebuilt from a record holds the record's position, last editor position, state and name; it has the kind the description selects, and its stored description is the record's |
| GraphDocument.NodeFromRecordSpec | Source/Host/FilterGraph.cpp:539-568 | reading a record adds or replaces only the node under the record's id; adds no connection; keeps the graph well formed and consistent; puts the id last; moves `automationNodeID` only for an automation track |
| Numeric.ToUint32 | Source/Host/FilterGraph.cpp:552 | the implicit `int` to `uint32` conversion: congruent modulo 2^32, and the identity on `uint32` values |
| GraphDocument.RootTagSpellings | Source/Host/FilterGraph.cpp:460 | `hasTagName` accepts `FILTERGRAPH` in upper, lower or mixed case and rejects tags of another length such as `FILTER` |
| GraphDocument.Serialize | Source/Host/FilterGraph.cpp:571-606 | the saved document has the root tag `FILTERGRAPH` and one record per node, connection and mapping |
| Host.FilterGraph.CreateXml | Source/Host/FilterGraph.cpp:571-606 | the document `Serialize` describes: one record per node in graph order, then per connection, then per mapping |
| GraphDocument.SerializeLayout | Source/Host/FilterGraph.cpp:571-606 | one `FILTER` record per node carrying its id, in order, then one `CONNECTION` per connection, then one `MIDI_MAPPINGS` per mapping |
| GraphDocument.Restore | Source/Host/FilterGraph.cpp:608-635 | after `restoreFromXml` every remaining connection is legal among the recreated nodes, and the old mapping table is kept as the front of the new one |
| Host.FilterGraph.RestoreFromXml | Source/Host/FilterGraph.cpp:608-635 | clear (marking changed), then recreate nodes, re-add connections through `addConnection`, prune illegal ones without marking, and append the saved mappings to the table without clearing it: the result is `Restore`'s |
| Host.FilterGraph.RestoreFilterRecords | Source/Host/FilterGraph.cpp:612-616 | each `FILTER` record, in document order, recreates its node as `RestoreNodes` says |
| Host.FilterGraph.RestoreConnectionRecords | Source/Host/FilterGraph.cpp:618-625 | each `CONNECTION` record, ids read as `uint32`, is offered to `addConnection` as `RestoreConnections` says |
| Host.FilterGraph.RestoreMappingRecords | Source/Host/FilterGraph.cpp:628-634 | each `MIDI_MAPPINGS` record is appended to the existing table |
| GraphDocument.RestoredMappingsOfDocument | Source/Host/FilterGraph.cpp:597-634 | the mappings read back from a saved document are exactly the saved ones |
| GraphDocument.RoundTrip | Source/Host/FilterGraph.cpp:571-635 | saving a graph whose ids are neither 0 nor 2^32 - 1 and restoring it into any graph gives the same node ids in the same order; each node keeps its position, last editor position, state and stored description; the connections are the saved ones still legal; the saved mappings are appended to the old table |
| GraphDocument.RoundTripConnections | Source/Host/FilterGraph.cpp:618-626 | when every saved connection is legal among the recreated nodes, the connection list comes back unchanged |

## Left out

- The JUCE `AudioProcessorGraph` is not part of this model. Its behaviour is stated as an assumption:
  - fresh ids are the last id plus one, without wrap-around;
  - an id of 0 passed to `addNode` asks for a fresh id, so a saved `uid` of 0 (which is also what a record without a `uid` attribute reads as) is read back under a fresh id, and the round trip is stated for graphs whose ids are not 0; an id of 2^32 - 1 is saved as the uid -1 and is likewise read back under a fresh id, so the round trip also excludes it;
  - `addNode` under an existing id replaces that node;
  - `removeNode` disconnects the node first;
  - `addConnection` appends, where JUCE keeps the list sorted;
  - an out-of-range `removeConnection (index)` does nothing.
- Plugin instantiation, `PluginWrapper`, the Csound/Cabbage processor and widget setup, and the soundfile player's file setup are foreign calls. They appear only as the `formatManager` and `csdReader` function values and the processor kind. A `PluginWrapper` built while the loader returned no instance is assumed to describe itself with the requested description and to hold an empty state. The play-head object's class is not part of this model: it is assumed to start stopped, at time 0, at tempo 0 and at musical position 0 before the constructor sets its tempo.
- Threads are not modelled. `hiResTimerCallback` runs on the timer thread, while `setIsPlaying`, `setBPM` and the editing operations run on the caller's thread; the model treats each call as one uninterrupted step and does not model their interleaving.
- Node listeners, `changeListenerCallback`, `actionListenerCallback`, `updateAutomatedNodes` and plugin windows are UI and broadcaster plumbing. `addNodesToAutomationTrack` is commented out in the source.
- Tag names are compared as JUCE's `hasTagName` does, ignoring case, but only ASCII letters are folded; a non-ASCII character that JUCE's case folding maps onto an ASCII letter is not. The selection of `FILTER`, `CONNECTION` and `MIDI_MAPPINGS` children by the same case-insensitive test is part of parsing, which is not modelled: a document arrives with each child already given as a record of its kind.
- `automationNodeID` is taken to be a 32-bit `int`, as its initial value -1 suggests; the class declaration is not part of this model.
- `saveDocument`, `getDocumentTitle`, the recent-file settings, alert boxes and reading a file are I/O. `LoadDocument` receives the already-parsed document, or none.
- XML text, the description's XML blob in `pluginDesc`, and base64 state text are not modelled. A record carries typed values, the description as a value, and the state bytes verbatim.
- A position written as text by `toString` and read back with `getDoubleAttribute` is modelled as exact. Floating-point rounding is not modelled.
- `playPosition` and the timer period are exact (`real`, and integer `6000 / bpm`). Float arithmetic is not modelled. `startTimer (0)` in the constructor is not kept, and stopping the timer keeps its last period.
- Host.FilterGraph.SetIsPlaying: requires a positive tempo when it starts the timer; the source does not guard against a tempo of 0 or below.
- Host.FilterGraph.SetBPM: requires a positive tempo when the timer is running, for the same reason.
- Host.FilterGraph.CreateNodeFromXml: requires that the record yields a node, because the source uses the created node without a null check.
- Host.FilterGraph.RestoreFromXml: requires that every `FILTER` record yields a node, for the same reason.
- Host.FilterGraph.LoadDocument: requires the same of a document with the right root tag.
- Host.FilterGraph.constructor: `lastNodeID` starts at 0; the source leaves it uninitialised.
- The counting of nodes and connections, `getNode`, `getNodeForId`, `getConnection`, `getConnectionBetween` and `canConnect` only forward to the graph. They are represented by the graph value and `CanConnect`.

Behaviour of the code worth noting:

- The sub-tick counter cycles through 0..10, so the musical position advances once every 11 callbacks.
- Positions are clamped only by `setNodePosition`. `addFilter` and `createNodeFromXml` store them as given.
- `loadDocument` clears the graph without marking the document changed. A failed load leaves the cleared graph.
