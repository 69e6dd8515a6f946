# chatflow-builder graph logic in Dafny

This project models the graph logic underneath the chatflow-builder editor,
a React/ReactFlow application for drawing chat-flow graphs. A graph is a list
of nodes (each with an internal id, a user-facing display id, a description,
a prompt and a start flag) and a list of conditional edges (each with a
condition text and an ordered list of key/value parameters). The modelled
parts are:

- the export codec (`flowToSchema`), which turns a graph into the portable
  JSON schema keyed by display ids;
- the import codec: `validateImportSchema`, which collects every problem of
  an untyped JSON value, the breadth-first `autoLayout`, and `schemaToFlow`,
  which rebuilds a graph with fresh internal ids;
- the validation engine of `useFlowValidation`: per-node warnings, flow
  errors and the export-blocking flag;
- the two graph stores, `FlowProvider` (derived selection) and the legacy
  `ChatbotFlowProvider` (snapshot selection), as classes whose methods
  replace the `nodes`, `edges` and selection fields;
- the persistence migration chain of `persist-flow` (v1 to v2 to v3) and
  the envelope that a save writes;
- the edge-parameter editors and target naming of the edge panel, the export
  gating and message aggregation of the save button, and the node and edge
  factories, the no-incoming-edge helpers and the legacy save rule.

One Dafny module corresponds to one source file; `base.dfy` (JavaScript
`trim`, `||` on strings, `toString(36)`, filtering), `flow_types.dfy`,
`chatbot_types.dfy` and `json.dfy` (a JSON value as in section 3 of
RFC 8259) hold what they share. `round_trip.dfy` connects export, the
written file, validation and import.

Calls the code makes to the outside world become parameters:
`crypto.randomUUID()` is a caller-supplied id supply `uuid`, keyed by the
position of the node, edge or parameter it is drawn for; `Date.now()` is a
`now` argument; the random suffix of legacy node ids is a `randomDigits`
argument; the value in `localStorage` is a `Storage` value and the
write-back of a load is a second result. Each operation whose source loops
(the import validator, the layout, the export lookup table, the parameter
collapse, the validation counting loops, the save button's aggregation) is a
method proved equal to a specification function, and the properties are
lemmas about those functions.

## Model

| member | source | states |
|---|---|---|
| Base.TrimFacts | hooks/useFlowValidation.ts:49 | `trim()` yields the empty string exactly for a blank string, and otherwise begins and ends with a non-whitespace character |
| Base.RadixRoundTrip | utils/create-flow-node.ts:9 | reading back the base-36 digits of a timestamp gives the timestamp |
| Base.RadixInjective | utils/create-flow-node.ts:9 | different timestamps have different base-36 texts |
| Base.Filter | components/providers/FlowProvider.tsx:101 | `filter` returns only elements satisfying the test, every satisfying element appears, and the kept ones are in their original order |
| Base.FilterCount | components/providers/FlowProvider.tsx:101 | `filter` keeps each element satisfying the test exactly as many times as it occurs, and no element failing it |
| Json.LookupMeaning | components/ui/ImportJsonButton.tsx:56 | a property lookup finds nothing exactly when no member has the name, and otherwise the value of the last member with that name |
| Json.GetString | utils/schema-to-flow.ts:23 | a string property is read exactly when the value has the property and it is a string |
| Json.GetArray | utils/schema-to-flow.ts:27 | an array property is read exactly when the value has the property and it is an array |
| FlowTypes.ConditionOf | utils/flow-to-schema.ts:43 | an edge without data has condition `""`, otherwise its stored condition |
| FlowTypes.Outgoing | utils/flow-to-schema.ts:39 | the outgoing edges of a node are exactly the edges with that source, as an order-preserving subsequence |
| CreateFlowEdge.CreateFlowEdge | utils/create-flow-edge.ts:7-20 | the new edge keeps the given id, ends and handles, is a conditional edge with an empty condition and no parameters, and has no label |
| CreateFlowEdge.IsDuplicateEdgeMeaning | utils/create-flow-edge.ts:26-33 | a connection is a duplicate exactly when an edge joins the same source and target and lacks a condition |
| CreateFlowEdge.NoDuplicateInEmpty | utils/create-flow-edge.ts:31 | nothing is a duplicate in an empty edge list |
| CreateFlowEdge.ConditionedEdgeNotDuplicate | utils/create-flow-edge.ts:32 | appending an edge that carries a non-empty condition to any edge list changes no duplicate answer, for any pair of nodes |
| CreateFlowEdge.CreatedEdgeIsDuplicate | utils/create-flow-edge.ts:7-33 | once a created edge is added, drawing the same connection again is a duplicate |
| CreateFlowNode.DefaultDisplayId | utils/create-flow-node.ts:8-10 | the default display id starts with `node_` and has digits after it |
| CreateFlowNode.DefaultDisplayIdInjective | utils/create-flow-node.ts:8-10 | nodes created at different times get different default display ids |
| CreateFlowNode.DefaultDisplayIdNotBlank | utils/create-flow-node.ts:8-10 | a default display id is never blank, so it never draws the empty-id warning |
| CreateFlowNode.CreateFlowNode | utils/create-flow-node.ts:16-27 | the new node has the given id and position, the flow node type, empty description and prompt, the default display id, and is not start |
| CreateFlowNode.CreatedNodeKeepsStart | utils/create-flow-node.ts:16-27 | appending a created node leaves the first start node of the graph unchanged |
| FlowHelpers.EmptyTargetHandlesFacts | utils/flow-helpers.ts:6-12 | the result is an order-preserving subsequence of the nodes holding exactly the nodes that no edge targets, each as many times as in the input |
| FlowHelpers.NoEdgesAllEmpty | utils/flow-helpers.ts:10-11 | with no edges every node is returned |
| FlowHelpers.HasSourceConnectionMeaning | utils/flow-helpers.ts:17-22 | a node has a source connection exactly when some edge leaves it |
| ChatbotFlowHelpers.HasSourceConnection | utils/chatbot-flow-helpers.ts:20-24 | true exactly when some edge's source is the node id |
| ChatbotFlowHelpers.EmptyTargetHandlesFacts | utils/chatbot-flow-helpers.ts:6-15 | the result is an order-preserving subsequence holding exactly the chatbot nodes that no edge targets, each as many times as in the input |
| ChatbotFlowHelpers.NoEdgesAllEmpty | utils/chatbot-flow-helpers.ts:11-14 | with an empty edge list every node is returned |
| FlowValidationRules.ValidateChatbotFlow | lib/flow-validation-rules.ts:16-37 | zero or one node is always valid; a result carries a message exactly when invalid, and that message is `Cannot save Flow` |
| FlowValidationRules.ValidateChatbotFlowMeaning | lib/flow-validation-rules.ts:16-37 | with more than one node the flow is refused exactly when two different nodes have no incoming edge |
| FlowValidationRules.UnreachedCount | lib/flow-validation-rules.ts:26-29 | the helper returns more than one node exactly when two positions hold nodes with no incoming edge |
| CreateChatbotNode.GenerateNodeId | utils/create-chatbot-node.ts:7-9 | a generated id begins with the node type name followed by `-` |
| CreateChatbotNode.DifferentTypesDifferentIds | utils/create-chatbot-node.ts:7-9 | ids generated for different node types differ whatever the clock and random digits |
| CreateChatbotNode.CreateTextMessageNode | utils/create-chatbot-node.ts:14-23 | a text-message node has empty text, the text-message type, the given position and a generated id |
| CreateChatbotNode.CreateButtonMessageNode | utils/create-chatbot-node.ts:28-38 | a button node has empty button text and value, the button type, the given position and a generated id |
| CreateChatbotNode.ParseNodeType | utils/create-chatbot-node.ts:47-54 | a type name is recognised exactly when it is one of the two node type names |
| CreateChatbotNode.CreateChatbotNode | utils/create-chatbot-node.ts:43-55 | an unknown type name gives the `Unknown node type` error; a known one gives a node of that type at the given position |
| CreateChatbotNode.CreatedDataMatchesKind | utils/create-chatbot-node.ts:43-55 | a created node's data matches its kind and its id begins with the type name and `-` |
| FlowProvider.MergeData | components/providers/FlowProvider.tsx:92 | each field of the merged data comes from the patch when the patch sets it, else from the old data |
| FlowProvider.PatchedNodesFacts | components/providers/FlowProvider.tsx:87-98 | a partial update keeps order, count, ids, types and positions, merges the patch into the nodes with the id and leaves every other node unchanged |
| FlowProvider.EmptyPatch | components/providers/FlowProvider.tsx:87-98 | a patch that sets nothing changes nothing |
| FlowProvider.WithoutNodeFacts | components/providers/FlowProvider.tsx:100-101 | deleting removes every node with the id, keeps the others in order, and the remaining ids are the old ids minus that one |
| FlowProvider.WithoutNodeCount | components/providers/FlowProvider.tsx:100-101 | deleting keeps each node with another id exactly as many times as it occurred, and no node with the id |
| FlowProvider.WithoutIncidentFacts | components/providers/FlowProvider.tsx:102-104 | deleting removes exactly the edges with the id as an endpoint; the rest keep their order and the count drops by the number of incident edges |
| FlowProvider.DeleteKeepsEdgesClosed | components/providers/FlowProvider.tsx:100-106 | if no edge dangled before a delete, none dangles after it |
| FlowProvider.MarkStartFacts | components/providers/FlowProvider.tsx:112-122 | after marking, a node is start exactly when its id is the given id, whatever its prior flag; nothing else about it changes |
| FlowProvider.MarkStartSingle | components/providers/FlowProvider.tsx:112-122 | with distinct ids, marking an existing node leaves exactly one start node |
| FlowProvider.MarkStartUnknown | components/providers/FlowProvider.tsx:112-122 | marking an id no node has leaves no start node |
| FlowProvider.FindNodeFacts | components/providers/FlowProvider.tsx:58-62 | the lookup gives nothing exactly when no node has the id, and otherwise the first node with it |
| FlowProvider.FindAfterPatch | components/providers/FlowProvider.tsx:58-62 | the derived selection follows updates: after a partial update it is the updated node |
| FlowProvider.FlowStore.constructor | components/providers/FlowProvider.tsx:53-55 | the store starts with no nodes, no edges and no selection |
| FlowProvider.FlowStore.AddNode | components/providers/FlowProvider.tsx:83-85 | the node is appended; edges and selection are unchanged and no edge starts to dangle |
| FlowProvider.FlowStore.UpdateNodeData | components/providers/FlowProvider.tsx:87-98 | nodes become the patched list, edges and selection are unchanged, and the set of ids is the same |
| FlowProvider.FlowStore.DeleteNode | components/providers/FlowProvider.tsx:100-106 | node and incident edges are removed, the selection is cleared only when it was the deleted id, and no edge starts to dangle |
| FlowProvider.FlowStore.SelectNode | components/providers/FlowProvider.tsx:108-110 | only the selected id changes |
| FlowProvider.FlowStore.SetStartNode | components/providers/FlowProvider.tsx:115-122 | nodes become the re-marked list, ids, edges and selection are unchanged |
| ChatbotFlowProvider.ReplacedNodesFacts | components/providers/ChatbotFlowProvider.tsx:76-80 | the nodes with the id get the new data in place of the old, not merged; everything else is unchanged |
| ChatbotFlowProvider.RemoveNodeFacts | components/providers/ChatbotFlowProvider.tsx:82-86 | deleting keeps, in order and with their multiplicity, exactly the nodes with another id |
| ChatbotFlowProvider.FindNodeFacts | components/providers/ChatbotFlowProvider.tsx:97-98 | the lookup gives nothing exactly when no node has the id, and otherwise the first node with it |
| ChatbotFlowProvider.SnapshotGoesStale | components/providers/ChatbotFlowProvider.tsx:92-99 | once the selected node's data is replaced by different data, the current node no longer equals the stored snapshot |
| ChatbotFlowProvider.ChatbotStore.constructor | components/providers/ChatbotFlowProvider.tsx:46-48 | the store starts with no nodes, no edges and no selection |
| ChatbotFlowProvider.ChatbotStore.AddNode | components/providers/ChatbotFlowProvider.tsx:72-74 | the node is appended; edges and snapshot are unchanged |
| ChatbotFlowProvider.ChatbotStore.UpdateNode | components/providers/ChatbotFlowProvider.tsx:76-80 | the data of nodes with the id is replaced; edges and the snapshot stay as they were |
| ChatbotFlowProvider.ChatbotStore.DeleteNode | components/providers/ChatbotFlowProvider.tsx:82-90 | node and incident edges are removed; the snapshot is cleared only when it has the deleted id |
| ChatbotFlowProvider.ChatbotStore.SelectNode | components/providers/ChatbotFlowProvider.tsx:92-99 | an absent or empty id clears the snapshot, otherwise it becomes the first matching node or nothing; nodes and edges are unchanged |
| ChatbotFlowProvider.ChatbotStore.DeselectNode | components/providers/ChatbotFlowProvider.tsx:101-103 | the snapshot is cleared and nothing else changes |
| EdgeListSection.ParamAdd | components/sidebar-panels/EdgeListSection.tsx:37-41 | the existing pairs are kept and one pair with empty key and value is appended |
| EdgeListSection.ParamRemove | components/sidebar-panels/EdgeListSection.tsx:43-47 | the pair at the index is removed, and an empty result becomes `undefined` rather than an empty list |
| EdgeListSection.ParamRemoveFacts | components/sidebar-panels/EdgeListSection.tsx:43-47 | removal shortens the list by one keeping the other pairs in order; `undefined` comes back exactly when the last pair was removed |
| EdgeListSection.ParamKeyChange | components/sidebar-panels/EdgeListSection.tsx:49-53 | only the key at the index changes; its value, its id, the other pairs and the length are kept |
| EdgeListSection.ParamValueChange | components/sidebar-panels/EdgeListSection.tsx:55-59 | only the value at the index changes; its key, its id, the other pairs and the length are kept |
| EdgeListSection.TargetDisplayId | components/sidebar-panels/EdgeListSection.tsx:21-24 | a target that is the panel's own node is shown as `(self)` |
| EdgeListSection.TargetDisplayIdFacts | components/sidebar-panels/EdgeListSection.tsx:21-24 | another target shows the first matching node's display id, or `Unknown` when there is no such node or its display id is empty |
| EdgeListSection.AddThenRemove | components/sidebar-panels/EdgeListSection.tsx:37-47 | removing the pair just added restores the list, or `undefined` when it was empty |
| FlowSaveButton.AddNewAllFacts | components/ui/FlowSaveButton.tsx:24-28 | offering messages keeps the list as a prefix, adds each new message once, keeps the list free of repeats and adds nothing else |
| FlowSaveButton.AggregateFacts | components/ui/FlowSaveButton.tsx:23-28 | the aggregated list starts with the flow errors and holds exactly them and every node-warning message, blocking or not, without repeats |
| FlowSaveButton.AggregateErrors | components/ui/FlowSaveButton.tsx:23-28 | the nested loops compute the aggregated list |
| FlowSaveButton.SaveErrorsFacts | components/ui/FlowSaveButton.tsx:22-28 | a blocked save lists the flow errors first, then each distinct node-warning message, none twice |
| FlowSaveButton.JoinStarts | components/ui/FlowSaveButton.tsx:29 | a joined text begins with its first piece |
| FlowSaveButton.BlockedMessageShown | components/ui/FlowSaveButton.tsx:22-30 | a blocked save always produces a non-empty error message |
| FlowSaveButton.SaveButton.constructor | components/ui/FlowSaveButton.tsx:15-16 | no error message and no success flag at first |
| FlowSaveButton.SaveButton.HandleSave | components/ui/FlowSaveButton.tsx:18-46 | a blocked graph exports nothing and shows the first three aggregated messages joined by `, `; otherwise the export is exactly the schema of the graph and success is shown |
| FlowValidation.AddWarningFacts | hooks/useFlowValidation.ts:30-34 | adding a warning appends it to that id's list and leaves every other list unchanged |
| FlowValidation.AddWarningKeyed | hooks/useFlowValidation.ts:30-34 | adding a warning keeps every key listed once, in step with the map |
| FlowValidation.AddAllFacts | hooks/useFlowValidation.ts:30-34 | adding several warnings for one id extends that id's list by them and leaves the others alone |
| FlowValidation.InDegreeZero | hooks/useFlowValidation.ts:53-57 | the incoming count of a node is zero exactly when no edge targets it |
| FlowValidation.CountIncoming | hooks/useFlowValidation.ts:53-57 | the counting loop gives each id its number of incoming edges |
| FlowValidation.OutDegreeZero | hooks/useFlowValidation.ts:59-63 | the outgoing count of a node is zero exactly when no edge leaves it |
| FlowValidation.CountOutgoing | hooks/useFlowValidation.ts:59-63 | the counting loop gives each id its number of outgoing edges |
| FlowValidation.CountDisplayIds | hooks/useFlowValidation.ts:47-51 | the counting loop gives each trimmed display id the number of nodes carrying it |
| FlowValidation.DisplayIdCountShared | hooks/useFlowValidation.ts:47-51 | a node's trimmed display id is counted more than once exactly when another node shares it |
| FlowValidation.CheckNode | hooks/useFlowValidation.ts:65-92 | one pass of the node loop adds that node's messages to its id's list |
| FlowValidation.CheckNodes | hooks/useFlowValidation.ts:65-92 | the node loop builds the map of every node's messages in node order |
| FlowValidation.CheckEdges | hooks/useFlowValidation.ts:94-99 | the edge loop adds a missing-condition warning per edge with a blank condition |
| FlowValidation.EdgeOnlyWarnings | hooks/useFlowValidation.ts:94-99 | an id that no node carries gets only missing-condition warnings, one exactly for each blank edge leaving it |
| FlowValidation.FindBlocking | hooks/useFlowValidation.ts:101-111 | the scan answers whether some list holds a blocking message |
| FlowValidation.NodeBlockingRule | hooks/useFlowValidation.ts:101-111 | a node's messages include a blocking one exactly when its display id is blank or shared or its description is blank |
| FlowValidation.BlockingMeaning | hooks/useFlowValidation.ts:101-111 | the warning map blocks exactly when some node blocks; connectivity and condition warnings alone never do |
| FlowValidation.ValidateFlow | hooks/useFlowValidation.ts:26-113 | the engine returns the flow errors and warnings of the graph, and blocks exactly when a non-empty graph has no start node or some node blocks |
| FlowValidation.WarningsMeaning | hooks/useFlowValidation.ts:65-99 | an id's warnings are the messages of every node with that id in node order, followed by one missing-condition message per blank edge leaving it |
| FlowValidation.EmptyIdRule | hooks/useFlowValidation.ts:68-71 | `Node ID is empty` fires exactly when the display id is blank |
| FlowValidation.DuplicateIdRule | hooks/useFlowValidation.ts:73-76 | `Duplicate node ID` fires exactly when the display id is non-blank and another node has the same trimmed display id, and never with `Node ID is empty` |
| FlowValidation.EmptyDescriptionRule | hooks/useFlowValidation.ts:78-81 | `Description is empty` fires exactly when the description is blank |
| FlowValidation.ConnectivityRule | hooks/useFlowValidation.ts:83-91 | with more than one node, orphaned fires exactly for a node no edge touches, disconnected exactly for a non-start node with outgoing but no incoming edges; never both |
| FlowValidation.EdgeMessagesDoNotBlock | hooks/useFlowValidation.ts:94-111 | missing-condition warnings never block |
| FlowValidation.WarningMessagesKnown | hooks/useFlowValidation.ts:65-99 | every stored warning is one of the engine's known messages |
| PersistFlow.LoadFlow | utils/persist-flow.ts:88-120 | a load returns the graph and write-back that the version dispatch prescribes for the stored value |
| PersistFlow.LoadNothing | utils/persist-flow.ts:88-97 | nothing stored, or nothing readable, loads as nothing and writes nothing back |
| PersistFlow.VersionDispatch | utils/persist-flow.ts:99-111 | no version runs both migrations, version 2 runs the second, and each ends at version 3 and loads with write-back; a version above 3 is refused; version 1 loads unmigrated |
| PersistFlow.StoredNodeRoundTrip | utils/persist-flow.ts:75-86 | a node written in stored form reads back as the same node |
| PersistFlow.SaveThenLoad | utils/persist-flow.ts:75-120 | saving then loading returns the same nodes and edges, with no migration applied |
| PersistFlow.FirstMarkedFacts | utils/persist-flow.ts:25 | the marked start is the first node with a start flag, or nothing when none has it |
| PersistFlow.FirstUntargetedFacts | utils/persist-flow.ts:23-26 | the fallback start is the first node no edge targets, or nothing when every node is targeted |
| PersistFlow.LegacyStartIsNode | utils/persist-flow.ts:22-27 | the chosen start is the id of one of the nodes, and exists exactly when there are nodes |
| PersistFlow.MigrateV1toV2Facts | utils/persist-flow.ts:18-53 | ids, positions and edges are kept, the display id is `node_<i+1>`, description and prompt come from the legacy texts, start is the chosen start, version becomes 2 |
| PersistFlow.MigratedDisplayIdsDistinct | utils/persist-flow.ts:34 | migrated display ids are never blank and never repeat |
| PersistFlow.MigratedSingleStart | utils/persist-flow.ts:22-46 | with distinct ids, a non-empty legacy graph migrates to exactly one start node |
| PersistFlow.MigrateV2toV3Facts | utils/persist-flow.ts:59-73 | every edge becomes conditional with its label as condition, replacing its data; nodes stay and version becomes 3 |
| FlowToSchema.Put | utils/flow-to-schema.ts:55 | writing a key adds it to the record's keys, keeps keys unique and grows the record only for a new key |
| FlowToSchema.PutMeaning | utils/flow-to-schema.ts:55 | writing a key into a record sets that key in the map it denotes |
| FlowToSchema.Collapse | utils/flow-to-schema.ts:51-60 | the collapsed record has unique keys and no empty key |
| FlowToSchema.CollapseParams | utils/flow-to-schema.ts:53-56 | the collapsing loop builds the collapsed record |
| FlowToSchema.CollapseMeaning | utils/flow-to-schema.ts:51-60 | the collapsed record denotes the reference map of the parameter list |
| FlowToSchema.ParamMapLastWins | utils/flow-to-schema.ts:54-56 | a key is in the map exactly when it is non-empty and some pair carries it, and its value is that of the last such pair |
| FlowToSchema.CollapseExample | utils/flow-to-schema.ts:51-60 | a pair with an empty key is dropped and the others keep their order |
| FlowToSchema.ExportParams | utils/flow-to-schema.ts:51-60 | `parameters` is present only for a non-empty record with unique non-empty keys |
| FlowToSchema.IdToDisplayId | utils/flow-to-schema.ts:31-34 | the lookup table has a key for exactly the internal ids of the nodes |
| FlowToSchema.BuildIdToDisplayId | utils/flow-to-schema.ts:31-34 | the table-building loop computes the lookup table |
| FlowToSchema.IdToDisplayIdOfNode | utils/flow-to-schema.ts:31-34 | with distinct internal ids, each node's id maps to its own display id |
| FlowToSchema.FindStart | utils/flow-to-schema.ts:36 | the start lookup finds the first node with a start flag, or nothing when none has it |
| FlowToSchema.ExportEdges | utils/flow-to-schema.ts:41-63 | edges are exported one for one, in order |
| FlowToSchema.ExportEdgeWithLoop | utils/flow-to-schema.ts:41-62 | an edge exported with the collapsing loop equals its specified export |
| FlowToSchema.ExportEdgeListWithLoop | utils/flow-to-schema.ts:41-63 | the outgoing edges are exported in order, each edge as its specified export |
| FlowToSchema.ExportNodeWithLoop | utils/flow-to-schema.ts:39-70 | a node exported edge by edge equals its specified export |
| FlowToSchema.ExportNodeListWithLoop | utils/flow-to-schema.ts:38-71 | the node list is exported in order, each node as its specified export |
| FlowToSchema.ExportFlow | utils/flow-to-schema.ts:29-77 | the export as the source runs it equals the specified schema |
| FlowToSchema.ExportNodes | utils/flow-to-schema.ts:38-71 | schema nodes correspond one to one and in order with the nodes, carrying display id, description and prompt and one edge per outgoing edge |
| FlowToSchema.ExportTarget | utils/flow-to-schema.ts:42 | `to_node_id` is the target's display id, or the raw target id when no node has it or its display id is empty |
| FlowToSchema.ExportConditionAndParams | utils/flow-to-schema.ts:43-60 | a missing or empty condition exports as `""`; parameters are omitted exactly when the collapsed map is empty and otherwise denote it |
| FlowToSchema.ExportStart | utils/flow-to-schema.ts:36-74 | `start_node_id` is the display id of the first start node, or `""` when there is none |
| ImportValidation.Messages | utils/schema-to-flow.ts:17-109 | each reported problem becomes one message, in order |
| ImportValidation.Issues | utils/schema-to-flow.ts:16-35 | a non-object input gives exactly the not-an-object error; a missing or empty node array stops checking with one or two errors |
| ImportValidation.CheckEdgeFields | utils/schema-to-flow.ts:77-89 | the field checks of an edge object report its specified problems |
| ImportValidation.EdgeClean | utils/schema-to-flow.ts:77-89 | an edge draws no problem exactly when it is well formed |
| ImportValidation.CheckEdge | utils/schema-to-flow.ts:69-90 | an edge that is not an object is reported once; an object gets its target, condition and parameter checks |
| ImportValidation.CheckEdges | utils/schema-to-flow.ts:68-91 | the edge loop reports the problems of every edge in order |
| ImportValidation.CheckNodeFields | utils/schema-to-flow.ts:48-91 | the field checks of a node object report its problems and record its id when it is valid |
| ImportValidation.CheckNode | utils/schema-to-flow.ts:39-92 | a node that is not an object is reported once; an object gets its field checks and, when valid, its id recorded |
| ImportValidation.CheckNodes | utils/schema-to-flow.ts:37-92 | the node loop reports the problems of every node and records exactly the valid ids |
| ImportValidation.CheckTargets | utils/schema-to-flow.ts:105-112 | the reference check of one node's edges reports its unknown targets |
| ImportValidation.CheckReferences | utils/schema-to-flow.ts:101-114 | the reference pass reports the unknown targets of every node |
| ImportValidation.CollectIssues | utils/schema-to-flow.ts:13-117 | the validator's pushes are the specified problem list |
| ImportValidation.ValidateImportSchema | utils/schema-to-flow.ts:13-117 | the returned messages are those of every problem found, in order |
| ImportValidation.ValidateImportClean | utils/schema-to-flow.ts:13-117 | the validator reports nothing exactly for the inputs the importer accepts |
| ImportValidation.IdsMeaning | utils/schema-to-flow.ts:48-55 | the recorded ids are exactly the non-blank string ids of the nodes checked so far |
| ImportValidation.NodeClean | utils/schema-to-flow.ts:43-91 | a node draws no problem exactly when it is well formed and its id is new |
| ImportValidation.NodesCleanOnlyIf | utils/schema-to-flow.ts:37-92 | a clean node pass means well-formed nodes with pairwise different ids |
| ImportValidation.NodesCleanIf | utils/schema-to-flow.ts:37-92 | well-formed nodes with pairwise different ids give a clean node pass |
| ImportValidation.NodeRefsClean | utils/schema-to-flow.ts:104-112 | one node's edges raise no reference problem exactly when all their targets are declared |
| ImportValidation.RefsClean | utils/schema-to-flow.ts:101-114 | with well-formed nodes, the reference pass is clean exactly when every edge target is declared |
| ImportValidation.RefShape | utils/schema-to-flow.ts:101-114 | the reference pass reports only unknown targets, each of a dangling edge |
| ImportValidation.RefReported | utils/schema-to-flow.ts:101-114 | every dangling edge is reported by the reference pass |
| ImportValidation.NodeListShape | utils/schema-to-flow.ts:39-92 | every problem of the node pass concerns one node and is found by that node's own checks |
| ImportValidation.IssuesSplit | utils/schema-to-flow.ts:21-114 | past the top-level checks the report is the node pass, the start check and the reference pass, in that order |
| ImportValidation.NodeProblemsReported | utils/schema-to-flow.ts:39-92 | checking is not fail-fast: every problem of every node is reported |
| ImportValidation.EdgeProblemsReported | utils/schema-to-flow.ts:68-91 | every problem of every edge of an object node is reported |
| ImportValidation.NonObjectsReported | utils/schema-to-flow.ts:43-75 | a non-object node costs exactly one message and checking continues; a non-object edge is reported too |
| ImportValidation.DuplicateReported | utils/schema-to-flow.ts:51-53 | a duplicate is reported at exactly the nodes whose valid id an earlier node already declared |
| ImportValidation.MissingIdReported | utils/schema-to-flow.ts:48-49 | a missing id is reported exactly for an object node without a non-blank string id, and such a node is never a duplicate |
| ImportValidation.IdsNonEmpty | utils/schema-to-flow.ts:95 | the recorded ids are non-empty exactly when some node declares an id |
| ImportValidation.StartReported | utils/schema-to-flow.ts:95-99 | `start_node_id` draws an error exactly when it is a non-blank string naming no node while some node has an id |
| ImportValidation.TargetReported | utils/schema-to-flow.ts:101-114 | every non-blank edge target naming no node is reported with its text, and nothing else is reported as an unknown target |
| ImportValidation.DanglingEdgeExample | utils/schema-to-flow.ts:101-114 | a one-node file whose only edge targets `missing` draws exactly the unknown-target error |
| AutoLayout.RowStartX | utils/schema-to-flow.ts:170-171 | the row start is exactly minus half the row width, so the halving is exact |
| AutoLayout.SlotFormula | utils/schema-to-flow.ts:172-176 | place `i` of a row of `m` nodes in level `li` is at x = 30 - 170m + 340i, y = 230li |
| AutoLayout.RowSpacing | utils/schema-to-flow.ts:172-176 | neighbouring places are one node width and one gap apart, and rows one node height and one gap apart |
| AutoLayout.RowCentred | utils/schema-to-flow.ts:167-177 | every row is symmetric about x = 0 |
| AutoLayout.ExpandLevel | utils/schema-to-flow.ts:144-155 | one round moves the queue into a level and pushes, once each, the neighbours not yet visited, marking them |
| AutoLayout.PushNeighbor | utils/schema-to-flow.ts:150-153 | a neighbour not yet visited is marked and pushed; a visited one leaves queue and set as they were |
| AutoLayout.PushNeighbors | utils/schema-to-flow.ts:149-154 | the inner loop pushes and marks each unvisited neighbour at its first occurrence |
| AutoLayout.BfsInit | utils/schema-to-flow.ts:139-141 | the start node alone, queued and visited, satisfies the search invariant |
| AutoLayout.BfsFromLayers | utils/schema-to-flow.ts:138-158 | the levels the search takes from the start, in queue order, are breadth-first layers: the start first, each level reached from the one before, every neighbour at most one level on, no node twice |
| AutoLayout.BfsOrderExample | utils/schema-to-flow.ts:143-156 | from node 0 with neighbours 1 then 2, the levels are `[[0], [1, 2]]`: the order within a level is the push order |
| AutoLayout.Bfs | utils/schema-to-flow.ts:138-158 | the levels are exactly those the queue discipline determines, level by level and in order within each level; they are breadth-first layers, and the visited set is exactly the nodes they hold |
| AutoLayout.UnvisitedFacts | utils/schema-to-flow.ts:160-165 | the final row holds exactly the indices below `n` outside the visited set, in strictly ascending order; all of them when nothing was visited |
| AutoLayout.UnreachableRow | utils/schema-to-flow.ts:160-165 | the loop builds exactly the final row: the unvisited indices below `n`, in ascending order; all of them when nothing was visited |
| AutoLayout.ComputeLevels | utils/schema-to-flow.ts:134-165 | the rows, with their order, are fixed by the graph and start: the search's levels then the unreached row; every index is in exactly one row; an out-of-range start puts every node in one row |
| AutoLayout.PlaceLevels | utils/schema-to-flow.ts:167-178 | the node at place `i` of row `k` gets that slot's position; indices in no row are untouched |
| AutoLayout.Layout | utils/schema-to-flow.ts:124-181 | every index in `[0, n)` gets exactly one position, the slot of its place in its row, and the rows are the ones the graph and start determine, so the positions are too |
| SchemaToFlow.TableKeys | utils/schema-to-flow.ts:189-196 | both lookup tables have a key for exactly the display ids of the schema nodes |
| SchemaToFlow.TablesAtLast | utils/schema-to-flow.ts:189-196 | the last node with a display id supplies its fresh id and index |
| SchemaToFlow.TablesAgree | utils/schema-to-flow.ts:189-196 | the two tables name the same node for each display id |
| SchemaToFlow.UniqueIdsResolve | utils/schema-to-flow.ts:189-196 | with distinct display ids, node `i` gets fresh id `i` and index `i` |
| SchemaToFlow.BuildIdMap | utils/schema-to-flow.ts:189-192 | the id-table loop computes the display-id to fresh-id table |
| SchemaToFlow.IdMapCovers | utils/schema-to-flow.ts:189-192 | every schema node's display id has a fresh id, so the non-null lookup never fails |
| SchemaToFlow.BuildIndexMap | utils/schema-to-flow.ts:195-196 | the index-table loop computes the display-id to index table |
| SchemaToFlow.Neighbors | utils/schema-to-flow.ts:201-204 | every neighbour index is an index the table holds |
| SchemaToFlow.AdjacencyOk | utils/schema-to-flow.ts:198-206 | every adjacency entry is a node index, so the layout input is valid |
| SchemaToFlow.BuildAdjacency | utils/schema-to-flow.ts:198-206 | the adjacency loops compute, per node, the indices of its resolvable targets |
| SchemaToFlow.ImportParams | utils/schema-to-flow.ts:233-240 | the parameter list is present only for a non-empty record and holds its entries in order, each with a fresh id |
| SchemaToFlow.ImportParamsMeaning | utils/schema-to-flow.ts:233-240 | the rebuilt parameter list denotes the record it came from |
| SchemaToFlow.BuildEdges | utils/schema-to-flow.ts:224-253 | the edge loop computes the specified edge list |
| SchemaToFlow.ImportedEdges | utils/schema-to-flow.ts:224-253 | the edges are exactly one per schema edge whose target resolves, from the fresh id of its node to the fresh id of its target |
| SchemaToFlow.ImportClosed | utils/schema-to-flow.ts:224-253 | no imported edge dangles |
| SchemaToFlow.SchemaToFlow | utils/schema-to-flow.ts:187-256 | one node per schema node in order, the specified edges, and every node at the slot of its place in the layout rows, which the schema determines and which partition the indices |
| SchemaToFlow.ImportNodeFields | utils/schema-to-flow.ts:212-222 | a node copies display id, description and prompt, and is start exactly when its id is `start_node_id` |
| RoundTrip.SchemaOfJson | components/ui/ImportJsonButton.tsx:55-70 | reading back the written file gives the schema that was written |
| RoundTrip.SchemaJsonClean | utils/schema-to-flow.ts:13-117 | the file of a schema draws no message exactly when the schema meets the validator's schema-level conditions |
| RoundTrip.ExportedStart | utils/flow-to-schema.ts:36-74 | with one start node, the export names it by its display id |
| RoundTrip.ExportedIdsDistinct | utils/flow-to-schema.ts:65-66 | display ids distinct after trimming give distinct schema node ids |
| RoundTrip.ExportedTargetsDeclared | utils/flow-to-schema.ts:42 | in a graph without dangling edges every exported target is a non-blank display id of an exported node |
| RoundTrip.ExportIsImportable | utils/flow-to-schema.ts:29-77 | the export of a graph with one start node, no dangling edge and non-blank display ids distinct after trimming meets every schema-level condition |
| RoundTrip.ExportValidates | utils/schema-to-flow.ts:13-117 | the validator reports nothing on the exported file of such a graph |
| RoundTrip.ImportedNodesKept | utils/schema-to-flow.ts:212-222 | importing the export keeps every node in place with its display id, description, prompt and start flag, under distinct fresh ids |
| RoundTrip.ImportedParamMap | utils/schema-to-flow.ts:233-240 | the parameter map of an edge survives export and import |
| RoundTrip.EdgeImport | utils/schema-to-flow.ts:226-252 | each outgoing edge exports to a schema edge that resolves on import and becomes an edge with the same ends, condition and parameter map |
| RoundTrip.GroupedPermutation | utils/flow-to-schema.ts:38-41 | grouping edges by source node only reorders the edges of a graph without dangling edges |
| RoundTrip.EdgeMeaningsKept | utils/schema-to-flow.ts:224-253 | the imported edges carry, with multiplicity, exactly the (source display id, target display id, condition, parameter map) of the original edges |
| RoundTrip.ExportThenImport | components/ui/ImportJsonButton.tsx:55-70 | exporting, writing, validating and importing such a graph gives no messages, the same node data in order, no dangling edge and the same edge tuples with multiplicity |

## Left out

- Rendering and canvas wiring (all JSX components, ReactFlow's change handlers, registries, configuration tables) are not part of this model; they hold no graph logic of their own.
- React machinery (`useState`, `useMemo`, `useCallback`, context) is replaced by sequential methods on a class; stale closures over old state are not modelled.
- The debounced save of both stores and the 2-second reset of the save button's success flag are timers and are not modelled.
- `localStorage`, `window` guards, `console` and try/catch around I/O: the stored value is a `Storage` parameter (absent, unreadable, or an envelope) and the write-back is a result; `clearFlowStorage` and `persist-chatbot-flow.ts` are not part of this model.
- `JSON.stringify` and `JSON.parse` are not modelled as text: the file is a JSON value, and the round trip from schema to JSON value and back is proved instead. Number representation, duplicate member names beyond "last wins", reordering of integer-like record keys and `__proto__` keys are not modelled.
- `crypto.randomUUID`, `Date.now` and `Math.random` are caller-supplied; distinctness of fresh ids is a hypothesis of the round-trip lemmas.
- `ImportJsonButton.tsx` (file reading, modal state, error display, the `fitView` timer) is not part of this model beyond the validate-then-import order of `RoundTrip.ExportThenImport`; `JsonPreviewPanel.tsx` is not part of this model.
- `addEdge`, `updateEdgeData` and `deleteEdge`, which the edge panel calls, are not declared by the flow store's context type, so no store semantics are given to them; the parameter editors return the list they would pass on.
- A JavaScript spread of a patch whose fields are present but `undefined` is not modelled: a patch field is either absent or a value.
- Legacy stored fields that are missing are read as `""` or `false`, and a missing or falsy `schemaVersion` is the value 0.
- EdgeListSection.ParamKeyChange: requires an index inside the list; the source would write a new, partly undefined pair at an index past the end.
- EdgeListSection.ParamValueChange: requires an index inside the list, for the same reason.
- EdgeListSection.ParamRemove: a negative index, which `splice` counts from the end, cannot be given; the index is a natural number.
- AutoLayout.Layout: requires every adjacency entry to be a node index, which `SchemaToFlow.AdjacencyOk` proves for every adjacency the importer builds; the rows are returned as a ghost result.
- RoundTrip.SchemaOfJson: a parameter value that is not a string reads as `""`; the written file only ever holds strings there.
- SchemaToFlow.ImportParamsMeaning: requires a record without an empty key, which every exported record satisfies.
- RoundTrip.ExportThenImport: besides one start node and non-blank display ids distinct after trimming, it requires distinct internal ids and no dangling edge; a dangling edge exports its raw target id, which the validator reports as unknown unless it equals some display id.
- The JavaScript `Map` of the import tables and the validation engine's warning map are modelled as a Dafny `map` or as a key list with per-key lists, keeping insertion order where the code iterates over it.
