# Deterministic execution orchestrator for ROS 2, modelled in Dafny

The orchestrator sits between a data source (a rosbag player) and a set of ROS 2 nodes whose
topics it intercepts. For each node it knows a *node model*: the node's name, the inputs it
reacts to (a topic, or a timer of some period), and for each input the effects of the callback
(publishing on a topic, or publishing a status message). From these models it keeps a
dependency graph of pending callback *actions*. An `RxAction` is "node N receives topic T" and a
`TimerCallbackAction` is a timer firing. Each action is `WAITING`, `READY` or `RUNNING` and may
hold a buffered message. Edges are typed:

- `SAME_NODE`: an action waits for every older action of its node;
- `CAUSALITY`: a received message points at the action whose callback publishes it;
- `SAME_TOPIC`: a publisher waits for every older receiver of the topic it publishes.

An action is released (set `RUNNING`, its buffered message forwarded to its node) only when it is
`READY` and has no outgoing edges. A finished action is removed with its edges, which frees the
actions that waited for it. The data source may publish its next message only once no receiver
of that topic is still `WAITING` or `READY`.

The project models three files of the repository:

- `src/orchestrator/orchestrator/orchestrator_lib/orchestrator.py`, the current `Orchestrator`
  (modules `Orchestrator` and `OrchestratorProperties`);
- `src/orchestrator_dummy_nodes/orchestrator_dummy_nodes/orchestrator_lib/orchestrator.py`, an
  older `Orchestrator` with RxActions only, a per-node `timestep` attribute and a separate
  `next_timestep` (modules `DummyGraph`, `DummyOrchestrator` and `DummyOrchestratorProperties`);
- `src/orchestrator/orchestrator/remapping_generation.py`, which decides which topic remappings
  to intercept (module `RemappingGeneration`).

Shared parts:

- `Wrappers` holds Option, Result and Outcome. A Python `raise` becomes a `Fail`/`Err` result.
- `NodeModels` holds the abstract node model.
- `ActionGraph` holds the actions, the edges and the scans both orchestrators make over their graph.

How the model is built:

- **The graph.** The `networkx.DiGraph` is a map from integer id to action plus a map from
  (from, to) pairs to the edge type. A second `add_edge` on the same pair overwrites its type, as
  in networkx.
- **Iteration order.** networkx iterates nodes in insertion order. Ids are handed out in
  increasing order, so insertion order is id order, and every scan of the source is a scan over
  ids `0 .. nextId`.
- **Classes and state.** Each `Orchestrator` is a Dafny `class` whose fields the methods update in
  place. Each method's loops carry their invariants. Each method is proved against a ghost
  predicate over a value snapshot of the state (`Requested`, `Processed`, `Intercepted`, ...).
  The properties modules prove what the source promises about those predicates.
- **Expansion.** Adding an action in file 1 recursively adds the children its callback's
  publishes call for. `Expansions` defines that sequence of actions and, for each, its parent
  (the action whose publish created it; none for a root). `Expanded` says the graph grew by
  exactly that sequence and that every new action has exactly its own edges: SAME_NODE to the
  older actions of its node, CAUSALITY to its parent, and SAME_TOPIC to the RxActions on the
  topics it publishes, the later `add_edge` winning. `ExpansionEdges` carries those edges through
  the recursion. In the dummy file, whose child creation raises NameError before it adds anything,
  a topic input's actions get the edges of a root (`RootEdges`).
- **Outputs.** Publishing to a node becomes appending `(node, topic, data)` to the log
  `published`. Completing a `Future` becomes the flag `granted`.

## Model

| member | source | states |
|---|---|---|
| NodeModels.NodeModelByName | src/orchestrator/orchestrator/orchestrator_lib/orchestrator.py:526-531 | `__node_model_by_name`: None exactly when no model has the name (where the source raises KeyError); otherwise a model with that name |
| NodeModels.ModelIndex | src/orchestrator/orchestrator/orchestrator_lib/orchestrator.py:526-531 | the index found is the first model with the name; None exactly when no model has it |
| NodeModels.ByNameFindsModel | src/orchestrator/orchestrator/orchestrator_lib/orchestrator.py:526-531 | with unique names, looking a model up by its own name finds that model |
| NodeModels.Listeners | src/orchestrator/orchestrator/orchestrator_lib/orchestrator.py:203-205 | a name is listed exactly when some model with that name lists `TopicInput(topic)` among its possible inputs |
| NodeModels.ListenersDistinct | src/orchestrator/orchestrator/orchestrator_lib/orchestrator.py:203-205 | with unique names, no listener is listed twice |
| ActionGraph.RemoveNode | src/orchestrator/orchestrator/orchestrator_lib/orchestrator.py:521-522 | `remove_node` on the edges: exactly the edges not touching the removed id remain, with their types |
| ActionGraph.FirstMatch | src/orchestrator/orchestrator/orchestrator_lib/orchestrator.py:361-382 | a scan in id order: the id found matches and no smaller id does; None exactly when no id in range matches |
| ActionGraph.Start | src/orchestrator/orchestrator/orchestrator_lib/orchestrator.py:309 | a released action is RUNNING; its node, time, cause and buffered data are unchanged |
| ActionGraph.Released | src/orchestrator/orchestrator/orchestrator_lib/orchestrator.py:294-310 | a release pass keeps every id; an action changes exactly when it is READY without outgoing edges, and then becomes `Start` of itself; with all ids in range nothing releasable is left |
| ActionGraph.ReleasedSettles | src/orchestrator/orchestrator/orchestrator_lib/orchestrator.py:293-310 | a second pass over a released graph releases nothing: the `while repeat` loop stops |
| ActionGraph.ReleasedNothing | src/orchestrator/orchestrator/orchestrator_lib/orchestrator.py:293-310 | a pass that finds nothing releasable changes nothing and publishes nothing |
| ActionGraph.ReleasesExactlyOnce | src/orchestrator/orchestrator/orchestrator_lib/orchestrator.py:304-310 | without a ready timer, a pass publishes one entry per released action, each carrying that action's node, topic and data, and nothing else |
| ActionGraph.EarliestWaiting | src/orchestrator/orchestrator/orchestrator_lib/orchestrator.py:473-483 | the minimum loop for an external input: None exactly when no RxAction on the topic is WAITING; otherwise the least timestamp among them, attained by one of them |
| ActionGraph.Buffered | src/orchestrator/orchestrator/orchestrator_lib/orchestrator.py:490-517 | the buffering loop keeps every id; an action changes exactly when it passes the buffering test, and then becomes READY holding the message |
| ActionGraph.ExternalInputBuffersEarliest | src/orchestrator/orchestrator/orchestrator_lib/orchestrator.py:471-511 | an external input is buffered exactly at the WAITING RxActions on its topic with the earliest timestamp |
| ActionGraph.PathDescends | src/orchestrator/orchestrator/orchestrator_lib/orchestrator.py:242-254 | ids strictly decrease along every path of the graph, since each edge leaves the newest action |
| ActionGraph.GraphAcyclic | src/orchestrator/orchestrator/orchestrator_lib/orchestrator.py:242-254 | hence the graph has no cycle |
| ActionGraph.UnconstrainedIsOldest | src/orchestrator/orchestrator/orchestrator_lib/orchestrator.py:245-280 | an action without outgoing edges is the oldest of its node and older than every receiver of a topic it publishes |
| ActionGraph.ShapePreserves | src/orchestrator/orchestrator/orchestrator_lib/orchestrator.py:490-517 | changing only states and buffered data keeps every ordering invariant of the graph |
| ActionGraph.ReleasedPreserves | src/orchestrator/orchestrator/orchestrator_lib/orchestrator.py:294-310 | a release pass keeps the graph invariants |
| ActionGraph.BufferedPreserves | src/orchestrator/orchestrator/orchestrator_lib/orchestrator.py:490-517 | buffering keeps the graph invariants |
| ActionGraph.SameNodeEdgesSpec | src/orchestrator/orchestrator/orchestrator_lib/orchestrator.py:246-249 | the SAME_NODE loop adds an edge from the new action to every other action of its node, and no other edge |
| ActionGraph.TopicEdgesSpec | src/orchestrator/orchestrator/orchestrator_lib/orchestrator.py:276-280 | the SAME_TOPIC loop adds an edge from the publisher to every RxAction on the topic, and no other edge |
| ActionGraph.EffectEdgesSpec | src/orchestrator/orchestrator/orchestrator_lib/orchestrator.py:272-280 | over all effects: an edge from the publisher to every RxAction on a topic it publishes, and no other edge |
| ActionGraph.RemovePreserves | src/orchestrator/orchestrator/orchestrator_lib/orchestrator.py:521-522 | removing a node with its edges keeps the graph invariants |
| ActionGraph.AppendedStep | src/orchestrator/orchestrator/orchestrator_lib/orchestrator.py:209-210 | adding the next expected action under the next id extends the record of the actions added so far |
| Orchestrator.GraphIsBusy | src/orchestrator/orchestrator/orchestrator_lib/orchestrator.py:352-359 | `__graph_is_busy` holds exactly when some action is RUNNING or WAITING |
| Orchestrator.ReadyForNextInput | src/orchestrator/orchestrator/orchestrator_lib/orchestrator.py:325-350 | raises exactly when nothing is pending; always true for a pending clock step; for a pending message false exactly when some RxAction on its topic is READY or WAITING |
| Orchestrator.FindRunningAction | src/orchestrator/orchestrator/orchestrator_lib/orchestrator.py:361-371 | the first RUNNING action whose callback publishes the topic; None (ActionNotFoundError) exactly when there is none |
| Orchestrator.FindRunningActionStatus | src/orchestrator/orchestrator/orchestrator_lib/orchestrator.py:373-382 | the first RUNNING action of the node whose callback publishes a status; None exactly when there is none |
| Orchestrator.ListenerActions | src/orchestrator/orchestrator/orchestrator_lib/orchestrator.py:201-205 | one WAITING RxAction without data at time t on the topic per listening model, in model order |
| Orchestrator.ListenerActionsCover | src/orchestrator/orchestrator/orchestrator_lib/orchestrator.py:203-205 | every model listening on the topic gets one of them |
| Orchestrator.ListenerActionsDistinct | src/orchestrator/orchestrator/orchestrator_lib/orchestrator.py:203-205 | with unique model names, no node gets two of them |
| Orchestrator.FloorDiv | src/orchestrator/orchestrator/orchestrator_lib/orchestrator.py:182 | Python's `//` rounds toward minus infinity: the quotient times the divisor lies within one divisor below the dividend, also for a negative divisor |
| Orchestrator.TimerStep | src/orchestrator/orchestrator/orchestrator_lib/orchestrator.py:182-192 | the decision for one timer: a step longer than the period raises, a timer fires exactly when its next firing time is at most t |
| Orchestrator.NextFireBounds | src/orchestrator/orchestrator/orchestrator_lib/orchestrator.py:182-184 | the next firing time is a multiple of the period, after the last time and at most one period later |
| Orchestrator.NextFireLeast | src/orchestrator/orchestrator/orchestrator_lib/orchestrator.py:182-184 | the next firing time is the least multiple of the period after the last time |
| Orchestrator.TimerFiresOnMultiple | src/orchestrator/orchestrator/orchestrator_lib/orchestrator.py:182-192 | a timer fires exactly when a multiple of its period lies in (last, t] |
| Orchestrator.TimerFiresAtMostOnce | src/orchestrator/orchestrator/orchestrator_lib/orchestrator.py:186-189 | the step guard leaves at most one multiple of the period in (last, t] |
| Orchestrator.FiringTimers | src/orchestrator/orchestrator/orchestrator_lib/orchestrator.py:181-192 | the firing timers in list order, or the error of the first timer that raises |
| Orchestrator.FiringErrorSticks | src/orchestrator/orchestrator/orchestrator_lib/orchestrator.py:181-189 | once a timer raises, the rest of the list is not looked at |
| Orchestrator.FiringStep | src/orchestrator/orchestrator/orchestrator_lib/orchestrator.py:181-192 | one more timer extends the result for the timers before it by its own decision |
| Orchestrator.TimerActionsAppend | src/orchestrator/orchestrator/orchestrator_lib/orchestrator.py:190-192 | the action list of one more firing timer ends with that timer's READY action |
| Orchestrator.AddedNodeWellFormed | src/orchestrator/orchestrator/orchestrator_lib/orchestrator.py:242-254 | the new action with its SAME_NODE and CAUSALITY edges keeps the invariant, its own SAME_TOPIC edges aside |
| Orchestrator.AddedActionKept | src/orchestrator/orchestrator/orchestrator_lib/orchestrator.py:239-263 | after the effects of the new action are added, the graph has only grown, the action keeps its id, an edge to every older action of its node and its CAUSALITY edge to the parent |
| Orchestrator.EffectEdgesDescend | src/orchestrator/orchestrator/orchestrator_lib/orchestrator.py:272-280 | under the layering, no SAME_TOPIC edge of a receiver reaches itself or a newer action |
| Orchestrator.EffectEdgesWellFormed | src/orchestrator/orchestrator/orchestrator_lib/orchestrator.py:272-280 | the SAME_TOPIC edges of the newest action restore the invariant and never overwrite a CAUSALITY edge |
| Orchestrator.EffectEdgesKeepCausality | src/orchestrator/orchestrator/orchestrator_lib/orchestrator.py:272-280 | under the layering, no SAME_TOPIC edge of a receiver overwrites one of its CAUSALITY edges |
| Orchestrator.CauseEffectsKept | src/orchestrator/orchestrator/orchestrator_lib/orchestrator.py:265-289 | after the effects of a cause are added, the graph has only grown from the cause on, CAUSALITY edges are kept, and every descendant is a WAITING RxAction of lower rank |
| Expansions.ExpansionSpawns | src/orchestrator/orchestrator/orchestrator_lib/orchestrator.py:239-289 | every action the expansion of an action adds below it is a WAITING RxAction without data at the action's time, whose cause ranks strictly lower |
| Expansions.EffectsSpawn | src/orchestrator/orchestrator/orchestrator_lib/orchestrator.py:282-289 | the same for what the effects of an action add |
| Expansions.ChildrenSpawn | src/orchestrator/orchestrator/orchestrator_lib/orchestrator.py:284-289 | the same for what the children on one published topic add, of at most the topic's rank |
| Expansions.ChildrenAddedSpawned | src/orchestrator/orchestrator/orchestrator_lib/orchestrator.py:284-289 | a graph grown by the children's expansion holds only such actions above the old ids |
| Expansions.EffectsAddedSpawned | src/orchestrator/orchestrator/orchestrator_lib/orchestrator.py:282-289 | a graph grown by the effects' expansion holds only such actions above the old ids |
| Expansions.ActionEdgesGrew | src/orchestrator/orchestrator/orchestrator_lib/orchestrator.py:242-254 | the new action with exactly the edges `ActionEdges` gives it is all the graph grows by |
| Expansions.AddedActionExpands | src/orchestrator/orchestrator/orchestrator_lib/orchestrator.py:239-263 | the new action followed by what its effects add is exactly the action's expansion |
| Expansions.ChildrenAtGrew | src/orchestrator/orchestrator/orchestrator_lib/orchestrator.py:284-289 | growing the graph keeps the children already in place, with their CAUSALITY edges |
| Expansions.ChildStep | src/orchestrator/orchestrator/orchestrator_lib/orchestrator.py:286-289 | one model of the loop: a listening model's child and its expansion extend `ChildrenExpansion` and `ChildrenAt` by one; another model adds nothing |
| Expansions.ChildrenAtStep | src/orchestrator/orchestrator/orchestrator_lib/orchestrator.py:286-289 | a child placed at the next id extends `ChildrenAt` by one model |
| Expansions.EffectChildStep | src/orchestrator/orchestrator/orchestrator_lib/orchestrator.py:282-289 | one effect of the loop: a topic publish's children extend `EffectsExpansion` and `EffectChildrenAt` by one effect; a status publish adds nothing |
| Expansions.EffectChildrenAtStep | src/orchestrator/orchestrator/orchestrator_lib/orchestrator.py:282-289 | the children of one more effect, placed at the next block, extend `EffectChildrenAt` by one effect |
| ExpansionEdges.RootStep | src/orchestrator/orchestrator/orchestrator_lib/orchestrator.py:209-210 | adding one more input action with its expansion, each new action with exactly its own edges, extends `Expanded` (actions and edges) by that action |
| ExpansionEdges.ExpandedOwnEdges | src/orchestrator/orchestrator/orchestrator_lib/orchestrator.py:239-289 | every action an `Expanded` growth adds has exactly its own edges, under the parent its place in the expansion names: none for a root, the publishing action for a child |
| ExpansionEdges.ExpandedEdges | src/orchestrator/orchestrator/orchestrator_lib/orchestrator.py:242-254 | edge by edge: an added action has an edge to v exactly when v is an older action of its node, its parent or an RxAction on a topic it publishes; the type is SAME_TOPIC, else CAUSALITY, else SAME_NODE |
| ExpansionEdges.AddedActionParents | src/orchestrator/orchestrator/orchestrator_lib/orchestrator.py:239-263 | the new action's own edges, followed by the exact edges of its effects' children, are the exact edges of its expansion |
| ExpansionEdges.ChildParentsStep | src/orchestrator/orchestrator/orchestrator_lib/orchestrator.py:286-289 | one model of the loop: a listening model's child, whose parent is the cause, brings the exact edges of its expansion |
| ExpansionEdges.EffectParentsStep | src/orchestrator/orchestrator/orchestrator_lib/orchestrator.py:282-289 | one effect of the loop: a topic publish's children bring their exact edges, a status publish adds none |
| ActionGraph.OwnEdgesSpec | src/orchestrator/orchestrator/orchestrator_lib/orchestrator.py:242-280 | an action's own edges are SAME_NODE to the older actions of its node, CAUSALITY to its parent and SAME_TOPIC to the RxActions on topics it publishes, later additions overwriting earlier ones |
| ActionGraph.AddedOwnEdges | src/orchestrator/orchestrator/orchestrator_lib/orchestrator.py:242-280 | the edges `ActionEdges` gives the newest action are exactly its own edges |
| ActionGraph.OwnEdgesGrew | src/orchestrator/orchestrator/orchestrator_lib/orchestrator.py:239-289 | an action keeps exactly its own edges while newer actions are added |
| Expansions.RootsExpansionSnoc | src/orchestrator/orchestrator/orchestrator_lib/orchestrator.py:209-210 | the expansions of one more input action are those before it followed by its own |
| Orchestrator.ListenerFits | src/orchestrator/orchestrator/orchestrator_lib/orchestrator.py:265-267 | every expected action has a model, and its cause is one of that model's inputs (the `assert` of line 267 holds) |
| Orchestrator.TopicInputCovers | src/orchestrator/orchestrator/orchestrator_lib/orchestrator.py:197-210 | a topic input creates a new WAITING RxAction on the topic at time t for every listening model |
| Orchestrator.TopicInputDistinctNodes | src/orchestrator/orchestrator/orchestrator_lib/orchestrator.py:197-210 | with unique model names, no two new actions on the topic belong to one node |
| Orchestrator.InputStep | src/orchestrator/orchestrator/orchestrator_lib/orchestrator.py:209-210 | adding the next expected action appends exactly that action to the new actions on the topic |
| Orchestrator.TimerAddStep | src/orchestrator/orchestrator/orchestrator_lib/orchestrator.py:194-195 | adding the next timer action appends exactly that action to the new timer actions; its descendants are RxActions |
| Orchestrator.RequestedInput | src/orchestrator/orchestrator/orchestrator_lib/orchestrator.py:219-225 | adding the offered message's topic input (its roots and their exact expansion, with exact edges), clearing the offer and granting it is what `Requested` asks for |
| Orchestrator.PassStep | src/orchestrator/orchestrator/orchestrator_lib/orchestrator.py:296-310 | one step of a release pass at an id that is no ready timer |
| Orchestrator.PassLogStep | src/orchestrator/orchestrator/orchestrator_lib/orchestrator.py:304-310 | a released RxAction's data follows what the pass published before |
| Orchestrator.ProcessedLog | src/orchestrator/orchestrator/orchestrator_lib/orchestrator.py:296-312 | unless a ready timer raised, `__process` appends to the log exactly the releases of the full pass, and no ready timer without outgoing edges was present |
| Orchestrator.PassStopsAtTimer | src/orchestrator/orchestrator/orchestrator_lib/orchestrator.py:311-312 | a pass that meets a READY timer without outgoing edges raises there, having released the earlier ids |
| Orchestrator.ReleasedWellFormed | src/orchestrator/orchestrator/orchestrator_lib/orchestrator.py:294-310 | releasing keeps this orchestrator's invariant |
| Orchestrator.DeliveredValid | src/orchestrator/orchestrator/orchestrator_lib/orchestrator.py:489-522 | the state the callback hands to `__process` is the one `Delivered` describes, and it keeps the invariant |
| Orchestrator.BufferedWellFormed | src/orchestrator/orchestrator/orchestrator_lib/orchestrator.py:490-517 | buffering keeps this orchestrator's invariant |
| Orchestrator.RemovedWellFormed | src/orchestrator/orchestrator/orchestrator_lib/orchestrator.py:521-522 | removing an action with its edges keeps this orchestrator's invariant |
| Orchestrator.Orchestrator.constructor | src/orchestrator/orchestrator/orchestrator_lib/orchestrator.py:47-76 | an empty graph, no pending input, simulator_time None, nothing granted or published |
| Orchestrator.Orchestrator.AddSameNodeEdges | src/orchestrator/orchestrator/orchestrator_lib/orchestrator.py:246-249 | the edges become `SameNodeEdges` of the old ones |
| Orchestrator.Orchestrator.AddSameTopicEdges | src/orchestrator/orchestrator/orchestrator_lib/orchestrator.py:276-280 | the edges become `TopicEdges` of the old ones |
| Orchestrator.Orchestrator.AddActionAndEffects | src/orchestrator/orchestrator/orchestrator_lib/orchestrator.py:239-263 | the graph grows by exactly `Expansion` of the action: the action at the next id with exactly the edges `ActionEdges` gives it, then its effects; each child sits at the id its place in the expansion gives, with a CAUSALITY edge to the action; every action added below it is a WAITING RxAction of lower rank; the invariant holds; every action of the expansion has exactly its own edges (`ExpansionEdgesAt`) |
| Orchestrator.Orchestrator.AddNode | src/orchestrator/orchestrator/orchestrator_lib/orchestrator.py:242-254 | the first half of `__add_action_and_effects`: the new node at the next id with its SAME_NODE and CAUSALITY edges |
| Orchestrator.Orchestrator.AddEffectEdges | src/orchestrator/orchestrator/orchestrator_lib/orchestrator.py:272-280 | the edges become `EffectEdges` of the old ones |
| Orchestrator.Orchestrator.AddAllEffectsForCause | src/orchestrator/orchestrator/orchestrator_lib/orchestrator.py:265-289 | the SAME_TOPIC edges `EffectEdges`, then the graph grows by exactly `EffectsExpansion` of the cause: for each published topic, a child per listening model at the id `EffectChildrenAt` gives, with a CAUSALITY edge to the cause; CAUSALITY edges are never overwritten; every descendant is a WAITING RxAction of lower rank; every descendant has exactly its own edges, CAUSALITY to the action that published its topic |
| Orchestrator.Orchestrator.AddEffectChildren | src/orchestrator/orchestrator/orchestrator_lib/orchestrator.py:282-289 | the loop over the effects grows the graph by exactly `EffectsExpansion` of the cause, with the children where `EffectChildrenAt` says; every descendant has exactly its own edges |
| Orchestrator.Orchestrator.AddEffectChild | src/orchestrator/orchestrator/orchestrator_lib/orchestrator.py:283-289 | one effect: a topic publish adds its children and their expansions, a status publish adds nothing; every action added has exactly its own edges |
| Orchestrator.Orchestrator.AddChildren | src/orchestrator/orchestrator/orchestrator_lib/orchestrator.py:284-289 | the graph grows by exactly `ChildrenExpansion`: for every model listening on the published topic, in model order, a WAITING RxAction at the cause's time with a CAUSALITY edge to the cause (`ChildrenAt`), followed by its own expansion; every action added has exactly its own edges |
| Orchestrator.Orchestrator.AddChild | src/orchestrator/orchestrator/orchestrator_lib/orchestrator.py:287-289 | one model: when it listens on the topic, its WAITING RxAction with a CAUSALITY edge to the cause and that action's expansion; otherwise nothing; every action added has exactly its own edges |
| Orchestrator.Orchestrator.ExpectedRxActions | src/orchestrator/orchestrator/orchestrator_lib/orchestrator.py:201-205 | the loop computes `ListenerActions` |
| Orchestrator.Orchestrator.AddTopicInput | src/orchestrator/orchestrator/orchestrator_lib/orchestrator.py:197-210 | the new actions on the topic are exactly `ListenerActions`, in order, and the graph grows by exactly their expansions (`Expanded`); every new action is a WAITING RxAction at time t; each new action has exactly its own edges: SAME_NODE to the older actions of its node, CAUSALITY to the action that published its topic (none for a root), SAME_TOPIC to the RxActions on the topics it publishes |
| Orchestrator.Orchestrator.AddListenerAction | src/orchestrator/orchestrator/orchestrator_lib/orchestrator.py:209-210 | one turn of the loop: the next expected action is added with its expansion, and the new actions on the topic grow by it; each new action has exactly its own edges: SAME_NODE to the older actions of its node, CAUSALITY to the action that published its topic (none for a root), SAME_TOPIC to the RxActions on the topics it publishes |
| Orchestrator.Orchestrator.ExpectedTimerActions | src/orchestrator/orchestrator/orchestrator_lib/orchestrator.py:179-192 | the loop computes the actions of `FiringTimers`, or its error |
| Orchestrator.Orchestrator.AddFiringTimers | src/orchestrator/orchestrator/orchestrator_lib/orchestrator.py:179-195 | on an error nothing is added; otherwise the graph grows by exactly the expansions of the firing timers' actions, in list order (`Expanded`); each new action has exactly its own edges: SAME_NODE to the older actions of its node, CAUSALITY to the action that published its topic (none for a root), SAME_TOPIC to the RxActions on the topics it publishes |
| Orchestrator.Orchestrator.AddTimerAction | src/orchestrator/orchestrator/orchestrator_lib/orchestrator.py:194-195 | one turn of the loop: the next timer action is added with its expansion, and the new timer actions grow by it; each new action has exactly its own edges: SAME_NODE to the older actions of its node, CAUSALITY to the action that published its topic (none for a root), SAME_TOPIC to the RxActions on the topics it publishes |
| Orchestrator.Orchestrator.AddPendingTimersUntil | src/orchestrator/orchestrator/orchestrator_lib/orchestrator.py:150-195 | raises exactly when simulator_time is None; as written the timer list stays empty (line 177), so the graph is unchanged |
| Orchestrator.Orchestrator.RequestNextInput | src/orchestrator/orchestrator/orchestrator_lib/orchestrator.py:212-237 | the new state is the one `Requested` describes; for an offered message the graph grows by exactly the expansions of the listeners' actions; each new action has exactly its own edges: SAME_NODE to the older actions of its node, CAUSALITY to the action that published its topic (none for a root), SAME_TOPIC to the RxActions on the topics it publishes |
| Orchestrator.Orchestrator.GrantInput | src/orchestrator/orchestrator/orchestrator_lib/orchestrator.py:219-225 | the offered message's topic input is added, growing the graph by exactly the listeners' expansions; the offer is cleared and granted; each new action has exactly its own edges: SAME_NODE to the older actions of its node, CAUSALITY to the action that published its topic (none for a root), SAME_TOPIC to the RxActions on the topics it publishes |
| Orchestrator.Orchestrator.GrantTimestep | src/orchestrator/orchestrator/orchestrator_lib/orchestrator.py:226-235 | the offer is cleared; the pending timers are added, and on success the simulator time becomes the offered time and the offer is granted |
| Orchestrator.Orchestrator.ReleasePass | src/orchestrator/orchestrator/orchestrator_lib/orchestrator.py:296-314 | one pass releases the releasable actions in id order, publishing each, until a ready timer raises |
| Orchestrator.Orchestrator.Process | src/orchestrator/orchestrator/orchestrator_lib/orchestrator.py:291-323 | the new state is the one `Processed` describes: the release pass, then, for a granted message, growth by exactly the expansions of the listeners' actions (`Expanded`); the invariant holds; each new action has exactly its own edges: SAME_NODE to the older actions of its node, CAUSALITY to the action that published its topic (none for a root), SAME_TOPIC to the RxActions on the topics it publishes |
| Orchestrator.Orchestrator.EarliestWaitingTimestep | src/orchestrator/orchestrator/orchestrator_lib/orchestrator.py:473-483 | the loop computes `EarliestWaiting` |
| Orchestrator.Orchestrator.BufferMessage | src/orchestrator/orchestrator/orchestrator_lib/orchestrator.py:490-517 | the actions become `Buffered` of the old ones |
| Orchestrator.Orchestrator.Deliver | src/orchestrator/orchestrator/orchestrator_lib/orchestrator.py:489-522 | buffers, then removes the publishing action with its edges |
| Orchestrator.Orchestrator.InterceptionSubscriptionCallback | src/orchestrator/orchestrator/orchestrator_lib/orchestrator.py:440-524 | the new state and result are the ones `Intercepted` describes: "clock" is ignored, a message no running action or external input explains raises ActionNotFoundError, otherwise it is delivered and then `Processed`, whose grant of an offered message grows the graph by exactly its expansion; each new action has exactly its own edges: SAME_NODE to the older actions of its node, CAUSALITY to the action that published its topic (none for a root), SAME_TOPIC to the RxActions on the topics it publishes |
| Orchestrator.Orchestrator.StatusCallback | src/orchestrator/orchestrator/orchestrator_lib/orchestrator.py:533-540 | the new state and result are the ones `StatusHandled` describes: without a running status-publishing action of the node, ActionNotFoundError; otherwise that action and its edges go, then `Processed`, whose grant grows the graph by exactly the offered message's expansion; each new action has exactly its own edges: SAME_NODE to the older actions of its node, CAUSALITY to the action that published its topic (none for a root), SAME_TOPIC to the RxActions on the topics it publishes |
| Orchestrator.Orchestrator.WaitUntilPublishAllowed | src/orchestrator/orchestrator/orchestrator_lib/orchestrator.py:110-132 | the new state and result are the ones `Offered` describes: a second offer or data before the first time step raises, otherwise the offer is recorded and, when nothing is WAITING or RUNNING, `Requested`, whose grant grows the graph by exactly the expansions of the listeners' actions; each new action has exactly its own edges: SAME_NODE to the older actions of its node, CAUSALITY to the action that published its topic (none for a root), SAME_TOPIC to the RxActions on the topics it publishes |
| Orchestrator.Orchestrator.WaitUntilTimePublishAllowed | src/orchestrator/orchestrator/orchestrator_lib/orchestrator.py:134-148 | the new state and result are the ones `TimeOffered` describes |
| OrchestratorProperties.ProcessedGrows | src/orchestrator/orchestrator/orchestrator_lib/orchestrator.py:291-323 | processing loses no action or edge; the actions it adds are new WAITING RxActions; with nothing pending the ids and edges are unchanged |
| OrchestratorProperties.ProcessedGrantExpands | src/orchestrator/orchestrator/orchestrator_lib/orchestrator.py:291-323 | when processing grants an offered message, the graph past the release pass grows by exactly the expansion of the listeners' actions at the current time: each root followed by its effects and their children; each new action has exactly its own edges: SAME_NODE to the older actions of its node, CAUSALITY to the action that published its topic (none for a root), SAME_TOPIC to the RxActions on the topics it publishes |
| OrchestratorProperties.ProcessedErrors | src/orchestrator/orchestrator/orchestrator_lib/orchestrator.py:291-323 | the only errors are a ready timer (NotImplementedError) and a clock step requested while simulator_time is None |
| OrchestratorProperties.ProcessRaisesIffTimerReady | src/orchestrator/orchestrator/orchestrator_lib/orchestrator.py:296-312 | `__process` raises NotImplementedError exactly when a READY timer action has no outgoing edge |
| OrchestratorProperties.ProcessFixedPoint | src/orchestrator/orchestrator/orchestrator_lib/orchestrator.py:293-323 | unless it raised at a timer, afterwards no action is READY without outgoing edges, even after a granted input added actions |
| OrchestratorProperties.ProcessOnlyReleases | src/orchestrator/orchestrator/orchestrator_lib/orchestrator.py:294-310 | only the actions READY without outgoing edges change, each to RUNNING with its data; with nothing pending no node or edge changes |
| OrchestratorProperties.ProcessPublishes | src/orchestrator/orchestrator/orchestrator_lib/orchestrator.py:304-310 | the log grows by exactly one entry per released action, with its node, topic and buffered data |
| OrchestratorProperties.ProcessGrantsIffQuiescent | src/orchestrator/orchestrator/orchestrator_lib/orchestrator.py:317-348 | a pending message is granted exactly when every RxAction on its topic that is WAITING or READY is releasable, so that the release passes leave none; granting it raises nothing |
| OrchestratorProperties.RequestedTopicInput | src/orchestrator/orchestrator/orchestrator_lib/orchestrator.py:197-224 | granting a message creates one WAITING RxAction at the current time for every listening model, none twice for a node, every new id above every old one |
| OrchestratorProperties.OfferGrantedWhenIdle | src/orchestrator/orchestrator/orchestrator_lib/orchestrator.py:110-132 | while simulator_time is set, an offer made when nothing is WAITING or RUNNING is granted at once, leaving nothing pending and publishing nothing |
| OrchestratorProperties.OfferFailsIff | src/orchestrator/orchestrator/orchestrator_lib/orchestrator.py:117-121 | a data offer raises exactly when an offer is pending or simulator_time is None, and then changes nothing |
| OrchestratorProperties.FirstTimeOfferFails | src/orchestrator/orchestrator/orchestrator_lib/orchestrator.py:134-148 | the first clock offer on an idle graph clears the offer and raises before granting it |
| OrchestratorProperties.TimeOfferSetsTime | src/orchestrator/orchestrator/orchestrator_lib/orchestrator.py:226-235 | once simulator_time is set, a clock offer on an idle graph is granted, sets simulator_time to the offered time and leaves the graph unchanged |
| OrchestratorProperties.DeliveredRemovesPublisher | src/orchestrator/orchestrator/orchestrator_lib/orchestrator.py:521-522 | the publishing action goes with exactly its edges; nothing but the actions changes |
| OrchestratorProperties.DeliveredBuffersOnly | src/orchestrator/orchestrator/orchestrator_lib/orchestrator.py:489-517 | exactly the WAITING RxActions on the topic that are CAUSALITY children of the publisher (for an external input: those at the earliest time) become READY holding the message; their data was None |
| OrchestratorProperties.InterceptNotFoundIff | src/orchestrator/orchestrator/orchestrator_lib/orchestrator.py:443-487 | ActionNotFoundError exactly for a topic other than "clock" that is no external input and that no RUNNING action publishes; then nothing changes |
| OrchestratorProperties.InterceptRemovesPublisher | src/orchestrator/orchestrator/orchestrator_lib/orchestrator.py:521-524 | the publishing action is gone once the callback returns |
| OrchestratorProperties.StatusNotFoundIff | src/orchestrator/orchestrator/orchestrator_lib/orchestrator.py:533-540 | ActionNotFoundError exactly when no RUNNING action of the node publishes a status; otherwise the first one is gone afterwards |
| OrchestratorProperties.StepKeepsTimeUnset | src/orchestrator/orchestrator/orchestrator_lib/orchestrator.py:110-148 | no call sets simulator_time while it is None; a data offer then raises |
| OrchestratorProperties.TimeNeverSet | src/orchestrator/orchestrator/orchestrator_lib/orchestrator.py:226-235 | along any run from a state with simulator_time None it stays None |
| OrchestratorProperties.EveryDataOfferFails | src/orchestrator/orchestrator/orchestrator_lib/orchestrator.py:117-121 | along any run from the initial state every data offer raises |
| DummyGraph.SpawnsChildSpec | src/orchestrator_dummy_nodes/orchestrator_dummy_nodes/orchestrator_lib/orchestrator.py:243-249 | child creation is reached exactly when some effect publishes a topic that some model listens on |
| DummyGraph.AttemptedSpec | src/orchestrator_dummy_nodes/orchestrator_dummy_nodes/orchestrator_lib/orchestrator.py:184-185 | `__add_topic_input` adds the expected actions up to and including the first that raises; the last one added raises exactly when some would |
| DummyGraph.AnySpawnsTail | src/orchestrator_dummy_nodes/orchestrator_dummy_nodes/orchestrator_lib/orchestrator.py:184-185 | past an action whose expansion does not raise, one of the actions raises exactly when one of the rest does |
| DummyGraph.AttemptedStops | src/orchestrator_dummy_nodes/orchestrator_dummy_nodes/orchestrator_lib/orchestrator.py:184-185 | the first raising action, at index i, is the last one added |
| DummyGraph.AttemptedAll | src/orchestrator_dummy_nodes/orchestrator_dummy_nodes/orchestrator_lib/orchestrator.py:184-185 | when none raises, all are added |
| ActionGraph.ActionEdgesSpec | src/orchestrator_dummy_nodes/orchestrator_dummy_nodes/orchestrator_lib/orchestrator.py:213-240 | the new action gets an edge to every other action of its node, to its parent and to every RxAction on a topic it publishes, and no other edge; a later edge overwrites an earlier type (SAME_TOPIC over CAUSALITY over SAME_NODE); both orchestrators add their edges this way |
| DummyGraph.EffectEdgesWellFormed | src/orchestrator_dummy_nodes/orchestrator_dummy_nodes/orchestrator_lib/orchestrator.py:232-240 | the SAME_TOPIC edges of the newest action restore the invariant (a SAME_TOPIC self-edge included) |
| DummyGraph.EffectEdgesOrdered | src/orchestrator_dummy_nodes/orchestrator_dummy_nodes/orchestrator_lib/orchestrator.py:232-240 | the SAME_TOPIC edges point from the new action to older RxActions or to itself, they are the ones it still lacked, and the graph only grows |
| DummyGraph.InputStopped | src/orchestrator_dummy_nodes/orchestrator_dummy_nodes/orchestrator_lib/orchestrator.py:172-185 | a loop that stopped at the first raising action has done what `InputAdded` describes |
| DummyGraph.InputDone | src/orchestrator_dummy_nodes/orchestrator_dummy_nodes/orchestrator_lib/orchestrator.py:184-185 | a loop that added every expected action has done what `InputAdded` describes |
| DummyGraph.InputAddedEdges | src/orchestrator_dummy_nodes/orchestrator_dummy_nodes/orchestrator_lib/orchestrator.py:207-240 | each action a topic input adds has an edge to v exactly when v is an older action of its node (SAME_NODE) or an RxAction on a topic it publishes (SAME_TOPIC, which wins); it has no CAUSALITY edge |
| DummyGraph.RootEdgesStep | src/orchestrator_dummy_nodes/orchestrator_dummy_nodes/orchestrator_lib/orchestrator.py:184-185 | one more expected action added with its own edges keeps the earlier ones' edges exact |
| DummyGraph.RequestedOffer | src/orchestrator_dummy_nodes/orchestrator_dummy_nodes/orchestrator_lib/orchestrator.py:199-205 | clearing the offer, adding its topic input and granting unless that raised is what `Requested` describes |
| DummyGraph.ReleasedWellFormed | src/orchestrator_dummy_nodes/orchestrator_dummy_nodes/orchestrator_lib/orchestrator.py:254-268 | releasing keeps this orchestrator's invariant |
| DummyGraph.BufferedWellFormed | src/orchestrator_dummy_nodes/orchestrator_dummy_nodes/orchestrator_lib/orchestrator.py:424-450 | buffering keeps this orchestrator's invariant |
| DummyGraph.RemovedWellFormed | src/orchestrator_dummy_nodes/orchestrator_dummy_nodes/orchestrator_lib/orchestrator.py:454-455 | removing an action with its edges keeps this orchestrator's invariant |
| DummyGraph.DeliveredValid | src/orchestrator_dummy_nodes/orchestrator_dummy_nodes/orchestrator_lib/orchestrator.py:424-455 | the state the callback hands to `__process` is the one `Delivered` describes, and it keeps the invariant |
| DummyOrchestrator.Orchestrator.constructor | src/orchestrator_dummy_nodes/orchestrator_dummy_nodes/orchestrator_lib/orchestrator.py:47-72 | an empty graph, no pending input or clock step, simulator_time None, nothing granted or published |
| DummyOrchestrator.Orchestrator.AddSameNodeEdges | src/orchestrator_dummy_nodes/orchestrator_dummy_nodes/orchestrator_lib/orchestrator.py:213-217 | the edges become `SameNodeEdges` of the old ones |
| DummyOrchestrator.Orchestrator.AddSameTopicEdges | src/orchestrator_dummy_nodes/orchestrator_dummy_nodes/orchestrator_lib/orchestrator.py:236-240 | the edges become `TopicEdges` of the old ones |
| DummyOrchestrator.Orchestrator.AddEffectEdges | src/orchestrator_dummy_nodes/orchestrator_dummy_nodes/orchestrator_lib/orchestrator.py:232-240 | the edges become `EffectEdges` of the old ones |
| DummyOrchestrator.Orchestrator.SpawnChildren | src/orchestrator_dummy_nodes/orchestrator_dummy_nodes/orchestrator_lib/orchestrator.py:242-249 | raises NameError (unbound `timestep`) exactly when some published topic has a listening model |
| DummyOrchestrator.Orchestrator.AddAllEffectsForCause | src/orchestrator_dummy_nodes/orchestrator_dummy_nodes/orchestrator_lib/orchestrator.py:225-249 | adds exactly the SAME_TOPIC edges of the cause's effects, then raises exactly when the cause would create a child |
| DummyOrchestrator.Orchestrator.AddActionAndEffects | src/orchestrator_dummy_nodes/orchestrator_dummy_nodes/orchestrator_lib/orchestrator.py:207-223 | a WAITING RxAction at the given time gets the next id and exactly the edges `ActionEdges` lists; it raises exactly when its effects create a child |
| DummyOrchestrator.Orchestrator.ExpectedRxActions | src/orchestrator_dummy_nodes/orchestrator_dummy_nodes/orchestrator_lib/orchestrator.py:176-180 | the loop computes `ListenerActions` |
| DummyOrchestrator.Orchestrator.AddTopicInput | src/orchestrator_dummy_nodes/orchestrator_dummy_nodes/orchestrator_lib/orchestrator.py:172-185 | the expected actions are added in order under fresh ids up to the first that raises; the new state is what `InputAdded` describes; each new action has exactly the edges of a root: SAME_NODE to the older actions of its node and SAME_TOPIC to the RxActions on the topics it publishes, and no CAUSALITY edge |
| DummyOrchestrator.Orchestrator.AddExpectedAction | src/orchestrator_dummy_nodes/orchestrator_dummy_nodes/orchestrator_lib/orchestrator.py:184-185 | one more expected action added under the next id; on an error the loop's outcome is final; each new action has exactly the edges of a root: SAME_NODE to the older actions of its node and SAME_TOPIC to the RxActions on the topics it publishes, and no CAUSALITY edge |
| DummyOrchestrator.Orchestrator.RequestNextInput | src/orchestrator_dummy_nodes/orchestrator_dummy_nodes/orchestrator_lib/orchestrator.py:187-205 | the new state is the one `Requested` describes; for an offered message, the expected actions are added in order up to the first that raises; each new action has exactly the edges of a root: SAME_NODE to the older actions of its node and SAME_TOPIC to the RxActions on the topics it publishes, and no CAUSALITY edge |
| DummyOrchestrator.Orchestrator.ReleasePass | src/orchestrator_dummy_nodes/orchestrator_dummy_nodes/orchestrator_lib/orchestrator.py:256-268 | one pass releases the releasable actions in id order, publishing each |
| DummyOrchestrator.Orchestrator.ReleaseAll | src/orchestrator_dummy_nodes/orchestrator_dummy_nodes/orchestrator_lib/orchestrator.py:253-268 | the actions become `Released` of the old ones, and the log grows by `Releases` |
| DummyOrchestrator.Orchestrator.Process | src/orchestrator_dummy_nodes/orchestrator_dummy_nodes/orchestrator_lib/orchestrator.py:251-277 | the new state is the one `Processed` describes; the invariant holds; a request it makes adds the expected actions; each new action has exactly the edges of a root: SAME_NODE to the older actions of its node and SAME_TOPIC to the RxActions on the topics it publishes, and no CAUSALITY edge |
| DummyOrchestrator.Orchestrator.RequestIfReady | src/orchestrator_dummy_nodes/orchestrator_dummy_nodes/orchestrator_lib/orchestrator.py:271-277 | the pending offer is requested exactly when `__ready_for_next_input` holds; the request adds the expected actions; each new action has exactly the edges of a root: SAME_NODE to the older actions of its node and SAME_TOPIC to the RxActions on the topics it publishes, and no CAUSALITY edge |
| DummyOrchestrator.Orchestrator.EarliestWaitingTimestep | src/orchestrator_dummy_nodes/orchestrator_dummy_nodes/orchestrator_lib/orchestrator.py:410-418 | the loop computes `EarliestWaiting` |
| DummyOrchestrator.Orchestrator.BufferMessage | src/orchestrator_dummy_nodes/orchestrator_dummy_nodes/orchestrator_lib/orchestrator.py:424-450 | the actions become `Buffered` of the old ones |
| DummyOrchestrator.Orchestrator.Deliver | src/orchestrator_dummy_nodes/orchestrator_dummy_nodes/orchestrator_lib/orchestrator.py:424-455 | buffers, then removes the publishing action with its edges |
| DummyOrchestrator.Orchestrator.InterceptionSubscriptionCallback | src/orchestrator_dummy_nodes/orchestrator_dummy_nodes/orchestrator_lib/orchestrator.py:379-457 | the new state and result are the ones `Intercepted` describes; a request it makes adds the expected actions; each new action has exactly the edges of a root: SAME_NODE to the older actions of its node and SAME_TOPIC to the RxActions on the topics it publishes, and no CAUSALITY edge |
| DummyOrchestrator.Orchestrator.StatusCallback | src/orchestrator_dummy_nodes/orchestrator_dummy_nodes/orchestrator_lib/orchestrator.py:466-473 | the new state and result are the ones `StatusHandled` describes; a request it makes adds the expected actions; each new action has exactly the edges of a root: SAME_NODE to the older actions of its node and SAME_TOPIC to the RxActions on the topics it publishes, and no CAUSALITY edge |
| DummyOrchestrator.Orchestrator.WaitUntilPublishAllowed | src/orchestrator_dummy_nodes/orchestrator_dummy_nodes/orchestrator_lib/orchestrator.py:106-129 | the new state and result are the ones `Offered` describes; a request it makes adds the expected actions; each new action has exactly the edges of a root: SAME_NODE to the older actions of its node and SAME_TOPIC to the RxActions on the topics it publishes, and no CAUSALITY edge |
| DummyOrchestrator.Orchestrator.WaitUntilTimePublishAllowed | src/orchestrator_dummy_nodes/orchestrator_dummy_nodes/orchestrator_lib/orchestrator.py:131-139 | the new state and result are the ones `TimeOffered` describes |
| DummyOrchestratorProperties.ProcessedGrows | src/orchestrator_dummy_nodes/orchestrator_dummy_nodes/orchestrator_lib/orchestrator.py:251-277 | processing loses no action or edge; new actions are WAITING RxActions without data above the old ids; the log grows by `Releases`; with nothing pending it only releases |
| DummyOrchestratorProperties.ProcessedErrors | src/orchestrator_dummy_nodes/orchestrator_dummy_nodes/orchestrator_lib/orchestrator.py:251-277 | the only error is the NameError of child creation, raised while requesting a pending offer |
| DummyOrchestratorProperties.ProcessFixedPoint | src/orchestrator_dummy_nodes/orchestrator_dummy_nodes/orchestrator_lib/orchestrator.py:253-277 | afterwards no action is READY without outgoing edges, even after a granted input added actions |
| DummyOrchestratorProperties.SettledGrows | src/orchestrator_dummy_nodes/orchestrator_dummy_nodes/orchestrator_lib/orchestrator.py:207-223 | adding WAITING actions and new edges leaves nothing releasable |
| DummyOrchestratorProperties.ProcessOnlyReleases | src/orchestrator_dummy_nodes/orchestrator_dummy_nodes/orchestrator_lib/orchestrator.py:256-268 | only the actions READY without outgoing edges change, each to RUNNING with its data; with nothing pending no node or edge changes |
| DummyOrchestratorProperties.AllRxNoTimer | src/orchestrator_dummy_nodes/orchestrator_dummy_nodes/orchestrator_lib/orchestrator.py:260 | every action of this orchestrator is an RxAction, so no timer is ever releasable |
| DummyOrchestratorProperties.ProcessPublishes | src/orchestrator_dummy_nodes/orchestrator_dummy_nodes/orchestrator_lib/orchestrator.py:264-268 | the log grows by exactly one entry per released action, with its node, topic and buffered data |
| DummyOrchestratorProperties.ReadyAfterReleaseIff | src/orchestrator_dummy_nodes/orchestrator_dummy_nodes/orchestrator_lib/orchestrator.py:279-296 | after the release passes, `__ready_for_next_input` holds exactly when every RxAction on the topic that was WAITING or READY has just been released |
| DummyOrchestratorProperties.ProcessRequestsIffQuiet | src/orchestrator_dummy_nodes/orchestrator_dummy_nodes/orchestrator_lib/orchestrator.py:271-296 | a pending offer is requested exactly then; otherwise it stays pending and only the release happened |
| DummyOrchestratorProperties.ListenerEffects | src/orchestrator_dummy_nodes/orchestrator_dummy_nodes/orchestrator_lib/orchestrator.py:222-228 | the action a listening model gets has that model's callback for the topic as its effects |
| DummyOrchestratorProperties.AnySpawnsIff | src/orchestrator_dummy_nodes/orchestrator_dummy_nodes/orchestrator_lib/orchestrator.py:178-249 | some expected action raises exactly when some listener's callback publishes a topic some model listens on |
| DummyOrchestratorProperties.RequestFailsIffSpawns | src/orchestrator_dummy_nodes/orchestrator_dummy_nodes/orchestrator_lib/orchestrator.py:199-249 | requesting an offer raises NameError exactly when some listener would create a child; that is its only error; the offer is granted exactly when it does not raise |
| DummyOrchestratorProperties.AppendedListeners | src/orchestrator_dummy_nodes/orchestrator_dummy_nodes/orchestrator_lib/orchestrator.py:172-210 | adding every expected action creates one WAITING RxAction at the time for every listening model, none twice for a node, every new id above every old one |
| DummyOrchestratorProperties.RequestedListeners | src/orchestrator_dummy_nodes/orchestrator_dummy_nodes/orchestrator_lib/orchestrator.py:187-205 | a request that does not raise grants the offer and creates those actions, stamped with the time captured when the offer was made |
| DummyOrchestratorProperties.OfferFailsIff | src/orchestrator_dummy_nodes/orchestrator_dummy_nodes/orchestrator_lib/orchestrator.py:114-127 | OfferPending exactly when an offer is pending, DataBeforeTime exactly when simulator_time is None, and otherwise only the NameError of child creation |
| DummyOrchestratorProperties.OfferAccepted | src/orchestrator_dummy_nodes/orchestrator_dummy_nodes/orchestrator_lib/orchestrator.py:106-129 | an accepted offer is stamped with simulator_time; it is requested at once when the graph is not busy, and left pending and ungranted otherwise |
| DummyOrchestratorProperties.TimeOfferStores | src/orchestrator_dummy_nodes/orchestrator_dummy_nodes/orchestrator_lib/orchestrator.py:131-139 | a clock offer only stores the step, raising if one is stored; it never touches the graph, the offer or simulator_time |
| DummyOrchestratorProperties.DeliveredRemovesPublisher | src/orchestrator_dummy_nodes/orchestrator_dummy_nodes/orchestrator_lib/orchestrator.py:454-455 | the publishing action goes with exactly its edges; nothing but the actions changes |
| DummyOrchestratorProperties.DeliveredBuffersOnly | src/orchestrator_dummy_nodes/orchestrator_dummy_nodes/orchestrator_lib/orchestrator.py:424-450 | exactly the WAITING actions on the topic that are CAUSALITY children of the publisher (for an external input: those at the earliest time) become READY holding the message; their data was None |
| DummyOrchestratorProperties.InterceptNotFoundIff | src/orchestrator_dummy_nodes/orchestrator_dummy_nodes/orchestrator_lib/orchestrator.py:382-422 | ActionNotFoundError exactly for a topic other than "clock" that is no external input and that no RUNNING action publishes; then nothing changes |
| DummyOrchestratorProperties.InterceptRemovesPublisher | src/orchestrator_dummy_nodes/orchestrator_dummy_nodes/orchestrator_lib/orchestrator.py:454-457 | the publishing action is gone once the callback returns |
| DummyOrchestratorProperties.StatusNotFoundIff | src/orchestrator_dummy_nodes/orchestrator_dummy_nodes/orchestrator_lib/orchestrator.py:466-473 | ActionNotFoundError exactly when no RUNNING action of the node publishes a status; otherwise the first one is gone afterwards |
| DummyOrchestratorProperties.ProcessedIdle | src/orchestrator_dummy_nodes/orchestrator_dummy_nodes/orchestrator_lib/orchestrator.py:251-277 | processing an empty orchestrator with nothing pending changes nothing |
| DummyOrchestratorProperties.StepKeepsIdle | src/orchestrator_dummy_nodes/orchestrator_dummy_nodes/orchestrator_lib/orchestrator.py:106-139 | from an empty orchestrator with simulator_time None, every call leaves it so; a data offer raises DataBeforeTime and a status raises ActionNotFoundError |
| DummyOrchestratorProperties.AlwaysIdle | src/orchestrator_dummy_nodes/orchestrator_dummy_nodes/orchestrator_lib/orchestrator.py:106-139 | along every run from a fresh orchestrator every state stays so |
| DummyOrchestratorProperties.EveryDataOfferFails | src/orchestrator_dummy_nodes/orchestrator_dummy_nodes/orchestrator_lib/orchestrator.py:106-129 | along every run from a fresh orchestrator each data offer raises DataBeforeTime, each status raises, and nothing is ever published |
| RemappingGeneration.RemapSource | src/orchestrator/orchestrator/remapping_generation.py:33 | the source name is the node name, a colon, and the internal name |
| RemappingGeneration.KeptStep | src/orchestrator/orchestrator/remapping_generation.py:27-37 | one inner-loop step appends the remapping, when kept, after those before it |
| RemappingGeneration.ErrorPersists | src/orchestrator/orchestrator/remapping_generation.py:26-29 | once some node raises, the whole generation raises that error |
| RemappingGeneration.FindNodeModel | src/orchestrator/orchestrator/remapping_generation.py:11-16 | the first model with the name, or RuntimeError exactly when no model has it |
| RemappingGeneration.GenerateRemappings | src/orchestrator/orchestrator/remapping_generation.py:24-39 | the nested loops compute `Remappings` |
| RemappingGeneration.KeptMembers | src/orchestrator/orchestrator/remapping_generation.py:29-37 | a remapping is emitted for a node exactly when its model lists `TopicInput(ros)`, as "<node>:<internal>" to the intercepted name of (node, ros) |
| RemappingGeneration.KeptAppend | src/orchestrator/orchestrator/remapping_generation.py:27-37 | within a node the output follows the remapping order, at most one entry per remapping |
| RemappingGeneration.RemappingsFailIff | src/orchestrator/orchestrator/remapping_generation.py:11-29 | generation raises exactly when some node has a remapping but no model, and then names the first such node; a node without remappings never raises |
| RemappingGeneration.RemappingsMembers | src/orchestrator/orchestrator/remapping_generation.py:26-37 | on success, an entry is emitted exactly for each configured (node, internal, ros) whose node's model lists `TopicInput(ros)` |
| RemappingGeneration.RemappingsBound | src/orchestrator/orchestrator/remapping_generation.py:24-39 | at most as many remappings are emitted as are configured |
| RemappingGeneration.RemappingsAppend | src/orchestrator/orchestrator/remapping_generation.py:26-37 | the output follows the node order: the result for nodes `a + b` is that of `a` followed by that of `b`, and an error in `a` comes first |

## Left out

- ROS communication: `initialize_ros_communication`, subscriptions, publishers, executors, the
  `Future` objects and the logging calls. A publish is an entry of the log `published`. A future
  is the flag `granted`, which says whether the most recent offer was granted.
- `plot_graph` in both orchestrator files: it only draws the graph.
- The node model, action, name utility and model loader modules are not part of this model.
  - A node model is the abstract record of `NodeModels`.
  - An action is the `Action` datatype; its fields are the ones the two files read.
  - `intercepted_name` is the parameter `interceptedName` of the remapping generator.
  - Loading the launch configuration and node models from JSON is not modelled. So are `SetRemap`
    and `TextSubstitution`, and `main` of the remapping generator, which prints.
- The dummy file's `__add_pending_timers_until` is not modelled: it is never called, and it treats
  a time as an iterable.
- The `"timestep"` node attribute of file 1. `__add_action_and_effects` never sets it (line 243),
  yet the callback reads `node_data["timestep"]` (lines 481 and 510). As written, each of those
  reads raises KeyError as soon as it is reached: line 481 for an external input on a topic with a
  WAITING RxAction, line 510 when such an input is buffered. The model does not describe that
  KeyError; it reads the action's own timestamp there, which is what the attribute was evidently
  meant to hold.
- `_next_id` is a module-level counter shared by every orchestrator in a process. The model gives
  each orchestrator its own `nextId`, starting at 0. Only the freshness of ids matters.
- The KeyError of `__node_model_by_name` and the `assert cause in ...get_possible_inputs()` of
  `__add_all_effects_for_cause` are not modelled as errors. The class invariant proves that every
  action in the graph has a model and a matching input, so neither can fail.
- The external input configuration holds (type, name) pairs; the model keeps only the names.
- Orchestrator.Orchestrator.constructor: it requires that model names are unique. The models come
  from a JSON object keyed by node name, so they are.
- Orchestrator.Orchestrator.constructor: it also requires a layering of the models' topic graph
  (no cycle of topics), so the model promises nothing for a set of models without one. This is
  stronger than the source needs in two ways. A set whose topic cycle no input ever reaches runs
  fine in the source, yet the model excludes it. A topic cycle that an input does reach makes
  `__add_all_effects_for_cause` recurse until CPython raises RecursionError; the run does not go
  on forever, and the model does not describe that error.
- DummyOrchestrator.Orchestrator.constructor: it requires unique model names, for the same reason.
- File 1 never appends to its `timers` list (line 177). So, as written, no timer action is ever
  added. `AddPendingTimersUntil` models exactly that. The timer rule itself is modelled by
  `TimerStep`, `FiringTimers` and `AddFiringTimers`, which are proved for any list of timers.
  TimerStep states the rule on integer times. The source's loop mixes types: `t` is an rclpy
  `Time` (line 150) and `last_time` an int (line 166). So `t - last_time` (line 186) and
  `next_fire <= t` (line 190) would raise TypeError if they were ever reached.
- Orchestrator.Orchestrator.GrantInput: the source clears `next_input` before it adds the topic
  input; the model clears it right after. Adding the input neither reads nor writes the offer, so
  the resulting state is the same.
- Orchestrator.TopicInputAdded: this predicate fixes only the root actions of a topic input and
  bounds their descendants as WAITING RxActions. `Requested` adds the exact growth, children
  included, as an `Expanded` conjunct beside it.
- Messages are opaque values. Times are integers of nanoseconds.
