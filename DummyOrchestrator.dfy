/**
 * The orchestrator of src/orchestrator_dummy_nodes/orchestrator_dummy_nodes/orchestrator_lib/orchestrator.py,
 * the earlier version used by the dummy-node example. It keeps the same graph of RxActions as
 * the orchestrator of src/orchestrator, but:
 *  - the time step of an action is a graph-node attribute (here the action's `timestamp`) given
 *    by the caller, and an offered message carries the time it was offered at;
 *  - its SAME_TOPIC loop also connects an action to itself when it publishes its own input topic;
 *  - creating a child action reads a name (`timestep`) that is not bound in that function, so the
 *    call raises NameError as soon as some model listens on a topic the callback publishes;
 *  - a clock offer is only stored, and simulator_time is never assigned.
 */
module DummyOrchestrator {
  import opened Wrappers
  import opened NodeModels
  import opened ActionGraph
  import O = Orchestrator
  import opened DummyGraph

  class Orchestrator {
    /** The node models (`node_config`) and the names in `external_input_topics_config`. */
    const nodeModels: seq<NodeModel>
    const externalInputTopics: seq<TopicName>

    var actions: Actions
    var edges: Edges
    /** The id the next added action gets (`_next_id`). */
    var nextId: nat
    var published: seq<Publish>
    var nextInput: Option<DataOffer>
    var nextTimestep: Option<int>
    /** Starts as None; no method assigns it. */
    var simulatorTime: Option<int>
    var granted: bool

    ghost function Snap(): State
      reads this
    {
      State(actions, edges, nextId, published, nextInput, nextTimestep, simulatorTime, granted)
    }

    ghost predicate ValidExcept(x: nat)
      reads this
    {
      WellFormedExcept(nodeModels, actions, edges, nextId, x)
    }

    ghost predicate Valid()
      reads this`actions, this`edges, this`nextId
    {
      WellFormed(nodeModels, actions, edges, nextId)
    }

    constructor (models: seq<NodeModel>, externalTopics: seq<TopicName>)
      requires NamesUnique(models)
      ensures Valid()
      ensures nodeModels == models && externalInputTopics == externalTopics
      ensures Snap() == State(map[], map[], 0, [], None, None, None, false)
    {
      nodeModels, externalInputTopics := models, externalTopics;
      actions, edges, nextId, published := map[], map[], 0, [];
      nextInput, nextTimestep, simulatorTime, granted := None, None, None, false;
    }

    /** The SAME_NODE loop of `__add_action_and_effects`: an edge from `id` to every other action of its node. */
    method AddSameNodeEdges(id: nat)
      requires id in actions
      modifies this`edges
      ensures edges == SameNodeEdges(old(edges), actions, id, nextId)
    {
      var k := 0;
      while k < nextId
        invariant k <= nextId
        invariant edges == SameNodeEdges(old(edges), actions, id, k)
      {
        if k in actions && actions[k].node == actions[id].node && k != id {
          edges := edges[(id, k) := SameNode];
        }
        k := k + 1;
      }
    }

    /** The inner SAME_TOPIC loop of `__add_all_effects_for_cause`: an edge from `u` to every action on `topic`. */
    method AddSameTopicEdges(u: nat, topic: TopicName)
      requires AllRx(actions)
      modifies this`edges
      ensures edges == TopicEdges(old(edges), actions, u, topic, nextId)
    {
      var k := 0;
      while k < nextId
        invariant k <= nextId
        invariant edges == TopicEdges(old(edges), actions, u, topic, k)
      {
        if k in actions && actions[k].topic == topic {
          edges := edges[(u, k) := SameTopic];
        }
        k := k + 1;
      }
    }

    /** The first loop of `__add_all_effects_for_cause`: the SAME_TOPIC edges from u for every published topic. */
    method AddEffectEdges(u: nat, effects: seq<Effect>)
      requires AllRx(actions)
      modifies this`edges
      ensures edges == EffectEdges(old(edges), actions, u, effects, nextId)
    {
      var i := 0;
      while i < |effects|
        invariant 0 <= i <= |effects|
        invariant edges == EffectEdges(old(edges), actions, u, effects[..i], nextId)
      {
        if effects[i].TopicPublish? {
          AddSameTopicEdges(u, effects[i].outputTopic);
        }
        assert effects[..i + 1][..i] == effects[..i];
        i := i + 1;
      }
      assert effects[..i] == effects;
    }

    /**
     * The second loop of `__add_all_effects_for_cause`: for each published topic and each model
     * listening on it a child action would be added, but its arguments read the unbound name
     * `timestep`, so the first such pair raises NameError.
     */
    method SpawnChildren(effects: seq<Effect>) returns (r: Outcome<Error>)
      ensures r == if SpawnsChild(nodeModels, effects) then Fail(UnboundTimestep) else Pass
    {
      SpawnsChildSpec(nodeModels, effects);
      var i := 0;
      while i < |effects|
        invariant 0 <= i <= |effects|
        invariant forall i', j :: 0 <= i' < i && 0 <= j < |nodeModels| && effects[i'].TopicPublish? ==>
          TopicInput(effects[i'].outputTopic) !in nodeModels[j].possibleInputs
      {
        if effects[i].TopicPublish? {
          var topic := effects[i].outputTopic;
          var j := 0;
          while j < |nodeModels|
            invariant 0 <= j <= |nodeModels|
            invariant forall j' :: 0 <= j' < j ==> TopicInput(topic) !in nodeModels[j'].possibleInputs
          {
            if TopicInput(topic) in nodeModels[j].possibleInputs {
              return Fail(UnboundTimestep);
            }
            j := j + 1;
          }
        }
        i := i + 1;
      }
      r := Pass;
    }

    /** `__add_all_effects_for_cause` for the newest action `causeId`. */
    method AddAllEffectsForCause(node: NodeName, cause: Cause, causeId: nat) returns (r: Outcome<Error>)
      requires ValidExcept(causeId)
      requires nextId == causeId + 1 && causeId in actions
      requires actions[causeId].node == node && actions[causeId].InputCause() == cause
      modifies this`edges
      ensures Valid()
      ensures edges == EffectEdges(old(edges), actions, causeId, EffectsOf(nodeModels, actions[causeId]), nextId)
      ensures Grew(actions, old(edges), causeId, actions, edges, nextId)
      ensures r == if Spawns(nodeModels, actions[causeId]) then Fail(UnboundTimestep) else Pass
    {
      var model := NodeModelByName(nodeModels, node);
      // the node has a model, and the cause is among its possible inputs
      assert Fits(nodeModels, actions[causeId]);
      var effects := EffectsForInput(model.value, cause);
      assert effects == EffectsOf(nodeModels, actions[causeId]);
      ghost var e0 := edges;
      AddEffectEdges(causeId, effects);
      EffectEdgesWellFormed(nodeModels, actions, e0, causeId, nextId, edges);
      r := SpawnChildren(effects);
    }

    /**
     * `__add_action_and_effects`: a WAITING RxAction on `topic` at `timestep` gets the next id,
     * a SAME_NODE edge to every other action of its node, a CAUSALITY edge to the parent (if
     * any) and the SAME_TOPIC edges of its effects; it raises NameError exactly when its
     * callback publishes a topic some model listens on.
     */
    method AddActionAndEffects(node: NodeName, topic: TopicName, timestep: int, parent: Option<nat>) returns (r: Outcome<Error>)
      requires Valid()
      requires Fits(nodeModels, RxAction(Waiting, node, timestep, topic, None))
      requires parent.Some? ==>
                 parent.value in actions && Publishes(nodeModels, actions[parent.value], topic) && actions[parent.value].timestamp == timestep
      modifies this`actions, this`edges, this`nextId
      ensures Valid()
      ensures nextId == old(nextId) + 1 && actions == old(actions)[old(nextId) := RxAction(Waiting, node, timestep, topic, None)]
      ensures edges == ActionEdges(nodeModels, old(edges), actions, old(nextId), parent, nextId)
      ensures Grew(old(actions), old(edges), old(nextId), actions, edges, nextId)
      ensures OwnEdges(nodeModels, actions, edges, old(nextId), parent)
      ensures r == if Spawns(nodeModels, actions[old(nextId)]) then Fail(UnboundTimestep) else Pass
    {
      var id := nextId;
      ghost var a0, e0 := actions, edges;
      var action := RxAction(Waiting, node, timestep, topic, None);
      nextId := nextId + 1;
      actions := actions[id := action];
      AddSameNodeEdges(id);
      AddedNodeKeeps(nodeModels, a0, e0, id, action, actions, edges);
      if parent.Some? {
        assert parent.value < id && actions[parent.value] == a0[parent.value];
        AddEdgePreserves(nodeModels, actions, edges, id + 1, id, parent.value, Causality, id);
        GrewAddEdge(a0, e0, id, actions, edges, id + 1, id, parent.value, Causality);
        edges := edges[(id, parent.value) := Causality];
      }
      ghost var e2 := edges;
      r := AddAllEffectsForCause(node, TopicInput(topic), id);
      GrewTrans(a0, e0, id, actions, e2, nextId, actions, edges, nextId, id);
      assert forall e :: e in e0 ==> e.0 != id;
      AddedOwnEdges(nodeModels, e0, actions, id, parent);
    }

    /** The first loop of `__add_topic_input`: the RxActions a message on the topic calls for, stamped with time t. */
    method ExpectedRxActions(t: int, topic: TopicName) returns (expected: seq<Action>)
      ensures expected == O.ListenerActions(nodeModels, topic, t)
    {
      expected := [];
      var j := 0;
      while j < |nodeModels|
        invariant j <= |nodeModels|
        invariant expected == O.ListenerActions(nodeModels[..j], topic, t)
      {
        if TopicInput(topic) in nodeModels[j].possibleInputs {
          expected := expected + [RxAction(Waiting, nodeModels[j].name, t, topic, None)];
        }
        assert nodeModels[..j + 1][..j] == nodeModels[..j];
        j := j + 1;
      }
      assert nodeModels[..j] == nodeModels;
    }

    /** `__add_topic_input`: each expected RxAction is added with its effects, in model order, until one raises. */
    method AddTopicInput(t: int, topic: TopicName) returns (r: Outcome<Error>)
      requires Valid()
      modifies this`actions, this`edges, this`nextId
      ensures Valid()
      ensures InputAdded(nodeModels, old(actions), old(edges), old(nextId), actions, edges, nextId, topic, t, r)
    {
      var expected := ExpectedRxActions(t, topic);
      ghost var a0, e0, n0 := actions, edges, nextId;
      var i := 0;
      while i < |expected|
        invariant Valid()
        invariant Appended(a0, e0, n0, actions, edges, nextId, expected, i)
        invariant RootEdges(nodeModels, actions, edges, n0, i)
        invariant NoneSpawn(nodeModels, expected[..i])
      {
        r := AddExpectedAction(t, topic, expected, i, a0, e0, n0);
        if r.Fail? {
          return;
        }
        i := i + 1;
      }
      assert i == |expected|;
      r := Pass;
      InputDone(nodeModels, a0, e0, n0, actions, edges, nextId, topic, t, expected, i, r);
    }

    /** One pass of the second loop of `__add_topic_input`: the expected action i and its effects. */
    method AddExpectedAction(t: int, topic: TopicName, expected: seq<Action>, i: nat, ghost a0: Actions, ghost e0: Edges, ghost n0: nat)
      returns (r: Outcome<Error>)
      requires Valid()
      requires expected == O.ListenerActions(nodeModels, topic, t) && i < |expected|
      requires Appended(a0, e0, n0, actions, edges, nextId, expected, i)
      requires RootEdges(nodeModels, actions, edges, n0, i)
      requires NoneSpawn(nodeModels, expected[..i])
      modifies this`actions, this`edges, this`nextId
      ensures Valid()
      ensures Appended(a0, e0, n0, actions, edges, nextId, expected, i + 1)
      ensures RootEdges(nodeModels, actions, edges, n0, i + 1)
      ensures r.Pass? ==> NoneSpawn(nodeModels, expected[..i + 1])
      ensures r.Fail? ==> InputAdded(nodeModels, a0, e0, n0, actions, edges, nextId, topic, t, r)
    {
      O.ListenerFits(nodeModels, topic, t, i);
      ghost var a2, e2, n2 := actions, edges, nextId;
      r := AddActionAndEffects(expected[i].node, topic, t, None);
      AppendedStep(a0, e0, n0, a2, e2, n2, actions, edges, nextId, expected, i);
      RootEdgesStep(nodeModels, a2, e2, n2, actions, edges, nextId, n0, i);
      if r.Fail? {
        InputStopped(nodeModels, a0, e0, n0, actions, edges, nextId, topic, t, expected, i, r);
      } else {
        NoneSpawnExtend(nodeModels, expected, i);
      }
    }

    /** `__request_next_input`. */
    method RequestNextInput() returns (r: Outcome<Error>)
      requires Valid()
      modifies this`actions, this`edges, this`nextId, this`nextInput, this`granted
      ensures Valid()
      ensures Requested(nodeModels, old(Snap()), Snap(), r)
    {
      ghost var s0 := Snap();
      if nextInput.None? {
        return Fail(NoPendingInput);
      }
      var next := nextInput.value;
      nextInput := None;
      assert Snap() == s0.(nextInput := None);
      r := AddTopicInput(next.time, next.topic);
      if r == Pass {
        granted := true;
      }
      ghost var s1 := Snap();
      RequestedOffer(nodeModels, s0, next, s1, r);
    }

    /** One pass of the `for` loop of `__process` over the graph in id order. */
    method ReleasePass() returns (released: bool)
      requires AllRx(actions)
      modifies this`actions, this`published
      ensures O.PassedUpTo(old(actions), edges, nextId, old(published), actions, published, released)
    {
      ghost var a0, p0 := actions, published;
      released := false;
      var k := 0;
      while k < nextId
        invariant k <= nextId
        invariant O.PassedUpTo(a0, edges, k, p0, actions, published, released)
      {
        ghost var a1, p1, rel1 := actions, published, released;
        // skip actions with ordering constraints left, and actions still missing their data
        var ready := k in actions && Matches(Releasable(edges), k, actions[k]);
        if ready {
          var a := actions[k];
          assert a.RxAction?;
          assert PublishLog([a]) == [Publish(a.node, a.topic, a.data)];
          published := published + [Publish(a.node, a.topic, a.data)];
          actions := actions[k := Start(a)];
          released := true;
        }
        O.PassStep(a0, edges, k, p0, a1, p1, rel1, ready, actions, published, released);
        k := k + 1;
      }
    }

    /** The `while` loop of `__process`: release passes until one releases nothing. */
    method ReleaseAll()
      requires AllRx(actions) && IdsBelow(actions, nextId)
      modifies this`actions, this`published
      ensures actions == Released(old(actions), edges, nextId)
      ensures published == old(published) + Releases(old(actions), edges, nextId)
    {
      ghost var a0, p0 := actions, published;
      var repeat := true;
      ghost var passes := 0;
      while repeat
        invariant passes == 0 ==> repeat && actions == a0 && published == p0
        invariant passes > 0 ==> actions == Released(a0, edges, nextId) && published == p0 + Releases(a0, edges, nextId)
        invariant passes > 1 ==> !repeat
        decreases (if repeat then 1 else 0) + (if passes == 0 then 1 else 0)
      {
        ghost var p1 := published;
        if passes > 0 {
          ReleasedSettles(a0, edges, nextId);
          ReleasedKeepsRx(a0, edges, nextId);
        }
        repeat := ReleasePass();
        if passes > 0 {
          assert published == p1 + [] == p1;
        }
        passes := passes + 1;
      }
    }

    /** `__process`: release everything releasable, then request the offer if the graph is ready for it. */
    method Process() returns (r: Outcome<Error>)
      requires Valid()
      modifies this`actions, this`edges, this`nextId, this`published, this`nextInput, this`granted
      ensures Valid()
      ensures Processed(nodeModels, old(Snap()), Snap(), r)
    {
      ghost var s0 := Snap();
      ReleaseAll();
      ReleasedWellFormed(nodeModels, s0.actions, edges, nextId, nextId, actions);
      assert Snap() == AllReleased(s0);
      r := RequestIfReady();
    }

    /** The end of `__process`: the pending offer, if any, is requested when `__ready_for_next_input` holds. */
    method RequestIfReady() returns (r: Outcome<Error>)
      requires Valid()
      modifies this`actions, this`edges, this`nextId, this`nextInput, this`granted
      ensures Valid()
      ensures RequestedIfReady(nodeModels, old(Snap()), Snap(), r)
    {
      if nextInput.None? {
        return Pass;
      }
      var ready := O.ReadyForNextInput(actions, nextId, Pending(nextInput));
      if !ready.value {
        return Pass;
      }
      r := RequestNextInput();
    }

    /** The minimum loop of `__interception_subscription_callback` for an external input. */
    method EarliestWaitingTimestep(topic: TopicName) returns (ts: Option<int>)
      requires AllRx(actions)
      ensures ts == EarliestWaiting(actions, topic, nextId)
    {
      ts := None;
      var k := 0;
      while k < nextId
        invariant k <= nextId
        invariant ts == EarliestWaiting(actions, topic, k)
      {
        if k in actions && actions[k].topic == topic && actions[k].state == Waiting {
          // the node's "timestep" attribute is the action's timestamp
          var t := actions[k].timestamp;
          if ts.None? || t < ts.value {
            ts := Some(t);
          }
        }
        k := k + 1;
      }
    }

    /** The buffering loop of `__interception_subscription_callback`. */
    method BufferMessage(topic: TopicName, cause: Option<nat>, inputTimestep: Option<int>, msg: Message)
      requires AllRx(actions) && DataBuffered(actions)
      requires cause.None? ==> inputTimestep == EarliestWaiting(actions, topic, nextId)
      modifies this`actions
      ensures actions == Buffered(old(actions), edges, topic, cause, inputTimestep, msg, nextId)
    {
      ghost var a0 := actions;
      var k := 0;
      while k < nextId
        invariant k <= nextId
        invariant actions == Buffered(a0, edges, topic, cause, inputTimestep, msg, k)
      {
        BufferedStep(a0, edges, topic, cause, inputTimestep, msg, k);
        if k in actions && actions[k].topic == topic && actions[k].state == Waiting {
          var buffer: bool;
          if cause.Some? {
            // only the actions directly caused by the publishing action
            buffer := (k, cause.value) in edges && edges[(k, cause.value)] == Causality;
          } else {
            // an external input: only the actions of the earliest time step
            assert inputTimestep.Some?;
            buffer := inputTimestep == Some(actions[k].timestamp);
          }
          if buffer {
            assert actions[k].data.None?;
            actions := actions[k := actions[k].(state := Ready, data := Some(msg))];
          }
        }
        k := k + 1;
      }
    }

    /** Buffer the message, then remove the action that published it, with its edges. */
    method Deliver(topic: TopicName, msg: Message, cause: Option<nat>, inputTimestep: Option<int>) returns (ghost b: Actions)
      requires AllRx(actions) && DataBuffered(actions)
      requires cause.None? ==> inputTimestep == EarliestWaiting(actions, topic, nextId)
      modifies this`actions, this`edges
      ensures b == Buffered(old(actions), old(edges), topic, cause, inputTimestep, msg, nextId)
      ensures cause.Some? ==> actions == b - {cause.value} && edges == RemoveNode(old(edges), cause.value)
      ensures cause.None? ==> actions == b && edges == old(edges)
    {
      BufferMessage(topic, cause, inputTimestep, msg);
      b := actions;
      if cause.Some? {
        actions := actions - {cause.value};
        edges := RemoveNode(edges, cause.value);
      }
    }

    /** `__interception_subscription_callback`: a message was intercepted on `topic`. */
    method InterceptionSubscriptionCallback(topic: TopicName, msg: Message) returns (r: Outcome<Error>)
      requires Valid()
      modifies this`actions, this`edges, this`nextId, this`published, this`nextInput, this`granted
      ensures Valid()
      ensures Intercepted(nodeModels, externalInputTopics, old(Snap()), topic, msg, Snap(), r)
    {
      if topic == "clock" {
        return Pass;
      }
      ghost var s0 := Snap();
      var cause := O.FindRunningAction(nodeModels, actions, nextId, topic);
      var inputTimestep: Option<int> := None;
      if cause.None? {
        if topic !in externalInputTopics {
          return Fail(ActionNotFound);
        }
        inputTimestep := EarliestWaitingTimestep(topic);
      }
      ghost var b := Deliver(topic, msg, cause, inputTimestep);
      DeliveredValid(nodeModels, s0, topic, msg, cause, inputTimestep, b, Snap());
      r := Process();
    }

    /** `__status_callback`: the node reports that a callback publishing a status has finished. */
    method StatusCallback(node: NodeName) returns (r: Outcome<Error>)
      requires Valid()
      modifies this`actions, this`edges, this`nextId, this`published, this`nextInput, this`granted
      ensures Valid()
      ensures StatusHandled(nodeModels, old(Snap()), node, Snap(), r)
    {
      var cause := O.FindRunningActionStatus(nodeModels, actions, nextId, node);
      if cause.None? {
        return Fail(ActionNotFound);
      }
      ghost var s0 := Snap();
      actions := actions - {cause.value};
      edges := RemoveNode(edges, cause.value);
      RemovedWellFormed(nodeModels, s0.actions, s0.edges, nextId, cause.value, actions, edges);
      assert Snap() == s0.(actions := s0.actions - {cause.value}, edges := RemoveNode(s0.edges, cause.value));
      r := Process();
    }

    /** `wait_until_publish_allowed`: the data source offers a message on `topic` at the current time. */
    method WaitUntilPublishAllowed(topic: TopicName) returns (r: Outcome<Error>)
      requires Valid()
      modifies this`actions, this`edges, this`nextId, this`nextInput, this`granted
      ensures Valid()
      ensures Offered(nodeModels, old(Snap()), topic, Snap(), r)
    {
      if nextInput.Some? {
        return Fail(OfferPending);
      }
      if simulatorTime.None? {
        return Fail(DataBeforeTime);
      }
      nextInput := Some(DataOffer(simulatorTime.value, topic));
      granted := false;
      if !O.GraphIsBusy(actions, nextId) {
        r := RequestNextInput();
      } else {
        r := Pass;
      }
    }

    /** `wait_until_time_publish_allowed`: the data source offers the clock step to time t. */
    method WaitUntilTimePublishAllowed(t: int) returns (r: Outcome<Error>)
      modifies this`nextTimestep
      ensures TimeOffered(old(Snap()), t, Snap(), r)
    {
      if nextTimestep.Some? {
        return Fail(TimestepPending);
      }
      nextTimestep := Some(t);
      r := Pass;
    }
  }
}
