/**
 * What the orchestrator of src/orchestrator_dummy_nodes/orchestrator_dummy_nodes/orchestrator_lib/orchestrator.py
 * promises across its operations, stated over the outcome predicates of DummyGraph: the release
 * loop reaches a fixed point and only releases, granting an offer adds one WAITING action per
 * listening model unless some listener's callback would create a child (which raises), the
 * callbacks buffer only where a message belongs, and, as written, simulator_time is never set,
 * so along every run the graph stays empty and every data offer raises.
 */
module DummyOrchestratorProperties {
  import opened Wrappers
  import opened NodeModels
  import opened ActionGraph
  import O = Orchestrator
  import P = OrchestratorProperties
  import opened DummyGraph

  // ----- __process -----

  /**
   * Processing never loses an action or an edge, the actions it adds are new WAITING
   * RxActions, and with no offer pending it only releases.
   */
  lemma ProcessedGrows(models: seq<NodeModel>, s0: State, s1: State, r: Outcome<Error>)
    requires Processed(models, s0, s1, r)
    ensures forall k :: k in s0.actions ==> k in s1.actions
    ensures forall k :: k in s1.actions && k !in s0.actions ==>
      s0.nextId <= k && s1.actions[k].RxAction? && s1.actions[k].state == Waiting && s1.actions[k].data.None?
    ensures forall e :: e in s0.edges ==> e in s1.edges
    ensures s0.nextId <= s1.nextId && s1.published == s0.published + Releases(s0.actions, s0.edges, s0.nextId)
    ensures s0.nextInput.None? ==> s1 == AllReleased(s0)
  {
    var mid := AllReleased(s0);
    if !(mid.nextInput.None? || O.ReadyForNextInput(mid.actions, mid.nextId, Pending(mid.nextInput)) == Ok(false)) {
      var offer := mid.nextInput.value;
      var s := O.ListenerActions(models, offer.topic, offer.time);
      assert Requested(models, mid, s1, r);
      assert Appended(mid.actions, mid.edges, mid.nextId, s1.actions, s1.edges, s1.nextId, s, Attempted(models, s));
      forall k | k in s1.actions && k !in s0.actions
        ensures s0.nextId <= k && s1.actions[k].RxAction? && s1.actions[k].state == Waiting && s1.actions[k].data.None?
      {
        assert k !in mid.actions;
        assert s1.actions[k] == s[k - mid.nextId];
      }
    }
  }

  /** The only error of `__process` is the NameError of child creation, raised while requesting a pending offer. */
  lemma ProcessedErrors(models: seq<NodeModel>, s0: State, s1: State, r: Outcome<Error>)
    requires Processed(models, s0, s1, r)
    ensures r == Pass || r == Fail(UnboundTimestep)
    ensures r == Fail(UnboundTimestep) ==> s0.nextInput.Some?
  {
  }

  /**
   * `__process` reaches its fixed point: afterwards no action is READY without outgoing edges,
   * even after it has added the actions of the input it granted.
   */
  lemma ProcessFixedPoint(models: seq<NodeModel>, s0: State, s1: State, r: Outcome<Error>)
    requires IdsBelow(s0.actions, s0.nextId)
    requires Processed(models, s0, s1, r)
    ensures NoneMatch(s1.actions, Releasable(s1.edges))
  {
    var mid := AllReleased(s0);
    assert NoneMatch(mid.actions, Releasable(mid.edges));
    ProcessedGrows(models, s0, s1, r);
    if !(mid.nextInput.None? || O.ReadyForNextInput(mid.actions, mid.nextId, Pending(mid.nextInput)) == Ok(false)) {
      var offer := mid.nextInput.value;
      assert Requested(models, mid, s1, r);
      SettledGrows(mid.actions, mid.edges, mid.nextId, s1.actions, s1.edges, s1.nextId);
    }
  }

  /** Growing a graph by WAITING actions and new edges keeps it free of releasable actions. */
  lemma SettledGrows(a0: Actions, e0: Edges, n0: nat, a1: Actions, e1: Edges, n1: nat)
    requires NoneMatch(a0, Releasable(e0)) && Grew(a0, e0, n0, a1, e1, n1)
    requires forall k :: k in a1 && k !in a0 ==> a1[k].state == Waiting
    ensures NoneMatch(a1, Releasable(e1))
  {
    forall k | k in a0 && a1[k].state == Ready ensures HasOutgoing(e1, k) {
      assert HasOutgoing(e0, k);
      var x :| x in e0 && x.0 == k;
      assert x in e1;
    }
  }

  /**
   * Only the actions that are READY without outgoing edges change, each to RUNNING with its data
   * kept. When no offer is pending, no action or edge comes or goes.
   */
  lemma ProcessOnlyReleases(models: seq<NodeModel>, s0: State, s1: State, r: Outcome<Error>)
    requires Processed(models, s0, s1, r)
    ensures forall k :: k in s0.actions ==> k in s1.actions
    ensures forall k :: k in s0.actions ==> (s1.actions[k] != s0.actions[k] <==> k < s0.nextId && Matches(Releasable(s0.edges), k, s0.actions[k]))
    ensures forall k :: k in s0.actions && s1.actions[k] != s0.actions[k] ==> s1.actions[k] == Start(s0.actions[k])
    ensures s0.nextInput.None? ==> s1.actions.Keys == s0.actions.Keys && s1.edges == s0.edges && s1.nextId == s0.nextId
  {
    var mid := AllReleased(s0);
    ProcessedGrows(models, s0, s1, r);
    assert forall k :: k in s0.actions ==> s1.actions[k] == mid.actions[k] by {
      if !(mid.nextInput.None? || O.ReadyForNextInput(mid.actions, mid.nextId, Pending(mid.nextInput)) == Ok(false)) {
        var offer := mid.nextInput.value;
        var s := O.ListenerActions(models, offer.topic, offer.time);
        assert Requested(models, mid, s1, r);
        assert Grew(mid.actions, mid.edges, mid.nextId, s1.actions, s1.edges, s1.nextId);
      }
    }
  }

  /** Every action of this orchestrator is an RxAction, so no timer callback is ever releasable. */
  lemma AllRxNoTimer(actions: Actions, edges: Edges)
    requires AllRx(actions)
    ensures NoneMatch(actions, ReleasableTimer(edges))
  {
  }

  /**
   * The log grows by exactly one entry per released action, carrying its node, topic and
   * buffered data (every action of this orchestrator is an RxAction).
   */
  lemma ProcessPublishes(models: seq<NodeModel>, s0: State, s1: State, r: Outcome<Error>)
    requires AllRx(s0.actions)
    requires Processed(models, s0, s1, r)
    ensures s1.published == s0.published + Releases(s0.actions, s0.edges, s0.nextId)
    ensures |Releases(s0.actions, s0.edges, s0.nextId)| == |MatchingIds(s0.actions, 0, s0.nextId, Releasable(s0.edges))|
    ensures forall k :: k < s0.nextId && k in s0.actions && Matches(Releasable(s0.edges), k, s0.actions[k]) ==>
      Publish(s0.actions[k].node, s0.actions[k].topic, s0.actions[k].data) in s1.published
  {
    ProcessedGrows(models, s0, s1, r);
    AllRxNoTimer(s0.actions, s0.edges);
    ReleasesExactlyOnce(s0.actions, s0.edges, s0.nextId);
  }

  /** No RxAction on the topic is WAITING or READY except those the release passes start. */
  ghost predicate Quiet(actions: Actions, edges: Edges, topic: TopicName)
  {
    forall k :: k in actions && Matches(PendingOn(topic), k, actions[k]) ==> Matches(Releasable(edges), k, actions[k])
  }

  /** After the release passes, `__ready_for_next_input` holds for a topic exactly when the graph was Quiet on it. */
  lemma ReadyAfterReleaseIff(actions: Actions, edges: Edges, n: nat, topic: TopicName)
    requires IdsBelow(actions, n)
    ensures O.ReadyForNextInput(Released(actions, edges, n), n, Some(O.FutureInput(topic))) == Ok(true) <==> Quiet(actions, edges, topic)
  {
    var m := Released(actions, edges, n);
    if Quiet(actions, edges, topic) {
      forall k | k < n && k in m ensures !Matches(PendingOn(topic), k, m[k]) {
        if Matches(PendingOn(topic), k, actions[k]) {
          assert m[k] == Start(actions[k]);
        }
      }
    } else {
      var k :| k in actions && Matches(PendingOn(topic), k, actions[k]) && !Matches(Releasable(edges), k, actions[k]);
      assert m[k] == actions[k];
    }
  }

  /**
   * `__ready_for_next_input` inside `__process`: a pending offer is requested exactly when, once
   * the passes have released what they can, no RxAction on its topic is WAITING or READY.
   */
  lemma ProcessRequestsIffQuiet(models: seq<NodeModel>, s0: State, s1: State, r: Outcome<Error>, offer: DataOffer)
    requires IdsBelow(s0.actions, s0.nextId)
    requires Processed(models, s0, s1, r) && s0.nextInput == Some(offer)
    ensures s1.nextInput.None? <==> Quiet(s0.actions, s0.edges, offer.topic)
    ensures s1.nextInput.None? ==> (s1.granted <==> r == Pass || s0.granted)
    ensures !s1.nextInput.None? ==> r == Pass && s1 == AllReleased(s0)
  {
    ReadyAfterReleaseIff(s0.actions, s0.edges, s0.nextId, offer.topic);
  }

  // ----- __request_next_input -----

  /**
   * Some model listening on the topic has a callback for it that publishes on a topic some model
   * listens on: adding that listener's action will try to create a child.
   */
  ghost predicate ListenerSpawns(models: seq<NodeModel>, topic: TopicName)
  {
    exists j, i, j2 :: 0 <= j < |models| && TopicInput(topic) in models[j].possibleInputs &&
      0 <= i < |EffectsForInput(models[j], TopicInput(topic))| && EffectsForInput(models[j], TopicInput(topic))[i].TopicPublish? &&
      0 <= j2 < |models| && TopicInput(EffectsForInput(models[j], TopicInput(topic))[i].outputTopic) in models[j2].possibleInputs
  }

  /** The action a listening model gets has that model's callback for the topic as its effects. */
  lemma ListenerEffects(models: seq<NodeModel>, topic: TopicName, t: int, i: nat, j: nat)
    requires NamesUnique(models) && j < |models|
    requires i < |O.ListenerActions(models, topic, t)| && O.ListenerActions(models, topic, t)[i].node == models[j].name
    ensures EffectsOf(models, O.ListenerActions(models, topic, t)[i]) == EffectsForInput(models[j], TopicInput(topic))
  {
    ByNameFindsModel(models, j);
  }

  /** With unique model names, some expected action raises exactly when some listener's callback would create a child. */
  lemma AnySpawnsIff(models: seq<NodeModel>, topic: TopicName, t: int)
    requires NamesUnique(models)
    ensures AnySpawns(models, O.ListenerActions(models, topic, t)) <==> ListenerSpawns(models, topic)
  {
    var s := O.ListenerActions(models, topic, t);
    var names := Listeners(models, topic);
    if AnySpawns(models, s) {
      var i :| 0 <= i < |s| && Spawns(models, s[i]);
      assert names[i] in names;
      var j :| 0 <= j < |models| && TopicInput(topic) in models[j].possibleInputs && models[j].name == names[i];
      ListenerEffects(models, topic, t, i, j);
      SpawnsChildSpec(models, EffectsOf(models, s[i]));
    }
    if ListenerSpawns(models, topic) {
      var j, x, j2 :| 0 <= j < |models| && TopicInput(topic) in models[j].possibleInputs &&
        0 <= x < |EffectsForInput(models[j], TopicInput(topic))| && EffectsForInput(models[j], TopicInput(topic))[x].TopicPublish? &&
        0 <= j2 < |models| && TopicInput(EffectsForInput(models[j], TopicInput(topic))[x].outputTopic) in models[j2].possibleInputs;
      O.ListenerActionsCover(models, topic, t, j);
      var i :| 0 <= i < |s| && s[i].node == models[j].name;
      ListenerEffects(models, topic, t, i, j);
      SpawnsChildSpec(models, EffectsOf(models, s[i]));
    }
  }

  /**
   * Requesting an offer raises NameError exactly when some listener on its topic would create a
   * child; that is the only error once an offer is pending.
   */
  lemma RequestFailsIffSpawns(models: seq<NodeModel>, s0: State, s1: State, r: Outcome<Error>, offer: DataOffer)
    requires NamesUnique(models)
    requires Requested(models, s0, s1, r) && s0.nextInput == Some(offer)
    ensures r == Pass || r == Fail(UnboundTimestep)
    ensures r == Fail(UnboundTimestep) <==> ListenerSpawns(models, offer.topic)
    ensures s1.granted <==> r == Pass || s0.granted
  {
    AnySpawnsIff(models, offer.topic, offer.time);
  }

  /**
   * Appending every expected action of an input adds exactly one new WAITING RxAction on the
   * topic, stamped with its time, for every model that listens on the topic, no two for one
   * node, and every new id lies above every earlier one.
   */
  lemma AppendedListeners(models: seq<NodeModel>, a0: Actions, e0: Edges, n0: nat, a1: Actions, e1: Edges, n1: nat,
                          topic: TopicName, t: int)
    requires NamesUnique(models) && IdsBelow(a0, n0)
    requires Appended(a0, e0, n0, a1, e1, n1, O.ListenerActions(models, topic, t), |O.ListenerActions(models, topic, t)|)
    ensures forall j :: 0 <= j < |models| && TopicInput(topic) in models[j].possibleInputs ==>
      exists k :: k in a1 && k !in a0 && a1[k] == RxAction(Waiting, models[j].name, t, topic, None)
    ensures forall k1, k2 :: k1 in a1 && k2 in a1 && k1 !in a0 && k2 !in a0 && k1 != k2 ==> a1[k1].node != a1[k2].node
    ensures forall k0, k1 :: k0 in a0 && k1 in a1 && k1 !in a0 ==> k0 < k1
  {
    var s := O.ListenerActions(models, topic, t);
    forall j | 0 <= j < |models| && TopicInput(topic) in models[j].possibleInputs
      ensures exists k :: k in a1 && k !in a0 && a1[k] == RxAction(Waiting, models[j].name, t, topic, None)
    {
      O.ListenerActionsCover(models, topic, t, j);
      var i :| 0 <= i < |s| && s[i].node == models[j].name;
      assert a1[n0 + i] == s[n0 + i - n0];
      assert n0 + i !in a0;
    }
    O.ListenerActionsDistinct(models, topic, t);
    forall k1, k2 | k1 in a1 && k2 in a1 && k1 !in a0 && k2 !in a0 && k1 != k2 ensures a1[k1].node != a1[k2].node {
      assert a1[k1] == s[k1 - n0] && a1[k2] == s[k2 - n0];
    }
  }

  /**
   * A request that does not raise grants the offer and creates exactly one new WAITING RxAction
   * on the offered topic, stamped with the offer's time, for every model that listens on the
   * topic, no two for one node, and every new id lies above every earlier one.
   */
  lemma RequestedListeners(models: seq<NodeModel>, s0: State, s1: State, r: Outcome<Error>, offer: DataOffer)
    requires NamesUnique(models) && IdsBelow(s0.actions, s0.nextId)
    requires Requested(models, s0, s1, r) && s0.nextInput == Some(offer) && r == Pass
    ensures s1.granted && s1.nextInput.None?
    ensures forall j :: 0 <= j < |models| && TopicInput(offer.topic) in models[j].possibleInputs ==>
      exists k :: k in s1.actions && k !in s0.actions && s1.actions[k] == RxAction(Waiting, models[j].name, offer.time, offer.topic, None)
    ensures forall k1, k2 :: k1 in s1.actions && k2 in s1.actions && k1 !in s0.actions && k2 !in s0.actions && k1 != k2 ==>
      s1.actions[k1].node != s1.actions[k2].node
    ensures forall k0, k1 :: k0 in s0.actions && k1 in s1.actions && k1 !in s0.actions ==> k0 < k1
  {
    var s := O.ListenerActions(models, offer.topic, offer.time);
    AttemptedSpec(models, s);
    AppendedListeners(models, s0.actions, s0.edges, s0.nextId, s1.actions, s1.edges, s1.nextId, offer.topic, offer.time);
  }

  // ----- the offers -----

  /** A data offer fails exactly when an offer is pending or simulator_time is None, and then changes nothing. */
  lemma OfferFailsIff(models: seq<NodeModel>, s0: State, topic: TopicName, s1: State, r: Outcome<Error>)
    requires NamesUnique(models)
    requires Offered(models, s0, topic, s1, r)
    ensures r == Fail(OfferPending) <==> s0.nextInput.Some?
    ensures r == Fail(DataBeforeTime) <==> s0.nextInput.None? && s0.simulatorTime.None?
    ensures r.Fail? && r != Fail(OfferPending) && r != Fail(DataBeforeTime) ==>
      r == Fail(UnboundTimestep) && ListenerSpawns(models, topic)
    ensures r == Fail(OfferPending) || r == Fail(DataBeforeTime) ==> s1 == s0
  {
    if s0.nextInput.None? && s0.simulatorTime.Some? && !O.GraphIsBusy(s0.actions, s0.nextId) {
      var offered := s0.(nextInput := Some(DataOffer(s0.simulatorTime.value, topic)), granted := false);
      RequestFailsIffSpawns(models, offered, s1, r, offered.nextInput.value);
    }
  }

  /**
   * An accepted data offer is stamped with simulator_time; it is granted at once when nothing is
   * WAITING or RUNNING, and otherwise left pending, not granted, for `__process`.
   */
  lemma OfferAccepted(models: seq<NodeModel>, s0: State, topic: TopicName, s1: State, r: Outcome<Error>)
    requires Offered(models, s0, topic, s1, r)
    requires s0.nextInput.None? && s0.simulatorTime.Some?
    ensures O.GraphIsBusy(s0.actions, s0.nextId) ==>
      r == Pass && s1.nextInput == Some(DataOffer(s0.simulatorTime.value, topic)) && !s1.granted && s1.actions == s0.actions
    ensures !O.GraphIsBusy(s0.actions, s0.nextId) ==> s1.nextInput.None? && (s1.granted <==> r == Pass)
    ensures s1.published == s0.published && s1.simulatorTime == s0.simulatorTime && s1.nextTimestep == s0.nextTimestep
  {
  }

  /** A clock offer is stored unless one already is; it never touches the graph or simulator_time. */
  lemma TimeOfferStores(s0: State, t: int, s1: State, r: Outcome<Error>)
    requires TimeOffered(s0, t, s1, r)
    ensures r.Fail? <==> s0.nextTimestep.Some?
    ensures r.Fail? ==> r == Fail(TimestepPending) && s1 == s0
    ensures r.Pass? ==> s1.nextTimestep == Some(t)
    ensures s1.actions == s0.actions && s1.edges == s0.edges && s1.simulatorTime == s0.simulatorTime && s1.nextInput == s0.nextInput
  {
  }

  // ----- the callbacks -----

  /**
   * The removal step of `__interception_subscription_callback`: the running action that
   * published the message goes with its edges, and nothing else but the actions changes.
   */
  lemma DeliveredRemovesPublisher(models: seq<NodeModel>, s0: State, topic: TopicName, msg: Message, s1: State, cause: Option<nat>)
    requires s1 == Delivered(models, s0, topic, msg) && cause == O.FindRunningAction(models, s0.actions, s0.nextId, topic)
    ensures cause.Some? ==> s1.actions.Keys == s0.actions.Keys - {cause.value} && s1.edges == RemoveNode(s0.edges, cause.value)
    ensures cause.None? ==> s1.actions.Keys == s0.actions.Keys && s1.edges == s0.edges
    ensures s1.nextId == s0.nextId && s1.published == s0.published && s1.nextInput == s0.nextInput
    ensures s1.simulatorTime == s0.simulatorTime && s1.granted == s0.granted && s1.nextTimestep == s0.nextTimestep
  {
  }

  /**
   * The buffering step of `__interception_subscription_callback`: exactly the WAITING RxActions
   * on the topic that are CAUSALITY children of the running action that published it (or, for
   * an external input, those at the earliest waiting time step) become READY holding the
   * message, their data having been None.
   */
  lemma DeliveredBuffersOnly(models: seq<NodeModel>, s0: State, topic: TopicName, msg: Message, s1: State, cause: Option<nat>)
    requires IdsBelow(s0.actions, s0.nextId) && DataBuffered(s0.actions)
    requires s1 == Delivered(models, s0, topic, msg) && cause == O.FindRunningAction(models, s0.actions, s0.nextId, topic)
    ensures forall k :: k in s1.actions ==>
      (s1.actions[k] != s0.actions[k] <==>
        Matches(WaitingOn(topic), k, s0.actions[k]) &&
        match cause
        case Some(c) => (k, c) in s0.edges && s0.edges[(k, c)] == Causality
        case None => forall j :: j in s0.actions && Matches(WaitingOn(topic), j, s0.actions[j]) ==>
                       s0.actions[k].timestamp <= s0.actions[j].timestamp)
    ensures forall k :: k in s1.actions && s1.actions[k] != s0.actions[k] ==>
      s0.actions[k].data.None? && s1.actions[k] == s0.actions[k].(state := Ready, data := Some(msg))
  {
    var n := s0.nextId;
    var ts := if cause.None? then EarliestWaiting(s0.actions, topic, n) else None;
    var b := Buffered(s0.actions, s0.edges, topic, cause, ts, msg, n);
    assert forall k :: k in s1.actions ==> k in s0.actions && s1.actions[k] == b[k];
    forall k | k in s1.actions
      ensures s1.actions[k] != s0.actions[k] <==>
        Matches(WaitingOn(topic), k, s0.actions[k]) &&
        match cause
        case Some(c) => (k, c) in s0.edges && s0.edges[(k, c)] == Causality
        case None => forall j :: j in s0.actions && Matches(WaitingOn(topic), j, s0.actions[j]) ==>
                       s0.actions[k].timestamp <= s0.actions[j].timestamp
      ensures s1.actions[k] != s0.actions[k] ==> s0.actions[k].data.None? && s1.actions[k] == s0.actions[k].(state := Ready, data := Some(msg))
    {
      P.BufferedAt(s0.actions, s0.edges, topic, cause, ts, msg, n, b, k);
    }
  }

  /**
   * `__interception_subscription_callback` raises ActionNotFoundError exactly for a topic other
   * than "clock" that is no external input and that no RUNNING action publishes; then nothing
   * changes.
   */
  lemma InterceptNotFoundIff(models: seq<NodeModel>, external: seq<TopicName>, s0: State, topic: TopicName, msg: Message,
                             s1: State, r: Outcome<Error>)
    requires IdsBelow(s0.actions, s0.nextId)
    requires Intercepted(models, external, s0, topic, msg, s1, r)
    ensures r == Fail(ActionNotFound) <==>
      topic != "clock" && topic !in external &&
      forall k :: k in s0.actions ==> !(s0.actions[k].state == Running && Publishes(models, s0.actions[k], topic))
    ensures r == Fail(ActionNotFound) ==> s1 == s0
  {
    if topic != "clock" && (O.FindRunningAction(models, s0.actions, s0.nextId, topic).Some? || topic in external) {
      ProcessedErrors(models, Delivered(models, s0, topic, msg), s1, r);
    }
  }

  /** The running action that published an intercepted message is gone once the callback returns. */
  lemma InterceptRemovesPublisher(models: seq<NodeModel>, external: seq<TopicName>, s0: State, topic: TopicName, msg: Message,
                                  s1: State, r: Outcome<Error>)
    requires Intercepted(models, external, s0, topic, msg, s1, r) && topic != "clock"
    requires O.FindRunningAction(models, s0.actions, s0.nextId, topic).Some?
    ensures O.FindRunningAction(models, s0.actions, s0.nextId, topic).value !in s1.actions
  {
    var c := O.FindRunningAction(models, s0.actions, s0.nextId, topic).value;
    var mid := Delivered(models, s0, topic, msg);
    assert c !in mid.actions && c < mid.nextId;
    ProcessedGrows(models, mid, s1, r);
  }

  /**
   * `__status_callback` raises ActionNotFoundError exactly when no RUNNING action of the node
   * has a callback that publishes a status; otherwise the first such action is gone afterwards.
   */
  lemma StatusNotFoundIff(models: seq<NodeModel>, s0: State, node: NodeName, s1: State, r: Outcome<Error>)
    requires IdsBelow(s0.actions, s0.nextId)
    requires StatusHandled(models, s0, node, s1, r)
    ensures r == Fail(ActionNotFound) <==>
      forall k :: k in s0.actions ==> !(s0.actions[k].state == Running && s0.actions[k].node == node && PublishesStatus(models, s0.actions[k]))
    ensures r == Fail(ActionNotFound) ==> s1 == s0
    ensures r != Fail(ActionNotFound) ==> O.FindRunningActionStatus(models, s0.actions, s0.nextId, node).value !in s1.actions
  {
    match O.FindRunningActionStatus(models, s0.actions, s0.nextId, node)
    case None =>
    case Some(k) =>
      var mid := s0.(actions := s0.actions - {k}, edges := RemoveNode(s0.edges, k));
      ProcessedErrors(models, mid, s1, r);
      ProcessedGrows(models, mid, s1, r);
  }

  // ----- simulator_time is never set -----

  /** The outcome of one call (as listed by OrchestratorProperties.Call) into this orchestrator. */
  ghost predicate Step(models: seq<NodeModel>, external: seq<TopicName>, s0: State, c: P.Call, s1: State, r: Outcome<Error>)
  {
    match c
    case OfferData(topic) => Offered(models, s0, topic, s1, r)
    case OfferTime(t) => TimeOffered(s0, t, s1, r)
    case Intercept(topic, msg) => Intercepted(models, external, s0, topic, msg, s1, r)
    case Status(node) => StatusHandled(models, s0, node, s1, r)
  }

  /** The states and results of a sequence of calls. */
  ghost predicate Run(models: seq<NodeModel>, external: seq<TopicName>, states: seq<State>, calls: seq<P.Call>, results: seq<Outcome<Error>>)
  {
    |states| == |calls| + 1 && |results| == |calls| &&
    forall i :: 0 <= i < |calls| ==> Step(models, external, states[i], calls[i], states[i + 1], results[i])
  }

  /** The state of a fresh orchestrator, whatever clock step has been stored. */
  ghost predicate Idle(s: State)
  {
    s.actions == map[] && s.edges == map[] && s.nextId == 0 && s.published == [] &&
    s.nextInput.None? && s.simulatorTime.None? && !s.granted
  }

  /** Processing an idle state releases nothing and requests nothing. */
  lemma ProcessedIdle(models: seq<NodeModel>, s0: State, s1: State, r: Outcome<Error>)
    requires Idle(s0) && Processed(models, s0, s1, r)
    ensures r == Pass && s1 == s0
  {
    assert Released(s0.actions, s0.edges, 0) == map[];
    assert Releases(s0.actions, s0.edges, 0) == [];
  }

  /**
   * No call leaves the idle state other than by storing a clock step: a data offer raises
   * DataBeforeTime (no code sets simulator_time), an intercepted message finds no action to
   * buffer into, and a status finds no running action.
   */
  lemma StepKeepsIdle(models: seq<NodeModel>, external: seq<TopicName>, s0: State, c: P.Call, s1: State, r: Outcome<Error>)
    requires Idle(s0) && Step(models, external, s0, c, s1, r)
    ensures Idle(s1)
    ensures c.OfferData? ==> r == Fail(DataBeforeTime)
    ensures c.Status? ==> r == Fail(ActionNotFound)
  {
    match c
    case OfferData(_) =>
    case OfferTime(_) =>
    case Intercept(topic, msg) =>
      if topic != "clock" && (O.FindRunningAction(models, s0.actions, s0.nextId, topic).Some? || topic in external) {
        var mid := Delivered(models, s0, topic, msg);
        assert mid == s0;
        ProcessedIdle(models, mid, s1, r);
      }
    case Status(node) =>
  }

  /** Along any run from an idle state, every state is idle. */
  lemma {:induction false} AlwaysIdle(models: seq<NodeModel>, external: seq<TopicName>, states: seq<State>, calls: seq<P.Call>,
                                      results: seq<Outcome<Error>>, i: nat)
    requires Run(models, external, states, calls, results) && Idle(states[0])
    requires i < |states|
    ensures Idle(states[i])
  {
    if i > 0 {
      AlwaysIdle(models, external, states, calls, results, i - 1);
      StepKeepsIdle(models, external, states[i - 1], calls[i - 1], states[i], results[i - 1]);
    }
  }

  /**
   * Hence, as written, along every run from a fresh orchestrator each data offer raises
   * DataBeforeTime, each status raises ActionNotFoundError, and nothing is ever published.
   */
  lemma EveryDataOfferFails(models: seq<NodeModel>, external: seq<TopicName>, states: seq<State>, calls: seq<P.Call>,
                            results: seq<Outcome<Error>>)
    requires Run(models, external, states, calls, results) && Idle(states[0])
    ensures forall i :: 0 <= i < |calls| && calls[i].OfferData? ==> results[i] == Fail(DataBeforeTime)
    ensures forall i :: 0 <= i < |calls| && calls[i].Status? ==> results[i] == Fail(ActionNotFound)
    ensures forall i :: 0 <= i < |states| ==> states[i].published == []
  {
    forall i | 0 <= i < |calls|
      ensures calls[i].OfferData? ==> results[i] == Fail(DataBeforeTime)
      ensures calls[i].Status? ==> results[i] == Fail(ActionNotFound)
    {
      AlwaysIdle(models, external, states, calls, results, i);
      StepKeepsIdle(models, external, states[i], calls[i], states[i + 1], results[i]);
    }
    forall i | 0 <= i < |states| ensures states[i].published == [] {
      AlwaysIdle(models, external, states, calls, results, i);
    }
  }
}
