/**
 * What the orchestrator of src/orchestrator/orchestrator/orchestrator_lib/orchestrator.py
 * promises across its operations, stated over the outcome predicates its methods are proved
 * against: the release loop reaches a fixed point and only releases, an offer is granted exactly
 * when the graph is quiescent for it, an intercepted message is buffered only where it belongs,
 * and, as written, simulator_time is never set, so no data offer ever succeeds.
 */
module OrchestratorProperties {
  import opened Wrappers
  import opened NodeModels
  import opened ActionGraph
  import opened Orchestrator
  import opened Expansions

  // ----- __process -----

  /** Processing never loses an action or an edge, and the actions it adds are new WAITING RxActions. */
  lemma ProcessedGrows(models: seq<NodeModel>, rank: Cause -> nat, s0: State, s1: State, r: Outcome<Error>)
    requires Processed(models, rank, s0, s1, r)
    ensures forall k :: k in s0.actions ==> k in s1.actions
    ensures forall k :: k in s1.actions && k !in s0.actions ==>
      s0.nextId <= k && s1.actions[k].RxAction? && s1.actions[k].state == Waiting
    ensures forall e :: e in s0.edges ==> e in s1.edges
    ensures s0.nextInput.None? ==> s1.actions.Keys == s0.actions.Keys && s1.edges == s0.edges && s1.nextId == s0.nextId
    ensures s0.nextId <= s1.nextId
  {
    var e, n := s0.edges, s0.nextId;
    if FirstMatch(s0.actions, 0, n, ReleasableTimer(e)).None? {
      var mid := s0.(actions := Released(s0.actions, e, n), published := s0.published + Releases(s0.actions, e, n));
      if !(mid.nextInput.None? || ReadyForNextInput(mid.actions, n, mid.nextInput) == Ok(false)) {
        assert Requested(models, rank, mid, s1, r);
        if mid.nextInput.value.FutureInput? {
          var t := mid.simulatorTime.value;
          assert Grew(mid.actions, e, n, s1.actions, s1.edges, s1.nextId);
          assert forall k :: k in s1.actions && n <= k ==> Spawned(s1.actions[k], t);
        }
      }
    }
  }

  /** The only errors of `__process`: a ready timer action, or a clock step granted before the first one. */
  lemma ProcessedErrors(models: seq<NodeModel>, rank: Cause -> nat, s0: State, s1: State, r: Outcome<Error>)
    requires Processed(models, rank, s0, s1, r)
    ensures r == Pass || r == Fail(NotImplemented) || r == Fail(TimersBeforeTime)
    ensures r == Fail(TimersBeforeTime) ==> s0.simulatorTime.None? && s0.nextInput.Some? && s0.nextInput.value.FutureTimestep?
  {
  }

  /** `__process` raises NotImplementedError exactly when a READY timer callback action has no outgoing edge. */
  lemma ProcessRaisesIffTimerReady(models: seq<NodeModel>, rank: Cause -> nat, s0: State, s1: State, r: Outcome<Error>)
    requires IdsBelow(s0.actions, s0.nextId)
    requires Processed(models, rank, s0, s1, r)
    ensures r == Fail(NotImplemented) <==>
      exists k :: k in s0.actions && Matches(ReleasableTimer(s0.edges), k, s0.actions[k])
  {
    var f := FirstMatch(s0.actions, 0, s0.nextId, ReleasableTimer(s0.edges));
    if f.Some? {
      assert Matches(ReleasableTimer(s0.edges), f.value, s0.actions[f.value]);
    } else {
      ProcessedErrors(models, rank, s0, s1, r);
    }
  }

  /**
   * `__process` reaches its fixed point: unless it stopped at a ready timer, afterwards no
   * action is READY without outgoing edges, even after it has added the actions of the input it
   * granted.
   */
  lemma ProcessFixedPoint(models: seq<NodeModel>, rank: Cause -> nat, s0: State, s1: State, r: Outcome<Error>)
    requires IdsBelow(s0.actions, s0.nextId)
    requires Processed(models, rank, s0, s1, r) && r != Fail(NotImplemented)
    ensures NoneMatch(s1.actions, Releasable(s1.edges))
  {
    var e, n := s0.edges, s0.nextId;
    assert FirstMatch(s0.actions, 0, n, ReleasableTimer(e)).None?;
    var m := Released(s0.actions, e, n);
    assert NoneMatch(m, Releasable(e));
    ProcessedGrows(models, rank, s0, s1, r);
    forall k | k in s1.actions ensures !Matches(Releasable(s1.edges), k, s1.actions[k]) {
      if k in s0.actions && s1.actions[k] == m[k] && s1.actions[k].state == Ready {
        assert HasOutgoing(e, k);
        var x :| x in e && x.0 == k;
        assert x in s1.edges;
      }
    }
  }

  /**
   * Only the actions that are READY without outgoing edges change, each to RUNNING with its data
   * kept. When no offer is pending, no action or edge comes or goes.
   */
  lemma ProcessOnlyReleases(models: seq<NodeModel>, rank: Cause -> nat, s0: State, s1: State, r: Outcome<Error>)
    requires IdsBelow(s0.actions, s0.nextId)
    requires Processed(models, rank, s0, s1, r) && r != Fail(NotImplemented)
    ensures forall k :: k in s0.actions ==> k in s1.actions
    ensures forall k :: k in s0.actions ==> (s1.actions[k] != s0.actions[k] <==> Matches(Releasable(s0.edges), k, s0.actions[k]))
    ensures forall k :: k in s0.actions && s1.actions[k] != s0.actions[k] ==>
      s0.actions[k].RxAction? && s1.actions[k] == Start(s0.actions[k])
    ensures s0.nextInput.None? ==> s1.actions.Keys == s0.actions.Keys && s1.edges == s0.edges
  {
    var e, n := s0.edges, s0.nextId;
    assert FirstMatch(s0.actions, 0, n, ReleasableTimer(e)).None?;
    var m := Released(s0.actions, e, n);
    ProcessedGrows(models, rank, s0, s1, r);
    assert forall k :: k in s0.actions ==> s1.actions[k] == m[k] by {
      if !(s0.nextInput.None? || ReadyForNextInput(m, n, s0.nextInput) == Ok(false)) {
        var mid := s0.(actions := m, published := s0.published + Releases(s0.actions, e, n));
        assert Requested(models, rank, mid, s1, r);
      }
    }
  }

  /** The log grows by exactly one entry per released action, carrying its node, topic and buffered data. */
  lemma ProcessPublishes(models: seq<NodeModel>, rank: Cause -> nat, s0: State, s1: State, r: Outcome<Error>)
    requires IdsBelow(s0.actions, s0.nextId)
    requires Processed(models, rank, s0, s1, r) && r != Fail(NotImplemented)
    ensures s1.published == s0.published + Releases(s0.actions, s0.edges, s0.nextId)
    ensures |Releases(s0.actions, s0.edges, s0.nextId)| == |MatchingIds(s0.actions, 0, s0.nextId, Releasable(s0.edges))|
    ensures forall k :: k in s0.actions && Matches(Releasable(s0.edges), k, s0.actions[k]) ==>
      s0.actions[k].RxAction? && Publish(s0.actions[k].node, s0.actions[k].topic, s0.actions[k].data) in s1.published
  {
    ProcessedLog(models, rank, s0, s1, r);
    ReleasesExactlyOnce(s0.actions, s0.edges, s0.nextId);
  }

  /**
   * `__ready_for_next_input` inside `__process`: a message offered on a topic is granted exactly
   * when, once the pass has released what it can, no RxAction on that topic is WAITING or READY.
   */
  lemma ProcessGrantsIffQuiescent(models: seq<NodeModel>, rank: Cause -> nat, s0: State, s1: State, r: Outcome<Error>, topic: TopicName)
    requires IdsBelow(s0.actions, s0.nextId)
    requires Processed(models, rank, s0, s1, r) && r != Fail(NotImplemented)
    requires s0.nextInput == Some(FutureInput(topic))
    ensures s1.nextInput.None? <==>
      forall k :: k in s0.actions && Matches(PendingOn(topic), k, s0.actions[k]) ==> Matches(Releasable(s0.edges), k, s0.actions[k])
    ensures s1.nextInput.None? ==> s1.granted && r == Pass
  {
    var e, n := s0.edges, s0.nextId;
    assert FirstMatch(s0.actions, 0, n, ReleasableTimer(e)).None?;
    var m := Released(s0.actions, e, n);
    var quiet := forall k :: k in s0.actions && Matches(PendingOn(topic), k, s0.actions[k]) ==> Matches(Releasable(e), k, s0.actions[k]);
    if quiet {
      forall k | k < n && k in m ensures !Matches(PendingOn(topic), k, m[k]) {
        if Matches(PendingOn(topic), k, s0.actions[k]) {
          assert m[k] == Start(s0.actions[k]);
        }
      }
      assert ReadyForNextInput(m, n, s0.nextInput) == Ok(true);
    } else {
      var k :| k in s0.actions && Matches(PendingOn(topic), k, s0.actions[k]) && !Matches(Releasable(e), k, s0.actions[k]);
      assert m[k] == s0.actions[k];
      assert ReadyForNextInput(m, n, s0.nextInput) == Ok(false);
    }
  }

  /**
   * When `__process` grants an offered message, what it adds past the release pass is exactly
   * the topic input's expansion: each listener's WAITING RxAction at the current time, followed
   * by its effects and their children, laid out from the old nextId on.
   */
  lemma ProcessedGrantExpands(models: seq<NodeModel>, rank: Cause -> nat, s0: State, s1: State, r: Outcome<Error>, topic: TopicName)
    requires IdsBelow(s0.actions, s0.nextId)
    requires Processed(models, rank, s0, s1, r) && r != Fail(NotImplemented)
    requires s0.nextInput == Some(FutureInput(topic)) && s1.nextInput.None?
    ensures s0.simulatorTime.Some? && s1.granted && r == Pass
    ensures Expanded(models, rank, ListenerActions(models, topic, s0.simulatorTime.value),
                     Released(s0.actions, s0.edges, s0.nextId), s0.edges, s0.nextId, s1.actions, s1.edges, s1.nextId)
  {
    ProcessedLog(models, rank, s0, s1, r);
  }

  // ----- __request_next_input and wait_until_*_publish_allowed -----

  /**
   * Granting a message on a topic creates exactly one WAITING RxAction on it, stamped with the
   * current time, for every model that listens on the topic, no two for one node, and every new
   * id lies above every earlier one.
   */
  lemma RequestedTopicInput(models: seq<NodeModel>, rank: Cause -> nat, s0: State, s1: State, r: Outcome<Error>, topic: TopicName)
    requires NamesUnique(models) && IdsBelow(s0.actions, s0.nextId)
    requires Requested(models, rank, s0, s1, r) && s0.nextInput == Some(FutureInput(topic))
    ensures r == Pass && s1.granted && s1.nextInput.None? && s0.simulatorTime.Some?
    ensures forall j :: 0 <= j < |models| && TopicInput(topic) in models[j].possibleInputs ==>
      exists k :: k in s1.actions && k !in s0.actions && s1.actions[k] == RxAction(Waiting, models[j].name, s0.simulatorTime.value, topic, None)
    ensures forall k1, k2 ::
      k1 in s1.actions && k2 in s1.actions && k1 !in s0.actions && k2 !in s0.actions && k1 != k2 &&
      s1.actions[k1].RxAction? && s1.actions[k1].topic == topic && s1.actions[k2].RxAction? && s1.actions[k2].topic == topic
      ==> s1.actions[k1].node != s1.actions[k2].node
    ensures forall k0, k1 :: k0 in s0.actions && k1 in s1.actions && k1 !in s0.actions ==> k0 < k1
  {
    var t := s0.simulatorTime.value;
    var a0, a1 := s0.actions, s1.actions;
    forall j | 0 <= j < |models| && TopicInput(topic) in models[j].possibleInputs
      ensures exists k :: k in a1 && k !in a0 && a1[k] == RxAction(Waiting, models[j].name, t, topic, None)
    {
      TopicInputCovers(models, a0, s0.edges, s0.nextId, a1, s1.edges, s1.nextId, topic, t, j);
    }
    TopicInputDistinctNodes(models, a0, s0.edges, s0.nextId, a1, s1.edges, s1.nextId, topic, t);
  }

  /** A data offer while nothing is WAITING or RUNNING is granted at once, leaving no offer pending. */
  lemma OfferGrantedWhenIdle(models: seq<NodeModel>, rank: Cause -> nat, s0: State, topic: TopicName, s1: State, r: Outcome<Error>)
    requires Offered(models, rank, s0, topic, s1, r)
    requires s0.nextInput.None? && s0.simulatorTime.Some? && !GraphIsBusy(s0.actions, s0.nextId)
    ensures r == Pass && s1.granted && s1.nextInput.None?
    ensures s1.published == s0.published && s1.simulatorTime == s0.simulatorTime
  {
  }

  /** A data offer fails exactly when an offer is pending or no time step has been granted yet. */
  lemma OfferFailsIff(models: seq<NodeModel>, rank: Cause -> nat, s0: State, topic: TopicName, s1: State, r: Outcome<Error>)
    requires Offered(models, rank, s0, topic, s1, r)
    ensures r.Fail? <==> s0.nextInput.Some? || s0.simulatorTime.None?
    ensures r.Fail? ==> s1 == s0
  {
  }

  /**
   * The first clock offer, made while simulator_time is still None, raises while adding the
   * timers when the graph is idle: the offer is cleared but never granted.
   */
  lemma FirstTimeOfferFails(models: seq<NodeModel>, rank: Cause -> nat, s0: State, t: int, s1: State, r: Outcome<Error>)
    requires TimeOffered(models, rank, s0, t, s1, r)
    requires s0.nextInput.None? && s0.simulatorTime.None? && !GraphIsBusy(s0.actions, s0.nextId)
    ensures r == Fail(TimersBeforeTime) && s1.nextInput.None? && !s1.granted && s1.simulatorTime.None?
  {
  }

  /** Once simulator_time is set, a granted clock step sets it to the offered time. */
  lemma TimeOfferSetsTime(models: seq<NodeModel>, rank: Cause -> nat, s0: State, t: int, s1: State, r: Outcome<Error>)
    requires TimeOffered(models, rank, s0, t, s1, r)
    requires s0.nextInput.None? && s0.simulatorTime.Some? && !GraphIsBusy(s0.actions, s0.nextId)
    ensures r == Pass && s1.simulatorTime == Some(t) && s1.nextInput.None? && s1.granted
    ensures s1.actions == s0.actions && s1.edges == s0.edges
  {
  }

  // ----- the callbacks -----

  /**
   * The removal step of `__interception_subscription_callback`: the running action that
   * published the message goes with its edges, and nothing else but the actions changes.
   */
  lemma DeliveredRemovesPublisher(models: seq<NodeModel>, s0: State, topic: TopicName, msg: Message, s1: State, cause: Option<nat>)
    requires s1 == Delivered(models, s0, topic, msg) && cause == FindRunningAction(models, s0.actions, s0.nextId, topic)
    ensures cause.Some? ==> s1.actions.Keys == s0.actions.Keys - {cause.value} && s1.edges == RemoveNode(s0.edges, cause.value)
    ensures cause.None? ==> s1.actions.Keys == s0.actions.Keys && s1.edges == s0.edges
    ensures s1.nextId == s0.nextId && s1.published == s0.published && s1.nextInput == s0.nextInput
    ensures s1.simulatorTime == s0.simulatorTime && s1.granted == s0.granted
  {
  }

  /**
   * The buffering step of `__interception_subscription_callback`: exactly the WAITING RxActions
   * on the topic that are CAUSALITY children of the running action that published it (or, for
   * an external input, those at the earliest waiting time step) become READY holding the
   * message, their data having been None.
   */
  lemma DeliveredBuffersOnly(models: seq<NodeModel>, s0: State, topic: TopicName, msg: Message, s1: State, cause: Option<nat>)
    requires IdsBelow(s0.actions, s0.nextId) && DataBuffered(s0.actions)
    requires s1 == Delivered(models, s0, topic, msg) && cause == FindRunningAction(models, s0.actions, s0.nextId, topic)
    ensures forall k :: k in s1.actions ==>
      (s1.actions[k] != s0.actions[k] <==>
        Matches(WaitingOn(topic), k, s0.actions[k]) &&
        match cause
        case Some(c) => (k, c) in s0.edges && s0.edges[(k, c)] == Causality
        case None => forall j :: j in s0.actions && Matches(WaitingOn(topic), j, s0.actions[j]) ==>
                       s0.actions[k].timestamp <= s0.actions[j].timestamp)
    ensures forall k :: k in s1.actions && s1.actions[k] != s0.actions[k] ==>
      s0.actions[k].data.None? && s1.actions[k] == s0.actions[k].(state := Ready, data := Some(msg))
  {
    var n := s0.nextId;
    var ts := if cause.None? then EarliestWaiting(s0.actions, topic, n) else None;
    var b := Buffered(s0.actions, s0.edges, topic, cause, ts, msg, n);
    assert forall k :: k in s1.actions ==> k in s0.actions && s1.actions[k] == b[k];
    forall k | k in s1.actions
      ensures s1.actions[k] != s0.actions[k] <==>
        Matches(WaitingOn(topic), k, s0.actions[k]) &&
        match cause
        case Some(c) => (k, c) in s0.edges && s0.edges[(k, c)] == Causality
        case None => forall j :: j in s0.actions && Matches(WaitingOn(topic), j, s0.actions[j]) ==>
                       s0.actions[k].timestamp <= s0.actions[j].timestamp
      ensures s1.actions[k] != s0.actions[k] ==> s0.actions[k].data.None? && s1.actions[k] == s0.actions[k].(state := Ready, data := Some(msg))
    {
      BufferedAt(s0.actions, s0.edges, topic, cause, ts, msg, n, b, k);
    }
  }

  lemma BufferedAt(a0: Actions, e: Edges, topic: TopicName, cause: Option<nat>, ts: Option<int>, msg: Message, n: nat, b: Actions, k: nat)
    requires IdsBelow(a0, n) && DataBuffered(a0) && k in a0
    requires ts == if cause.None? then EarliestWaiting(a0, topic, n) else None
    requires b == Buffered(a0, e, topic, cause, ts, msg, n)
    ensures b[k] != a0[k] <==>
      Matches(WaitingOn(topic), k, a0[k]) &&
      match cause
      case Some(c) => (k, c) in e && e[(k, c)] == Causality
      case None => forall j :: j in a0 && Matches(WaitingOn(topic), j, a0[j]) ==> a0[k].timestamp <= a0[j].timestamp
    ensures b[k] != a0[k] ==> a0[k].data.None? && b[k] == a0[k].(state := Ready, data := Some(msg))
  {
    if cause.None? {
      ExternalInputBuffersEarliest(a0, e, topic, n, k);
    }
  }

  /**
   * `__interception_subscription_callback` raises ActionNotFoundError exactly for a topic other
   * than "clock" that is no external input and that no RUNNING action publishes; then nothing
   * changes.
   */
  lemma InterceptNotFoundIff(models: seq<NodeModel>, rank: Cause -> nat, external: seq<TopicName>, s0: State, topic: TopicName, msg: Message,
                             s1: State, r: Outcome<Error>)
    requires IdsBelow(s0.actions, s0.nextId)
    requires Intercepted(models, rank, external, s0, topic, msg, s1, r)
    ensures r == Fail(ActionNotFound) <==>
      topic != "clock" && topic !in external &&
      forall k :: k in s0.actions ==> !(s0.actions[k].state == Running && Publishes(models, s0.actions[k], topic))
    ensures r == Fail(ActionNotFound) ==> s1 == s0
  {
    if topic != "clock" && (FindRunningAction(models, s0.actions, s0.nextId, topic).Some? || topic in external) {
      ProcessedErrors(models, rank, Delivered(models, s0, topic, msg), s1, r);
    }
  }

  /** The running action that published an intercepted message is gone once the callback returns. */
  lemma InterceptRemovesPublisher(models: seq<NodeModel>, rank: Cause -> nat, external: seq<TopicName>, s0: State, topic: TopicName, msg: Message,
                                  s1: State, r: Outcome<Error>)
    requires IdsBelow(s0.actions, s0.nextId)
    requires Intercepted(models, rank, external, s0, topic, msg, s1, r) && topic != "clock"
    requires FindRunningAction(models, s0.actions, s0.nextId, topic).Some?
    ensures FindRunningAction(models, s0.actions, s0.nextId, topic).value !in s1.actions
  {
    var c := FindRunningAction(models, s0.actions, s0.nextId, topic).value;
    var mid := Delivered(models, s0, topic, msg);
    assert c !in mid.actions && c < mid.nextId;
    ProcessedGrows(models, rank, mid, s1, r);
  }

  /**
   * `__status_callback` raises ActionNotFoundError exactly when no RUNNING action of the node
   * has a callback that publishes a status; otherwise the first such action is gone afterwards.
   */
  lemma StatusNotFoundIff(models: seq<NodeModel>, rank: Cause -> nat, s0: State, node: NodeName, s1: State, r: Outcome<Error>)
    requires IdsBelow(s0.actions, s0.nextId)
    requires StatusHandled(models, rank, s0, node, s1, r)
    ensures r == Fail(ActionNotFound) <==>
      forall k :: k in s0.actions ==> !(s0.actions[k].state == Running && s0.actions[k].node == node && PublishesStatus(models, s0.actions[k]))
    ensures r == Fail(ActionNotFound) ==> s1 == s0
    ensures r != Fail(ActionNotFound) ==> FindRunningActionStatus(models, s0.actions, s0.nextId, node).value !in s1.actions
  {
    match FindRunningActionStatus(models, s0.actions, s0.nextId, node)
    case None =>
    case Some(k) =>
      var mid := s0.(actions := s0.actions - {k}, edges := RemoveNode(s0.edges, k));
      ProcessedErrors(models, rank, mid, s1, r);
      ProcessedGrows(models, rank, mid, s1, r);
  }

  // ----- simulator_time is never set -----

  /** A call the data source or the ROS graph makes into the orchestrator. */
  datatype Call =
    | OfferData(topic: TopicName)             // wait_until_publish_allowed
    | OfferTime(time: int)                    // wait_until_time_publish_allowed
    | Intercept(topic: TopicName, msg: Message) // a message from an interception subscription
    | Status(node: NodeName)                  // a status message

  ghost predicate Step(models: seq<NodeModel>, rank: Cause -> nat, external: seq<TopicName>, s0: State, c: Call, s1: State, r: Outcome<Error>)
  {
    match c
    case OfferData(topic) => Offered(models, rank, s0, topic, s1, r)
    case OfferTime(t) => TimeOffered(models, rank, s0, t, s1, r)
    case Intercept(topic, msg) => Intercepted(models, rank, external, s0, topic, msg, s1, r)
    case Status(node) => StatusHandled(models, rank, s0, node, s1, r)
  }

  /** The states and results of a sequence of calls. */
  ghost predicate Run(models: seq<NodeModel>, rank: Cause -> nat, external: seq<TopicName>, states: seq<State>, calls: seq<Call>, results: seq<Outcome<Error>>)
  {
    |states| == |calls| + 1 && |results| == |calls| &&
    forall i :: 0 <= i < |calls| ==> Step(models, rank, external, states[i], calls[i], states[i + 1], results[i])
  }

  /** No call sets simulator_time while it is None. */
  lemma StepKeepsTimeUnset(models: seq<NodeModel>, rank: Cause -> nat, external: seq<TopicName>, s0: State, c: Call, s1: State, r: Outcome<Error>)
    requires Step(models, rank, external, s0, c, s1, r) && s0.simulatorTime.None?
    ensures s1.simulatorTime.None?
    ensures c.OfferData? ==> r == Fail(OfferPending) || r == Fail(DataBeforeTime)
  {
    match c
    case OfferData(_) =>
    case OfferTime(_) =>
    case Intercept(topic, msg) =>
      if topic != "clock" && (FindRunningAction(models, s0.actions, s0.nextId, topic).Some? || topic in external) {
        ProcessedKeepsTimeUnset(models, rank, Delivered(models, s0, topic, msg), s1, r);
      }
    case Status(node) =>
      match FindRunningActionStatus(models, s0.actions, s0.nextId, node)
      case None =>
      case Some(k) =>
        ProcessedKeepsTimeUnset(models, rank, s0.(actions := s0.actions - {k}, edges := RemoveNode(s0.edges, k)), s1, r);
  }

  lemma ProcessedKeepsTimeUnset(models: seq<NodeModel>, rank: Cause -> nat, s0: State, s1: State, r: Outcome<Error>)
    requires Processed(models, rank, s0, s1, r) && s0.simulatorTime.None?
    ensures s1.simulatorTime.None?
  {
  }

  /**
   * As written, simulator_time starts as None and only a granted clock step sets it, which
   * itself needs it set: along any run from the initial state it stays None.
   */
  lemma {:induction false} TimeNeverSet(models: seq<NodeModel>, rank: Cause -> nat, external: seq<TopicName>, states: seq<State>, calls: seq<Call>,
                                        results: seq<Outcome<Error>>, i: nat)
    requires Run(models, rank, external, states, calls, results) && states[0].simulatorTime.None?
    requires i < |states|
    ensures states[i].simulatorTime.None?
  {
    if i > 0 {
      TimeNeverSet(models, rank, external, states, calls, results, i - 1);
      StepKeepsTimeUnset(models, rank, external, states[i - 1], calls[i - 1], states[i], results[i - 1]);
    }
  }

  /** Hence, as written, every data offer of a run from the initial state raises. */
  lemma EveryDataOfferFails(models: seq<NodeModel>, rank: Cause -> nat, external: seq<TopicName>, states: seq<State>, calls: seq<Call>,
                            results: seq<Outcome<Error>>)
    requires Run(models, rank, external, states, calls, results) && states[0] == State(map[], map[], 0, [], None, None, false)
    ensures forall i :: 0 <= i < |calls| && calls[i].OfferData? ==> results[i] == Fail(OfferPending) || results[i] == Fail(DataBeforeTime)
  {
    forall i | 0 <= i < |calls| && calls[i].OfferData?
      ensures results[i] == Fail(OfferPending) || results[i] == Fail(DataBeforeTime)
    {
      TimeNeverSet(models, rank, external, states, calls, results, i);
      StepKeepsTimeUnset(models, rank, external, states[i], calls[i], states[i + 1], results[i]);
    }
  }
}
