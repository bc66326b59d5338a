/**
 * The state and the specification of the orchestrator of
 * src/orchestrator_dummy_nodes/orchestrator_dummy_nodes/orchestrator_lib/orchestrator.py: its errors, the
 * invariant of its graph, and each operation's outcome as a relation between the states before and after.
 */
module DummyGraph {
  import opened Wrappers
  import opened NodeModels
  import opened ActionGraph
  import O = Orchestrator

  /** The exceptions this orchestrator raises. */
  datatype Error =
    | OfferPending      // a RuntimeError: a second data offer before the last one was granted
    | TimestepPending   // a RuntimeError: a second clock offer before the last one was taken
    | DataBeforeTime    // a RuntimeError: data offered while simulator_time is None
    | NoPendingInput    // a RuntimeError: an input is requested while none is offered
    | ActionNotFound    // ActionNotFoundError: no running action explains a message
    | UnboundTimestep   // NameError: `timestep` is read where it is not bound

  /** A data offer (`FutureInput` without its future): the message on `topic` for time `time`. */
  datatype DataOffer = DataOffer(time: int, topic: TopicName)

  /** Every field of the orchestrator that changes, as one value. */
  datatype State = State(actions: Actions, edges: Edges, nextId: nat, published: seq<Publish>,
                         nextInput: Option<DataOffer>, nextTimestep: Option<int>, simulatorTime: Option<int>, granted: bool)

  /** The pending offer as `__ready_for_next_input` sees it: only its topic matters. */
  function Pending(next: Option<DataOffer>): Option<O.PendingInput>
  {
    if next.None? then None else Some(O.FutureInput(next.value.topic))
  }

  // ----- where child creation raises -----

  /** Some model lists `TopicInput(topic)` among its possible inputs. */
  predicate Listened(models: seq<NodeModel>, topic: TopicName)
  {
    Listeners(models, topic) != []
  }

  /**
   * A callback with these effects reaches the child creation of `__add_all_effects_for_cause`:
   * one of them publishes a topic some model listens on (SpawnsChildSpec).
   */
  predicate SpawnsChild(models: seq<NodeModel>, effects: seq<Effect>)
  {
    if effects == [] then false
    else
      var last := effects[|effects| - 1];
      SpawnsChild(models, effects[..|effects| - 1]) || (last.TopicPublish? && Listened(models, last.outputTopic))
  }

  lemma {:induction false} SpawnsChildSpec(models: seq<NodeModel>, effects: seq<Effect>)
    ensures SpawnsChild(models, effects) <==>
      exists i, j :: 0 <= i < |effects| && 0 <= j < |models| && effects[i].TopicPublish? &&
        TopicInput(effects[i].outputTopic) in models[j].possibleInputs
  {
    if effects != [] {
      var init := effects[..|effects| - 1];
      SpawnsChildSpec(models, init);
      assert forall i :: 0 <= i < |init| ==> init[i] == effects[i];
      var last := effects[|effects| - 1];
      if last.TopicPublish? {
        if Listened(models, last.outputTopic) {
          assert Listeners(models, last.outputTopic)[0] in Listeners(models, last.outputTopic);
        } else {
          forall j | 0 <= j < |models| ensures TopicInput(last.outputTopic) !in models[j].possibleInputs {
            assert models[j].name !in Listeners(models, last.outputTopic);
          }
        }
      }
    }
  }

  predicate Spawns(models: seq<NodeModel>, a: Action)
  {
    SpawnsChild(models, EffectsOf(models, a))
  }

  ghost predicate AnySpawns(models: seq<NodeModel>, s: seq<Action>)
  {
    exists i :: 0 <= i < |s| && Spawns(models, s[i])
  }

  /**
   * How many of the expected actions `__add_topic_input` adds: all of them, or those up to and
   * including the first whose effects raise (AttemptedSpec).
   */
  ghost function Attempted(models: seq<NodeModel>, s: seq<Action>): (m: nat)
    ensures m <= |s|
  {
    if s == [] then 0
    else if Spawns(models, s[0]) then 1
    else 1 + Attempted(models, s[1..])
  }

  /** The actions before the last attempted one do not raise; the last one raises exactly when some action would. */
  lemma {:induction false} AttemptedSpec(models: seq<NodeModel>, s: seq<Action>)
    ensures var m := Attempted(models, s);
      (forall i :: 0 <= i < m - 1 ==> !Spawns(models, s[i])) &&
      (AnySpawns(models, s) <==> 0 < m && Spawns(models, s[m - 1])) &&
      (!AnySpawns(models, s) ==> m == |s|)
  {
    if s != [] && !Spawns(models, s[0]) {
      AttemptedSpec(models, s[1..]);
      AnySpawnsTail(models, s);
      var m := Attempted(models, s[1..]);
      assert Attempted(models, s) == m + 1;
      if 0 < m {
        assert s[m] == s[1..][m - 1];
      }
    }
  }

  /** Past an action that does not raise, some action raises exactly when one of the rest does. */
  lemma AnySpawnsTail(models: seq<NodeModel>, s: seq<Action>)
    requires s != [] && !Spawns(models, s[0])
    ensures AnySpawns(models, s) <==> AnySpawns(models, s[1..])
    ensures forall i :: 1 <= i < |s| ==> s[i] == s[1..][i - 1]
  {
    assert forall i :: 1 <= i < |s| ==> s[i] == s[1..][i - 1];
    if AnySpawns(models, s[1..]) {
      var i :| 0 <= i < |s[1..]| && Spawns(models, s[1..][i]);
      assert s[i + 1] == s[1..][i];
    }
  }

  /** The first action that raises, at index i, is the last one attempted. */
  lemma {:induction false} AttemptedStops(models: seq<NodeModel>, s: seq<Action>, i: nat)
    requires i < |s| && Spawns(models, s[i])
    requires forall j :: 0 <= j < i ==> !Spawns(models, s[j])
    ensures Attempted(models, s) == i + 1 && AnySpawns(models, s)
  {
    if i > 0 {
      assert !Spawns(models, s[0]);
      assert forall j :: 0 <= j < i - 1 ==> s[1..][j] == s[j + 1];
      AttemptedStops(models, s[1..], i - 1);
    }
  }

  /** When no action raises, all of them are attempted. */
  lemma {:induction false} AttemptedAll(models: seq<NodeModel>, s: seq<Action>)
    requires forall j :: 0 <= j < |s| ==> !Spawns(models, s[j])
    ensures Attempted(models, s) == |s| && !AnySpawns(models, s)
  {
    if s != [] {
      assert !Spawns(models, s[0]);
      assert forall j :: 0 <= j < |s| - 1 ==> s[1..][j] == s[j + 1];
      AttemptedAll(models, s[1..]);
    }
  }

  /** None of the actions raises (written from the back, as the loop's prefix grows). */
  ghost predicate NoneSpawn(models: seq<NodeModel>, s: seq<Action>)
    decreases |s|
  {
    s == [] || (NoneSpawn(models, s[..|s| - 1]) && !Spawns(models, s[|s| - 1]))
  }

  lemma {:induction false} NoneSpawnEach(models: seq<NodeModel>, s: seq<Action>, j: nat)
    requires NoneSpawn(models, s) && j < |s|
    ensures !Spawns(models, s[j])
    decreases |s|
  {
    if j < |s| - 1 {
      NoneSpawnEach(models, s[..|s| - 1], j);
    }
  }

  lemma NoneSpawnAll(models: seq<NodeModel>, s: seq<Action>, i: nat)
    requires i <= |s| && NoneSpawn(models, s[..i])
    ensures forall j :: 0 <= j < i ==> !Spawns(models, s[j])
  {
    forall j | 0 <= j < i ensures !Spawns(models, s[j]) {
      NoneSpawnEach(models, s[..i], j);
    }
  }

  lemma NoneSpawnExtend(models: seq<NodeModel>, s: seq<Action>, i: nat)
    requires i < |s| && NoneSpawn(models, s[..i]) && !Spawns(models, s[i])
    ensures NoneSpawn(models, s[..i + 1])
  {
    assert s[..i + 1][..i] == s[..i];
  }

  ghost predicate AllRx(actions: Actions)
  {
    forall k :: k in actions ==> actions[k].RxAction?
  }

  /** The invariant of this orchestrator's graph. */
  ghost predicate WellFormed(models: seq<NodeModel>, actions: Actions, edges: Edges, n: nat)
  {
    NamesUnique(models) && GraphInv(models, actions, edges, n) && AllRx(actions) &&
    EdgesDescendOrTopicLoop(edges) && SameTopicOrdered(models, actions, edges)
  }

  /** As WellFormed, while the SAME_TOPIC edges of the newest action x are still being added. */
  ghost predicate WellFormedExcept(models: seq<NodeModel>, actions: Actions, edges: Edges, n: nat, x: nat)
  {
    NamesUnique(models) && GraphInv(models, actions, edges, n) && AllRx(actions) &&
    EdgesDescendOrTopicLoop(edges) && SameTopicOrderedExcept(models, actions, edges, x)
  }

  /** The new node with its SAME_NODE edges keeps the invariant but for its SAME_TOPIC edges. */
  lemma AddedNodeKeeps(models: seq<NodeModel>, a0: Actions, e0: Edges, n: nat, action: Action, a1: Actions, e1: Edges)
    requires WellFormed(models, a0, e0, n)
    requires action.RxAction? && action.state == Waiting && action.data.None? && Fits(models, action)
    requires a1 == a0[n := action] && e1 == SameNodeEdges(e0, a1, n, n + 1)
    ensures WellFormedExcept(models, a1, e1, n + 1, n) && Grew(a0, e0, n, a1, e1, n + 1)
  {
    O.AddedNodeBasics(models, a0, e0, n, action, a1);
    assert a1.Keys == a0.Keys + {n} && forall k :: k in a0 ==> a1[k] == a0[k];
    O.AddedNodeSameNode(a0, e0, n, a1, e1);
    O.AddedNodeEdges(models, a0, e0, n, a1, e1);
    O.AddedNodeTopics(models, a0, e0, n, action);
  }

  /** The SAME_TOPIC edges of the newest action u restore the invariant. */
  lemma EffectEdgesWellFormed(models: seq<NodeModel>, a: Actions, e0: Edges, u: nat, n: nat, e1: Edges)
    requires WellFormedExcept(models, a, e0, n, u) && n == u + 1 && u in a
    requires e1 == EffectEdges(e0, a, u, EffectsOf(models, a[u]), n)
    ensures WellFormed(models, a, e1, n) && Grew(a, e0, u, a, e1, n)
  {
    O.EffectEdgesJustified(models, a, e0, u, n);
    EffectEdgesOrdered(models, a, e0, u, n, e1);
  }

  /** They point from u to older RxActions or to u itself, and they are the ones u still lacked. */
  lemma EffectEdgesOrdered(models: seq<NodeModel>, a: Actions, e0: Edges, u: nat, n: nat, e1: Edges)
    requires IdsBelow(a, n) && n == u + 1 && u in a
    requires EdgesDescendOrTopicLoop(e0) && SameTopicOrderedExcept(models, a, e0, u)
    requires e1 == EffectEdges(e0, a, u, EffectsOf(models, a[u]), n)
    ensures EdgesDescendOrTopicLoop(e1) && SameTopicOrdered(models, a, e1) && Grew(a, e0, u, a, e1, n)
  {
    EffectEdgesSpec(e0, a, u, EffectsOf(models, a[u]), n);
  }

  // ----- the graph operations as state relations -----

  /**
   * What `__add_topic_input` did: the expected RxActions at time t were added in order under
   * fresh ids, up to and including the first one whose effects raise, each with exactly the
   * edges of a root (RootEdges); nothing else was lost.
   */
  ghost predicate InputAdded(models: seq<NodeModel>, a0: Actions, e0: Edges, n0: nat, a1: Actions, e1: Edges, n1: nat,
                             topic: TopicName, t: int, r: Outcome<Error>)
  {
    var s := O.ListenerActions(models, topic, t);
    Appended(a0, e0, n0, a1, e1, n1, s, Attempted(models, s)) && RootEdges(models, a1, e1, n0, Attempted(models, s)) &&
    r == if AnySpawns(models, s) then Fail(UnboundTimestep) else Pass
  }

  /**
   * The m actions from id n0 on have exactly the edges `__add_action_and_effects` gives a root:
   * SAME_NODE and SAME_TOPIC edges, and no CAUSALITY edge (OwnEdgesSpec with no parent).
   */
  ghost predicate RootEdges(models: seq<NodeModel>, a: Actions, e: Edges, n0: nat, m: nat)
  {
    forall k :: n0 <= k < n0 + m ==> OwnEdges(models, a, e, k, None)
  }

  /**
   * Each action `__add_topic_input` added has exactly the SAME_NODE edges to the other actions of
   * its node and the SAME_TOPIC edges to the RxActions on topics it publishes, and no CAUSALITY edge.
   */
  lemma InputAddedEdges(models: seq<NodeModel>, a0: Actions, e0: Edges, n0: nat, a1: Actions, e1: Edges, n1: nat,
                        topic: TopicName, t: int, r: Outcome<Error>, k: nat, v: nat)
    requires InputAdded(models, a0, e0, n0, a1, e1, n1, topic, t, r) && n0 <= k < n1
    ensures k in a1
    ensures (k, v) in e1 <==> SameNodeTarget(a1, k, k + 1, v) || TopicTarget(models, a1, k, k + 1, v)
    ensures (k, v) in e1 ==> e1[(k, v)] == if TopicTarget(models, a1, k, k + 1, v) then SameTopic else SameNode
  {
    OwnEdgesSpec(models, a1, e1, k, None, v);
  }

  /** One more root, added at n1 with its own edges, as the graph grows past the first i. */
  lemma RootEdgesStep(models: seq<NodeModel>, a1: Actions, e1: Edges, n1: nat, a2: Actions, e2: Edges, n2: nat, n0: nat, i: nat)
    requires RootEdges(models, a1, e1, n0, i) && n1 == n0 + i && Grew(a1, e1, n1, a2, e2, n2)
    requires OwnEdges(models, a2, e2, n1, None)
    ensures RootEdges(models, a2, e2, n0, i + 1)
  {
    forall k | n0 <= k < n0 + i + 1 ensures OwnEdges(models, a2, e2, k, None) {
      if k < n1 {
        OwnEdgesGrew(models, a1, e1, n1, a2, e2, n2, k, None);
      }
    }
  }

  /**
   * The outcome of `__request_next_input`: it fails when nothing is offered; otherwise it clears
   * the offer, adds the topic input at the offer's time and grants the offer unless that raised.
   */
  ghost predicate Requested(models: seq<NodeModel>, s0: State, s1: State, r: Outcome<Error>)
  {
    match s0.nextInput
    case None => r == Fail(NoPendingInput) && s1 == s0
    case Some(offer) =>
      s1.nextInput.None? && s1.published == s0.published && s1.nextTimestep == s0.nextTimestep &&
      s1.simulatorTime == s0.simulatorTime && s1.granted == (r == Pass || s0.granted) &&
      InputAdded(models, s0.actions, s0.edges, s0.nextId, s1.actions, s1.edges, s1.nextId, offer.topic, offer.time, r)
  }

  /** `__add_topic_input` stopped at the expected action i, whose effects raised. */
  lemma InputStopped(models: seq<NodeModel>, a0: Actions, e0: Edges, n0: nat, a1: Actions, e1: Edges, n1: nat,
                     topic: TopicName, t: int, s: seq<Action>, i: nat, r: Outcome<Error>)
    requires s == O.ListenerActions(models, topic, t)
    requires i < |s| && Appended(a0, e0, n0, a1, e1, n1, s, i + 1) && RootEdges(models, a1, e1, n0, i + 1)
    requires NoneSpawn(models, s[..i])
    requires Spawns(models, s[i]) && r == Fail(UnboundTimestep)
    ensures InputAdded(models, a0, e0, n0, a1, e1, n1, topic, t, r)
  {
    NoneSpawnAll(models, s, i);
    AttemptedStops(models, s, i);
  }

  /** `__add_topic_input` added every expected action without raising. */
  lemma InputDone(models: seq<NodeModel>, a0: Actions, e0: Edges, n0: nat, a1: Actions, e1: Edges, n1: nat,
                  topic: TopicName, t: int, s: seq<Action>, i: nat, r: Outcome<Error>)
    requires s == O.ListenerActions(models, topic, t)
    requires i == |s| && Appended(a0, e0, n0, a1, e1, n1, s, i) && RootEdges(models, a1, e1, n0, i)
    requires NoneSpawn(models, s[..i])
    requires r == Pass
    ensures InputAdded(models, a0, e0, n0, a1, e1, n1, topic, t, r)
  {
    NoneSpawnAll(models, s, i);
    AttemptedAll(models, s);
  }

  lemma RequestedOffer(models: seq<NodeModel>, s0: State, offer: DataOffer, s1: State, r: Outcome<Error>)
    requires s0.nextInput == Some(offer)
    requires InputAdded(models, s0.actions, s0.edges, s0.nextId, s1.actions, s1.edges, s1.nextId, offer.topic, offer.time, r)
    requires s1 == s0.(actions := s1.actions, edges := s1.edges, nextId := s1.nextId, nextInput := None, granted := r == Pass || s0.granted)
    ensures Requested(models, s0, s1, r)
  {
  }

  /**
   * The outcome of `__process`: release passes to the fixed point, then the pending offer is
   * requested if no RxAction on its topic is still WAITING or READY.
   */
  ghost predicate Processed(models: seq<NodeModel>, s0: State, s1: State, r: Outcome<Error>)
  {
    RequestedIfReady(models, AllReleased(s0), s1, r)
  }

  /** The release passes of `__process`, run to their fixed point. */
  ghost function AllReleased(s0: State): State
  {
    var e, n := s0.edges, s0.nextId;
    s0.(actions := Released(s0.actions, e, n), published := s0.published + Releases(s0.actions, e, n))
  }

  /** The tail of `__process`: the pending offer is requested once the graph is ready for it. */
  ghost predicate RequestedIfReady(models: seq<NodeModel>, s0: State, s1: State, r: Outcome<Error>)
  {
    if s0.nextInput.None? || O.ReadyForNextInput(s0.actions, s0.nextId, Pending(s0.nextInput)) == Ok(false) then
      r == Pass && s1 == s0
    else Requested(models, s0, s1, r)
  }

  /** The buffering and removal steps of `__interception_subscription_callback` for a topic other than "clock". */
  ghost function Delivered(models: seq<NodeModel>, s0: State, topic: TopicName, msg: Message): State
  {
    var cause := O.FindRunningAction(models, s0.actions, s0.nextId, topic);
    var ts := if cause.None? then EarliestWaiting(s0.actions, topic, s0.nextId) else None;
    var b := Buffered(s0.actions, s0.edges, topic, cause, ts, msg, s0.nextId);
    if cause.Some? then s0.(actions := b - {cause.value}, edges := RemoveNode(s0.edges, cause.value)) else s0.(actions := b)
  }

  /** The outcome of `__interception_subscription_callback`. */
  ghost predicate Intercepted(models: seq<NodeModel>, external: seq<TopicName>, s0: State, topic: TopicName, msg: Message,
                              s1: State, r: Outcome<Error>)
  {
    if topic == "clock" then r == Pass && s1 == s0
    else if O.FindRunningAction(models, s0.actions, s0.nextId, topic).None? && topic !in external then
      r == Fail(ActionNotFound) && s1 == s0
    else Processed(models, Delivered(models, s0, topic, msg), s1, r)
  }

  /** The outcome of `__status_callback`. */
  ghost predicate StatusHandled(models: seq<NodeModel>, s0: State, node: NodeName, s1: State, r: Outcome<Error>)
  {
    match O.FindRunningActionStatus(models, s0.actions, s0.nextId, node)
    case None => r == Fail(ActionNotFound) && s1 == s0
    case Some(k) => Processed(models, s0.(actions := s0.actions - {k}, edges := RemoveNode(s0.edges, k)), s1, r)
  }

  /**
   * The outcome of `wait_until_publish_allowed`: a second offer, or data while simulator_time is
   * None, raises; otherwise the offer is recorded for the current time and requested at once
   * when no action is WAITING or RUNNING.
   */
  ghost predicate Offered(models: seq<NodeModel>, s0: State, topic: TopicName, s1: State, r: Outcome<Error>)
  {
    if s0.nextInput.Some? then r == Fail(OfferPending) && s1 == s0
    else if s0.simulatorTime.None? then r == Fail(DataBeforeTime) && s1 == s0
    else
      var offered := s0.(nextInput := Some(DataOffer(s0.simulatorTime.value, topic)), granted := false);
      if O.GraphIsBusy(s0.actions, s0.nextId) then r == Pass && s1 == offered else Requested(models, offered, s1, r)
  }

  /** The outcome of `wait_until_time_publish_allowed`: the clock step is stored, unless one is stored already. */
  ghost predicate TimeOffered(s0: State, t: int, s1: State, r: Outcome<Error>)
  {
    if s0.nextTimestep.Some? then r == Fail(TimestepPending) && s1 == s0
    else r == Pass && s1 == s0.(nextTimestep := Some(t))
  }

  // ----- the invariant across the steps -----

  lemma ReleasedWellFormed(models: seq<NodeModel>, a0: Actions, e: Edges, n: nat, m: nat, a1: Actions)
    requires WellFormed(models, a0, e, n) && a1 == Released(a0, e, m)
    ensures WellFormed(models, a1, e, n)
  {
    ReleasedPreserves(models, a0, e, m, n);
  }

  lemma ReleasedKeepsRx(a: Actions, e: Edges, n: nat)
    requires AllRx(a)
    ensures AllRx(Released(a, e, n))
  {
  }

  lemma BufferedWellFormed(models: seq<NodeModel>, a0: Actions, e: Edges, n: nat,
                           topic: TopicName, cause: Option<nat>, ts: Option<int>, msg: Message, a1: Actions)
    requires WellFormed(models, a0, e, n) && a1 == Buffered(a0, e, topic, cause, ts, msg, n)
    ensures WellFormed(models, a1, e, n)
  {
    BufferedPreserves(models, a0, e, topic, cause, ts, msg, n, n);
  }

  lemma RemovedWellFormed(models: seq<NodeModel>, a0: Actions, e0: Edges, n: nat, k: nat, a1: Actions, e1: Edges)
    requires WellFormed(models, a0, e0, n) && a1 == a0 - {k} && e1 == RemoveNode(e0, k)
    ensures WellFormed(models, a1, e1, n)
  {
    RemovePreserves(models, a0, e0, k, n);
  }

  /** The state the callback hands to `__process` keeps the invariant. */
  lemma DeliveredValid(models: seq<NodeModel>, s0: State, topic: TopicName, msg: Message,
                       cause: Option<nat>, ts: Option<int>, b: Actions, mid: State)
    requires WellFormed(models, s0.actions, s0.edges, s0.nextId)
    requires cause == O.FindRunningAction(models, s0.actions, s0.nextId, topic)
    requires ts == if cause.None? then EarliestWaiting(s0.actions, topic, s0.nextId) else None
    requires b == Buffered(s0.actions, s0.edges, topic, cause, ts, msg, s0.nextId)
    requires mid == if cause.Some? then s0.(actions := b - {cause.value}, edges := RemoveNode(s0.edges, cause.value)) else s0.(actions := b)
    ensures mid == Delivered(models, s0, topic, msg)
    ensures WellFormed(models, mid.actions, mid.edges, mid.nextId)
  {
    BufferedWellFormed(models, s0.actions, s0.edges, s0.nextId, topic, cause, ts, msg, b);
    if cause.Some? {
      RemovedWellFormed(models, b, s0.edges, s0.nextId, cause.value, mid.actions, mid.edges);
    }
  }
}
