/**
 * The orchestrator of src/orchestrator/orchestrator/orchestrator_lib/orchestrator.py. It
 * keeps the graph of pending callback actions, grants the data source its next input (a
 * message on a topic, or a clock step) only when the graph allows it, buffers each intercepted
 * message at the actions that wait for it, and forwards a buffered message once its action has
 * no ordering constraint left.
 *
 * ROS publishing is the `published` log; the future handed to the data source is the
 * `granted` flag, which says whether the most recent offer has been granted. Times are integer
 * nanoseconds; the clock itself is not modelled.
 */
module Orchestrator {
  import opened Wrappers
  import opened NodeModels
  import opened ActionGraph
  import opened Expansions
  import opened ExpansionEdges

  /** The exceptions the orchestrator raises. */
  datatype Error =
    | OfferPending          // a RuntimeError: the data source offers again before its last offer was granted
    | DataBeforeTime        // a RuntimeError: data offered before the first time step
    | TimersBeforeTime      // a RuntimeError: timers added while simulator_time is still None
    | NoPendingInput        // a RuntimeError: an input is requested, or asked about, while none is offered
    | ActionNotFound        // ActionNotFoundError: no running action explains a message
    | NotImplemented        // NotImplementedError: a timer callback action is ready to run
    | TimestepTooLarge      // a RuntimeError: a timer would have to fire twice in one step
    | ZeroPeriod            // ZeroDivisionError: a timer of period 0

  /** The offer the data source is waiting on (`FutureInput` / `FutureTimestep`). */
  datatype PendingInput = FutureInput(topic: TopicName) | FutureTimestep(time: int)

  /** A timer of a node model (the local `Timer` record of `__add_pending_timers_until`). */
  datatype Timer = Timer(node: NodeName, period: int)

  /** Every field of the orchestrator that changes, as one value. */
  datatype State = State(actions: Actions, edges: Edges, nextId: nat, published: seq<Publish>,
                         nextInput: Option<PendingInput>, simulatorTime: Option<int>, granted: bool)

  // ----- read-only scans of the graph -----

  /** `__graph_is_busy`: some action is RUNNING or WAITING. */
  function GraphIsBusy(actions: Actions, n: nat): (r: bool)
    ensures r <==> exists k :: k < n && k in actions && (actions[k].state == Running || actions[k].state == Waiting)
  {
    var f := FirstMatch(actions, 0, n, Busy);
    assert f.Some? ==> Matches(Busy, f.value, actions[f.value]);
    f.Some?
  }

  /**
   * `__ready_for_next_input`: a clock step can always be requested; a message on a topic only
   * when no RxAction on that topic is still WAITING for or holding (READY) an earlier message.
   */
  function ReadyForNextInput(actions: Actions, n: nat, next: Option<PendingInput>): (r: Result<bool, Error>)
    ensures r.Err? <==> next.None?
    ensures r.Err? ==> r.error == NoPendingInput
    ensures next.Some? && next.value.FutureTimestep? ==> r == Ok(true)
    ensures next.Some? && next.value.FutureInput? ==>
      (r == Ok(false) <==> exists k :: k < n && k in actions && actions[k].RxAction? && actions[k].topic == next.value.topic &&
                                      (actions[k].state == Ready || actions[k].state == Waiting))
  {
    match next
    case None => Err(NoPendingInput)
    case Some(FutureTimestep(_)) => Ok(true)
    case Some(FutureInput(topic)) =>
      var f := FirstMatch(actions, 0, n, PendingOn(topic));
      assert f.Some? ==> Matches(PendingOn(topic), f.value, actions[f.value]);
      Ok(f.None?)
  }

  /** `__find_running_action`: the first RUNNING action whose callback publishes on the topic. */
  function FindRunningAction(models: seq<NodeModel>, actions: Actions, n: nat, topic: TopicName): (r: Option<nat>)
    ensures r.Some? ==> r.value < n && r.value in actions && actions[r.value].state == Running && Publishes(models, actions[r.value], topic)
    ensures r.Some? ==> forall k :: k < r.value && k in actions ==> !(actions[k].state == Running && Publishes(models, actions[k], topic))
    ensures r.None? <==> forall k :: k < n && k in actions ==> !(actions[k].state == Running && Publishes(models, actions[k], topic))
  {
    var f := FirstMatch(actions, 0, n, RunningPublisher(models, topic));
    assert forall k :: k in actions ==> (Matches(RunningPublisher(models, topic), k, actions[k]) <==> actions[k].state == Running && Publishes(models, actions[k], topic));
    f
  }

  /** `__find_running_action_status`: the first RUNNING action of the node whose callback publishes a status. */
  function FindRunningActionStatus(models: seq<NodeModel>, actions: Actions, n: nat, node: NodeName): (r: Option<nat>)
    ensures r.Some? ==> r.value < n && r.value in actions && actions[r.value].state == Running && actions[r.value].node == node && PublishesStatus(models, actions[r.value])
    ensures r.Some? ==> forall k :: k < r.value && k in actions ==> !(actions[k].state == Running && actions[k].node == node && PublishesStatus(models, actions[k]))
    ensures r.None? <==> forall k :: k < n && k in actions ==> !(actions[k].state == Running && actions[k].node == node && PublishesStatus(models, actions[k]))
  {
    var f := FirstMatch(actions, 0, n, RunningStatusAt(models, node));
    assert forall k :: k in actions ==> (Matches(RunningStatusAt(models, node), k, actions[k]) <==> actions[k].state == Running && actions[k].node == node && PublishesStatus(models, actions[k]));
    f
  }

  /** The RxActions `__add_topic_input` expects for a message on `topic` at time t: one per listening model, in model order. */
  function ListenerActions(models: seq<NodeModel>, topic: TopicName, t: int): (r: seq<Action>)
    ensures |r| == |Listeners(models, topic)|
    ensures forall i :: 0 <= i < |r| ==> r[i] == RxAction(Waiting, Listeners(models, topic)[i], t, topic, None)
  {
    if |models| == 0 then []
    else
      var init := models[..|models| - 1];
      var last := models[|models| - 1];
      ListenerActions(init, topic, t) + (if TopicInput(topic) in last.possibleInputs then [RxAction(Waiting, last.name, t, topic, None)] else [])
  }

  /** Each model listening on the topic gets a WAITING action at time t. */
  lemma ListenerActionsCover(models: seq<NodeModel>, topic: TopicName, t: int, j: nat)
    requires j < |models| && TopicInput(topic) in models[j].possibleInputs
    ensures exists i :: 0 <= i < |ListenerActions(models, topic, t)| && ListenerActions(models, topic, t)[i].node == models[j].name
    ensures forall i :: 0 <= i < |ListenerActions(models, topic, t)| ==> Spawned(ListenerActions(models, topic, t)[i], t)
  {
    var names := Listeners(models, topic);
    assert models[j].name in names;
    var i :| 0 <= i < |names| && names[i] == models[j].name;
    assert ListenerActions(models, topic, t)[i].node == models[j].name;
  }

  /** With unique model names, no node gets two of them. */
  lemma ListenerActionsDistinct(models: seq<NodeModel>, topic: TopicName, t: int)
    requires NamesUnique(models)
    ensures forall i1, i2 :: 0 <= i1 < i2 < |ListenerActions(models, topic, t)| ==>
      ListenerActions(models, topic, t)[i1].node != ListenerActions(models, topic, t)[i2].node
  {
    ListenersDistinct(models, topic);
  }

  // ----- the timer rule of `__add_pending_timers_until` -----

  /** Python's `//`: division rounding toward minus infinity. */
  function FloorDiv(a: int, b: int): (q: int)
    requires b != 0
    ensures b > 0 ==> q * b <= a < q * b + b
    ensures b < 0 ==> q * b >= a > q * b + b
  {
    if b > 0 then a / b else (-a) / (-b)
  }

  /** The first firing time of a timer of period p after `last`: `(last // p) * p + p`. */
  function NextFire(last: int, p: int): int
    requires p != 0
  {
    FloorDiv(last, p) * p + p
  }

  ghost predicate MultipleOf(x: int, p: int)
  {
    exists q :: q * p == x
  }

  /**
   * The decision for one timer when time advances from `last` to t: a period of 0 divides by
   * zero, a step longer than the period is refused, and otherwise the timer fires when its next
   * firing time has been reached.
   */
  function TimerStep(last: int, t: int, p: int): (r: Result<bool, Error>)
    ensures p == 0 <==> r == Err(ZeroPeriod)
    ensures p != 0 && t - last > p <==> r == Err(TimestepTooLarge)
    ensures p != 0 && t - last <= p ==> r == Ok(NextFire(last, p) <= t)
  {
    if p == 0 then Err(ZeroPeriod)
    else if t - last > p then Err(TimestepTooLarge)
    else Ok(NextFire(last, p) <= t)
  }

  /** For a positive period the next firing time is a multiple of it, after `last` and at most one period later. */
  lemma NextFireBounds(last: int, p: int)
    requires p > 0
    ensures MultipleOf(NextFire(last, p), p)
    ensures last < NextFire(last, p) <= last + p
  {
    var q := FloorDiv(last, p);
    assert (q + 1) * p == NextFire(last, p);
  }

  /** Multiples of a positive period are ordered as their factors. */
  lemma MultipleOrder(m: int, q: int, p: int)
    requires p > 0 && m * p > q * p
    ensures m >= q + 1
  {
  }

  lemma MulSub(a: int, b: int, p: int)
    ensures a * p - b * p == (a - b) * p
  {
  }

  lemma MulNonneg(a: int, p: int)
    requires a >= 0 && p >= 0
    ensures a * p >= 0
  {
  }

  /** The next firing time is the least multiple of the period after `last`. */
  lemma NextFireLeast(last: int, p: int, x: int)
    requires p > 0 && MultipleOf(x, p) && last < x
    ensures NextFire(last, p) <= x
  {
    var q := FloorDiv(last, p);
    var m :| m * p == x;
    MultipleOrder(m, q, p);
    MulNonneg(m - (q + 1), p);
    MulSub(m, q + 1, p);
    MulSub(q + 1, q, p);
  }

  /** A timer of positive period fires exactly when a multiple of its period lies in (last, t]. */
  lemma TimerFiresOnMultiple(last: int, t: int, p: int)
    requires p > 0 && t - last <= p
    ensures TimerStep(last, t, p) == Ok(true) <==> exists x :: last < x <= t && MultipleOf(x, p)
  {
    NextFireBounds(last, p);
    if exists x :: last < x <= t && MultipleOf(x, p) {
      var x :| last < x <= t && MultipleOf(x, p);
      NextFireLeast(last, p, x);
    }
  }

  /** Two distinct multiples of a positive period lie at least one period apart. */
  lemma MultiplesApart(x: int, y: int, p: int)
    requires p > 0 && x < y && MultipleOf(x, p) && MultipleOf(y, p)
    ensures y - x >= p
  {
    var a :| a * p == x;
    var b :| b * p == y;
    MultipleOrder(b, a, p);
    var d := b - a - 1;
    assert d * p >= 0;
    assert b * p == (a + 1 + d) * p == a * p + p + d * p;
  }

  /** The step guard is what keeps a timer from firing twice: (last, t] holds at most one multiple of p. */
  lemma TimerFiresAtMostOnce(last: int, t: int, p: int, x: int, y: int)
    requires p > 0 && t - last <= p
    requires last < x <= t && last < y <= t && MultipleOf(x, p) && MultipleOf(y, p)
    ensures x == y
  {
    if x < y {
      MultiplesApart(x, y, p);
    } else if y < x {
      MultiplesApart(y, x, p);
    }
  }

  /** The timers that fire when time advances from `last` to t, in list order, or the first timer's error. */
  function FiringTimers(timers: seq<Timer>, last: int, t: int): (r: Result<seq<Timer>, Error>)
    ensures r.Ok? ==> forall f :: f in r.value <==> f in timers && TimerStep(last, t, f.period) == Ok(true)
    ensures r.Err? <==> exists i :: 0 <= i < |timers| && TimerStep(last, t, timers[i].period).Err?
    ensures r.Err? ==> exists i :: 0 <= i < |timers| && TimerStep(last, t, timers[i].period) == Err(r.error) &&
                                   forall j :: 0 <= j < i ==> TimerStep(last, t, timers[j].period).Ok?
  {
    if timers == [] then Ok([])
    else
      var init := timers[..|timers| - 1];
      var tm := timers[|timers| - 1];
      assert forall i :: 0 <= i < |init| ==> init[i] == timers[i];
      match FiringTimers(init, last, t)
      case Err(e) => Err(e)
      case Ok(prev) =>
        match TimerStep(last, t, tm.period)
        case Err(e) => Err(e)
        case Ok(fires) => Ok(prev + if fires then [tm] else [])
  }

  /** The TimerCallbackAction a firing timer adds at time t. */
  function TimerAction(tm: Timer, t: int): Action
  {
    TimerCallbackAction(Ready, tm.node, t, tm.period)
  }

  function TimerActions(timers: seq<Timer>, t: int): (r: seq<Action>)
    ensures |r| == |timers| && forall i :: 0 <= i < |r| ==> r[i] == TimerAction(timers[i], t)
  {
    seq(|timers|, i requires 0 <= i < |timers| => TimerAction(timers[i], t))
  }

  // ----- the graph invariant -----

  /** Everything the orchestrator keeps true of its graph, apart from the SAME_TOPIC edges. */
  ghost predicate Shaped(models: seq<NodeModel>, rank: Cause -> nat, actions: Actions, edges: Edges, n: nat)
  {
    NamesUnique(models) && Layered(models, rank) && GraphInv(models, actions, edges, n) && EdgesDescend(edges)
  }

  ghost predicate WellFormed(models: seq<NodeModel>, rank: Cause -> nat, actions: Actions, edges: Edges, n: nat)
  {
    Shaped(models, rank, actions, edges, n) && SameTopicOrdered(models, actions, edges)
  }

  /** As WellFormed, while the SAME_TOPIC edges of the newest action x are still being added. */
  ghost predicate WellFormedExcept(models: seq<NodeModel>, rank: Cause -> nat, actions: Actions, edges: Edges, n: nat, x: nat)
  {
    Shaped(models, rank, actions, edges, n) && SameTopicOrderedExcept(models, actions, edges, x)
  }

  lemma AddedNodeBasics(models: seq<NodeModel>, a0: Actions, e0: Edges, n: nat, action: Action, a1: Actions)
    requires IdsBelow(a0, n) && EdgesClosed(a0, e0) && AllFit(models, a0) && DataBuffered(a0) && EdgesJustified(models, a0, e0)
    requires Fits(models, action)
    requires action.RxAction? ==> action.state == Waiting && action.data.None?
    requires a1 == a0[n := action]
    ensures IdsBelow(a1, n + 1) && EdgesClosed(a1, e0) && AllFit(models, a1) && DataBuffered(a1) && EdgesJustified(models, a1, e0)
  {
    assert forall k :: k in a0 ==> k < n && a1[k] == a0[k];
    AddedNodeJustified(models, a0, e0, n, a1);
  }

  lemma AddedNodeJustified(models: seq<NodeModel>, a0: Actions, e0: Edges, n: nat, a1: Actions)
    requires EdgesClosed(a0, e0) && EdgesJustified(models, a0, e0)
    requires forall k :: k in a0 ==> k < n && k in a1 && a1[k] == a0[k]
    ensures EdgesJustified(models, a1, e0)
  {
    forall e | e in e0 && e.0 in a1 && e.1 in a1 ensures Justified(models, a1[e.0], a1[e.1], e0[e]) {
      assert e.0 in a0 && e.1 in a0;
    }
  }

  lemma AddedNodeSameNode(a0: Actions, e0: Edges, n: nat, a1: Actions, e1: Edges)
    requires IdsBelow(a0, n) && SameNodeOrdered(a0, e0)
    requires n in a1 && a1.Keys == a0.Keys + {n} && forall k :: k in a0 ==> a1[k] == a0[k]
    requires e1 == SameNodeEdges(e0, a1, n, n + 1)
    ensures SameNodeOrdered(a1, e1)
  {
    SameNodeEdgesSpec(e0, a1, n, n + 1);
    forall u, v | u in a1 && v in a1 && v < u && a1[u].node == a1[v].node ensures (u, v) in e1 {
      if u < n {
        assert (u, v) in e0;
      }
    }
  }

  lemma AddedNodeEdges(models: seq<NodeModel>, a0: Actions, e0: Edges, n: nat, a1: Actions, e1: Edges)
    requires IdsBelow(a0, n) && EdgesClosed(a0, e0) && EdgesJustified(models, a1, e0)
    requires n in a1 && e1 == SameNodeEdges(e0, a1, n, n + 1)
    requires forall k :: k in a0 ==> k in a1
    ensures EdgesClosed(a1, e1) && EdgesJustified(models, a1, e1)
    ensures EdgesDescend(e0) ==> EdgesDescend(e1)
    ensures EdgesDescendOrTopicLoop(e0) ==> EdgesDescendOrTopicLoop(e1)
  {
    SameNodeEdgesSpec(e0, a1, n, n + 1);
  }

  /** A new action at id n with its SAME_NODE edges keeps the parts of the invariant that speak of the graph. */
  lemma AddedNodeShaped(models: seq<NodeModel>, a0: Actions, e0: Edges, n: nat, action: Action)
    requires GraphInv(models, a0, e0, n) && EdgesDescend(e0)
    requires Fits(models, action)
    requires action.RxAction? ==> action.state == Waiting && action.data.None?
    ensures var a1 := a0[n := action];
      GraphInv(models, a1, SameNodeEdges(e0, a1, n, n + 1), n + 1) && EdgesDescend(SameNodeEdges(e0, a1, n, n + 1))
  {
    var a1 := a0[n := action];
    var e1 := SameNodeEdges(e0, a1, n, n + 1);
    AddedNodeBasics(models, a0, e0, n, action, a1);
    AddedNodeSameNode(a0, e0, n, a1, e1);
    AddedNodeEdges(models, a0, e0, n, a1, e1);
  }

  lemma AddedNodeTopics(models: seq<NodeModel>, a0: Actions, e0: Edges, n: nat, action: Action)
    requires IdsBelow(a0, n) && SameTopicOrdered(models, a0, e0)
    ensures var a1 := a0[n := action];
      SameTopicOrderedExcept(models, a1, SameNodeEdges(e0, a1, n, n + 1), n) &&
      Grew(a0, e0, n, a1, SameNodeEdges(e0, a1, n, n + 1), n + 1)
  {
    var a1 := a0[n := action];
    SameNodeEdgesSpec(e0, a1, n, n + 1);
    assert forall k :: k in a0 ==> k < n && a1[k] == a0[k];
  }

  /**
   * A new action at id n, with its SAME_NODE edges and its CAUSALITY edge, keeps the invariant
   * except for its own SAME_TOPIC edges.
   */
  lemma AddedNodeWellFormed(models: seq<NodeModel>, rank: Cause -> nat, a0: Actions, e0: Edges, n: nat, action: Action, parent: Option<nat>,
                            a1: Actions, e2: Edges)
    requires WellFormed(models, rank, a0, e0, n)
    requires Fits(models, action)
    requires action.RxAction? ==> action.state == Waiting && action.data.None?
    requires parent.Some? ==>
               parent.value in a0 && action.RxAction? &&
               Publishes(models, a0[parent.value], action.topic) && a0[parent.value].timestamp == action.timestamp
    requires a1 == a0[n := action]
    requires e2 == if parent.Some? then SameNodeEdges(e0, a1, n, n + 1)[(n, parent.value) := Causality] else SameNodeEdges(e0, a1, n, n + 1)
    ensures WellFormedExcept(models, rank, a1, e2, n + 1, n) && Grew(a0, e0, n, a1, e2, n + 1)
    ensures parent.Some? ==> (n, parent.value) in e2 && e2[(n, parent.value)] == Causality
  {
    var e1 := SameNodeEdges(e0, a1, n, n + 1);
    AddedNodeShaped(models, a0, e0, n, action);
    AddedNodeTopics(models, a0, e0, n, action);
    if parent.Some? {
      assert parent.value < n && a1[parent.value] == a0[parent.value];
      AddEdgePreserves(models, a1, e1, n + 1, n, parent.value, Causality, n);
      GrewAddEdge(a0, e0, n, a1, e1, n + 1, n, parent.value, Causality);
    }
  }

  /** What `__add_action_and_effects` promises once the effects of the new action n are in place. */
  lemma AddedActionKept(a0: Actions, e0: Edges, n: nat, action: Action, parent: Option<nat>,
                        a1: Actions, e2: Edges, a3: Actions, e3: Edges, n3: nat)
    requires IdsBelow(a0, n) && a1 == a0[n := action]
    requires Grew(a0, e0, n, a1, e2, n + 1) && SameNodeOrdered(a1, e2)
    requires parent.Some? ==> (n, parent.value) in e2 && e2[(n, parent.value)] == Causality
    requires Grew(a1, e2, n, a3, e3, n3) && n + 1 <= n3
    requires forall e :: e in e2 && e2[e] == Causality ==> e3[e] == Causality
    ensures Grew(a0, e0, n, a3, e3, n3)
    ensures n in a3 && a3[n] == action
    ensures forall k :: k in a0 && a3[k].node == action.node ==> (n, k) in e3
    ensures parent.Some? ==> (n, parent.value) in e3 && e3[(n, parent.value)] == Causality
  {
    GrewTrans(a0, e0, n, a1, e2, n + 1, a3, e3, n3, n);
    forall k | k in a0 && a3[k].node == action.node ensures (n, k) in e3 {
      assert k < n && a1[k] == a0[k] && a1[n] == action;
      assert (n, k) in e2;
    }
  }

  /** No receiver u's own SAME_TOPIC edges reach is u itself or newer than u. */
  lemma EffectEdgesDescend(models: seq<NodeModel>, rank: Cause -> nat, a: Actions, e0: Edges, u: nat, n: nat)
    requires Layered(models, rank) && AllFit(models, a) && EdgesDescend(e0) && n == u + 1 && u in a
    ensures EdgesDescend(EffectEdges(e0, a, u, EffectsOf(models, a[u]), n))
  {
    var effs := EffectsOf(models, a[u]);
    var e1 := EffectEdges(e0, a, u, effs, n);
    EffectEdgesSpec(e0, a, u, effs, n);
    if a[u].RxAction? && PublishedIn(effs, a[u].topic) {
      RankDescends(models, rank, a[u], a[u].topic);
      assert false;
    }
    forall e | e in e1 ensures e.1 < e.0 {
      if e !in e0 {
        assert e.0 == u && e.1 < n;
        assert e.1 != u;
      }
    }
  }

  lemma EffectEdgesJustified(models: seq<NodeModel>, a: Actions, e0: Edges, u: nat, n: nat)
    requires GraphInv(models, a, e0, n) && u in a
    ensures GraphInv(models, a, EffectEdges(e0, a, u, EffectsOf(models, a[u]), n), n)
  {
    var e1 := EffectEdges(e0, a, u, EffectsOf(models, a[u]), n);
    EffectEdgesSpec(e0, a, u, EffectsOf(models, a[u]), n);
    assert EdgesClosed(a, e1);
    assert SameNodeOrdered(a, e1);
    assert EdgesJustified(models, a, e1);
  }

  lemma EffectEdgesShaped(models: seq<NodeModel>, rank: Cause -> nat, a: Actions, e0: Edges, u: nat, n: nat)
    requires Shaped(models, rank, a, e0, n) && n == u + 1 && u in a
    ensures Shaped(models, rank, a, EffectEdges(e0, a, u, EffectsOf(models, a[u]), n), n)
  {
    EffectEdgesDescend(models, rank, a, e0, u, n);
    EffectEdgesJustified(models, a, e0, u, n);
  }

  /** The SAME_TOPIC edges of u overwrite none of its CAUSALITY edges, by the layering. */
  lemma EffectEdgesKeepCausality(models: seq<NodeModel>, rank: Cause -> nat, a: Actions, e0: Edges, u: nat, n: nat)
    requires Layered(models, rank) && EdgesClosed(a, e0) && AllFit(models, a) && EdgesJustified(models, a, e0)
    requires u in a && u < n
    ensures var e1 := EffectEdges(e0, a, u, EffectsOf(models, a[u]), n);
      Grew(a, e0, u, a, e1, n) && (forall e :: e in e0 && e0[e] == Causality ==> e1[e] == Causality)
  {
    var effs := EffectsOf(models, a[u]);
    EffectEdgesSpec(e0, a, u, effs, n);
    forall v | v in a && v < n && a[v].RxAction? && PublishedIn(effs, a[v].topic)
      ensures rank(a[v].InputCause()) < rank(a[u].InputCause())
    {
      RankDescends(models, rank, a[u], a[v].topic);
    }
    forall v | (u, v) in e0 && e0[(u, v)] == Causality
      ensures rank(a[u].InputCause()) < rank(a[v].InputCause())
    {
      RankDescends(models, rank, a[v], a[u].topic);
    }
  }

  /**
   * The SAME_TOPIC edges of the newest action u restore the invariant. The layering ensures
   * that none of them lands on u itself or on one of u's CAUSALITY edges.
   */
  lemma EffectEdgesWellFormed(models: seq<NodeModel>, rank: Cause -> nat, a: Actions, e0: Edges, u: nat, n: nat, e1: Edges, c: Action)
    requires WellFormedExcept(models, rank, a, e0, n, u) && n == u + 1 && u in a && a[u] == c
    requires e1 == EffectEdges(e0, a, u, EffectsOf(models, c), n)
    ensures WellFormed(models, rank, a, e1, n) && Grew(a, e0, u, a, e1, n)
    ensures forall e :: e in e0 && e0[e] == Causality ==> e1[e] == Causality
  {
    EffectEdgesShaped(models, rank, a, e0, u, n);
    EffectEdgesKeepCausality(models, rank, a, e0, u, n);
    EffectEdgesSpec(e0, a, u, EffectsOf(models, a[u]), n);
    assert SameTopicOrdered(models, a, e1);
  }

  /**
   * Once the children of cause u are in place, the graph grew from before u's SAME_TOPIC edges:
   * its CAUSALITY edges are kept and every descendant of u is a WAITING RxAction of lower rank.
   */
  lemma CauseEffectsKept(models: seq<NodeModel>, rank: Cause -> nat, a1: Actions, e0: Edges, e1: Edges, u: nat,
                         a3: Actions, e3: Edges, n3: nat, c: Action)
    requires NamesUnique(models) && Layered(models, rank) && IdsBelow(a1, u + 1) && EdgesClosed(a1, e1)
    requires u in a1 && a1[u] == c && Fits(models, c)
    requires Grew(a1, e0, u, a1, e1, u + 1) && forall e :: e in e0 && e0[e] == Causality ==> e1[e] == Causality
    requires GrewBy(a1, e1, u + 1, a3, e3, n3, EffectsExpansion(models, rank, c, |EffectsOf(models, c)|))
    ensures Grew(a1, e0, u, a3, e3, n3) && n3 >= u + 1
    ensures forall e :: e in e0 && e0[e] == Causality ==> e3[e] == Causality
    ensures forall k :: k in a3 && u < k ==> Spawned(a3[k], c.timestamp) && rank(a3[k].InputCause()) < rank(c.InputCause())
  {
    EffectsAddedSpawned(models, rank, a1, e1, u + 1, a3, e3, n3, c);
    GrewTrans(a1, e0, u, a1, e1, u + 1, a3, e3, n3, u + 1);
    forall e | e in e0 && e0[e] == Causality ensures e3[e] == Causality {
      assert e in e1 && e.0 in a1;
    }
  }

  /** Each action `__add_topic_input` expects fits the model it was made for. */
  lemma ListenerFits(models: seq<NodeModel>, topic: TopicName, t: int, i: nat)
    requires NamesUnique(models) && i < |ListenerActions(models, topic, t)|
    ensures Fits(models, ListenerActions(models, topic, t)[i])
  {
    var name := Listeners(models, topic)[i];
    assert name in Listeners(models, topic);
    var j :| 0 <= j < |models| && TopicInput(topic) in models[j].possibleInputs && models[j].name == name;
    ByNameFindsModel(models, j);
  }

  /**
   * What `__add_topic_input` did to the graph: it only grew, every new action is a WAITING
   * RxAction at time t, and the new actions on the topic are exactly the expected ones, in
   * order. (`Requested` and AddTopicInput also state the exact growth, as the expansions of these actions.)
   */
  ghost predicate TopicInputAdded(models: seq<NodeModel>, a0: Actions, e0: Edges, n0: nat, a1: Actions, e1: Edges, n1: nat,
                                  topic: TopicName, t: int)
  {
    Grew(a0, e0, n0, a1, e1, n1) &&
    (forall k :: k in a1 && n0 <= k ==> Spawned(a1[k], t)) &&
    Collect(a1, n0, n1, OnTopic(topic)) == ListenerActions(models, topic, t)
  }

  /** A topic input creates a new WAITING RxAction on the topic at time t for each model that listens on it... */
  lemma TopicInputCovers(models: seq<NodeModel>, a0: Actions, e0: Edges, n0: nat, a1: Actions, e1: Edges, n1: nat,
                         topic: TopicName, t: int, j: nat)
    requires IdsBelow(a0, n0)
    requires TopicInputAdded(models, a0, e0, n0, a1, e1, n1, topic, t)
    requires j < |models| && TopicInput(topic) in models[j].possibleInputs
    ensures exists k :: k in a1 && k !in a0 && a1[k] == RxAction(Waiting, models[j].name, t, topic, None)
  {
    var c := Collect(a1, n0, n1, OnTopic(topic));
    ListenerActionsCover(models, topic, t, j);
    var i :| 0 <= i < |c| && c[i].node == models[j].name;
    CollectMembers(a1, n0, n1, OnTopic(topic), c[i]);
    var k :| n0 <= k < n1 && k in a1 && Matches(OnTopic(topic), k, a1[k]) && a1[k] == c[i];
    assert k !in a0;
  }

  /** ... and, with unique model names, no two new actions on the topic for one node. */
  lemma TopicInputDistinctNodes(models: seq<NodeModel>, a0: Actions, e0: Edges, n0: nat, a1: Actions, e1: Edges, n1: nat,
                                topic: TopicName, t: int)
    requires NamesUnique(models) && IdsBelow(a0, n0)
    requires TopicInputAdded(models, a0, e0, n0, a1, e1, n1, topic, t)
    ensures forall k1, k2 ::
      k1 in a1 && k2 in a1 && k1 !in a0 && k2 !in a0 && k1 != k2 &&
      a1[k1].RxAction? && a1[k1].topic == topic && a1[k2].RxAction? && a1[k2].topic == topic
      ==> a1[k1].node != a1[k2].node
  {
    ListenerActionsDistinct(models, topic, t);
    forall k1, k2 | k1 in a1 && k2 in a1 && k1 !in a0 && k2 !in a0 && k1 < k2 &&
      a1[k1].RxAction? && a1[k1].topic == topic && a1[k2].RxAction? && a1[k2].topic == topic
      ensures a1[k1].node != a1[k2].node
    {
      CollectPosition(a1, n0, n1, OnTopic(topic), k1);
      CollectPosition(a1, n0, n1, OnTopic(topic), k2);
      CollectPositionsDiffer(a1, n0, n1, OnTopic(topic), k1, k2);
    }
  }

  /**
   * One step of the second loop of `__add_topic_input`: adding the next expected action, whose
   * descendants all have causes of lower rank, appends exactly that action to the topic's new
   * actions.
   */
  lemma InputStep(rank: Cause -> nat, a2: Actions, n0: nat, n2: nat, a3: Actions, n3: nat, topic: TopicName, t: int,
                  expected: seq<Action>, i: nat)
    requires i < |expected| && n0 <= n2 < n3
    requires forall k :: k in a2 ==> k in a3 && a3[k] == a2[k]
    requires forall k :: k in a3 && k !in a2 ==> n2 <= k < n3
    requires forall k :: k in a2 && n0 <= k ==> Spawned(a2[k], t)
    requires Collect(a2, n0, n2, OnTopic(topic)) == expected[..i]
    requires expected[i] == RxAction(Waiting, expected[i].node, t, topic, None)
    requires n2 in a3 && a3[n2] == expected[i]
    requires forall k :: k in a3 && n2 < k ==> Spawned(a3[k], t) && rank(a3[k].InputCause()) < rank(TopicInput(topic))
    ensures forall k :: k in a3 && n0 <= k ==> Spawned(a3[k], t)
    ensures Collect(a3, n0, n3, OnTopic(topic)) == expected[..i + 1]
  {
    forall k | n2 < k < n3 && k in a3 ensures !Matches(OnTopic(topic), k, a3[k]) {
    }
    CollectAppendOne(a2, a3, n0, n2, n3, OnTopic(topic));
    assert expected[..i + 1] == expected[..i] + [expected[i]];
    forall k | k in a3 && n0 <= k ensures Spawned(a3[k], t) {
      if k !in a2 {
        assert n2 <= k;
      }
    }
  }

  /** Once a timer in the list fails, the rest of the list is never looked at. */
  /** One more timer extends the result for the timers before it by its own step. */
  lemma FiringStep(timers: seq<Timer>, last: int, t: int, i: nat, fired: seq<Timer>)
    requires i < |timers| && FiringTimers(timers[..i], last, t) == Ok(fired)
    ensures FiringTimers(timers[..i + 1], last, t) ==
      match TimerStep(last, t, timers[i].period)
      case Err(e) => Err(e)
      case Ok(fires) => Ok(fired + if fires then [timers[i]] else [])
  {
    assert timers[..i + 1][..i] == timers[..i];
  }

  lemma TimerActionsAppend(fired: seq<Timer>, tm: Timer, t: int)
    ensures TimerActions(fired + [tm], t) == TimerActions(fired, t) + [TimerAction(tm, t)]
  {
    assert forall i :: 0 <= i < |fired| ==> (fired + [tm])[i] == fired[i];
  }

  lemma {:induction false} FiringErrorSticks(timers: seq<Timer>, last: int, t: int, j: nat)
    requires j <= |timers| && FiringTimers(timers[..j], last, t).Err?
    ensures FiringTimers(timers, last, t) == FiringTimers(timers[..j], last, t)
    decreases |timers|
  {
    if j < |timers| {
      var init := timers[..|timers| - 1];
      assert init[..j] == timers[..j];
      FiringErrorSticks(init, last, t, j);
    } else {
      assert timers[..j] == timers;
    }
  }

  /**
   * What the second loop of `__add_pending_timers_until` did to the graph: it only grew, the
   * new timer callback actions are exactly those of the firing timers, in list order, and every
   * other new action is a WAITING RxAction at time t.
   */
  ghost predicate TimersAdded(a0: Actions, e0: Edges, n0: nat, a1: Actions, e1: Edges, n1: nat, fired: seq<Timer>, t: int)
  {
    Grew(a0, e0, n0, a1, e1, n1) &&
    (forall k :: k in a1 && n0 <= k ==> a1[k].TimerCallbackAction? || Spawned(a1[k], t)) &&
    Collect(a1, n0, n1, IsTimer) == TimerActions(fired, t)
  }

  /** One step of that loop: the next timer action is appended, its descendants are RxActions. */
  lemma TimerAddStep(a2: Actions, n0: nat, n2: nat, a3: Actions, n3: nat, fired: seq<Timer>, t: int, i: nat)
    requires i < |fired| && n0 <= n2 < n3
    requires forall k :: k in a2 ==> k in a3 && a3[k] == a2[k]
    requires forall k :: k in a3 && k !in a2 ==> n2 <= k < n3
    requires forall k :: k in a2 && n0 <= k ==> a2[k].TimerCallbackAction? || Spawned(a2[k], t)
    requires Collect(a2, n0, n2, IsTimer) == TimerActions(fired, t)[..i]
    requires n2 in a3 && a3[n2] == TimerAction(fired[i], t)
    requires forall k :: k in a3 && n2 < k ==> Spawned(a3[k], t)
    ensures forall k :: k in a3 && n0 <= k ==> a3[k].TimerCallbackAction? || Spawned(a3[k], t)
    ensures Collect(a3, n0, n3, IsTimer) == TimerActions(fired, t)[..i + 1]
  {
    var expected := TimerActions(fired, t);
    forall k | n2 < k < n3 && k in a3 ensures !Matches(IsTimer, k, a3[k]) {
    }
    CollectAppendOne(a2, a3, n0, n2, n3, IsTimer);
    assert expected[..i + 1] == expected[..i] + [expected[i]];
    forall k | k in a3 && n0 <= k ensures a3[k].TimerCallbackAction? || Spawned(a3[k], t) {
      if k !in a2 {
        assert n2 <= k;
      }
    }
  }

  /**
   * The outcome of `__request_next_input` from s0 to s1: it fails when nothing is offered; it
   * grants an offered message after adding its topic input at the current time (the new actions
   * are exactly the expansions of the listeners' RxActions, each with its effects and their
   * children, under `rank`); and it grants a
   * clock step after adding the pending timers, which fails (with the offer already cleared)
   * while simulator_time is still None.
   */
  ghost predicate Requested(models: seq<NodeModel>, rank: Cause -> nat, s0: State, s1: State, r: Outcome<Error>)
  {
    match s0.nextInput
    case None => r == Fail(NoPendingInput) && s1 == s0
    case Some(FutureInput(topic)) =>
      r == Pass && s0.simulatorTime.Some? &&
      s1.nextInput.None? && s1.granted && s1.published == s0.published && s1.simulatorTime == s0.simulatorTime &&
      TopicInputAdded(models, s0.actions, s0.edges, s0.nextId, s1.actions, s1.edges, s1.nextId, topic, s0.simulatorTime.value) &&
      Expanded(models, rank, ListenerActions(models, topic, s0.simulatorTime.value),
               s0.actions, s0.edges, s0.nextId, s1.actions, s1.edges, s1.nextId)
    case Some(FutureTimestep(time)) =>
      if s0.simulatorTime.None? then r == Fail(TimersBeforeTime) && s1 == s0.(nextInput := None)
      else r == Pass && s1 == s0.(nextInput := None, simulatorTime := Some(time), granted := true)
  }

  /** Granting an offered message once its topic input is added is what Requested asks for. */
  lemma RequestedInput(models: seq<NodeModel>, rank: Cause -> nat, s0: State, s1: State, topic: TopicName)
    requires s0.nextInput == Some(FutureInput(topic)) && s0.simulatorTime.Some?
    requires s1.nextInput.None? && s1.granted && s1.published == s0.published && s1.simulatorTime == s0.simulatorTime
    requires TopicInputAdded(models, s0.actions, s0.edges, s0.nextId, s1.actions, s1.edges, s1.nextId, topic, s0.simulatorTime.value)
    requires Expanded(models, rank, ListenerActions(models, topic, s0.simulatorTime.value),
                      s0.actions, s0.edges, s0.nextId, s1.actions, s1.edges, s1.nextId)
    ensures Requested(models, rank, s0, s1, Pass)
  {
  }

  /**
   * One pass of the `for` loop of `__process` over a graph of ids below n: the READY actions
   * without outgoing edges are released in id order, each publishing its buffered data, until a
   * READY timer callback action without outgoing edges is met, which raises NotImplementedError.
   * `released` says whether anything was released (the loop's `repeat` flag).
   */
  ghost predicate Passed(a0: Actions, e: Edges, n: nat, p0: seq<Publish>, a1: Actions, p1: seq<Publish>, r: Outcome<Error>, released: bool)
  {
    match FirstMatch(a0, 0, n, ReleasableTimer(e))
    case Some(t) => r == Fail(NotImplemented) && a1 == Released(a0, e, t) && p1 == p0 + Releases(a0, e, t)
    case None =>
      r == Pass && a1 == Released(a0, e, n) && p1 == p0 + Releases(a0, e, n) &&
      (released <==> Collect(a0, 0, n, Releasable(e)) != [])
  }

  /** What a release pass has done once it has looked at the ids below k without meeting a ready timer. */
  ghost predicate PassedUpTo(a0: Actions, e: Edges, k: nat, p0: seq<Publish>, a1: Actions, p1: seq<Publish>, released: bool)
  {
    a1 == Released(a0, e, k) && p1 == p0 + Releases(a0, e, k) &&
    (released <==> Collect(a0, 0, k, Releasable(e)) != []) &&
    FirstMatch(a0, 0, k, ReleasableTimer(e)).None?
  }

  /** One step of a release pass at id k, which is no ready timer without outgoing edges. */
  lemma PassStep(a0: Actions, e: Edges, k: nat, p0: seq<Publish>, a1: Actions, p1: seq<Publish>, rel1: bool, ready: bool,
                 a2: Actions, p2: seq<Publish>, rel2: bool)
    requires PassedUpTo(a0, e, k, p0, a1, p1, rel1)
    requires ready == (k in a1 && Matches(Releasable(e), k, a1[k]))
    requires ready ==> a1[k].RxAction? && a2 == a1[k := Start(a1[k])] && p2 == p1 + PublishLog([a1[k]]) && rel2
    requires !ready ==> a2 == a1 && p2 == p1 && rel2 == rel1
    ensures PassedUpTo(a0, e, k + 1, p0, a2, p2, rel2)
  {
    ReleasedStep(a0, e, k);
    if k in a0 {
      assert a1[k] == a0[k];
    }
    FirstMatchExtend(a0, 0, k, ReleasableTimer(e));
    var c := Collect(a0, 0, k, Releasable(e));
    PassLogStep(a0, e, k, p0, p1, p2, ready);
    if ready {
      assert Collect(a0, 0, k + 1, Releasable(e)) == c + [a0[k]];
    }
  }

  /** The log of that step: the released action's data, if any, follows what was published before. */
  lemma PassLogStep(a0: Actions, e: Edges, k: nat, p0: seq<Publish>, p1: seq<Publish>, p2: seq<Publish>, ready: bool)
    requires ready == (k in a0 && Matches(Releasable(e), k, a0[k]))
    requires p1 == p0 + Releases(a0, e, k)
    requires p2 == p1 + if ready then PublishLog([a0[k]]) else []
    ensures p2 == p0 + Releases(a0, e, k + 1)
  {
    ReleasesStep(a0, e, k);
  }

  /** A pass that has looked at every id without meeting a ready timer. */
  lemma PassDone(a0: Actions, e: Edges, n: nat, p0: seq<Publish>, a1: Actions, p1: seq<Publish>, rel: bool)
    requires PassedUpTo(a0, e, n, p0, a1, p1, rel)
    ensures Passed(a0, e, n, p0, a1, p1, Pass, rel)
  {
  }

  /** A pass that meets a ready timer without outgoing edges at id k stops there. */
  lemma PassStopsAtTimer(a0: Actions, e: Edges, n: nat, k: nat, p0: seq<Publish>, a1: Actions, p1: seq<Publish>, rel: bool)
    requires PassedUpTo(a0, e, k, p0, a1, p1, rel)
    requires k < n && k in a1 && Matches(Releasable(e), k, a1[k]) && a1[k].TimerCallbackAction?
    ensures Passed(a0, e, n, p0, a1, p1, Fail(NotImplemented), rel)
  {
    ReleasedStep(a0, e, k);
    assert FirstMatch(a0, 0, n, ReleasableTimer(e)) == Some(k);
  }

  /** Releasing keeps the graph invariant. */
  lemma ReleasedWellFormed(models: seq<NodeModel>, rank: Cause -> nat, a0: Actions, e: Edges, n: nat, m: nat, a1: Actions)
    requires WellFormed(models, rank, a0, e, n) && a1 == Released(a0, e, m)
    ensures WellFormed(models, rank, a1, e, n)
  {
    ReleasedPreserves(models, a0, e, m, n);
  }

  /**
   * The outcome of `__process` from s0 to s1: the release passes run to their fixed point (or
   * stop at a ready timer), then the pending offer is granted if the graph is ready for it.
   */
  ghost predicate Processed(models: seq<NodeModel>, rank: Cause -> nat, s0: State, s1: State, r: Outcome<Error>)
  {
    var e, n := s0.edges, s0.nextId;
    match FirstMatch(s0.actions, 0, n, ReleasableTimer(e))
    case Some(t) =>
      r == Fail(NotImplemented) && s1 == s0.(actions := Released(s0.actions, e, t), published := s0.published + Releases(s0.actions, e, t))
    case None =>
      var mid := s0.(actions := Released(s0.actions, e, n), published := s0.published + Releases(s0.actions, e, n));
      if mid.nextInput.None? || ReadyForNextInput(mid.actions, n, mid.nextInput) == Ok(false) then r == Pass && s1 == mid
      else Requested(models, rank, mid, s1, r)
  }

  /** Unless a timer is ready, `__process` appends to the log exactly the releases of the full pass. */
  lemma ProcessedLog(models: seq<NodeModel>, rank: Cause -> nat, s0: State, s1: State, r: Outcome<Error>)
    requires IdsBelow(s0.actions, s0.nextId)
    requires Processed(models, rank, s0, s1, r) && r != Fail(NotImplemented)
    ensures NoneMatch(s0.actions, ReleasableTimer(s0.edges))
    ensures s1.published == s0.published + Releases(s0.actions, s0.edges, s0.nextId)
  {
    assert FirstMatch(s0.actions, 0, s0.nextId, ReleasableTimer(s0.edges)).None?;
  }

  /**
   * The graph after the buffering and removal steps of `__interception_subscription_callback`
   * for a message on a topic other than "clock": the message is buffered at the WAITING
   * RxActions on the topic that are CAUSALITY children of the running action that published it
   * or, when no running action publishes the topic, at those of the earliest waiting time step;
   * then the publishing action goes, with its edges.
   */
  ghost function Delivered(models: seq<NodeModel>, s0: State, topic: TopicName, msg: Message): State
  {
    var cause := FindRunningAction(models, s0.actions, s0.nextId, topic);
    var ts := if cause.None? then EarliestWaiting(s0.actions, topic, s0.nextId) else None;
    var b := Buffered(s0.actions, s0.edges, topic, cause, ts, msg, s0.nextId);
    if cause.Some? then s0.(actions := b - {cause.value}, edges := RemoveNode(s0.edges, cause.value)) else s0.(actions := b)
  }

  /**
   * The outcome of `__interception_subscription_callback`: "clock" is ignored; a message on a
   * topic that no running action publishes and that is no external input raises
   * ActionNotFoundError; otherwise the message is delivered and the graph processed.
   */
  ghost predicate Intercepted(models: seq<NodeModel>, rank: Cause -> nat, external: seq<TopicName>, s0: State, topic: TopicName, msg: Message,
                              s1: State, r: Outcome<Error>)
  {
    if topic == "clock" then r == Pass && s1 == s0
    else if FindRunningAction(models, s0.actions, s0.nextId, topic).None? && topic !in external then
      r == Fail(ActionNotFound) && s1 == s0
    else Processed(models, rank, Delivered(models, s0, topic, msg), s1, r)
  }

  /**
   * The outcome of `__status_callback`: the first running action of the node whose callback
   * publishes a status goes, with its edges, and the graph is processed; without one,
   * ActionNotFoundError.
   */
  ghost predicate StatusHandled(models: seq<NodeModel>, rank: Cause -> nat, s0: State, node: NodeName, s1: State, r: Outcome<Error>)
  {
    match FindRunningActionStatus(models, s0.actions, s0.nextId, node)
    case None => r == Fail(ActionNotFound) && s1 == s0
    case Some(k) => Processed(models, rank, s0.(actions := s0.actions - {k}, edges := RemoveNode(s0.edges, k)), s1, r)
  }

  /**
   * The outcome of `wait_until_publish_allowed`: a second offer, or data before the first time
   * step, raises; otherwise the offer is recorded (with a fresh, ungranted future) and granted
   * at once when no action is WAITING or RUNNING.
   */
  ghost predicate Offered(models: seq<NodeModel>, rank: Cause -> nat, s0: State, topic: TopicName, s1: State, r: Outcome<Error>)
  {
    if s0.nextInput.Some? then r == Fail(OfferPending) && s1 == s0
    else if s0.simulatorTime.None? then r == Fail(DataBeforeTime) && s1 == s0
    else
      var offered := s0.(nextInput := Some(FutureInput(topic)), granted := false);
      if GraphIsBusy(s0.actions, s0.nextId) then r == Pass && s1 == offered else Requested(models, rank, offered, s1, r)
  }

  /** The outcome of `wait_until_time_publish_allowed`: as Offered, for a clock step and without the time check. */
  ghost predicate TimeOffered(models: seq<NodeModel>, rank: Cause -> nat, s0: State, t: int, s1: State, r: Outcome<Error>)
  {
    if s0.nextInput.Some? then r == Fail(OfferPending) && s1 == s0
    else
      var offered := s0.(nextInput := Some(FutureTimestep(t)), granted := false);
      if GraphIsBusy(s0.actions, s0.nextId) then r == Pass && s1 == offered else Requested(models, rank, offered, s1, r)
  }

  /** The state the callback hands to `__process`, step by step; it keeps the graph invariant. */
  lemma DeliveredValid(models: seq<NodeModel>, rank: Cause -> nat, s0: State, topic: TopicName, msg: Message,
                       cause: Option<nat>, ts: Option<int>, b: Actions, mid: State)
    requires WellFormed(models, rank, s0.actions, s0.edges, s0.nextId)
    requires cause == FindRunningAction(models, s0.actions, s0.nextId, topic)
    requires ts == if cause.None? then EarliestWaiting(s0.actions, topic, s0.nextId) else None
    requires b == Buffered(s0.actions, s0.edges, topic, cause, ts, msg, s0.nextId)
    requires mid == if cause.Some? then s0.(actions := b - {cause.value}, edges := RemoveNode(s0.edges, cause.value)) else s0.(actions := b)
    ensures mid == Delivered(models, s0, topic, msg)
    ensures WellFormed(models, rank, mid.actions, mid.edges, mid.nextId)
  {
    BufferedWellFormed(models, rank, s0.actions, s0.edges, s0.nextId, topic, cause, ts, msg, b);
    if cause.Some? {
      RemovedWellFormed(models, rank, b, s0.edges, s0.nextId, cause.value, mid.actions, mid.edges);
    }
  }

  lemma InterceptedByDelivery(models: seq<NodeModel>, rank: Cause -> nat, external: seq<TopicName>, s0: State, topic: TopicName, msg: Message,
                              mid: State, s1: State, r: Outcome<Error>)
    requires topic != "clock"
    requires FindRunningAction(models, s0.actions, s0.nextId, topic).Some? || topic in external
    requires mid == Delivered(models, s0, topic, msg) && Processed(models, rank, mid, s1, r)
    ensures Intercepted(models, rank, external, s0, topic, msg, s1, r)
  {
  }

  /** Buffering keeps the graph invariant. */
  lemma BufferedWellFormed(models: seq<NodeModel>, rank: Cause -> nat, a0: Actions, e: Edges, n: nat,
                           topic: TopicName, cause: Option<nat>, ts: Option<int>, msg: Message, a1: Actions)
    requires WellFormed(models, rank, a0, e, n) && a1 == Buffered(a0, e, topic, cause, ts, msg, n)
    ensures WellFormed(models, rank, a1, e, n)
  {
    BufferedPreserves(models, a0, e, topic, cause, ts, msg, n, n);
  }

  /** Removing an action with its edges keeps the graph invariant. */
  lemma RemovedWellFormed(models: seq<NodeModel>, rank: Cause -> nat, a0: Actions, e0: Edges, n: nat, k: nat, a1: Actions, e1: Edges)
    requires WellFormed(models, rank, a0, e0, n) && a1 == a0 - {k} && e1 == RemoveNode(e0, k)
    ensures WellFormed(models, rank, a1, e1, n)
  {
    RemovePreserves(models, a0, e0, k, n);
  }

  class Orchestrator {
    /** The node models (`node_config`) and the external input topics (`external_input_topics_config`). */
    const nodeModels: seq<NodeModel>
    const externalInputTopics: seq<TopicName>
    /** A layering of the models' topic graph; it exists exactly when that graph has no cycle. */
    ghost const rank: Cause -> nat

    var actions: Actions
    var edges: Edges
    /** The id the next added action gets (`_next_id`). */
    var nextId: nat
    var published: seq<Publish>
    var nextInput: Option<PendingInput>
    var simulatorTime: Option<int>
    var granted: bool

    ghost function Snap(): State
      reads this
    {
      State(actions, edges, nextId, published, nextInput, simulatorTime, granted)
    }

    /** The invariant, except that the SAME_TOPIC edges of action x may still be missing. */
    ghost predicate ValidExcept(x: nat)
      reads this`actions, this`edges, this`nextId, this`nextInput, this`simulatorTime
    {
      WellFormedExcept(nodeModels, rank, actions, edges, nextId, x) &&
      (nextInput.Some? && nextInput.value.FutureInput? ==> simulatorTime.Some?)
    }

    ghost predicate Valid()
      reads this`actions, this`edges, this`nextId, this`nextInput, this`simulatorTime
    {
      WellFormed(nodeModels, rank, actions, edges, nextId) &&
      (nextInput.Some? && nextInput.value.FutureInput? ==> simulatorTime.Some?)
    }

    constructor (models: seq<NodeModel>, externalTopics: seq<TopicName>, ghost layering: Cause -> nat)
      requires NamesUnique(models) && Layered(models, layering)
      ensures Valid()
      ensures nodeModels == models && externalInputTopics == externalTopics && rank == layering
      ensures Snap() == State(map[], map[], 0, [], None, None, false)
    {
      nodeModels, externalInputTopics, rank := models, externalTopics, layering;
      actions, edges, nextId, published := map[], map[], 0, [];
      nextInput, simulatorTime, granted := None, None, false;
    }

    /** The SAME_NODE loop of `__add_action_and_effects`: an edge from `id` to every other action of its node. */
    method AddSameNodeEdges(id: nat)
      requires id in actions
      modifies this`edges
      ensures edges == SameNodeEdges(old(edges), actions, id, nextId)
    {
      var k := 0;
      while k < nextId
        invariant k <= nextId
        invariant edges == SameNodeEdges(old(edges), actions, id, k)
      {
        if k in actions && actions[k].node == actions[id].node && k != id {
          edges := edges[(id, k) := SameNode];
        }
        k := k + 1;
      }
    }

    /** The inner SAME_TOPIC loop of `__add_all_effects_for_cause`: an edge from `u` to every RxAction on `topic`. */
    method AddSameTopicEdges(u: nat, topic: TopicName)
      modifies this`edges
      ensures edges == TopicEdges(old(edges), actions, u, topic, nextId)
    {
      var k := 0;
      while k < nextId
        invariant k <= nextId
        invariant edges == TopicEdges(old(edges), actions, u, topic, k)
      {
        if k in actions && actions[k].RxAction? && actions[k].topic == topic {
          edges := edges[(u, k) := SameTopic];
        }
        k := k + 1;
      }
    }

    /**
     * `__add_action_and_effects`: the action gets the next id, a SAME_NODE edge to every other
     * action of its node, a CAUSALITY edge to the action that publishes its input (if any), and
     * the SAME_TOPIC edges of its effects (ActionEdges); then its effects are added. The graph
     * grows by exactly the action's expansion, each child of the action sits at the id its
     * position there gives and has a CAUSALITY edge to the action, and every action added below
     * it is a WAITING RxAction at the same time whose cause ranks strictly lower.
     */
    method AddActionAndEffects(action: Action, parent: Option<nat>)
      requires Valid()
      requires Fits(nodeModels, action)
      requires action.RxAction? ==> action.state == Waiting && action.data.None?
      requires parent.Some? ==>
                 parent.value in actions && action.RxAction? &&
                 Publishes(nodeModels, actions[parent.value], action.topic) && actions[parent.value].timestamp == action.timestamp
      modifies this`actions, this`edges, this`nextId
      ensures Valid()
      ensures Grew(old(actions), old(edges), old(nextId), actions, edges, nextId)
      ensures GrewBy(old(actions), old(edges), old(nextId), actions, edges, nextId, Expansion(nodeModels, rank, action))
      ensures Grew(old(actions)[old(nextId) := action],
                   ActionEdges(nodeModels, old(edges), old(actions)[old(nextId) := action], old(nextId), parent, old(nextId) + 1),
                   old(nextId) + 1, actions, edges, nextId)
      ensures EffectChildrenAt(nodeModels, rank, actions, edges, old(nextId) + 1, old(nextId), action, |EffectsOf(nodeModels, action)|)
      ensures old(nextId) in actions && actions[old(nextId)] == action
      ensures forall k :: k in old(actions) && actions[k].node == action.node ==> (old(nextId), k) in edges
      ensures parent.Some? ==> (old(nextId), parent.value) in edges && edges[(old(nextId), parent.value)] == Causality
      ensures forall k :: k in actions && old(nextId) < k ==>
        Spawned(actions[k], action.timestamp) && rank(actions[k].InputCause()) < rank(action.InputCause())
      ensures ExpansionEdgesAt(nodeModels, rank, actions, edges, old(nextId), action, parent)
      decreases rank(action.InputCause()), 5
    {
      var id := nextId;
      ghost var a0, e0 := actions, edges;
      AddNode(action, parent);
      ghost var a1, e1 := actions, edges;
      AddAllEffectsForCause(action.node, action.InputCause(), id, action.timestamp, action);
      AddedActionKept(a0, e0, id, action, parent, a1, e1, actions, edges, nextId);
      AddedActionExpands(nodeModels, rank, a0, e0, id, action, parent, a1, e1, actions, edges, nextId);
      AddedActionParents(nodeModels, rank, a0, e0, id, action, parent, actions, edges, nextId);
    }

    /** The first half of `__add_action_and_effects`: the new node, its SAME_NODE edges and its CAUSALITY edge. */
    method AddNode(action: Action, parent: Option<nat>)
      requires Valid()
      requires Fits(nodeModels, action)
      requires action.RxAction? ==> action.state == Waiting && action.data.None?
      requires parent.Some? ==>
                 parent.value in actions && action.RxAction? &&
                 Publishes(nodeModels, actions[parent.value], action.topic) && actions[parent.value].timestamp == action.timestamp
      modifies this`actions, this`edges, this`nextId
      ensures nextId == old(nextId) + 1 && actions == old(actions)[old(nextId) := action]
      ensures edges == var e1 := SameNodeEdges(old(edges), actions, old(nextId), nextId);
                       if parent.Some? then e1[(old(nextId), parent.value) := Causality] else e1
      ensures ValidExcept(old(nextId)) && Grew(old(actions), old(edges), old(nextId), actions, edges, nextId)
      ensures SameNodeOrdered(actions, edges)
      ensures parent.Some? ==> (old(nextId), parent.value) in edges && edges[(old(nextId), parent.value)] == Causality
    {
      var id := nextId;
      ghost var a0, e0 := actions, edges;
      nextId := nextId + 1;
      actions := actions[id := action];
      AddSameNodeEdges(id);
      if parent.Some? {
        edges := edges[(id, parent.value) := Causality];
      }
      AddedNodeWellFormed(nodeModels, rank, a0, e0, id, action, parent, actions, edges);
    }

    /** The first loop of `__add_all_effects_for_cause`: the SAME_TOPIC edges from u for every published topic. */
    method AddEffectEdges(u: nat, effects: seq<Effect>)
      modifies this`edges
      ensures edges == EffectEdges(old(edges), actions, u, effects, nextId)
    {
      var i := 0;
      while i < |effects|
        invariant 0 <= i <= |effects|
        invariant edges == EffectEdges(old(edges), actions, u, effects[..i], nextId)
      {
        if effects[i].TopicPublish? {
          AddSameTopicEdges(u, effects[i].outputTopic);
        }
        assert effects[..i + 1][..i] == effects[..i];
        i := i + 1;
      }
      assert effects[..i] == effects;
    }

    /**
     * `__add_all_effects_for_cause`: a SAME_TOPIC edge from the cause to every RxAction on each
     * topic the cause publishes, then, effect by effect, one child action for each model
     * listening on that topic, with its own effects: the graph grows by exactly the cause's
     * effects expansion. The layering rules out a SAME_TOPIC edge over a CAUSALITY edge and a
     * SAME_TOPIC self-edge.
     */
    method AddAllEffectsForCause(node: NodeName, cause: Cause, causeId: nat, time: int, ghost c: Action)
      requires ValidExcept(causeId)
      requires nextId == causeId + 1 && causeId in actions && actions[causeId] == c
      requires c.node == node && c.InputCause() == cause && c.timestamp == time
      modifies this`actions, this`edges, this`nextId
      ensures Valid()
      ensures Grew(old(actions), old(edges), causeId, actions, edges, nextId) && nextId >= old(nextId)
      ensures GrewBy(old(actions), EffectEdges(old(edges), old(actions), causeId, EffectsOf(nodeModels, c), causeId + 1),
                     causeId + 1, actions, edges, nextId, EffectsExpansion(nodeModels, rank, c, |EffectsOf(nodeModels, c)|))
      ensures EffectChildrenAt(nodeModels, rank, actions, edges, causeId + 1, causeId, c, |EffectsOf(nodeModels, c)|)
      ensures forall e :: e in old(edges) && old(edges)[e] == Causality ==> edges[e] == Causality
      ensures forall k :: k in actions && causeId < k ==> Spawned(actions[k], time) && rank(actions[k].InputCause()) < rank(cause)
      ensures EffectsEdgesAt(nodeModels, rank, actions, edges, causeId + 1, causeId, c, |EffectsOf(nodeModels, c)|)
      decreases rank(cause), 4
    {
      var model := NodeModelByName(nodeModels, node);
      var effects := EffectsForInput(model.value, cause);
      assert effects == EffectsOf(nodeModels, c);
      ghost var a0, e0 := actions, edges;
      AddEffectEdges(causeId, effects);
      EffectEdgesWellFormed(nodeModels, rank, a0, e0, causeId, nextId, edges, c);
      ghost var e1 := edges;
      AddEffectChildren(causeId, cause, effects, time, c);
      CauseEffectsKept(nodeModels, rank, a0, e0, e1, causeId, actions, edges, nextId, c);
    }

    /**
     * The second loop of `__add_all_effects_for_cause`: for every published topic, in effect
     * order, the children of the cause on that topic with their own effects.
     */
    method AddEffectChildren(causeId: nat, cause: Cause, effects: seq<Effect>, time: int, ghost c: Action)
      requires Valid() && causeId in actions && actions[causeId] == c && causeId < nextId
      requires c.InputCause() == cause && c.timestamp == time
      requires effects == EffectsOf(nodeModels, c)
      modifies this`actions, this`edges, this`nextId
      ensures Valid()
      ensures GrewBy(old(actions), old(edges), old(nextId), actions, edges, nextId, EffectsExpansion(nodeModels, rank, c, |effects|))
      ensures EffectChildrenAt(nodeModels, rank, actions, edges, old(nextId), causeId, c, |effects|)
      ensures EffectsEdgesAt(nodeModels, rank, actions, edges, old(nextId), causeId, c, |effects|)
      decreases rank(cause), 3
    {
      ghost var a0, e0, n0 := actions, edges, nextId;
      assert Fits(nodeModels, c);
      var i := 0;
      while i < |effects|
        invariant 0 <= i <= |effects|
        invariant Valid()
        invariant GrewBy(a0, e0, n0, actions, edges, nextId, EffectsExpansion(nodeModels, rank, c, i))
        invariant EffectChildrenAt(nodeModels, rank, actions, edges, n0, causeId, c, i)
        invariant EffectsEdgesAt(nodeModels, rank, actions, edges, n0, causeId, c, i)
      {
        AddEffectChild(causeId, cause, effects, time, i, c, a0, e0, n0);
        i := i + 1;
      }
    }

    /**
     * The inner loop of the second half of `__add_all_effects_for_cause`: for every model that
     * lists the topic among its possible inputs, in model order, a WAITING RxAction at the
     * cause's time, with a CAUSALITY edge to the cause, and its own effects.
     */
    method AddChildren(causeId: nat, cause: Cause, topic: TopicName, time: int)
      requires Valid() && causeId in actions && causeId < nextId
      requires actions[causeId].InputCause() == cause && actions[causeId].timestamp == time
      requires Publishes(nodeModels, actions[causeId], topic)
      modifies this`actions, this`edges, this`nextId
      ensures Valid()
      ensures Grew(old(actions), old(edges), old(nextId), actions, edges, nextId)
      ensures GrewBy(old(actions), old(edges), old(nextId), actions, edges, nextId,
                     ChildrenExpansion(nodeModels, rank, topic, time, |nodeModels|))
      ensures ChildrenAt(nodeModels, rank, actions, edges, old(nextId), causeId, topic, time, |nodeModels|)
      ensures forall k :: k in actions && old(nextId) <= k ==> Spawned(actions[k], time) && rank(actions[k].InputCause()) < rank(cause)
      ensures ChildrenEdgesAt(nodeModels, rank, actions, edges, old(nextId), causeId, topic, time, |nodeModels|)
      decreases rank(cause), 1
    {
      RankDescends(nodeModels, rank, actions[causeId], topic);
      ghost var a0, e0, n0 := actions, edges, nextId;
      ghost var c := actions[causeId];
      for j := 0 to |nodeModels|
        invariant Valid()
        invariant GrewBy(a0, e0, n0, actions, edges, nextId, ChildrenExpansion(nodeModels, rank, topic, time, j))
        invariant ChildrenAt(nodeModels, rank, actions, edges, n0, causeId, topic, time, j)
        invariant ChildrenEdgesAt(nodeModels, rank, actions, edges, n0, causeId, topic, time, j)
      {
        AddChild(causeId, cause, topic, time, j, c, a0, e0, n0);
      }
      ChildrenAddedSpawned(nodeModels, rank, a0, e0, n0, actions, edges, nextId, topic, time);
    }

    /**
     * One turn of the loop in AddEffectChildren: a topic publish of effect i gets its children,
     * a status publish adds nothing.
     */
    method AddEffectChild(causeId: nat, cause: Cause, effects: seq<Effect>, time: int, i: nat,
                          ghost c: Action, ghost a0: Actions, ghost e0: Edges, ghost n0: nat)
      requires causeId in a0 && a0[causeId] == c && causeId < n0 && c.InputCause() == cause && c.timestamp == time
      requires Fits(nodeModels, c) && effects == EffectsOf(nodeModels, c) && i < |effects|
      requires Valid()
      requires GrewBy(a0, e0, n0, actions, edges, nextId, EffectsExpansion(nodeModels, rank, c, i))
      requires EffectChildrenAt(nodeModels, rank, actions, edges, n0, causeId, c, i)
      requires EffectsEdgesAt(nodeModels, rank, actions, edges, n0, causeId, c, i)
      modifies this`actions, this`edges, this`nextId
      ensures Valid()
      ensures GrewBy(a0, e0, n0, actions, edges, nextId, EffectsExpansion(nodeModels, rank, c, i + 1))
      ensures EffectChildrenAt(nodeModels, rank, actions, edges, n0, causeId, c, i + 1)
      ensures EffectsEdgesAt(nodeModels, rank, actions, edges, n0, causeId, c, i + 1)
      decreases rank(cause), 2
    {
      ghost var a2, e2, n2 := actions, edges, nextId;
      assert actions[causeId] == c;
      if effects[i].TopicPublish? {
        AddChildren(causeId, cause, effects[i].outputTopic, time);
      }
      EffectChildStep(nodeModels, rank, c, causeId, i, a0, e0, n0, a2, e2, n2, actions, edges, nextId);
      EffectParentsStep(nodeModels, rank, c, causeId, i, n0, a2, e2, n2, actions, edges, nextId);
    }

    /** One turn of the loop in AddChildren: model j, when it listens to the topic, gets its RxAction and that action's effects. */
    method AddChild(causeId: nat, cause: Cause, topic: TopicName, time: int, j: nat,
                    ghost c: Action, ghost a0: Actions, ghost e0: Edges, ghost n0: nat)
      requires causeId in a0 && a0[causeId] == c && causeId < n0 && c.InputCause() == cause && c.timestamp == time
      requires Publishes(nodeModels, c, topic) && j < |nodeModels|
      requires Valid()
      requires GrewBy(a0, e0, n0, actions, edges, nextId, ChildrenExpansion(nodeModels, rank, topic, time, j))
      requires ChildrenAt(nodeModels, rank, actions, edges, n0, causeId, topic, time, j)
      requires ChildrenEdgesAt(nodeModels, rank, actions, edges, n0, causeId, topic, time, j)
      modifies this`actions, this`edges, this`nextId
      ensures Valid()
      ensures GrewBy(a0, e0, n0, actions, edges, nextId, ChildrenExpansion(nodeModels, rank, topic, time, j + 1))
      ensures ChildrenAt(nodeModels, rank, actions, edges, n0, causeId, topic, time, j + 1)
      ensures ChildrenEdgesAt(nodeModels, rank, actions, edges, n0, causeId, topic, time, j + 1)
      decreases rank(cause), 0
    {
      ghost var a2, e2, n2 := actions, edges, nextId;
      if TopicInput(topic) in nodeModels[j].possibleInputs {
        RankDescends(nodeModels, rank, c, topic);
        ByNameFindsModel(nodeModels, j);
        AddActionAndEffects(RxAction(Waiting, nodeModels[j].name, time, topic, None), Some(causeId));
      }
      ChildStep(nodeModels, rank, topic, time, causeId, j, a0, e0, n0, a2, e2, n2, actions, edges, nextId);
      ChildParentsStep(nodeModels, rank, topic, time, causeId, j, n0, a2, e2, n2, actions, edges, nextId);
    }

    /** The first loop of `__add_topic_input`: the RxActions a message on the topic at time t calls for. */
    method ExpectedRxActions(t: int, topic: TopicName) returns (expected: seq<Action>)
      ensures expected == ListenerActions(nodeModels, topic, t)
    {
      expected := [];
      var j := 0;
      while j < |nodeModels|
        invariant j <= |nodeModels|
        invariant expected == ListenerActions(nodeModels[..j], topic, t)
      {
        if TopicInput(topic) in nodeModels[j].possibleInputs {
          expected := expected + [RxAction(Waiting, nodeModels[j].name, t, topic, None)];
        }
        assert nodeModels[..j + 1][..j] == nodeModels[..j];
        j := j + 1;
      }
      assert nodeModels[..j] == nodeModels;
    }

    /**
     * `__add_topic_input`: one WAITING RxAction at time t for every model listening on the
     * topic, in model order, each added with its effects: the graph grows by exactly their
     * expansions.
     */
    method AddTopicInput(t: int, topic: TopicName)
      requires Valid()
      modifies this`actions, this`edges, this`nextId
      ensures Valid()
      ensures TopicInputAdded(nodeModels, old(actions), old(edges), old(nextId), actions, edges, nextId, topic, t)
      ensures Expanded(nodeModels, rank, ListenerActions(nodeModels, topic, t), old(actions), old(edges), old(nextId), actions, edges, nextId)
    {
      var expected := ExpectedRxActions(t, topic);
      ghost var a0, e0, n0 := actions, edges, nextId;
      var i := 0;
      assert expected[..0] == [];
      while i < |expected|
        invariant i <= |expected|
        invariant Valid()
        invariant Grew(a0, e0, n0, actions, edges, nextId)
        invariant forall k :: k in actions && n0 <= k ==> Spawned(actions[k], t)
        invariant Collect(actions, n0, nextId, OnTopic(topic)) == expected[..i]
        invariant Expanded(nodeModels, rank, expected[..i], a0, e0, n0, actions, edges, nextId)
      {
        AddListenerAction(expected, i, t, topic, a0, e0, n0);
        i := i + 1;
      }
      assert expected[..i] == expected;
    }

    /** One turn of the loop over the listeners: the action of listener i is added with its effects. */
    method AddListenerAction(expected: seq<Action>, i: nat, t: int, topic: TopicName, ghost a0: Actions, ghost e0: Edges, ghost n0: nat)
      requires i < |expected| && expected == ListenerActions(nodeModels, topic, t)
      requires Valid()
      requires Grew(a0, e0, n0, actions, edges, nextId)
      requires forall k :: k in actions && n0 <= k ==> Spawned(actions[k], t)
      requires Collect(actions, n0, nextId, OnTopic(topic)) == expected[..i]
      requires Expanded(nodeModels, rank, expected[..i], a0, e0, n0, actions, edges, nextId)
      modifies this`actions, this`edges, this`nextId
      ensures Valid()
      ensures Grew(a0, e0, n0, actions, edges, nextId)
      ensures forall k :: k in actions && n0 <= k ==> Spawned(actions[k], t)
      ensures Collect(actions, n0, nextId, OnTopic(topic)) == expected[..i + 1]
      ensures Expanded(nodeModels, rank, expected[..i + 1], a0, e0, n0, actions, edges, nextId)
    {
      ListenerFits(nodeModels, topic, t, i);
      ghost var a2, e2, n2 := actions, edges, nextId;
      AddActionAndEffects(expected[i], None);
      GrewTrans(a0, e0, n0, a2, e2, n2, actions, edges, nextId, n2);
      InputStep(rank, a2, n0, n2, actions, nextId, topic, t, expected, i);
      RootStep(nodeModels, rank, expected, i, a0, e0, n0, a2, e2, n2, actions, edges, nextId);
    }

    /**
     * The first timer loop of `__add_pending_timers_until`: every timer is checked in list
     * order, and the actions of the firing ones are collected, unless one of them fails.
     */
    method ExpectedTimerActions(timers: seq<Timer>, last: int, t: int) returns (r: Result<seq<Action>, Error>)
      ensures FiringTimers(timers, last, t).Err? ==> r == Err(FiringTimers(timers, last, t).error)
      ensures FiringTimers(timers, last, t).Ok? ==> r == Ok(TimerActions(FiringTimers(timers, last, t).value, t))
    {
      var expected: seq<Action> := [];
      ghost var fired: seq<Timer> := [];
      var i := 0;
      while i < |timers|
        invariant i <= |timers|
        invariant FiringTimers(timers[..i], last, t) == Ok(fired)
        invariant expected == TimerActions(fired, t)
      {
        FiringStep(timers, last, t, i, fired);
        var period := timers[i].period;
        if period == 0 {
          FiringErrorSticks(timers, last, t, i + 1);
          return Err(ZeroPeriod);
        }
        var nextFire := FloorDiv(last, period) * period + period;
        var dt := t - last;
        if dt > period {
          FiringErrorSticks(timers, last, t, i + 1);
          return Err(TimestepTooLarge);
        }
        assert TimerStep(last, t, period) == Ok(nextFire <= t);
        if nextFire <= t {
          TimerActionsAppend(fired, timers[i], t);
          fired := fired + [timers[i]];
          expected := expected + [TimerAction(timers[i], t)];
        } else {
          assert fired + [] == fired;
        }
        i := i + 1;
      }
      assert timers[..i] == timers;
      return Ok(expected);
    }

    /**
     * The timer half of `__add_pending_timers_until`, for a given list of timers: only when no
     * timer fails are the actions of the firing ones added, in list order, each with its
     * effects: the graph grows by exactly their expansions.
     */
    method AddFiringTimers(timers: seq<Timer>, last: int, t: int) returns (r: Outcome<Error>)
      requires Valid()
      requires forall i :: 0 <= i < |timers| ==> Fits(nodeModels, TimerAction(timers[i], t))
      modifies this`actions, this`edges, this`nextId
      ensures Valid()
      ensures FiringTimers(timers, last, t).Err? ==>
        r == Fail(FiringTimers(timers, last, t).error) && actions == old(actions) && edges == old(edges) && nextId == old(nextId)
      ensures FiringTimers(timers, last, t).Ok? ==>
        r == Pass && TimersAdded(old(actions), old(edges), old(nextId), actions, edges, nextId, FiringTimers(timers, last, t).value, t)
      ensures FiringTimers(timers, last, t).Ok? ==>
        Expanded(nodeModels, rank, TimerActions(FiringTimers(timers, last, t).value, t), old(actions), old(edges), old(nextId), actions, edges, nextId)
      ensures FiringTimers(timers, last, t) == Ok([]) ==> actions == old(actions) && edges == old(edges) && nextId == old(nextId)
    {
      var res := ExpectedTimerActions(timers, last, t);
      if res.Err? {
        return Fail(res.error);
      }
      var expected := res.value;
      ghost var fired := FiringTimers(timers, last, t).value;
      ghost var a0, e0, n0 := actions, edges, nextId;
      var k := 0;
      assert expected[..0] == [];
      while k < |expected|
        invariant k <= |expected|
        invariant Valid()
        invariant Grew(a0, e0, n0, actions, edges, nextId)
        invariant forall j :: j in actions && n0 <= j ==> actions[j].TimerCallbackAction? || Spawned(actions[j], t)
        invariant Collect(actions, n0, nextId, IsTimer) == expected[..k]
        invariant k == 0 ==> actions == a0 && edges == e0 && nextId == n0
        invariant Expanded(nodeModels, rank, expected[..k], a0, e0, n0, actions, edges, nextId)
      {
        assert fired[k] in timers;
        AddTimerAction(expected, k, t, fired, a0, e0, n0);
        k := k + 1;
      }
      assert expected[..k] == expected;
      return Pass;
    }

    /** One turn of the second timer loop: the action of firing timer k is added with its effects. */
    method AddTimerAction(expected: seq<Action>, k: nat, t: int, ghost fired: seq<Timer>, ghost a0: Actions, ghost e0: Edges, ghost n0: nat)
      requires k < |expected| && expected == TimerActions(fired, t) && Fits(nodeModels, expected[k])
      requires Valid()
      requires Grew(a0, e0, n0, actions, edges, nextId)
      requires forall j :: j in actions && n0 <= j ==> actions[j].TimerCallbackAction? || Spawned(actions[j], t)
      requires Collect(actions, n0, nextId, IsTimer) == expected[..k]
      requires Expanded(nodeModels, rank, expected[..k], a0, e0, n0, actions, edges, nextId)
      modifies this`actions, this`edges, this`nextId
      ensures Valid()
      ensures Grew(a0, e0, n0, actions, edges, nextId)
      ensures forall j :: j in actions && n0 <= j ==> actions[j].TimerCallbackAction? || Spawned(actions[j], t)
      ensures Collect(actions, n0, nextId, IsTimer) == expected[..k + 1]
      ensures Expanded(nodeModels, rank, expected[..k + 1], a0, e0, n0, actions, edges, nextId)
    {
      ghost var a2, e2, n2 := actions, edges, nextId;
      AddActionAndEffects(expected[k], None);
      GrewTrans(a0, e0, n0, a2, e2, n2, actions, edges, nextId, n2);
      TimerAddStep(a2, n0, n2, actions, nextId, fired, t, k);
      RootStep(nodeModels, rank, expected, k, a0, e0, n0, a2, e2, n2, actions, edges, nextId);
    }

    /**
     * `__add_pending_timers_until`: it needs simulator_time. The loop over the models' timer
     * inputs never appends to its list (line 177), so as written no timer ever fires.
     */
    method AddPendingTimersUntil(t: int) returns (r: Outcome<Error>)
      requires Valid()
      modifies this`actions, this`edges, this`nextId
      ensures Valid()
      ensures r == if simulatorTime.None? then Fail(TimersBeforeTime) else Pass
      ensures actions == old(actions) && edges == old(edges) && nextId == old(nextId)
    {
      if simulatorTime.None? {
        return Fail(TimersBeforeTime);
      }
      var lastTime := simulatorTime.value;
      var timers: seq<Timer> := [];
      r := AddFiringTimers(timers, lastTime, t);
    }

    /** `__request_next_input`: grant the pending offer after adding the actions it sets off. */
    method RequestNextInput() returns (r: Outcome<Error>)
      requires Valid()
      modifies this`actions, this`edges, this`nextId, this`nextInput, this`simulatorTime, this`granted
      ensures Valid()
      ensures Requested(nodeModels, rank, old(Snap()), Snap(), r)
      ensures old(nextInput).Some? && old(nextInput).value.FutureInput? ==>
        Expanded(nodeModels, rank, ListenerActions(nodeModels, old(nextInput).value.topic, old(simulatorTime).value),
                 old(actions), old(edges), old(nextId), actions, edges, nextId)
    {
      match nextInput
      case None =>
        r := Fail(NoPendingInput);
      case Some(FutureInput(topic)) =>
        r := GrantInput(topic);
      case Some(FutureTimestep(time)) =>
        r := GrantTimestep(time);
    }

    /** The FutureInput case of `__request_next_input`: the topic input goes in at the current time. */
    method GrantInput(topic: TopicName) returns (r: Outcome<Error>)
      requires Valid() && nextInput == Some(FutureInput(topic))
      modifies this`actions, this`edges, this`nextId, this`nextInput, this`granted
      ensures Valid()
      ensures Requested(nodeModels, rank, old(Snap()), Snap(), r)
      ensures Expanded(nodeModels, rank, ListenerActions(nodeModels, topic, old(simulatorTime).value), old(actions), old(edges), old(nextId), actions, edges, nextId)
    {
      ghost var s0 := Snap();
      // adding the topic input neither reads nor writes the offer, so it may be cleared afterwards
      AddTopicInput(simulatorTime.value, topic);
      nextInput := None;
      granted := true;
      r := Pass;
      RequestedInput(nodeModels, rank, s0, Snap(), topic);
    }

    /** The FutureTimestep case of `__request_next_input`: the timers up to the new time, then the clock moves. */
    method GrantTimestep(time: int) returns (r: Outcome<Error>)
      requires Valid() && nextInput == Some(FutureTimestep(time))
      modifies this`actions, this`edges, this`nextId, this`nextInput, this`simulatorTime, this`granted
      ensures Valid()
      ensures Requested(nodeModels, rank, old(Snap()), Snap(), r)
    {
      nextInput := None;
      r := AddPendingTimersUntil(time);
      if r == Pass {
        simulatorTime := Some(time);
        granted := true;
      }
    }

    /** One pass of the `for` loop of `__process` over the graph in id order. */
    method ReleasePass() returns (r: Outcome<Error>, released: bool)
      modifies this`actions, this`published
      ensures Passed(old(actions), edges, nextId, old(published), actions, published, r, released)
    {
      ghost var a0, p0 := actions, published;
      released := false;
      var k := 0;
      while k < nextId
        invariant k <= nextId
        invariant PassedUpTo(a0, edges, k, p0, actions, published, released)
      {
        ghost var a1, p1, rel1 := actions, published, released;
        // skip actions with ordering constraints left, and actions still missing their data
        var ready := k in actions && Matches(Releasable(edges), k, actions[k]);
        if ready {
          var a := actions[k];
          if a.TimerCallbackAction? {
            PassStopsAtTimer(a0, edges, nextId, k, p0, a1, p1, rel1);
            return Fail(NotImplemented), released;
          }
          assert PublishLog([a]) == [Publish(a.node, a.topic, a.data)];
          published := published + [Publish(a.node, a.topic, a.data)];
          actions := actions[k := Start(a)];
          released := true;
        }
        PassStep(a0, edges, k, p0, a1, p1, rel1, ready, actions, published, released);
        k := k + 1;
      }
      PassDone(a0, edges, nextId, p0, actions, published, released);
      r := Pass;
    }

    /**
     * `__process`: release passes until one releases nothing (or a ready timer raises), then
     * request the offered input if the graph is ready for it.
     */
    method Process() returns (r: Outcome<Error>)
      requires Valid()
      modifies this`actions, this`edges, this`nextId, this`published, this`nextInput, this`simulatorTime, this`granted
      ensures Valid()
      ensures Processed(nodeModels, rank, old(Snap()), Snap(), r)
    {
      ghost var s0 := Snap();
      var repeat := true;
      ghost var passes := 0;
      while repeat
        invariant edges == s0.edges && nextId == s0.nextId && nextInput == s0.nextInput
        invariant simulatorTime == s0.simulatorTime && granted == s0.granted
        invariant passes == 0 ==> repeat && actions == s0.actions && published == s0.published
        invariant passes > 0 ==>
          actions == Released(s0.actions, edges, nextId) && published == s0.published + Releases(s0.actions, edges, nextId) &&
          FirstMatch(s0.actions, 0, nextId, ReleasableTimer(edges)).None?
        invariant passes > 1 ==> !repeat
        decreases (if repeat then 1 else 0) + (if passes == 0 then 1 else 0)
      {
        ghost var a1, p1 := actions, published;
        if passes > 0 {
          ReleasedSettles(s0.actions, edges, nextId);
        }
        var res, released := ReleasePass();
        if res.Fail? {
          ReleasedWellFormed(nodeModels, rank, s0.actions, edges, nextId, FirstMatch(s0.actions, 0, nextId, ReleasableTimer(edges)).value, actions);
          return res;
        }
        if passes > 0 {
          assert published == p1 + [] == p1;
        }
        repeat := released;
        passes := passes + 1;
      }
      ReleasedWellFormed(nodeModels, rank, s0.actions, edges, nextId, nextId, actions);
      if nextInput.None? {
        return Pass;
      }
      var ready := ReadyForNextInput(actions, nextId, nextInput);
      if !ready.value {
        return Pass;
      }
      r := RequestNextInput();
    }

    /** The minimum loop of `__interception_subscription_callback` for an external input. */
    method EarliestWaitingTimestep(topic: TopicName) returns (ts: Option<int>)
      ensures ts == EarliestWaiting(actions, topic, nextId)
    {
      ts := None;
      var k := 0;
      while k < nextId
        invariant k <= nextId
        invariant ts == EarliestWaiting(actions, topic, k)
      {
        if k in actions && actions[k].RxAction? && actions[k].topic == topic && actions[k].state == Waiting {
          // the action's timestamp stands in for the graph node's "timestep" attribute
          var t := actions[k].timestamp;
          if ts.None? || t < ts.value {
            ts := Some(t);
          }
        }
        k := k + 1;
      }
    }

    /**
     * The buffering loop of `__interception_subscription_callback`: each WAITING RxAction on
     * the topic that the message is for becomes READY and holds the message.
     */
    method BufferMessage(topic: TopicName, cause: Option<nat>, inputTimestep: Option<int>, msg: Message)
      requires DataBuffered(actions)
      requires cause.None? ==> inputTimestep == EarliestWaiting(actions, topic, nextId)
      modifies this`actions
      ensures actions == Buffered(old(actions), edges, topic, cause, inputTimestep, msg, nextId)
    {
      ghost var a0 := actions;
      var k := 0;
      while k < nextId
        invariant k <= nextId
        invariant actions == Buffered(a0, edges, topic, cause, inputTimestep, msg, k)
      {
        BufferedStep(a0, edges, topic, cause, inputTimestep, msg, k);
        if k in a0 {
          BufferedAhead(a0, edges, topic, cause, inputTimestep, msg, k);
        }
        if k in actions && actions[k].RxAction? && actions[k].topic == topic && actions[k].state == Waiting {
          var buffer: bool;
          if cause.Some? {
            // only the actions directly caused by the publishing action
            buffer := (k, cause.value) in edges && edges[(k, cause.value)] == Causality;
          } else {
            // an external input: only the actions of the earliest time step
            assert inputTimestep.Some?;
            buffer := inputTimestep == Some(actions[k].timestamp);
          }
          if buffer {
            assert actions[k].data.None?;
            actions := actions[k := actions[k].(state := Ready, data := Some(msg))];
          }
        }
        k := k + 1;
      }
    }

    /** `__interception_subscription_callback`: a message was intercepted on `topic`. */
    method InterceptionSubscriptionCallback(topic: TopicName, msg: Message) returns (r: Outcome<Error>)
      requires Valid()
      modifies this`actions, this`edges, this`nextId, this`published, this`nextInput, this`simulatorTime, this`granted
      ensures Valid()
      ensures Intercepted(nodeModels, rank, externalInputTopics, old(Snap()), topic, msg, Snap(), r)
    {
      if topic == "clock" {
        return Pass;
      }
      ghost var s0 := Snap();
      var cause := FindRunningAction(nodeModels, actions, nextId, topic);
      var inputTimestep: Option<int> := None;
      if cause.None? {
        if topic !in externalInputTopics {
          return Fail(ActionNotFound);
        }
        inputTimestep := EarliestWaitingTimestep(topic);
      }
      ghost var b := Deliver(topic, msg, cause, inputTimestep);
      ghost var mid := Snap();
      DeliveredValid(nodeModels, rank, s0, topic, msg, cause, inputTimestep, b, mid);
      r := Process();
      InterceptedByDelivery(nodeModels, rank, externalInputTopics, s0, topic, msg, mid, Snap(), r);
    }

    /**
     * The second half of `__interception_subscription_callback` before processing: buffer the
     * message, then remove the action that published it, with its edges.
     */
    method Deliver(topic: TopicName, msg: Message, cause: Option<nat>, inputTimestep: Option<int>) returns (ghost b: Actions)
      requires DataBuffered(actions)
      requires cause.None? ==> inputTimestep == EarliestWaiting(actions, topic, nextId)
      modifies this`actions, this`edges
      ensures b == Buffered(old(actions), old(edges), topic, cause, inputTimestep, msg, nextId)
      ensures cause.Some? ==> actions == b - {cause.value} && edges == RemoveNode(old(edges), cause.value)
      ensures cause.None? ==> actions == b && edges == old(edges)
    {
      BufferMessage(topic, cause, inputTimestep, msg);
      b := actions;
      if cause.Some? {
        actions := actions - {cause.value};
        edges := RemoveNode(edges, cause.value);
      }
    }

    /** `__status_callback`: the node reports that a callback publishing a status has finished. */
    method StatusCallback(node: NodeName) returns (r: Outcome<Error>)
      requires Valid()
      modifies this`actions, this`edges, this`nextId, this`published, this`nextInput, this`simulatorTime, this`granted
      ensures Valid()
      ensures StatusHandled(nodeModels, rank, old(Snap()), node, Snap(), r)
    {
      var cause := FindRunningActionStatus(nodeModels, actions, nextId, node);
      if cause.None? {
        return Fail(ActionNotFound);
      }
      ghost var s0 := Snap();
      actions := actions - {cause.value};
      edges := RemoveNode(edges, cause.value);
      RemovedWellFormed(nodeModels, rank, s0.actions, s0.edges, nextId, cause.value, actions, edges);
      ghost var mid := Snap();
      assert mid == s0.(actions := s0.actions - {cause.value}, edges := RemoveNode(s0.edges, cause.value));
      r := Process();
    }

    /** `wait_until_publish_allowed`: the data source offers a message on `topic` at the current time. */
    method WaitUntilPublishAllowed(topic: TopicName) returns (r: Outcome<Error>)
      requires Valid()
      modifies this`actions, this`edges, this`nextId, this`nextInput, this`simulatorTime, this`granted
      ensures Valid()
      ensures Offered(nodeModels, rank, old(Snap()), topic, Snap(), r)
    {
      if nextInput.Some? {
        return Fail(OfferPending);
      }
      if simulatorTime.None? {
        return Fail(DataBeforeTime);
      }
      nextInput := Some(FutureInput(topic));
      granted := false;
      if !GraphIsBusy(actions, nextId) {
        r := RequestNextInput();
      } else {
        r := Pass;
      }
    }

    /** `wait_until_time_publish_allowed`: the data source offers the clock step to time t. */
    method WaitUntilTimePublishAllowed(t: int) returns (r: Outcome<Error>)
      requires Valid()
      modifies this`actions, this`edges, this`nextId, this`nextInput, this`simulatorTime, this`granted
      ensures Valid()
      ensures TimeOffered(nodeModels, rank, old(Snap()), t, Snap(), r)
    {
      if nextInput.Some? {
        return Fail(OfferPending);
      }
      nextInput := Some(FutureTimestep(t));
      granted := false;
      if !GraphIsBusy(actions, nextId) {
        r := RequestNextInput();
      } else {
        r := Pass;
      }
    }
  }
}
