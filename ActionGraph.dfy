/**
 * The dependency graph both orchestrators keep. Graph nodes are integer ids holding a pending
 * callback action; a directed edge u -> v says that action u must wait until action v is gone.
 * The networkx DiGraph of the source becomes a map from id to action plus a map from (u, v) to
 * the edge's type: networkx keeps at most one edge per ordered pair, and adding it again only
 * overwrites its "edge_type" attribute, which a map update does too.
 *
 * networkx iterates over its nodes in insertion order. Ids come from an increasing counter and
 * are never reused, so insertion order is id order, and a scan "over all graph nodes" is a scan
 * over the ids 0 .. nextId that are present.
 */
module ActionGraph {
  import opened Wrappers
  import opened NodeModels

  datatype ActionState = Waiting | Ready | Running

  datatype EdgeType = SameNode | Causality | SameTopic

  /** Message contents are opaque to the orchestrator: it only buffers and forwards them. */
  type Message = string

  type Edge = (nat, nat)
  type Edges = map<Edge, EdgeType>

  /**
   * A pending callback: `RxAction` is "node receives a message on topic", `TimerCallbackAction`
   * is "a timer of node fires". An RxAction buffers the message it will be given in `data`.
   */
  datatype Action =
    | RxAction(state: ActionState, node: NodeName, timestamp: int, topic: TopicName, data: Option<Message>)
    | TimerCallbackAction(state: ActionState, node: NodeName, timestamp: int, period: int)
  {
    /** The node-model cause this action is the callback for (`action.cause`). */
    function InputCause(): Cause
    {
      match this
      case RxAction(_, _, _, topic, _) => TopicInput(topic)
      case TimerCallbackAction(_, _, _, period) => TimerInput(period)
    }
  }

  type Actions = map<nat, Action>

  /** One entry of the output log: the buffered data was published to `node` on `topic`. */
  datatype Publish = Publish(node: NodeName, topic: TopicName, data: Option<Message>)

  /** The effects of an action's callback, looked up through the model of its node. */
  function EffectsOf(models: seq<NodeModel>, a: Action): seq<Effect>
  {
    match NodeModelByName(models, a.node)
    case None => []
    case Some(m) => EffectsForInput(m, a.InputCause())
  }

  predicate Publishes(models: seq<NodeModel>, a: Action, topic: TopicName)
  {
    TopicPublish(topic) in EffectsOf(models, a)
  }

  predicate PublishesStatus(models: seq<NodeModel>, a: Action)
  {
    StatusPublish in EffectsOf(models, a)
  }

  /** The action's node has a model, and the action's cause is one of that model's inputs. */
  predicate Fits(models: seq<NodeModel>, a: Action)
  {
    match NodeModelByName(models, a.node)
    case None => false
    case Some(m) => a.InputCause() in m.possibleInputs
  }

  /** `graph.out_degree(k) > 0`. */
  predicate HasOutgoing(edges: Edges, k: nat)
  {
    exists e | e in edges :: e.0 == k
  }

  /** `graph.remove_node(k)` on the edges: every edge touching k goes. */
  function RemoveNode(edges: Edges, k: nat): (r: Edges)
    ensures forall e :: e in r <==> e in edges && e.0 != k && e.1 != k
    ensures forall e :: e in r ==> r[e] == edges[e]
  {
    map e | e in edges && e.0 != k && e.1 != k :: edges[e]
  }

  /** The conditions the source's scans look for. */
  datatype Filter =
    | OnTopic(topic: TopicName)
    | IsTimer
    | Busy
    | PendingOn(topic: TopicName)
    | WaitingOn(topic: TopicName)
    | RunningPublisher(models: seq<NodeModel>, topic: TopicName)
    | RunningStatusAt(models: seq<NodeModel>, node: NodeName)
    | Releasable(edges: Edges)
    | ReleasableTimer(edges: Edges)

  predicate Matches(f: Filter, k: nat, a: Action)
  {
    match f
    case OnTopic(t) => a.RxAction? && a.topic == t
    case IsTimer => a.TimerCallbackAction?
    case Busy => a.state == Running || a.state == Waiting
    case PendingOn(t) => (a.state == Ready || a.state == Waiting) && a.RxAction? && a.topic == t
    case WaitingOn(t) => a.RxAction? && a.topic == t && a.state == Waiting
    case RunningPublisher(ms, t) => a.state == Running && Publishes(ms, a, t)
    case RunningStatusAt(ms, n) => a.state == Running && a.node == n && PublishesStatus(ms, a)
    case Releasable(e) => !HasOutgoing(e, k) && a.state == Ready
    case ReleasableTimer(e) => !HasOutgoing(e, k) && a.state == Ready && a.TimerCallbackAction?
  }

  ghost predicate NoneMatch(actions: Actions, f: Filter)
  {
    forall k :: k in actions ==> !Matches(f, k, actions[k])
  }

  /** A scan over the graph in insertion order that stops at the first action matching `f`. */
  function FirstMatch(actions: Actions, lo: nat, hi: nat, f: Filter): (r: Option<nat>)
    decreases hi - lo
    ensures r.Some? ==> lo <= r.value < hi && r.value in actions && Matches(f, r.value, actions[r.value])
    ensures r.Some? ==> forall k :: lo <= k < r.value && k in actions ==> !Matches(f, k, actions[k])
    ensures r.None? <==> forall k :: lo <= k < hi && k in actions ==> !Matches(f, k, actions[k])
  {
    if lo >= hi then None
    else if lo in actions && Matches(f, lo, actions[lo]) then Some(lo)
    else FirstMatch(actions, lo + 1, hi, f)
  }

  /** A scan that found nothing below hi finds nothing below hi + 1 when hi does not match either. */
  lemma FirstMatchExtend(actions: Actions, lo: nat, hi: nat, f: Filter)
    requires lo <= hi && FirstMatch(actions, lo, hi, f).None?
    requires !(hi in actions && Matches(f, hi, actions[hi]))
    ensures FirstMatch(actions, lo, hi + 1, f).None?
  {
  }

  /** The actions with ids in [lo, hi) that match `f`, in id order. */
  function Collect(actions: Actions, lo: nat, hi: nat, f: Filter): seq<Action>
    decreases hi
  {
    if hi <= lo then []
    else Collect(actions, lo, hi - 1, f) + (if hi - 1 in actions && Matches(f, hi - 1, actions[hi - 1]) then [actions[hi - 1]] else [])
  }

  lemma {:induction false} CollectSplit(actions: Actions, lo: nat, mid: nat, hi: nat, f: Filter)
    requires lo <= mid <= hi
    ensures Collect(actions, lo, hi, f) == Collect(actions, lo, mid, f) + Collect(actions, mid, hi, f)
    decreases hi
  {
    if hi > mid {
      CollectSplit(actions, lo, mid, hi - 1, f);
    }
  }

  /** Collect only looks at the ids in its range. */
  lemma {:induction false} CollectFrame(a: Actions, b: Actions, lo: nat, hi: nat, f: Filter)
    requires forall k :: lo <= k < hi ==> (k in a <==> k in b)
    requires forall k :: lo <= k < hi && k in a ==> a[k] == b[k]
    ensures Collect(a, lo, hi, f) == Collect(b, lo, hi, f)
    decreases hi
  {
    if hi > lo {
      CollectFrame(a, b, lo, hi - 1, f);
    }
  }

  lemma {:induction false} CollectNone(actions: Actions, lo: nat, hi: nat, f: Filter)
    requires forall k :: lo <= k < hi && k in actions ==> !Matches(f, k, actions[k])
    ensures Collect(actions, lo, hi, f) == []
    decreases hi
  {
    if hi > lo {
      CollectNone(actions, lo, hi - 1, f);
    }
  }

  /** A range whose only match is its first id collects exactly that action. */
  lemma CollectSingle(actions: Actions, lo: nat, hi: nat, f: Filter)
    requires lo < hi && lo in actions && Matches(f, lo, actions[lo])
    requires forall k :: lo < k < hi && k in actions ==> !Matches(f, k, actions[k])
    ensures Collect(actions, lo, hi, f) == [actions[lo]]
  {
    CollectSplit(actions, lo, lo + 1, hi, f);
    CollectNone(actions, lo + 1, hi, f);
    assert Collect(actions, lo, lo, f) == [];
  }

  /**
   * Growing a graph by actions with ids in [mid, hi) whose only match is the one at mid appends
   * exactly that action to what Collect finds.
   */
  lemma CollectAppendOne(a0: Actions, a1: Actions, lo: nat, mid: nat, hi: nat, f: Filter)
    requires lo <= mid < hi
    requires forall k :: k in a0 ==> k in a1 && a1[k] == a0[k]
    requires forall k :: k in a1 && k !in a0 ==> mid <= k < hi
    requires mid in a1 && Matches(f, mid, a1[mid])
    requires forall k :: mid < k < hi && k in a1 ==> !Matches(f, k, a1[k])
    ensures Collect(a1, lo, hi, f) == Collect(a0, lo, mid, f) + [a1[mid]]
  {
    CollectSplit(a1, lo, mid, hi, f);
    CollectFrame(a0, a1, lo, mid, f);
    CollectSingle(a1, mid, hi, f);
  }

  /** As CollectAppendOne, where the new actions do not match at all. */
  lemma CollectAppendNone(a0: Actions, a1: Actions, lo: nat, mid: nat, hi: nat, f: Filter)
    requires lo <= mid <= hi
    requires forall k :: k in a0 ==> k in a1 && a1[k] == a0[k]
    requires forall k :: k in a1 && k !in a0 ==> mid <= k < hi
    requires forall k :: mid <= k < hi && k in a1 ==> !Matches(f, k, a1[k])
    ensures Collect(a1, lo, hi, f) == Collect(a0, lo, mid, f)
  {
    CollectSplit(a1, lo, mid, hi, f);
    CollectFrame(a0, a1, lo, mid, f);
    CollectNone(a1, mid, hi, f);
  }

  /** The matches of a range appear in Collect in id order, each at its own position. */
  lemma CollectPosition(actions: Actions, lo: nat, hi: nat, f: Filter, k: nat)
    requires lo <= k < hi && k in actions && Matches(f, k, actions[k])
    ensures |Collect(actions, lo, k, f)| < |Collect(actions, lo, hi, f)|
    ensures Collect(actions, lo, hi, f)[|Collect(actions, lo, k, f)|] == actions[k]
  {
    var before, after := Collect(actions, lo, k, f), Collect(actions, k + 1, hi, f);
    CollectSplit(actions, lo, k, hi, f);
    CollectSplit(actions, k, k + 1, hi, f);
    assert Collect(actions, k, k + 1, f) == [actions[k]];
    assert Collect(actions, lo, hi, f) == before + [actions[k]] + after;
  }

  lemma CollectPositionsDiffer(actions: Actions, lo: nat, hi: nat, f: Filter, k1: nat, k2: nat)
    requires lo <= k1 < k2 < hi && k1 in actions && Matches(f, k1, actions[k1])
    ensures |Collect(actions, lo, k1, f)| < |Collect(actions, lo, k2, f)|
  {
    CollectPosition(actions, lo, k2, f, k1);
  }

  /** Collect lists each matching action of its range once, and nothing else. */
  lemma {:induction false} CollectMembers(actions: Actions, lo: nat, hi: nat, f: Filter, x: Action)
    ensures x in Collect(actions, lo, hi, f) <==>
      exists k :: lo <= k < hi && k in actions && Matches(f, k, actions[k]) && actions[k] == x
    decreases hi
  {
    if hi > lo {
      CollectMembers(actions, lo, hi - 1, f, x);
      if hi - 1 in actions && Matches(f, hi - 1, actions[hi - 1]) && actions[hi - 1] == x {
        assert x in Collect(actions, lo, hi, f);
      }
    }
  }

  /** The ids in [lo, hi) of actions matching `f`. */
  ghost function MatchingIds(actions: Actions, lo: nat, hi: nat, f: Filter): set<nat>
  {
    set k | lo <= k < hi && k in actions && Matches(f, k, actions[k])
  }

  lemma {:induction false} CollectCount(actions: Actions, lo: nat, hi: nat, f: Filter)
    ensures |Collect(actions, lo, hi, f)| == |MatchingIds(actions, lo, hi, f)|
    decreases hi
  {
    if hi <= lo {
      assert MatchingIds(actions, lo, hi, f) == {};
    } else {
      CollectCount(actions, lo, hi - 1, f);
      MatchingIdsStep(actions, lo, hi, f);
      assert hi - 1 !in MatchingIds(actions, lo, hi - 1, f);
    }
  }

  /** Widening the range by one id adds that id exactly when its action matches. */
  lemma MatchingIdsStep(actions: Actions, lo: nat, hi: nat, f: Filter)
    requires lo < hi
    ensures MatchingIds(actions, lo, hi, f) ==
      MatchingIds(actions, lo, hi - 1, f) + if hi - 1 in actions && Matches(f, hi - 1, actions[hi - 1]) then {hi - 1} else {}
  {
    var prev, cur := MatchingIds(actions, lo, hi - 1, f), MatchingIds(actions, lo, hi, f);
    assert forall k :: k in cur <==> k in prev || (k == hi - 1 && hi - 1 in actions && Matches(f, hi - 1, actions[hi - 1]));
  }

  /** The output log entries for a sequence of released actions (timers publish nothing). */
  function PublishLog(s: seq<Action>): seq<Publish>
  {
    if s == [] then []
    else
      (if s[0].RxAction? then [Publish(s[0].node, s[0].topic, s[0].data)] else []) + PublishLog(s[1..])
  }

  lemma {:induction false} PublishLogAppend(x: seq<Action>, y: seq<Action>)
    ensures PublishLog(x + y) == PublishLog(x) + PublishLog(y)
  {
    if x == [] {
      assert x + y == y;
    } else {
      assert (x + y)[0] == x[0];
      assert (x + y)[1..] == x[1..] + y;
      PublishLogAppend(x[1..], y);
    }
  }

  lemma {:induction false} PublishLogOfRx(s: seq<Action>)
    requires forall i :: 0 <= i < |s| ==> s[i].RxAction?
    ensures |PublishLog(s)| == |s|
    ensures forall i :: 0 <= i < |s| ==> PublishLog(s)[i] == Publish(s[i].node, s[i].topic, s[i].data)
  {
    if s != [] {
      PublishLogOfRx(s[1..]);
    }
  }

  /** `action.state = ActionState.RUNNING`: the action's data is handed to its node; nothing else changes. */
  function Start(a: Action): (r: Action)
    ensures r.state == Running && Shape(r) == Shape(a) && r.RxAction? == a.RxAction?
    ensures r.RxAction? ==> r.data == a.data
  {
    a.(state := Running)
  }

  /**
   * The graph after a scan of `__process` has looked at the ids below n: every READY action
   * among them without outgoing edges is RUNNING. The scan changes no edge, so once it has seen
   * every id there is nothing left to release.
   */
  function Released(actions: Actions, edges: Edges, n: nat): (r: Actions)
    ensures r.Keys == actions.Keys
    ensures forall k :: k in actions ==> (r[k] != actions[k] <==> k < n && Matches(Releasable(edges), k, actions[k]))
    ensures forall k :: k in actions ==> r[k] == actions[k] || r[k] == Start(actions[k])
    ensures IdsBelow(actions, n) ==> NoneMatch(r, Releasable(edges))
  {
    map k | k in actions :: if k < n && Matches(Releasable(edges), k, actions[k]) then Start(actions[k]) else actions[k]
  }

  /** What a pass publishes: the buffered data of each released action, in id order. */
  function Releases(actions: Actions, edges: Edges, n: nat): seq<Publish>
  {
    PublishLog(Collect(actions, 0, n, Releasable(edges)))
  }

  /** One more step of a release pass. */
  lemma ReleasedStep(actions: Actions, edges: Edges, n: nat)
    ensures Released(actions, edges, n + 1) ==
      if n in actions && Matches(Releasable(edges), n, actions[n]) then Released(actions, edges, n)[n := Start(actions[n])]
      else Released(actions, edges, n)
    ensures Releases(actions, edges, n + 1) ==
      Releases(actions, edges, n) + if n in actions && Matches(Releasable(edges), n, actions[n]) then PublishLog([actions[n]]) else []
    ensures n in actions ==> Released(actions, edges, n)[n] == actions[n]
  {
    ReleasedMapStep(actions, edges, n, Released(actions, edges, n), Released(actions, edges, n + 1));
    ReleasesStep(actions, edges, n);
  }

  lemma ReleasedMapStep(actions: Actions, edges: Edges, n: nat, r0: Actions, r1: Actions)
    requires r0 == Released(actions, edges, n) && r1 == Released(actions, edges, n + 1)
    ensures r1 == if n in actions && Matches(Releasable(edges), n, actions[n]) then r0[n := Start(actions[n])] else r0
  {
    var r2 := if n in actions && Matches(Releasable(edges), n, actions[n]) then r0[n := Start(actions[n])] else r0;
    forall k | k in actions ensures r1[k] == r2[k] {
      if k != n {
        assert r1[k] == r0[k];
      }
    }
    assert r1.Keys == r2.Keys;
  }

  lemma ReleasesStep(actions: Actions, edges: Edges, n: nat)
    ensures Releases(actions, edges, n + 1) ==
      Releases(actions, edges, n) + if n in actions && Matches(Releasable(edges), n, actions[n]) then PublishLog([actions[n]]) else []
  {
    var c := Collect(actions, 0, n, Releasable(edges));
    if n in actions && Matches(Releasable(edges), n, actions[n]) {
      assert Collect(actions, 0, n + 1, Releasable(edges)) == c + [actions[n]];
      PublishLogAppend(c, [actions[n]]);
    } else {
      assert Collect(actions, 0, n + 1, Releasable(edges)) == c + [] == c;
      assert Releases(actions, edges, n) + [] == Releases(actions, edges, n);
    }
  }

  /** A second pass over a fully released graph finds nothing to do. */
  lemma ReleasedSettles(actions: Actions, edges: Edges, n: nat)
    requires IdsBelow(actions, n)
    ensures var r := Released(actions, edges, n);
      Released(r, edges, n) == r && Releases(r, edges, n) == [] && FirstMatch(r, 0, n, ReleasableTimer(edges)).None? &&
      Collect(r, 0, n, Releasable(edges)) == []
  {
    var r := Released(actions, edges, n);
    CollectNone(r, 0, n, Releasable(edges));
  }

  /** A pass that releases nothing changes nothing. */
  lemma ReleasedNothing(actions: Actions, edges: Edges, n: nat)
    requires Collect(actions, 0, n, Releasable(edges)) == []
    ensures Released(actions, edges, n) == actions && Releases(actions, edges, n) == []
  {
    forall k | k in actions && k < n ensures !Matches(Releasable(edges), k, actions[k]) {
      CollectMembers(actions, 0, n, Releasable(edges), actions[k]);
    }
  }

  /**
   * When no ready timer is unconstrained, a pass publishes exactly once for each action it
   * releases, and each entry carries that action's node, topic and buffered data.
   */
  lemma ReleasesExactlyOnce(actions: Actions, edges: Edges, n: nat)
    requires NoneMatch(actions, ReleasableTimer(edges))
    ensures |Releases(actions, edges, n)| == |MatchingIds(actions, 0, n, Releasable(edges))|
    ensures forall k :: k < n && k in actions && Matches(Releasable(edges), k, actions[k]) ==>
      Publish(actions[k].node, actions[k].topic, actions[k].data) in Releases(actions, edges, n)
    ensures forall p :: p in Releases(actions, edges, n) ==>
      exists k ::
        k < n && k in actions && Matches(Releasable(edges), k, actions[k]) &&
        p == Publish(actions[k].node, actions[k].topic, actions[k].data)
  {
    var c := Collect(actions, 0, n, Releasable(edges));
    forall i | 0 <= i < |c| ensures c[i].RxAction? {
      CollectMembers(actions, 0, n, Releasable(edges), c[i]);
    }
    PublishLogOfRx(c);
    CollectCount(actions, 0, n, Releasable(edges));
    forall k | k < n && k in actions && Matches(Releasable(edges), k, actions[k])
      ensures Publish(actions[k].node, actions[k].topic, actions[k].data) in Releases(actions, edges, n)
    {
      CollectMembers(actions, 0, n, Releasable(edges), actions[k]);
      var i :| 0 <= i < |c| && c[i] == actions[k];
      assert PublishLog(c)[i] == Publish(actions[k].node, actions[k].topic, actions[k].data);
    }
    forall p | p in Releases(actions, edges, n)
      ensures exists k ::
                k < n && k in actions && Matches(Releasable(edges), k, actions[k]) &&
                p == Publish(actions[k].node, actions[k].topic, actions[k].data)
    {
      var i :| 0 <= i < |c| && PublishLog(c)[i] == p;
      CollectMembers(actions, 0, n, Releasable(edges), c[i]);
    }
  }

  /** Lowest timestamp among the WAITING RxActions on `topic` with ids below n (the source's minimum loop). */
  function EarliestWaiting(actions: Actions, topic: TopicName, n: nat): (r: Option<int>)
    ensures r.None? <==> forall k :: k < n && k in actions ==> !Matches(WaitingOn(topic), k, actions[k])
    ensures r.Some? ==> exists k :: k < n && k in actions && Matches(WaitingOn(topic), k, actions[k]) && actions[k].timestamp == r.value
    ensures r.Some? ==> forall k :: k < n && k in actions && Matches(WaitingOn(topic), k, actions[k]) ==> r.value <= actions[k].timestamp
  {
    if n == 0 then None
    else
      var prev := EarliestWaiting(actions, topic, n - 1);
      if n - 1 in actions && Matches(WaitingOn(topic), n - 1, actions[n - 1]) then
        var t := actions[n - 1].timestamp;
        if prev.None? || t < prev.value then Some(t) else prev
      else prev
  }

  /**
   * The buffering test of `__interception_subscription_callback`: a WAITING RxAction on the
   * topic, which is a CAUSALITY child of the publishing action when there is one, and otherwise
   * belongs to the earliest waiting timestep of this external input.
   */
  predicate Buffers(edges: Edges, topic: TopicName, cause: Option<nat>, inputTimestep: Option<int>, k: nat, a: Action)
  {
    a.RxAction? && a.topic == topic && a.state == Waiting &&
    match cause
    case Some(c) => (k, c) in edges && edges[(k, c)] == Causality
    case None => inputTimestep == Some(a.timestamp)
  }

  /**
   * The graph after the buffering loop has looked at the ids below n: each selected action
   * becomes READY holding the message.
   */
  function Buffered(actions: Actions, edges: Edges, topic: TopicName, cause: Option<nat>, inputTimestep: Option<int>, msg: Message, n: nat): (r: Actions)
    ensures r.Keys == actions.Keys
    ensures forall k :: k in actions ==> (r[k] != actions[k] <==> k < n && Buffers(edges, topic, cause, inputTimestep, k, actions[k]))
    ensures forall k :: k in actions && r[k] != actions[k] ==> actions[k].RxAction? && r[k] == actions[k].(state := Ready, data := Some(msg))
  {
    map k | k in actions ::
      if k < n && Buffers(edges, topic, cause, inputTimestep, k, actions[k]) then actions[k].(state := Ready, data := Some(msg)) else actions[k]
  }

  /** One more step of the buffering loop. */
  lemma BufferedStep(actions: Actions, edges: Edges, topic: TopicName, cause: Option<nat>, inputTimestep: Option<int>, msg: Message, n: nat)
    ensures Buffered(actions, edges, topic, cause, inputTimestep, msg, n + 1) ==
      if n in actions && Buffers(edges, topic, cause, inputTimestep, n, actions[n])
      then Buffered(actions, edges, topic, cause, inputTimestep, msg, n)[n := actions[n].(state := Ready, data := Some(msg))]
      else Buffered(actions, edges, topic, cause, inputTimestep, msg, n)
  {
  }

  /** The buffering loop has not yet touched the action at the id it is about to look at. */
  lemma BufferedAhead(actions: Actions, edges: Edges, topic: TopicName, cause: Option<nat>, inputTimestep: Option<int>, msg: Message, n: nat)
    requires n in actions
    ensures n in Buffered(actions, edges, topic, cause, inputTimestep, msg, n)
    ensures Buffered(actions, edges, topic, cause, inputTimestep, msg, n)[n] == actions[n]
  {
  }

  ghost predicate IdsBelow(actions: Actions, n: nat)
  {
    forall k :: k in actions ==> k < n
  }

  /**
   * An external input is buffered exactly at the WAITING RxActions on its topic whose timestamp
   * is the earliest among them: later inputs on the topic keep waiting for their own message.
   */
  lemma ExternalInputBuffersEarliest(actions: Actions, edges: Edges, topic: TopicName, n: nat, k: nat)
    requires IdsBelow(actions, n)
    requires k in actions
    ensures Buffers(edges, topic, None, EarliestWaiting(actions, topic, n), k, actions[k]) <==>
      Matches(WaitingOn(topic), k, actions[k]) &&
      forall j :: j in actions && Matches(WaitingOn(topic), j, actions[j]) ==> actions[k].timestamp <= actions[j].timestamp
  {
    var ts := EarliestWaiting(actions, topic, n);
    if Matches(WaitingOn(topic), k, actions[k]) {
      assert ts.Some?;
      var w :| w < n && w in actions && Matches(WaitingOn(topic), w, actions[w]) && actions[w].timestamp == ts.value;
      if forall j :: j in actions && Matches(WaitingOn(topic), j, actions[j]) ==> actions[k].timestamp <= actions[j].timestamp {
        assert actions[k].timestamp <= actions[w].timestamp;
      }
    }
  }

  // ----- structural invariants of the graph -----

  ghost predicate EdgesClosed(actions: Actions, edges: Edges)
  {
    forall e :: e in edges ==> e.0 in actions && e.1 in actions
  }

  /** Every edge goes from a newer action to an older one. */
  ghost predicate EdgesDescend(edges: Edges)
  {
    forall e :: e in edges ==> e.1 < e.0
  }

  /** As EdgesDescend, but a SAME_TOPIC self-edge is also possible. */
  ghost predicate EdgesDescendOrTopicLoop(edges: Edges)
  {
    forall e :: e in edges ==> e.1 < e.0 || (e.1 == e.0 && edges[e] == SameTopic)
  }

  ghost predicate AllFit(models: seq<NodeModel>, actions: Actions)
  {
    forall k :: k in actions ==> Fits(models, actions[k])
  }

  /** An RxAction holds a message exactly when it is no longer WAITING. */
  ghost predicate DataBuffered(actions: Actions)
  {
    forall k :: k in actions && actions[k].RxAction? ==> (actions[k].state == Waiting <==> actions[k].data.None?)
  }

  /** SAME_NODE: an action waits for every older action of its node. */
  ghost predicate SameNodeOrdered(actions: Actions, edges: Edges)
  {
    forall u, v :: u in actions && v in actions && v < u && actions[u].node == actions[v].node ==> (u, v) in edges
  }

  /** SAME_TOPIC: an action waits for every older receiver of a topic it publishes. */
  ghost predicate SameTopicOrdered(models: seq<NodeModel>, actions: Actions, edges: Edges)
  {
    forall u, v :: u in actions && v in actions && v < u && actions[v].RxAction? && Publishes(models, actions[u], actions[v].topic) ==>
      (u, v) in edges
  }

  ghost predicate IsPath(edges: Edges, p: seq<nat>)
  {
    |p| >= 1 && forall i :: 0 <= i < |p| - 1 ==> (p[i], p[i + 1]) in edges
  }

  /** Along any path of descending edges the ids strictly decrease ... */
  lemma {:induction false} PathDescends(edges: Edges, p: seq<nat>)
    requires EdgesDescend(edges)
    requires IsPath(edges, p) && |p| >= 2
    ensures p[|p| - 1] < p[0]
  {
    assert (p[0], p[1]) in edges;
    if |p| > 2 {
      assert IsPath(edges, p[1..]);
      PathDescends(edges, p[1..]);
    }
  }

  /** ... so the graph has no cycle. */
  lemma GraphAcyclic(edges: Edges, p: seq<nat>)
    requires EdgesDescend(edges)
    requires IsPath(edges, p) && |p| >= 2
    ensures p[|p| - 1] != p[0]
  {
    PathDescends(edges, p);
  }

  /**
   * An action without outgoing edges is the oldest action of its node and older than every
   * receiver of the topics it publishes: this is the ordering the release rule enforces.
   */
  lemma UnconstrainedIsOldest(models: seq<NodeModel>, actions: Actions, edges: Edges, k: nat, j: nat)
    requires SameNodeOrdered(actions, edges) && SameTopicOrdered(models, actions, edges)
    requires k in actions && j in actions && j < k
    requires !HasOutgoing(edges, k)
    ensures actions[j].node != actions[k].node
    ensures actions[j].RxAction? ==> !Publishes(models, actions[k], actions[j].topic)
  {
  }

  /** The part of an action that only buffering and releasing may not change. */
  function Shape(a: Action): Action
  {
    match a
    case RxAction(_, n, ts, t, _) => RxAction(Waiting, n, ts, t, None)
    case TimerCallbackAction(_, n, ts, p) => TimerCallbackAction(Waiting, n, ts, p)
  }

  ghost predicate SameShape(a: Actions, b: Actions)
  {
    a.Keys == b.Keys && forall k :: k in a ==> Shape(a[k]) == Shape(b[k])
  }

  lemma ShapeKeeps(x: Action, y: Action)
    requires Shape(x) == Shape(y)
    ensures x.node == y.node && x.timestamp == y.timestamp && x.InputCause() == y.InputCause()
    ensures x.RxAction? == y.RxAction? && (x.RxAction? ==> x.topic == y.topic)
  {
  }

  /**
   * Why an edge u -> v of type t may exist: SAME_NODE joins two actions of one node, CAUSALITY
   * joins a received message to the action that publishes it (at the same timestamp), and
   * SAME_TOPIC joins a publisher to a receiver of a topic it publishes.
   */
  predicate Justified(models: seq<NodeModel>, u: Action, v: Action, t: EdgeType)
  {
    match t
    case SameNode => u.node == v.node
    case Causality => u.RxAction? && Publishes(models, v, u.topic) && u.timestamp == v.timestamp
    case SameTopic => v.RxAction? && Publishes(models, u, v.topic)
  }

  ghost predicate EdgesJustified(models: seq<NodeModel>, actions: Actions, edges: Edges)
  {
    forall e :: e in edges && e.0 in actions && e.1 in actions ==> Justified(models, actions[e.0], actions[e.1], edges[e])
  }

  /** SameTopicOrdered for every publisher except x, whose SAME_TOPIC edges are still being added. */
  ghost predicate SameTopicOrderedExcept(models: seq<NodeModel>, actions: Actions, edges: Edges, x: nat)
  {
    forall u, v :: u in actions && v in actions && v < u && u != x && actions[v].RxAction? && Publishes(models, actions[u], actions[v].topic) ==>
      (u, v) in edges
  }

  /** The invariants both orchestrators keep of their graph (apart from the direction of edges). */
  ghost predicate GraphInv(models: seq<NodeModel>, actions: Actions, edges: Edges, n: nat)
  {
    IdsBelow(actions, n) && EdgesClosed(actions, edges) && AllFit(models, actions) && DataBuffered(actions) &&
    SameNodeOrdered(actions, edges) && EdgesJustified(models, actions, edges)
  }

  /**
   * The graph grew from (a0, e0) to (a1, e1): no action changed or went away, new actions have
   * ids in [n0, n1), no edge went away, edges leaving ids below n0 kept their type, and new
   * edges leave ids from n0 on.
   */
  ghost predicate Grew(a0: Actions, e0: Edges, n0: nat, a1: Actions, e1: Edges, n1: nat)
  {
    n0 <= n1 &&
    (forall k :: k in a0 ==> k in a1 && a1[k] == a0[k]) &&
    (forall k :: k in a1 && k !in a0 ==> n0 <= k < n1) &&
    (forall e :: e in e0 ==> e in e1) &&
    (forall e :: e in e0 && e.0 < n0 ==> e1[e] == e0[e]) &&
    (forall e :: e in e1 && e !in e0 ==> e.0 >= n0)
  }

  /** The graph grew from (a0, e0) to (a1, e1) by giving the actions s[..i] the ids n0 .. n0 + i - 1. */
  ghost predicate Appended(a0: Actions, e0: Edges, n0: nat, a1: Actions, e1: Edges, n1: nat, s: seq<Action>, i: nat)
  {
    i <= |s| && n1 == n0 + i && Grew(a0, e0, n0, a1, e1, n1) &&
    forall k :: n0 <= k < n0 + i ==> k in a1 && a1[k] == s[k - n0]
  }

  /** Appending the action s[i] as id n0 + i, with whatever edges it brings, extends an Appended graph. */
  lemma AppendedStep(a0: Actions, e0: Edges, n0: nat, a1: Actions, e1: Edges, n1: nat, a2: Actions, e2: Edges, n2: nat,
                     s: seq<Action>, i: nat)
    requires Appended(a0, e0, n0, a1, e1, n1, s, i) && i < |s|
    requires Grew(a1, e1, n1, a2, e2, n2) && n2 == n1 + 1 && n1 in a2 && a2[n1] == s[i]
    ensures Appended(a0, e0, n0, a2, e2, n2, s, i + 1)
  {
    GrewTrans(a0, e0, n0, a1, e1, n1, a2, e2, n2, n1);
  }

  /** An action that a received message sets off: a WAITING RxAction at time t without data. */
  predicate Spawned(a: Action, t: int)
  {
    a.RxAction? && a.state == Waiting && a.data.None? && a.timestamp == t
  }

  /** Action k is x and has a CAUSALITY edge to c. */
  ghost predicate CausalChild(a: Actions, e: Edges, k: nat, c: nat, x: Action)
  {
    k in a && a[k] == x && (k, c) in e && e[(k, c)] == Causality
  }

  /** Growing the graph keeps a child below n0 in place. */
  lemma CausalChildGrew(a0: Actions, e0: Edges, n0: nat, a1: Actions, e1: Edges, n1: nat, k: nat, c: nat, x: Action)
    requires CausalChild(a0, e0, k, c, x) && k < n0 && Grew(a0, e0, n0, a1, e1, n1)
    ensures CausalChild(a1, e1, k, c, x)
  {
  }

  /** The graph grew by exactly the actions s, in order, at the consecutive ids from n0 on. */
  ghost predicate GrewBy(a0: Actions, e0: Edges, n0: nat, a1: Actions, e1: Edges, n1: nat, s: seq<Action>)
  {
    Appended(a0, e0, n0, a1, e1, n1, s, |s|)
  }

  /** Every action a graph grew by, from id n0 on, is one of s. */
  lemma GrewByMembers(a0: Actions, e0: Edges, n0: nat, a1: Actions, e1: Edges, n1: nat, s: seq<Action>)
    requires GrewBy(a0, e0, n0, a1, e1, n1, s) && IdsBelow(a0, n0)
    ensures forall k :: k in a1 && n0 <= k ==> a1[k] in s
  {
    forall k | k in a1 && n0 <= k ensures a1[k] in s {
      assert k !in a0 && k < n1;
      assert a1[k] == s[k - n0];
    }
  }

  /** Growing by s and then by u is growing by s + u. */
  lemma GrewByConcat(a0: Actions, e0: Edges, n0: nat, a1: Actions, e1: Edges, n1: nat, a2: Actions, e2: Edges, n2: nat,
                     s: seq<Action>, u: seq<Action>)
    requires GrewBy(a0, e0, n0, a1, e1, n1, s) && GrewBy(a1, e1, n1, a2, e2, n2, u)
    ensures GrewBy(a0, e0, n0, a2, e2, n2, s + u)
  {
    GrewTrans(a0, e0, n0, a1, e1, n1, a2, e2, n2, n1);
    forall k | n0 <= k < n2 ensures k in a2 && a2[k] == (s + u)[k - n0] {
      if k < n1 {
        assert a1[k] == s[k - n0];
      } else {
        assert a2[k] == u[k - n1];
      }
    }
  }

  /** An edge leaving a new action keeps the graph grown. */
  lemma GrewAddEdge(a0: Actions, e0: Edges, n0: nat, a1: Actions, e1: Edges, n1: nat, u: nat, v: nat, t: EdgeType)
    requires Grew(a0, e0, n0, a1, e1, n1) && n0 <= u
    ensures Grew(a0, e0, n0, a1, e1[(u, v) := t], n1)
  {
  }

  lemma GrewTrans(a0: Actions, e0: Edges, n0: nat, a1: Actions, e1: Edges, n1: nat, a2: Actions, e2: Edges, n2: nat, m: nat)
    requires Grew(a0, e0, n0, a1, e1, n1) && Grew(a1, e1, m, a2, e2, n2)
    requires n0 <= m && n1 <= n2
    ensures Grew(a0, e0, n0, a2, e2, n2)
  {
  }

  /** Under a layering of the models, a callback publishes only on topics of strictly lower rank. */
  lemma RankDescends(models: seq<NodeModel>, rank: Cause -> nat, a: Action, t: TopicName)
    requires Layered(models, rank) && Fits(models, a) && Publishes(models, a, t)
    ensures rank(TopicInput(t)) < rank(a.InputCause())
  {
    var m := NodeModelByName(models, a.node).value;
    var i :| 0 <= i < |models| && models[i] == m;
    assert PublishesOn(models[i], a.InputCause(), t);
  }

  /** Changing only states and buffered data keeps the graph's ordering invariants. */
  lemma ShapePreserves(models: seq<NodeModel>, a: Actions, b: Actions, edges: Edges)
    requires SameShape(a, b)
    ensures AllFit(models, a) ==> AllFit(models, b)
    ensures EdgesClosed(a, edges) ==> EdgesClosed(b, edges)
    ensures SameNodeOrdered(a, edges) ==> SameNodeOrdered(b, edges)
    ensures SameTopicOrdered(models, a, edges) ==> SameTopicOrdered(models, b, edges)
    ensures EdgesJustified(models, a, edges) ==> EdgesJustified(models, b, edges)
  {
    forall k | k in a ensures b[k].node == a[k].node && b[k].InputCause() == a[k].InputCause() &&
      b[k].RxAction? == a[k].RxAction? && (a[k].RxAction? ==> a[k].topic == b[k].topic) && b[k].timestamp == a[k].timestamp {
      ShapeKeeps(a[k], b[k]);
    }
    assert forall k :: k in b ==> Fits(models, b[k]) == Fits(models, a[k]);
    assert forall k :: k in b ==> EffectsOf(models, b[k]) == EffectsOf(models, a[k]);
  }

  lemma ReleasedKeepsData(actions: Actions, edges: Edges, n: nat, m: nat)
    requires IdsBelow(actions, m) && DataBuffered(actions)
    ensures IdsBelow(Released(actions, edges, n), m) && DataBuffered(Released(actions, edges, n))
  {
  }

  /** A release pass keeps the graph invariants. */
  lemma ReleasedPreserves(models: seq<NodeModel>, actions: Actions, edges: Edges, n: nat, m: nat)
    requires GraphInv(models, actions, edges, m)
    ensures GraphInv(models, Released(actions, edges, n), edges, m)
    ensures SameTopicOrdered(models, actions, edges) ==> SameTopicOrdered(models, Released(actions, edges, n), edges)
  {
    var r := Released(actions, edges, n);
    assert SameShape(actions, r);
    ShapePreserves(models, actions, r, edges);
    ReleasedKeepsData(actions, edges, n, m);
  }

  /** Buffering a message keeps the graph invariants. */
  lemma BufferedPreserves(models: seq<NodeModel>, actions: Actions, edges: Edges, topic: TopicName,
                          cause: Option<nat>, inputTimestep: Option<int>, msg: Message, n: nat, m: nat)
    requires GraphInv(models, actions, edges, m)
    ensures GraphInv(models, Buffered(actions, edges, topic, cause, inputTimestep, msg, n), edges, m)
    ensures SameTopicOrdered(models, actions, edges) ==> SameTopicOrdered(models, Buffered(actions, edges, topic, cause, inputTimestep, msg, n), edges)
  {
    var r := Buffered(actions, edges, topic, cause, inputTimestep, msg, n);
    assert SameShape(actions, r);
    ShapePreserves(models, actions, r, edges);
  }

  /**
   * The edges after the SAME_NODE loop of `__add_action_and_effects` has looked at the ids
   * below k (SameNodeEdgesSpec says which they are).
   */
  function SameNodeEdges(edges: Edges, actions: Actions, id: nat, k: nat): Edges
    requires id in actions
  {
    if k == 0 then edges
    else
      var prev := SameNodeEdges(edges, actions, id, k - 1);
      if k - 1 in actions && actions[k - 1].node == actions[id].node && k - 1 != id then prev[(id, k - 1) := SameNode] else prev
  }

  /** The SAME_NODE loop adds an edge from the new action `id` to every other action of its node below k, and nothing else. */
  lemma {:induction false} SameNodeEdgesSpec(edges: Edges, actions: Actions, id: nat, k: nat)
    requires id in actions
    ensures var r := SameNodeEdges(edges, actions, id, k);
      forall e :: e in r <==> e in edges || (e.0 == id && e.1 < k && e.1 != id && e.1 in actions && actions[e.1].node == actions[id].node)
    ensures var r := SameNodeEdges(edges, actions, id, k);
      forall e: Edge :: e in r ==> r[e] == if e.0 == id && e.1 < k && e.1 != id && e.1 in actions && actions[e.1].node == actions[id].node then SameNode else edges[e]
  {
    if k > 0 {
      SameNodeEdgesSpec(edges, actions, id, k - 1);
    }
  }

  /** An RxAction on `topic`: the actions the SAME_TOPIC loop connects to a publisher of it. */
  predicate Receives(a: Action, topic: TopicName)
  {
    a.RxAction? && a.topic == topic
  }

  /** The edges after the SAME_TOPIC loop for one published topic has looked at the ids below k. */
  function TopicEdges(edges: Edges, actions: Actions, u: nat, topic: TopicName, k: nat): Edges
  {
    if k == 0 then edges
    else
      var prev := TopicEdges(edges, actions, u, topic, k - 1);
      if k - 1 in actions && Receives(actions[k - 1], topic) then prev[(u, k - 1) := SameTopic] else prev
  }

  /** The SAME_TOPIC loop adds an edge from the publisher u to every RxAction on the topic below k, and nothing else. */
  lemma {:induction false} TopicEdgesSpec(edges: Edges, actions: Actions, u: nat, topic: TopicName, k: nat)
    ensures var r := TopicEdges(edges, actions, u, topic, k);
      forall e :: e in r <==> e in edges || (e.0 == u && e.1 < k && e.1 in actions && Receives(actions[e.1], topic))
    ensures var r := TopicEdges(edges, actions, u, topic, k);
      forall e: Edge :: e in r ==> r[e] == if e.0 == u && e.1 < k && e.1 in actions && Receives(actions[e.1], topic) then SameTopic else edges[e]
  {
    if k > 0 {
      TopicEdgesSpec(edges, actions, u, topic, k - 1);
    }
  }

  /** The published topics among a callback's effects. */
  predicate PublishedIn(effects: seq<Effect>, topic: TopicName)
  {
    TopicPublish(topic) in effects
  }

  /** The edges after the SAME_TOPIC loops for all of u's effects, over the ids below n. */
  function EffectEdges(edges: Edges, actions: Actions, u: nat, effects: seq<Effect>, n: nat): Edges
  {
    if effects == [] then edges
    else
      var prev := EffectEdges(edges, actions, u, effects[..|effects| - 1], n);
      match effects[|effects| - 1]
      case TopicPublish(t) => TopicEdges(prev, actions, u, t, n)
      case StatusPublish => prev
  }

  /** The SAME_TOPIC loops add an edge from u to every RxAction below n on a topic u publishes, and nothing else. */
  lemma {:induction false} EffectEdgesSpec(edges: Edges, actions: Actions, u: nat, effects: seq<Effect>, n: nat)
    ensures var r := EffectEdges(edges, actions, u, effects, n);
      forall e :: e in r <==> e in edges || (e.0 == u && e.1 < n && e.1 in actions && actions[e.1].RxAction? && PublishedIn(effects, actions[e.1].topic))
    ensures var r := EffectEdges(edges, actions, u, effects, n);
      forall e: Edge :: e in r ==> r[e] == if e.0 == u && e.1 < n && e.1 in actions && actions[e.1].RxAction? && PublishedIn(effects, actions[e.1].topic) then SameTopic else edges[e]
  {
    if effects != [] {
      var init := effects[..|effects| - 1];
      EffectEdgesSpec(edges, actions, u, init, n);
      assert forall x :: x in effects <==> x in init || x == effects[|effects| - 1];
      match effects[|effects| - 1]
      case TopicPublish(t) => TopicEdgesSpec(EffectEdges(edges, actions, u, init, n), actions, u, t, n);
      case StatusPublish =>
    }
  }

  // ----- the edges of a new action -----

  /** Another action of the new action's node, below n. */
  predicate SameNodeTarget(a: Actions, id: nat, n: nat, v: nat)
    requires id in a
  {
    v < n && v != id && v in a && a[v].node == a[id].node
  }

  /** An RxAction below n (the new action itself included) on a topic the new action publishes. */
  predicate TopicTarget(models: seq<NodeModel>, a: Actions, id: nat, n: nat, v: nat)
    requires id in a
  {
    v < n && v in a && a[v].RxAction? && Publishes(models, a[id], a[v].topic)
  }

  /**
   * The edges after `__add_action_and_effects` has added action `id`: its SAME_NODE edges,
   * its CAUSALITY edge to the parent, then the SAME_TOPIC edges of its effects.
   */
  function ActionEdges(models: seq<NodeModel>, e0: Edges, a: Actions, id: nat, parent: Option<nat>, n: nat): Edges
    requires id in a
  {
    var e1 := SameNodeEdges(e0, a, id, n);
    var e2 := if parent.Some? then e1[(id, parent.value) := Causality] else e1;
    EffectEdges(e2, a, id, EffectsOf(models, a[id]), n)
  }

  /**
   * The new action gets an edge to every other action of its node, to its parent and to every
   * RxAction on a topic it publishes, and no other edge appears. A later edge overwrites the type
   * of an earlier one: SAME_TOPIC wins over CAUSALITY, which wins over SAME_NODE.
   */
  lemma ActionEdgesSpec(models: seq<NodeModel>, e0: Edges, a: Actions, id: nat, parent: Option<nat>, n: nat)
    requires id in a && forall e :: e in e0 ==> e.0 != id
    ensures var r := ActionEdges(models, e0, a, id, parent, n);
      forall e :: e in r <==>
        e in e0 || (e.0 == id && (SameNodeTarget(a, id, n, e.1) || parent == Some(e.1) || TopicTarget(models, a, id, n, e.1)))
    ensures var r := ActionEdges(models, e0, a, id, parent, n);
      forall e :: e in r ==>
        r[e] == if e.0 != id then e0[e]
                else if TopicTarget(models, a, id, n, e.1) then SameTopic
                else if parent == Some(e.1) then Causality
                else SameNode
  {
    var e1 := SameNodeEdges(e0, a, id, n);
    SameNodeEdgesSpec(e0, a, id, n);
    var e2 := if parent.Some? then e1[(id, parent.value) := Causality] else e1;
    EffectEdgesSpec(e2, a, id, EffectsOf(models, a[id]), n);
  }

  /** The edges leaving action k, as a map from each target to the edge's type. */
  ghost function Outgoing(e: Edges, k: nat): imap<nat, EdgeType>
  {
    imap v: nat | (k, v) in e :: e[(k, v)]
  }

  /**
   * The edges `__add_action_and_effects` gives action k when it adds k under parent p: one to
   * every other earlier action of its node, one to p, and one to every RxAction up to k on a
   * topic it publishes, typed as ActionEdgesSpec says.
   */
  ghost function OwnTargets(models: seq<NodeModel>, a: Actions, k: nat, p: Option<nat>): imap<nat, EdgeType>
    requires k in a
  {
    imap v: nat | SameNodeTarget(a, k, k + 1, v) || p == Some(v) || TopicTarget(models, a, k, k + 1, v) ::
      if TopicTarget(models, a, k, k + 1, v) then SameTopic else if p == Some(v) then Causality else SameNode
  }

  /** The edges leaving action k are exactly its own edges under parent p. */
  ghost predicate OwnEdges(models: seq<NodeModel>, a: Actions, e: Edges, k: nat, p: Option<nat>)
  {
    k in a && Outgoing(e, k) == OwnTargets(models, a, k, p)
  }

  /** OwnEdges edge by edge: which edges leave k, and of which type. */
  lemma OwnEdgesSpec(models: seq<NodeModel>, a: Actions, e: Edges, k: nat, p: Option<nat>, v: nat)
    requires OwnEdges(models, a, e, k, p)
    ensures (k, v) in e <==> SameNodeTarget(a, k, k + 1, v) || p == Some(v) || TopicTarget(models, a, k, k + 1, v)
    ensures (k, v) in e ==>
      e[(k, v)] == if TopicTarget(models, a, k, k + 1, v) then SameTopic else if p == Some(v) then Causality else SameNode
  {
    assert (k, v) in e <==> v in Outgoing(e, k);
    if (k, v) in e {
      assert e[(k, v)] == Outgoing(e, k)[v];
    }
  }

  /** The id d ids before k, when d names one. */
  function Back(k: nat, d: Option<nat>): Option<nat>
  {
    if d.Some? && d.value <= k then Some(k - d.value) else None
  }

  /** The offset from k back to p, when p is at most k. */
  function OffsetTo(k: nat, p: Option<nat>): Option<nat>
  {
    if p.Some? && p.value <= k then Some(k - p.value) else None
  }

  /** An action l ids after n0 sits n0 - c + l ids after an earlier c. */
  lemma OffsetToAfter(c: nat, n0: nat, l: nat, n2: nat)
    requires c < n0 && n2 == n0 + l
    ensures OffsetTo(n2, Some(c)) == Some(n0 - c + l)
  {
  }

  lemma SubAfter(c: nat, n0: nat, l: nat, n2: nat)
    requires c < n0 && n2 == n0 + l
    ensures n2 - c == n0 - c + l
  {
  }

  /**
   * From id n0 on, every id n0 + i has exactly its own edges under the parent that the offset
   * ds[i] names, counted back from n0 + i.
   */
  ghost predicate EdgesFrom(models: seq<NodeModel>, a: Actions, e: Edges, n0: nat, ds: seq<Option<nat>>)
  {
    forall i :: 0 <= i < |ds| ==> OwnEdges(models, a, e, n0 + i, Back(n0 + i, ds[i]))
  }

  /** What EdgesFrom says of one id: the action k has exactly its own edges under the parent ps gives it. */
  lemma EdgesFromAt(models: seq<NodeModel>, a: Actions, e: Edges, n0: nat, ps: seq<Option<nat>>, k: nat)
    requires EdgesFrom(models, a, e, n0, ps) && n0 <= k < n0 + |ps|
    ensures OwnEdges(models, a, e, k, Back(k, ps[k - n0]))
  {
    var i := k - n0;
    assert n0 + i == k && ps[i] == ps[k - n0];
  }

  /** The new action `id`, added as the newest one, has exactly its own edges. */
  lemma AddedOwnEdges(models: seq<NodeModel>, e0: Edges, a: Actions, id: nat, parent: Option<nat>)
    requires id in a && forall e :: e in e0 ==> e.0 != id
    ensures OwnEdges(models, a, ActionEdges(models, e0, a, id, parent, id + 1), id, parent)
  {
    ActionEdgesSpec(models, e0, a, id, parent, id + 1);
    var e := ActionEdges(models, e0, a, id, parent, id + 1);
    assert Outgoing(e, id) == OwnTargets(models, a, id, parent) by {
      forall v: nat ensures (v in Outgoing(e, id) <==> v in OwnTargets(models, a, id, parent)) {
        assert (id, v) in e <==> v in Outgoing(e, id);
      }
      forall v: nat | v in Outgoing(e, id) ensures Outgoing(e, id)[v] == OwnTargets(models, a, id, parent)[v] {
        assert (id, v) in e;
      }
    }
  }

  /** Growing the graph past k keeps the edges leaving k and the actions up to k. */
  lemma OwnEdgesGrew(models: seq<NodeModel>, a2: Actions, e2: Edges, n2: nat, a3: Actions, e3: Edges, n3: nat,
                     k: nat, p: Option<nat>)
    requires OwnEdges(models, a2, e2, k, p) && k < n2 && Grew(a2, e2, n2, a3, e3, n3)
    ensures OwnEdges(models, a3, e3, k, p)
  {
    assert Outgoing(e3, k) == Outgoing(e2, k) by {
      forall v: nat ensures ((k, v) in e3 <==> (k, v) in e2) && ((k, v) in e2 ==> e3[(k, v)] == e2[(k, v)]) {
      }
    }
    assert OwnTargets(models, a3, k, p) == OwnTargets(models, a2, k, p) by {
      forall v | v <= k ensures (v in a3 <==> v in a2) && (v in a2 ==> a3[v] == a2[v]) {
      }
    }
  }

  lemma EdgesFromGrew(models: seq<NodeModel>, a2: Actions, e2: Edges, n2: nat, a3: Actions, e3: Edges, n3: nat,
                       n0: nat, ps: seq<Option<nat>>)
    requires EdgesFrom(models, a2, e2, n0, ps) && n0 + |ps| <= n2 && Grew(a2, e2, n2, a3, e3, n3)
    ensures EdgesFrom(models, a3, e3, n0, ps)
  {
    forall i | 0 <= i < |ps| ensures OwnEdges(models, a3, e3, n0 + i, Back(n0 + i, ps[i])) {
      OwnEdgesGrew(models, a2, e2, n2, a3, e3, n3, n0 + i, Back(n0 + i, ps[i]));
    }
  }

  /** Two runs of ids with their own edges, the second starting at n1 where the first ends. */
  lemma EdgesFromConcat(models: seq<NodeModel>, a: Actions, e: Edges, n0: nat, ps: seq<Option<nat>>,
                         n1: nat, qs: seq<Option<nat>>)
    requires EdgesFrom(models, a, e, n0, ps) && n1 == n0 + |ps| && EdgesFrom(models, a, e, n1, qs)
    ensures EdgesFrom(models, a, e, n0, ps + qs)
  {
    forall i | 0 <= i < |ps + qs| ensures OwnEdges(models, a, e, n0 + i, Back(n0 + i, (ps + qs)[i])) {
      if i < |ps| {
        assert (ps + qs)[i] == ps[i];
      } else {
        var j := i - |ps|;
        assert (ps + qs)[i] == qs[j] && n1 + j == n0 + i;
      }
    }
  }

  /**
   * The graph grew past the run of ids from n0 to n2, and the run of new ids from n2 on has its
   * own edges: then the two runs together have theirs.
   */
  lemma EdgesFromAppend(models: seq<NodeModel>, a2: Actions, e2: Edges, n2: nat, a3: Actions, e3: Edges, n3: nat,
                        n0: nat, ps: seq<Option<nat>>, qs: seq<Option<nat>>)
    requires EdgesFrom(models, a2, e2, n0, ps) && n2 == n0 + |ps| && Grew(a2, e2, n2, a3, e3, n3)
    requires EdgesFrom(models, a3, e3, n2, qs)
    ensures EdgesFrom(models, a3, e3, n0, ps + qs)
  {
    EdgesFromGrew(models, a2, e2, n2, a3, e3, n3, n0, ps);
    EdgesFromConcat(models, a3, e3, n0, ps, n2, qs);
  }

  /** A single action with its own edges under the parent the offset d names. */
  lemma EdgesFromOne(models: seq<NodeModel>, a: Actions, e: Edges, k: nat, d: Option<nat>)
    requires OwnEdges(models, a, e, k, Back(k, d))
    ensures EdgesFrom(models, a, e, k, [d])
  {
    assert k + 0 == k && [d][0] == d;
  }

  /** Adding an edge that has a reason keeps the graph's invariants. */
  lemma AddEdgePreserves(models: seq<NodeModel>, actions: Actions, edges: Edges, n: nat, u: nat, v: nat, t: EdgeType, x: nat)
    requires GraphInv(models, actions, edges, n)
    requires u in actions && v in actions && Justified(models, actions[u], actions[v], t)
    ensures GraphInv(models, actions, edges[(u, v) := t], n)
    ensures EdgesDescend(edges) && v < u ==> EdgesDescend(edges[(u, v) := t])
    ensures EdgesDescendOrTopicLoop(edges) && (v < u || (v == u && t == SameTopic)) ==> EdgesDescendOrTopicLoop(edges[(u, v) := t])
    ensures SameTopicOrderedExcept(models, actions, edges, x) ==> SameTopicOrderedExcept(models, actions, edges[(u, v) := t], x)
  {
    AddEdgeJustified(models, actions, edges, u, v, t);
    AddEdgeKeepsOrder(models, actions, edges, u, v, t, x);
  }

  lemma AddEdgeJustified(models: seq<NodeModel>, actions: Actions, edges: Edges, u: nat, v: nat, t: EdgeType)
    requires EdgesJustified(models, actions, edges)
    requires u in actions && v in actions && Justified(models, actions[u], actions[v], t)
    ensures EdgesJustified(models, actions, edges[(u, v) := t])
  {
  }

  lemma AddEdgeKeepsOrder(models: seq<NodeModel>, actions: Actions, edges: Edges, u: nat, v: nat, t: EdgeType, x: nat)
    requires u in actions && v in actions
    ensures EdgesClosed(actions, edges) ==> EdgesClosed(actions, edges[(u, v) := t])
    ensures SameNodeOrdered(actions, edges) ==> SameNodeOrdered(actions, edges[(u, v) := t])
    ensures EdgesDescend(edges) && v < u ==> EdgesDescend(edges[(u, v) := t])
    ensures EdgesDescendOrTopicLoop(edges) && (v < u || (v == u && t == SameTopic)) ==> EdgesDescendOrTopicLoop(edges[(u, v) := t])
    ensures SameTopicOrderedExcept(models, actions, edges, x) ==> SameTopicOrderedExcept(models, actions, edges[(u, v) := t], x)
  {
  }

  lemma RemoveKeepsBasics(models: seq<NodeModel>, a: Actions, edges: Edges, k: nat, n: nat)
    requires IdsBelow(a, n) && EdgesClosed(a, edges) && AllFit(models, a) && DataBuffered(a)
    ensures IdsBelow(a - {k}, n) && EdgesClosed(a - {k}, RemoveNode(edges, k)) && AllFit(models, a - {k}) && DataBuffered(a - {k})
  {
    var b := a - {k};
    assert forall j :: j in b <==> j in a && j != k;
    assert forall j :: j in b ==> b[j] == a[j];
  }

  lemma RemoveKeepsOrder(models: seq<NodeModel>, a: Actions, edges: Edges, k: nat)
    ensures SameNodeOrdered(a, edges) ==> SameNodeOrdered(a - {k}, RemoveNode(edges, k))
    ensures SameTopicOrdered(models, a, edges) ==> SameTopicOrdered(models, a - {k}, RemoveNode(edges, k))
  {
  }

  lemma RemoveKeepsJustified(models: seq<NodeModel>, a: Actions, edges: Edges, k: nat)
    requires EdgesJustified(models, a, edges)
    ensures EdgesJustified(models, a - {k}, RemoveNode(edges, k))
  {
  }

  /** Removing a node together with its edges keeps the graph's invariants. */
  lemma RemovePreserves(models: seq<NodeModel>, a: Actions, edges: Edges, k: nat, n: nat)
    ensures GraphInv(models, a, edges, n) ==> GraphInv(models, a - {k}, RemoveNode(edges, k), n)
    ensures EdgesDescend(edges) ==> EdgesDescend(RemoveNode(edges, k))
    ensures EdgesDescendOrTopicLoop(edges) ==> EdgesDescendOrTopicLoop(RemoveNode(edges, k))
    ensures SameTopicOrdered(models, a, edges) ==> SameTopicOrdered(models, a - {k}, RemoveNode(edges, k))
  {
    RemoveKeepsOrder(models, a, edges, k);
    if GraphInv(models, a, edges, n) {
      RemoveKeepsBasics(models, a, edges, k, n);
      RemoveKeepsJustified(models, a, edges, k);
    }
  }
}
