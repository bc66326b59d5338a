/**
 * The actions and edges the orchestrator's recursive expansion of effects adds to its graph
 * (`__add_action_and_effects`, `__add_all_effects_for_cause` and the loops that call them in
 * src/orchestrator/orchestrator/orchestrator_lib/orchestrator.py), stated as reference
 * functions over the node models, and the predicates and step lemmas through which the
 * orchestrator's methods are proved against them.
 */
module Expansions {
  import opened Wrappers
  import opened NodeModels
  import opened ActionGraph

  /**
   * The actions `__add_action_and_effects(a)` adds, in id order: a itself, then, effect by
   * effect, the expansion of every RxAction a published topic sets off. The layering makes the
   * recursion end.
   */
  ghost function Expansion(models: seq<NodeModel>, rank: Cause -> nat, a: Action): seq<Action>
    requires NamesUnique(models) && Layered(models, rank) && Fits(models, a)
    decreases rank(a.InputCause()), 1, 0
  {
    [a] + EffectsExpansion(models, rank, a, |EffectsOf(models, a)|)
  }

  /** What the second loop of `__add_all_effects_for_cause` adds for the first i effects of a. */
  ghost function EffectsExpansion(models: seq<NodeModel>, rank: Cause -> nat, a: Action, i: nat): seq<Action>
    requires NamesUnique(models) && Layered(models, rank) && Fits(models, a) && i <= |EffectsOf(models, a)|
    decreases rank(a.InputCause()), 0, i
  {
    if i == 0 then []
    else
      var prev := EffectsExpansion(models, rank, a, i - 1);
      match EffectsOf(models, a)[i - 1]
      case TopicPublish(topic) =>
        RankDescends(models, rank, a, topic);
        prev + ChildrenExpansion(models, rank, topic, a.timestamp, |models|)
      case StatusPublish => prev
  }

  /**
   * What the loop over the models adds for one published topic, over the first j models: the
   * expansion of a WAITING RxAction at time t for each model listening on the topic.
   */
  ghost function ChildrenExpansion(models: seq<NodeModel>, rank: Cause -> nat, topic: TopicName, t: int, j: nat): seq<Action>
    requires NamesUnique(models) && Layered(models, rank) && j <= |models|
    decreases rank(TopicInput(topic)), 2, j
  {
    if j == 0 then []
    else
      var prev := ChildrenExpansion(models, rank, topic, t, j - 1);
      if TopicInput(topic) in models[j - 1].possibleInputs then
        ByNameFindsModel(models, j - 1);
        prev + Expansion(models, rank, RxAction(Waiting, models[j - 1].name, t, topic, None))
      else prev
  }

  /** What adding a list of input actions one after the other adds: the expansion of each, in order. */
  ghost function RootsExpansion(models: seq<NodeModel>, rank: Cause -> nat, roots: seq<Action>): seq<Action>
    requires NamesUnique(models) && Layered(models, rank) && forall i :: 0 <= i < |roots| ==> Fits(models, roots[i])
  {
    if roots == [] then []
    else RootsExpansion(models, rank, roots[..|roots| - 1]) + Expansion(models, rank, roots[|roots| - 1])
  }

  /**
   * The parent of every action of Expansion(a), as an offset: entry q says how many ids before
   * the q-th action its parent sits (None: it has none). d is a's own entry; each child of a
   * is as many ids after a as its position in the expansion, and so on down.
   */
  ghost function ExpansionParents(models: seq<NodeModel>, rank: Cause -> nat, a: Action, d: Option<nat>): seq<Option<nat>>
    requires NamesUnique(models) && Layered(models, rank) && Fits(models, a)
    decreases rank(a.InputCause()), 1, 0
  {
    [d] + EffectsParents(models, rank, a, |EffectsOf(models, a)|, 1)
  }

  /** The parent offsets of EffectsExpansion(a, i), whose first action sits start ids after a. */
  ghost function EffectsParents(models: seq<NodeModel>, rank: Cause -> nat, a: Action, i: nat, start: nat): seq<Option<nat>>
    requires NamesUnique(models) && Layered(models, rank) && Fits(models, a) && i <= |EffectsOf(models, a)|
    decreases rank(a.InputCause()), 0, i
  {
    if i == 0 then []
    else
      var prev := EffectsParents(models, rank, a, i - 1, start);
      match EffectsOf(models, a)[i - 1]
      case TopicPublish(topic) =>
        RankDescends(models, rank, a, topic);
        prev + ChildrenParents(models, rank, topic, a.timestamp, |models|, start + |prev|)
      case StatusPublish => prev
  }

  /** The parent offsets of ChildrenExpansion(topic, t, j), whose first action sits start ids after the children's cause. */
  ghost function ChildrenParents(models: seq<NodeModel>, rank: Cause -> nat, topic: TopicName, t: int, j: nat, start: nat): seq<Option<nat>>
    requires NamesUnique(models) && Layered(models, rank) && j <= |models|
    decreases rank(TopicInput(topic)), 2, j
  {
    if j == 0 then []
    else
      var prev := ChildrenParents(models, rank, topic, t, j - 1, start);
      if TopicInput(topic) in models[j - 1].possibleInputs then
        ByNameFindsModel(models, j - 1);
        prev + ExpansionParents(models, rank, RxAction(Waiting, models[j - 1].name, t, topic, None), Some(start + |prev|))
      else prev
  }

  /** The parent offsets of RootsExpansion(roots); the roots themselves have no parent. */
  ghost function RootsParents(models: seq<NodeModel>, rank: Cause -> nat, roots: seq<Action>): seq<Option<nat>>
    requires NamesUnique(models) && Layered(models, rank) && forall i :: 0 <= i < |roots| ==> Fits(models, roots[i])
  {
    if roots == [] then []
    else RootsParents(models, rank, roots[..|roots| - 1]) + ExpansionParents(models, rank, roots[|roots| - 1], None)
  }

  /** Every action of an expansion has exactly one parent entry. */
  lemma {:induction false} ExpansionParentsLength(models: seq<NodeModel>, rank: Cause -> nat, a: Action, d: Option<nat>)
    requires NamesUnique(models) && Layered(models, rank) && Fits(models, a)
    ensures |ExpansionParents(models, rank, a, d)| == |Expansion(models, rank, a)|
    decreases rank(a.InputCause()), 1, 0
  {
    EffectsParentsLength(models, rank, a, |EffectsOf(models, a)|, 1);
  }

  lemma {:induction false} EffectsParentsLength(models: seq<NodeModel>, rank: Cause -> nat, a: Action, i: nat, start: nat)
    requires NamesUnique(models) && Layered(models, rank) && Fits(models, a) && i <= |EffectsOf(models, a)|
    ensures |EffectsParents(models, rank, a, i, start)| == |EffectsExpansion(models, rank, a, i)|
    decreases rank(a.InputCause()), 0, i
  {
    if i > 0 {
      EffectsParentsLength(models, rank, a, i - 1, start);
      match EffectsOf(models, a)[i - 1]
      case TopicPublish(topic) =>
        RankDescends(models, rank, a, topic);
        ChildrenParentsLength(models, rank, topic, a.timestamp, |models|, start + |EffectsParents(models, rank, a, i - 1, start)|);
      case StatusPublish =>
    }
  }

  lemma {:induction false} ChildrenParentsLength(models: seq<NodeModel>, rank: Cause -> nat, topic: TopicName, t: int, j: nat, start: nat)
    requires NamesUnique(models) && Layered(models, rank) && j <= |models|
    ensures |ChildrenParents(models, rank, topic, t, j, start)| == |ChildrenExpansion(models, rank, topic, t, j)|
    decreases rank(TopicInput(topic)), 2, j
  {
    if j > 0 {
      ChildrenParentsLength(models, rank, topic, t, j - 1, start);
      if TopicInput(topic) in models[j - 1].possibleInputs {
        ByNameFindsModel(models, j - 1);
        ExpansionParentsLength(models, rank, RxAction(Waiting, models[j - 1].name, t, topic, None),
                               Some(start + |ChildrenParents(models, rank, topic, t, j - 1, start)|));
      }
    }
  }

  lemma {:induction false} RootsParentsLength(models: seq<NodeModel>, rank: Cause -> nat, roots: seq<Action>)
    requires NamesUnique(models) && Layered(models, rank) && forall i :: 0 <= i < |roots| ==> Fits(models, roots[i])
    ensures |RootsParents(models, rank, roots)| == |RootsExpansion(models, rank, roots)|
  {
    if roots != [] {
      RootsParentsLength(models, rank, roots[..|roots| - 1]);
      ExpansionParentsLength(models, rank, roots[|roots| - 1], None);
    }
  }

  /**
   * Every action an expansion adds below its root is a WAITING RxAction without data at the
   * root's time whose cause ranks strictly below the root's.
   */
  lemma {:induction false} ExpansionSpawns(models: seq<NodeModel>, rank: Cause -> nat, a: Action)
    requires NamesUnique(models) && Layered(models, rank) && Fits(models, a)
    ensures forall x :: x in Expansion(models, rank, a)[1..] ==> Spawned(x, a.timestamp) && rank(x.InputCause()) < rank(a.InputCause())
    decreases rank(a.InputCause()), 1, 0
  {
    EffectsSpawn(models, rank, a, |EffectsOf(models, a)|);
    assert Expansion(models, rank, a)[1..] == EffectsExpansion(models, rank, a, |EffectsOf(models, a)|);
  }

  lemma {:induction false} EffectsSpawn(models: seq<NodeModel>, rank: Cause -> nat, a: Action, i: nat)
    requires NamesUnique(models) && Layered(models, rank) && Fits(models, a) && i <= |EffectsOf(models, a)|
    ensures forall x :: x in EffectsExpansion(models, rank, a, i) ==>
      Spawned(x, a.timestamp) && rank(x.InputCause()) < rank(a.InputCause())
    decreases rank(a.InputCause()), 0, i
  {
    if i > 0 {
      EffectsSpawn(models, rank, a, i - 1);
      match EffectsOf(models, a)[i - 1]
      case TopicPublish(topic) =>
        RankDescends(models, rank, a, topic);
        ChildrenSpawn(models, rank, topic, a.timestamp, |models|);
      case StatusPublish =>
    }
  }

  lemma {:induction false} ChildrenSpawn(models: seq<NodeModel>, rank: Cause -> nat, topic: TopicName, t: int, j: nat)
    requires NamesUnique(models) && Layered(models, rank) && j <= |models|
    ensures forall x :: x in ChildrenExpansion(models, rank, topic, t, j) ==>
      Spawned(x, t) && rank(x.InputCause()) <= rank(TopicInput(topic))
    decreases rank(TopicInput(topic)), 2, j
  {
    if j > 0 {
      ChildrenSpawn(models, rank, topic, t, j - 1);
      if TopicInput(topic) in models[j - 1].possibleInputs {
        var child := RxAction(Waiting, models[j - 1].name, t, topic, None);
        ByNameFindsModel(models, j - 1);
        ExpansionSpawns(models, rank, child);
        var x := Expansion(models, rank, child);
        assert x == [child] + x[1..];
      }
    }
  }

  /** What the loop over the models adds for a topic are WAITING RxActions at time t of at most the topic's rank. */
  lemma ChildrenAddedSpawned(models: seq<NodeModel>, rank: Cause -> nat, a0: Actions, e0: Edges, n0: nat,
                             a1: Actions, e1: Edges, n1: nat, topic: TopicName, t: int)
    requires NamesUnique(models) && Layered(models, rank) && IdsBelow(a0, n0)
    requires GrewBy(a0, e0, n0, a1, e1, n1, ChildrenExpansion(models, rank, topic, t, |models|))
    ensures forall k :: k in a1 && n0 <= k ==> Spawned(a1[k], t) && rank(a1[k].InputCause()) <= rank(TopicInput(topic))
  {
    GrewByMembers(a0, e0, n0, a1, e1, n1, ChildrenExpansion(models, rank, topic, t, |models|));
    ChildrenSpawn(models, rank, topic, t, |models|);
  }

  /** What the loop over the effects of `cause` adds are WAITING RxActions at its time, of lower rank. */
  lemma EffectsAddedSpawned(models: seq<NodeModel>, rank: Cause -> nat, a0: Actions, e0: Edges, n0: nat,
                            a1: Actions, e1: Edges, n1: nat, cause: Action)
    requires NamesUnique(models) && Layered(models, rank) && Fits(models, cause) && IdsBelow(a0, n0)
    requires GrewBy(a0, e0, n0, a1, e1, n1, EffectsExpansion(models, rank, cause, |EffectsOf(models, cause)|))
    ensures forall k :: k in a1 && n0 <= k ==>
      Spawned(a1[k], cause.timestamp) && rank(a1[k].InputCause()) < rank(cause.InputCause())
  {
    GrewByMembers(a0, e0, n0, a1, e1, n1, EffectsExpansion(models, rank, cause, |EffectsOf(models, cause)|));
    EffectsSpawn(models, rank, cause, |EffectsOf(models, cause)|);
  }

  /**
   * The graph grew by exactly the expansions of the input actions `roots`, in order, from n0
   * on, and every new action has exactly its own edges under its parent in those expansions.
   */
  ghost predicate Expanded(models: seq<NodeModel>, rank: Cause -> nat, roots: seq<Action>,
                           a0: Actions, e0: Edges, n0: nat, a1: Actions, e1: Edges, n1: nat)
  {
    NamesUnique(models) && Layered(models, rank) && (forall i :: 0 <= i < |roots| ==> Fits(models, roots[i])) &&
    GrewBy(a0, e0, n0, a1, e1, n1, RootsExpansion(models, rank, roots)) &&
    EdgesFrom(models, a1, e1, n0, RootsParents(models, rank, roots))
  }

  /** The id at which the expansion of listening model j's child starts, when the topic's children start at base. */
  ghost function ChildId(models: seq<NodeModel>, rank: Cause -> nat, topic: TopicName, t: int, base: nat, j: nat): nat
    requires NamesUnique(models) && Layered(models, rank) && j <= |models|
  {
    base + |ChildrenExpansion(models, rank, topic, t, j)|
  }

  /** The id at which the children of effect i of `cause` start, when the cause's children start at base. */
  ghost function BlockId(models: seq<NodeModel>, rank: Cause -> nat, cause: Action, base: nat, i: nat): nat
    requires NamesUnique(models) && Layered(models, rank) && Fits(models, cause) && i <= |EffectsOf(models, cause)|
  {
    base + |EffectsExpansion(models, rank, cause, i)|
  }

  /**
   * The child actions for a published topic, over the first m models, start at id base: the
   * child of listening model j sits where its expansion starts, right after the expansions of
   * the listeners before it, and has a CAUSALITY edge to the cause c.
   */
  ghost predicate ChildrenAt(models: seq<NodeModel>, rank: Cause -> nat, a: Actions, e: Edges, base: nat, c: nat,
                             topic: TopicName, t: int, m: nat)
  {
    NamesUnique(models) && Layered(models, rank) && m <= |models| &&
    forall j {:trigger ChildId(models, rank, topic, t, base, j)} :: 0 <= j < m && TopicInput(topic) in models[j].possibleInputs ==>
      CausalChild(a, e, ChildId(models, rank, topic, t, base, j), c, RxAction(Waiting, models[j].name, t, topic, None))
  }

  /** The child actions of cause c, action `cause`, for its first i effects, starting at id base. */
  ghost predicate EffectChildrenAt(models: seq<NodeModel>, rank: Cause -> nat, a: Actions, e: Edges, base: nat, c: nat,
                                   cause: Action, i: nat)
  {
    NamesUnique(models) && Layered(models, rank) && Fits(models, cause) && i <= |EffectsOf(models, cause)| &&
    forall i' {:trigger BlockId(models, rank, cause, base, i')} :: 0 <= i' < i && EffectsOf(models, cause)[i'].TopicPublish? ==>
      ChildrenAt(models, rank, a, e, BlockId(models, rank, cause, base, i'), c,
                 EffectsOf(models, cause)[i'].outputTopic, cause.timestamp, |models|)
  }

  /** The new action n, with the edges `__add_action_and_effects` gives it, is all the graph grows by. */
  lemma ActionEdgesGrew(models: seq<NodeModel>, a0: Actions, e0: Edges, n: nat, action: Action, parent: Option<nat>)
    requires IdsBelow(a0, n) && EdgesClosed(a0, e0)
    ensures GrewBy(a0, e0, n, a0[n := action], ActionEdges(models, e0, a0[n := action], n, parent, n + 1), n + 1, [action])
  {
    var a1 := a0[n := action];
    assert forall e :: e in e0 ==> e.0 != n;
    ActionEdgesSpec(models, e0, a1, n, parent, n + 1);
  }

  /** The new action n followed by what its effects add is the expansion of the action. */
  lemma AddedActionExpands(models: seq<NodeModel>, rank: Cause -> nat, a0: Actions, e0: Edges, n: nat, action: Action,
                           parent: Option<nat>, a1: Actions, e2: Edges, a3: Actions, e3: Edges, n3: nat)
    requires NamesUnique(models) && Layered(models, rank) && Fits(models, action)
    requires IdsBelow(a0, n) && EdgesClosed(a0, e0) && a1 == a0[n := action]
    requires e2 == var e1 := SameNodeEdges(e0, a1, n, n + 1); if parent.Some? then e1[(n, parent.value) := Causality] else e1
    requires GrewBy(a1, EffectEdges(e2, a1, n, EffectsOf(models, action), n + 1), n + 1, a3, e3, n3,
                    EffectsExpansion(models, rank, action, |EffectsOf(models, action)|))
    ensures GrewBy(a0, e0, n, a3, e3, n3, Expansion(models, rank, action))
    ensures Grew(a1, ActionEdges(models, e0, a1, n, parent, n + 1), n + 1, a3, e3, n3)
  {
    var e4 := ActionEdges(models, e0, a1, n, parent, n + 1);
    ActionEdgesGrew(models, a0, e0, n, action, parent);
    assert e4 == EffectEdges(e2, a1, n, EffectsOf(models, action), n + 1);
    GrewByConcat(a0, e0, n, a1, e4, n + 1, a3, e3, n3, [action], EffectsExpansion(models, rank, action, |EffectsOf(models, action)|));
  }

  /** Growing the graph keeps the child actions already in place. */
  lemma ChildrenAtGrew(models: seq<NodeModel>, rank: Cause -> nat, a2: Actions, e2: Edges, n2: nat, a3: Actions, e3: Edges, n3: nat,
                       base: nat, c: nat, topic: TopicName, t: int, m: nat)
    requires ChildrenAt(models, rank, a2, e2, base, c, topic, t, m) && IdsBelow(a2, n2) && Grew(a2, e2, n2, a3, e3, n3)
    ensures ChildrenAt(models, rank, a3, e3, base, c, topic, t, m)
  {
    forall j | 0 <= j < m && TopicInput(topic) in models[j].possibleInputs
      ensures CausalChild(a3, e3, ChildId(models, rank, topic, t, base, j), c, RxAction(Waiting, models[j].name, t, topic, None))
    {
      CausalChildGrew(a2, e2, n2, a3, e3, n3, ChildId(models, rank, topic, t, base, j), c,
                      RxAction(Waiting, models[j].name, t, topic, None));
    }
  }

  /** One step of the loop over the models in `__add_all_effects_for_cause`, for model j. */
  lemma ChildStep(models: seq<NodeModel>, rank: Cause -> nat, topic: TopicName, t: int, c: nat, j: nat,
                  a0: Actions, e0: Edges, n0: nat, a2: Actions, e2: Edges, n2: nat, a3: Actions, e3: Edges, n3: nat)
    requires NamesUnique(models) && Layered(models, rank) && j < |models| && IdsBelow(a2, n2)
    requires GrewBy(a0, e0, n0, a2, e2, n2, ChildrenExpansion(models, rank, topic, t, j))
    requires ChildrenAt(models, rank, a2, e2, n0, c, topic, t, j)
    requires TopicInput(topic) in models[j].possibleInputs ==>
      var child := RxAction(Waiting, models[j].name, t, topic, None);
      Fits(models, child) && GrewBy(a2, e2, n2, a3, e3, n3, Expansion(models, rank, child)) &&
      (n2, c) in e3 && e3[(n2, c)] == Causality
    requires TopicInput(topic) !in models[j].possibleInputs ==> a3 == a2 && e3 == e2 && n3 == n2
    ensures GrewBy(a0, e0, n0, a3, e3, n3, ChildrenExpansion(models, rank, topic, t, j + 1))
    ensures ChildrenAt(models, rank, a3, e3, n0, c, topic, t, j + 1)
  {
    var prev := ChildrenExpansion(models, rank, topic, t, j);
    var child := RxAction(Waiting, models[j].name, t, topic, None);
    if TopicInput(topic) in models[j].possibleInputs {
      var x := Expansion(models, rank, child);
      assert ChildrenExpansion(models, rank, topic, t, j + 1) == prev + x;
      GrewByConcat(a0, e0, n0, a2, e2, n2, a3, e3, n3, prev, x);
      assert n2 in a3 && a3[n2] == x[0];
      assert CausalChild(a3, e3, n2, c, child);
    } else {
      assert ChildrenExpansion(models, rank, topic, t, j + 1) == prev;
    }
    ChildrenAtStep(models, rank, topic, t, c, j, n0, a2, e2, n2, a3, e3, n3);
  }

  lemma ChildrenAtStep(models: seq<NodeModel>, rank: Cause -> nat, topic: TopicName, t: int, c: nat, j: nat,
                       n0: nat, a2: Actions, e2: Edges, n2: nat, a3: Actions, e3: Edges, n3: nat)
    requires NamesUnique(models) && Layered(models, rank) && j < |models| && IdsBelow(a2, n2)
    requires ChildrenAt(models, rank, a2, e2, n0, c, topic, t, j) && Grew(a2, e2, n2, a3, e3, n3)
    requires n2 == ChildId(models, rank, topic, t, n0, j)
    requires TopicInput(topic) in models[j].possibleInputs ==>
      CausalChild(a3, e3, n2, c, RxAction(Waiting, models[j].name, t, topic, None))
    ensures ChildrenAt(models, rank, a3, e3, n0, c, topic, t, j + 1)
  {
    forall j' | 0 <= j' < j + 1 && TopicInput(topic) in models[j'].possibleInputs
      ensures CausalChild(a3, e3, ChildId(models, rank, topic, t, n0, j'), c, RxAction(Waiting, models[j'].name, t, topic, None))
    {
      if j' < j {
        CausalChildGrew(a2, e2, n2, a3, e3, n3, ChildId(models, rank, topic, t, n0, j'), c,
                        RxAction(Waiting, models[j'].name, t, topic, None));
      }
    }
  }

  /** One step of the loop over the effects in `__add_all_effects_for_cause`, for effect i of cause c. */
  lemma EffectChildStep(models: seq<NodeModel>, rank: Cause -> nat, cause: Action, c: nat, i: nat,
                        a0: Actions, e0: Edges, n0: nat, a2: Actions, e2: Edges, n2: nat, a3: Actions, e3: Edges, n3: nat)
    requires NamesUnique(models) && Layered(models, rank) && Fits(models, cause) && i < |EffectsOf(models, cause)|
    requires IdsBelow(a2, n2)
    requires GrewBy(a0, e0, n0, a2, e2, n2, EffectsExpansion(models, rank, cause, i))
    requires EffectChildrenAt(models, rank, a2, e2, n0, c, cause, i)
    requires EffectsOf(models, cause)[i].TopicPublish? ==>
      var topic := EffectsOf(models, cause)[i].outputTopic;
      GrewBy(a2, e2, n2, a3, e3, n3, ChildrenExpansion(models, rank, topic, cause.timestamp, |models|)) &&
      ChildrenAt(models, rank, a3, e3, n2, c, topic, cause.timestamp, |models|)
    requires EffectsOf(models, cause)[i].StatusPublish? ==> a3 == a2 && e3 == e2 && n3 == n2
    ensures GrewBy(a0, e0, n0, a3, e3, n3, EffectsExpansion(models, rank, cause, i + 1))
    ensures EffectChildrenAt(models, rank, a3, e3, n0, c, cause, i + 1)
  {
    var effs := EffectsOf(models, cause);
    var prev := EffectsExpansion(models, rank, cause, i);
    if effs[i].TopicPublish? {
      var topic := effs[i].outputTopic;
      RankDescends(models, rank, cause, topic);
      var x := ChildrenExpansion(models, rank, topic, cause.timestamp, |models|);
      assert EffectsExpansion(models, rank, cause, i + 1) == prev + x;
      GrewByConcat(a0, e0, n0, a2, e2, n2, a3, e3, n3, prev, x);
    } else {
      assert EffectsExpansion(models, rank, cause, i + 1) == prev;
    }
    EffectChildrenAtStep(models, rank, cause, c, i, n0, a2, e2, n2, a3, e3, n3);
  }

  lemma EffectChildrenAtStep(models: seq<NodeModel>, rank: Cause -> nat, cause: Action, c: nat, i: nat,
                             n0: nat, a2: Actions, e2: Edges, n2: nat, a3: Actions, e3: Edges, n3: nat)
    requires NamesUnique(models) && Layered(models, rank) && Fits(models, cause) && i < |EffectsOf(models, cause)|
    requires IdsBelow(a2, n2) && Grew(a2, e2, n2, a3, e3, n3)
    requires EffectChildrenAt(models, rank, a2, e2, n0, c, cause, i)
    requires n2 == BlockId(models, rank, cause, n0, i)
    requires EffectsOf(models, cause)[i].TopicPublish? ==>
      ChildrenAt(models, rank, a3, e3, n2, c, EffectsOf(models, cause)[i].outputTopic, cause.timestamp, |models|)
    ensures EffectChildrenAt(models, rank, a3, e3, n0, c, cause, i + 1)
  {
    var effs := EffectsOf(models, cause);
    forall i' | 0 <= i' < i + 1 && effs[i'].TopicPublish?
      ensures ChildrenAt(models, rank, a3, e3, BlockId(models, rank, cause, n0, i'), c,
                         effs[i'].outputTopic, cause.timestamp, |models|)
    {
      if i' < i {
        ChildrenAtGrew(models, rank, a2, e2, n2, a3, e3, n3, BlockId(models, rank, cause, n0, i'), c,
                       effs[i'].outputTopic, cause.timestamp, |models|);
      }
    }
  }

  /** The expansions of one more root are those of the roots before it followed by its own. */
  lemma RootsExpansionSnoc(models: seq<NodeModel>, rank: Cause -> nat, roots: seq<Action>, i: nat)
    requires NamesUnique(models) && Layered(models, rank) && i < |roots|
    requires forall j :: 0 <= j <= i ==> Fits(models, roots[j])
    ensures RootsExpansion(models, rank, roots[..i + 1]) == RootsExpansion(models, rank, roots[..i]) + Expansion(models, rank, roots[i])
  {
    var s := roots[..i + 1];
    assert s[..i] == roots[..i] && s[i] == roots[i];
  }
}
