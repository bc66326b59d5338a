/**
 * The exact edges of the actions the orchestrator's expansion adds: the step lemmas that carry
 * `EdgesFrom` facts, one added action at a time, through the loops of `__add_action_and_effects`,
 * `__add_all_effects_for_cause` and the input loops that call them.
 */
module ExpansionEdges {
  import opened Wrappers
  import opened NodeModels
  import opened ActionGraph
  import opened Expansions

  /** From id n on, the graph holds the edges of the expansion of `action`, added under parent. */
  ghost predicate ExpansionEdgesAt(models: seq<NodeModel>, rank: Cause -> nat, a: Actions, e: Edges, n: nat,
                                   action: Action, parent: Option<nat>)
  {
    NamesUnique(models) && Layered(models, rank) && Fits(models, action) &&
    EdgesFrom(models, a, e, n, ExpansionParents(models, rank, action, OffsetTo(n, parent)))
  }

  /** From id base on, the graph holds the edges of what the first i effects of cause c, action `cause`, add. */
  ghost predicate EffectsEdgesAt(models: seq<NodeModel>, rank: Cause -> nat, a: Actions, e: Edges, base: nat, c: nat,
                                 cause: Action, i: nat)
  {
    NamesUnique(models) && Layered(models, rank) && Fits(models, cause) && i <= |EffectsOf(models, cause)| && c < base &&
    EdgesFrom(models, a, e, base, EffectsParents(models, rank, cause, i, base - c))
  }

  /** From id base on, the graph holds the edges of the children of cause c on the topic, over the first j models. */
  ghost predicate ChildrenEdgesAt(models: seq<NodeModel>, rank: Cause -> nat, a: Actions, e: Edges, base: nat, c: nat,
                                  topic: TopicName, t: int, j: nat)
  {
    NamesUnique(models) && Layered(models, rank) && j <= |models| && c < base &&
    EdgesFrom(models, a, e, base, ChildrenParents(models, rank, topic, t, j, base - c))
  }

  /**
   * What Expanded says of each action it adds: the action has exactly its own edges (SAME_NODE,
   * CAUSALITY to its parent, SAME_TOPIC) under the parent that the expansions of the roots give it.
   */
  lemma ExpandedOwnEdges(models: seq<NodeModel>, rank: Cause -> nat, roots: seq<Action>,
                         a0: Actions, e0: Edges, n0: nat, a1: Actions, e1: Edges, n1: nat, k: nat)
    requires Expanded(models, rank, roots, a0, e0, n0, a1, e1, n1) && n0 <= k < n1
    ensures |RootsParents(models, rank, roots)| == n1 - n0
    ensures OwnEdges(models, a1, e1, k, Back(k, RootsParents(models, rank, roots)[k - n0]))
  {
    RootsParentsLength(models, rank, roots);
    EdgesFromAt(models, a1, e1, n0, RootsParents(models, rank, roots), k);
  }

  /**
   * ExpandedOwnEdges edge by edge: an added action k has an edge to v exactly when v is an older
   * action of its node (SAME_NODE), its parent (CAUSALITY) or an RxAction on a topic it publishes
   * (SAME_TOPIC), and the edge has that type, SAME_TOPIC first and SAME_NODE last.
   */
  lemma ExpandedEdges(models: seq<NodeModel>, rank: Cause -> nat, roots: seq<Action>,
                      a0: Actions, e0: Edges, n0: nat, a1: Actions, e1: Edges, n1: nat, k: nat, v: nat)
    requires Expanded(models, rank, roots, a0, e0, n0, a1, e1, n1) && n0 <= k < n1
    ensures |RootsParents(models, rank, roots)| == n1 - n0 && k in a1
    ensures var p := Back(k, RootsParents(models, rank, roots)[k - n0]);
      ((k, v) in e1 <==> SameNodeTarget(a1, k, k + 1, v) || p == Some(v) || TopicTarget(models, a1, k, k + 1, v)) &&
      ((k, v) in e1 ==> e1[(k, v)] == if TopicTarget(models, a1, k, k + 1, v) then SameTopic else if p == Some(v) then Causality else SameNode)
  {
    ExpandedOwnEdges(models, rank, roots, a0, e0, n0, a1, e1, n1, k);
    OwnEdgesSpec(models, a1, e1, k, Back(k, RootsParents(models, rank, roots)[k - n0]), v);
  }

  /** One step of adding a list of input actions: the next one is added, as a root, with its expansion. */
  lemma RootStep(models: seq<NodeModel>, rank: Cause -> nat, roots: seq<Action>, i: nat,
                 a0: Actions, e0: Edges, n0: nat, a2: Actions, e2: Edges, n2: nat, a3: Actions, e3: Edges, n3: nat)
    requires i < |roots| && Expanded(models, rank, roots[..i], a0, e0, n0, a2, e2, n2)
    requires Fits(models, roots[i]) && GrewBy(a2, e2, n2, a3, e3, n3, Expansion(models, rank, roots[i]))
    requires ExpansionEdgesAt(models, rank, a3, e3, n2, roots[i], None)
    ensures Expanded(models, rank, roots[..i + 1], a0, e0, n0, a3, e3, n3)
  {
    FitsPrefix(models, roots, i);
    RootsExpansionSnoc(models, rank, roots, i);
    GrewByConcat(a0, e0, n0, a2, e2, n2, a3, e3, n3, RootsExpansion(models, rank, roots[..i]), Expansion(models, rank, roots[i]));
    RootsParentsLength(models, rank, roots[..i]);
    RootParentsStep(models, rank, roots, i, n0, a2, e2, n2, a3, e3, n3);
  }

  lemma FitsPrefix(models: seq<NodeModel>, roots: seq<Action>, i: nat)
    requires i < |roots| && (forall j :: 0 <= j < |roots[..i]| ==> Fits(models, roots[..i][j])) && Fits(models, roots[i])
    ensures forall j :: 0 <= j <= i ==> Fits(models, roots[j])
  {
    assert forall j :: 0 <= j < i ==> roots[..i][j] == roots[j];
  }

  /** The parents half of RootStep. */
  lemma RootParentsStep(models: seq<NodeModel>, rank: Cause -> nat, roots: seq<Action>, i: nat,
                        n0: nat, a2: Actions, e2: Edges, n2: nat, a3: Actions, e3: Edges, n3: nat)
    requires NamesUnique(models) && Layered(models, rank) && i < |roots|
    requires forall j :: 0 <= j <= i ==> Fits(models, roots[j])
    requires n2 == n0 + |RootsParents(models, rank, roots[..i])|
    requires EdgesFrom(models, a2, e2, n0, RootsParents(models, rank, roots[..i])) && Grew(a2, e2, n2, a3, e3, n3)
    requires EdgesFrom(models, a3, e3, n2, ExpansionParents(models, rank, roots[i], None))
    ensures EdgesFrom(models, a3, e3, n0, RootsParents(models, rank, roots[..i + 1]))
  {
    EdgesFromAppend(models, a2, e2, n2, a3, e3, n3, n0, RootsParents(models, rank, roots[..i]),
                    ExpansionParents(models, rank, roots[i], None));
    RootsParentsSnocEdges(models, rank, roots, i, a3, e3, n0);
  }

  /** The parents of one more root are those of the roots before it followed by its own, read through EdgesFrom. */
  lemma RootsParentsSnocEdges(models: seq<NodeModel>, rank: Cause -> nat, roots: seq<Action>, i: nat, a: Actions, e: Edges, n0: nat)
    requires NamesUnique(models) && Layered(models, rank) && i < |roots|
    requires forall j :: 0 <= j <= i ==> Fits(models, roots[j])
    requires EdgesFrom(models, a, e, n0, RootsParents(models, rank, roots[..i]) + ExpansionParents(models, rank, roots[i], None))
    ensures EdgesFrom(models, a, e, n0, RootsParents(models, rank, roots[..i + 1]))
  {
    var s := roots[..i + 1];
    assert s[..|s| - 1] == roots[..i] && s[|s| - 1] == roots[i];
  }

  /**
   * The new action n, with the edges `__add_action_and_effects` gives it, followed by its
   * effects' children with theirs, has the edges its expansion's parents call for.
   */
  lemma AddedActionParents(models: seq<NodeModel>, rank: Cause -> nat, a0: Actions, e0: Edges, n: nat, action: Action,
                           parent: Option<nat>, a3: Actions, e3: Edges, n3: nat)
    requires NamesUnique(models) && Layered(models, rank) && Fits(models, action)
    requires IdsBelow(a0, n) && EdgesClosed(a0, e0) && (parent.Some? ==> parent.value < n)
    requires Grew(a0[n := action], ActionEdges(models, e0, a0[n := action], n, parent, n + 1), n + 1, a3, e3, n3)
    requires EffectsEdgesAt(models, rank, a3, e3, n + 1, n, action, |EffectsOf(models, action)|)
    ensures ExpansionEdgesAt(models, rank, a3, e3, n, action, parent)
  {
    var a1 := a0[n := action];
    assert forall e :: e in e0 ==> e.0 != n;
    AddedOwnEdges(models, e0, a1, n, parent);
    OwnEdgesGrew(models, a1, ActionEdges(models, e0, a1, n, parent, n + 1), n + 1, a3, e3, n3, n, parent);
    assert Back(n, OffsetTo(n, parent)) == parent;
    EdgesFromOne(models, a3, e3, n, OffsetTo(n, parent));
    EdgesFromConcat(models, a3, e3, n, [OffsetTo(n, parent)], n + 1, EffectsParents(models, rank, action, |EffectsOf(models, action)|, 1));
  }

  /** One step of the loop over the models, for the parents: model j's child, if any, comes with the edges of its expansion. */
  lemma ChildParentsStep(models: seq<NodeModel>, rank: Cause -> nat, topic: TopicName, t: int, c: nat, j: nat,
                         n0: nat, a2: Actions, e2: Edges, n2: nat, a3: Actions, e3: Edges, n3: nat)
    requires NamesUnique(models) && Layered(models, rank) && j < |models|
    requires n2 == n0 + |ChildrenExpansion(models, rank, topic, t, j)|
    requires ChildrenEdgesAt(models, rank, a2, e2, n0, c, topic, t, j)
    requires Grew(a2, e2, n2, a3, e3, n3)
    requires TopicInput(topic) in models[j].possibleInputs ==>
      var child := RxAction(Waiting, models[j].name, t, topic, None);
      Fits(models, child) && ExpansionEdgesAt(models, rank, a3, e3, n2, child, Some(c))
    ensures ChildrenEdgesAt(models, rank, a3, e3, n0, c, topic, t, j + 1)
  {
    ChildrenParentsLength(models, rank, topic, t, j, n0 - c);
    if TopicInput(topic) in models[j].possibleInputs {
      ChildParentsListen(models, rank, topic, t, c, j, n0, a2, e2, n2, a3, e3, n3);
    } else {
      EdgesFromGrew(models, a2, e2, n2, a3, e3, n3, n0, ChildrenParents(models, rank, topic, t, j, n0 - c));
    }
  }

lemma ChildParentsListen(models: seq<NodeModel>, rank: Cause -> nat, topic: TopicName, t: int, c: nat, j: nat,
                           n0: nat, a2: Actions, e2: Edges, n2: nat, a3: Actions, e3: Edges, n3: nat)
    requires NamesUnique(models) && Layered(models, rank) && j < |models| && c < n0
    requires TopicInput(topic) in models[j].possibleInputs && Fits(models, RxAction(Waiting, models[j].name, t, topic, None))
    requires n2 == n0 + |ChildrenParents(models, rank, topic, t, j, n0 - c)|
    requires EdgesFrom(models, a2, e2, n0, ChildrenParents(models, rank, topic, t, j, n0 - c)) && Grew(a2, e2, n2, a3, e3, n3)
    requires EdgesFrom(models, a3, e3, n2, ExpansionParents(models, rank, RxAction(Waiting, models[j].name, t, topic, None), OffsetTo(n2, Some(c))))
    ensures EdgesFrom(models, a3, e3, n0, ChildrenParents(models, rank, topic, t, j + 1, n0 - c))
  {
    var ps := ChildrenParents(models, rank, topic, t, j, n0 - c);
    var d := OffsetTo(n2, Some(c));
    EdgesFromAppend(models, a2, e2, n2, a3, e3, n3, n0, ps, ExpansionParents(models, rank, RxAction(Waiting, models[j].name, t, topic, None), d));
    OffsetToAfter(c, n0, |ps|, n2);
    ChildrenParentsSnocEdges(models, rank, topic, t, j, n0 - c, a3, e3, n0, d);
  }

    /** ChildrenParentsSnoc, read through EdgesFrom. */
  lemma ChildrenParentsSnocEdges(models: seq<NodeModel>, rank: Cause -> nat, topic: TopicName, t: int, j: nat, start: nat,
                                 a: Actions, e: Edges, n0: nat, d: Option<nat>)
    requires NamesUnique(models) && Layered(models, rank) && j < |models| && TopicInput(topic) in models[j].possibleInputs
    requires Fits(models, RxAction(Waiting, models[j].name, t, topic, None))
    requires d == Some(start + |ChildrenParents(models, rank, topic, t, j, start)|)
    requires EdgesFrom(models, a, e, n0, ChildrenParents(models, rank, topic, t, j, start) +
                                         ExpansionParents(models, rank, RxAction(Waiting, models[j].name, t, topic, None), d))
    ensures EdgesFrom(models, a, e, n0, ChildrenParents(models, rank, topic, t, j + 1, start))
  {
    ByNameFindsModel(models, j);
  }

  /** A status publish adds no action, read through EdgesFrom. */
  lemma EffectsParentsStatusEdges(models: seq<NodeModel>, rank: Cause -> nat, cause: Action, i: nat, c: nat,
                                  a: Actions, e: Edges, n0: nat)
    requires NamesUnique(models) && Layered(models, rank) && Fits(models, cause) && i < |EffectsOf(models, cause)| && c < n0
    requires EffectsOf(models, cause)[i].StatusPublish?
    requires EdgesFrom(models, a, e, n0, EffectsParents(models, rank, cause, i, n0 - c))
    ensures EffectsEdgesAt(models, rank, a, e, n0, c, cause, i + 1)
  {
  }

  /** A topic publish adds the children of its topic after the effects before it, read through EdgesFrom. */
  lemma EffectsParentsPublishEdges(models: seq<NodeModel>, rank: Cause -> nat, cause: Action, i: nat, c: nat,
                                   a: Actions, e: Edges, n0: nat, s2: nat)
    requires NamesUnique(models) && Layered(models, rank) && Fits(models, cause) && i < |EffectsOf(models, cause)| && c < n0
    requires EffectsOf(models, cause)[i].TopicPublish?
    requires s2 == n0 - c + |EffectsParents(models, rank, cause, i, n0 - c)|
    requires EdgesFrom(models, a, e, n0, EffectsParents(models, rank, cause, i, n0 - c) +
                                         ChildrenParents(models, rank, EffectsOf(models, cause)[i].outputTopic, cause.timestamp, |models|, s2))
    ensures EffectsEdgesAt(models, rank, a, e, n0, c, cause, i + 1)
  {
    RankDescends(models, rank, cause, EffectsOf(models, cause)[i].outputTopic);
  }

  /** One step of the loop over the effects, for the parents: a topic publish brings its children with the edges of their expansions. */
  lemma EffectParentsStep(models: seq<NodeModel>, rank: Cause -> nat, cause: Action, c: nat, i: nat,
                          n0: nat, a2: Actions, e2: Edges, n2: nat, a3: Actions, e3: Edges, n3: nat)
    requires NamesUnique(models) && Layered(models, rank) && Fits(models, cause) && i < |EffectsOf(models, cause)|
    requires n2 == n0 + |EffectsExpansion(models, rank, cause, i)|
    requires EffectsEdgesAt(models, rank, a2, e2, n0, c, cause, i)
    requires Grew(a2, e2, n2, a3, e3, n3)
    requires EffectsOf(models, cause)[i].TopicPublish? ==>
      ChildrenEdgesAt(models, rank, a3, e3, n2, c, EffectsOf(models, cause)[i].outputTopic, cause.timestamp, |models|)
    ensures EffectsEdgesAt(models, rank, a3, e3, n0, c, cause, i + 1)
  {
    if EffectsOf(models, cause)[i].TopicPublish? {
      EffectParentsPublish(models, rank, cause, c, i, n0, a2, e2, n2, a3, e3, n3);
    } else {
      EffectParentsStatus(models, rank, cause, c, i, n0, a2, e2, n2, a3, e3, n3);
    }
  }

  /** EffectParentsStep for a status publish, which adds nothing. */
  lemma EffectParentsStatus(models: seq<NodeModel>, rank: Cause -> nat, cause: Action, c: nat, i: nat,
                            n0: nat, a2: Actions, e2: Edges, n2: nat, a3: Actions, e3: Edges, n3: nat)
    requires NamesUnique(models) && Layered(models, rank) && Fits(models, cause) && i < |EffectsOf(models, cause)|
    requires EffectsOf(models, cause)[i].StatusPublish?
    requires n2 == n0 + |EffectsExpansion(models, rank, cause, i)|
    requires EffectsEdgesAt(models, rank, a2, e2, n0, c, cause, i)
    requires Grew(a2, e2, n2, a3, e3, n3)
    ensures EffectsEdgesAt(models, rank, a3, e3, n0, c, cause, i + 1)
  {
    EffectsParentsLength(models, rank, cause, i, n0 - c);
    EdgesFromGrew(models, a2, e2, n2, a3, e3, n3, n0, EffectsParents(models, rank, cause, i, n0 - c));
    EffectsParentsStatusEdges(models, rank, cause, i, c, a3, e3, n0);
  }

  /** EffectParentsStep for a topic publish. */
  lemma EffectParentsPublish(models: seq<NodeModel>, rank: Cause -> nat, cause: Action, c: nat, i: nat,
                             n0: nat, a2: Actions, e2: Edges, n2: nat, a3: Actions, e3: Edges, n3: nat)
    requires NamesUnique(models) && Layered(models, rank) && Fits(models, cause) && i < |EffectsOf(models, cause)|
    requires EffectsOf(models, cause)[i].TopicPublish?
    requires n2 == n0 + |EffectsExpansion(models, rank, cause, i)|
    requires EffectsEdgesAt(models, rank, a2, e2, n0, c, cause, i)
    requires Grew(a2, e2, n2, a3, e3, n3)
    requires ChildrenEdgesAt(models, rank, a3, e3, n2, c, EffectsOf(models, cause)[i].outputTopic, cause.timestamp, |models|)
    ensures EffectsEdgesAt(models, rank, a3, e3, n0, c, cause, i + 1)
  {
    var ps := EffectsParents(models, rank, cause, i, n0 - c);
    EffectsParentsLength(models, rank, cause, i, n0 - c);
    var topic := EffectsOf(models, cause)[i].outputTopic;
    EdgesFromAppend(models, a2, e2, n2, a3, e3, n3, n0, ps, ChildrenParents(models, rank, topic, cause.timestamp, |models|, n2 - c));
    SubAfter(c, n0, |ps|, n2);
    EffectsParentsPublishEdges(models, rank, cause, i, c, a3, e3, n0, n2 - c);
  }


}
