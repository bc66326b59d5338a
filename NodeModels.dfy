/**
 * The node models the orchestrator and the remapping generator consult. A node model
 * names a ROS node, lists the causes its callbacks react to (a message on a topic, or a
 * timer of some period) and, for each cause, the effects the callback has (a publish on
 * a topic, or a status message). The model loader that builds them is not part of this
 * model; here a node model is a plain record.
 */
module NodeModels {
  import opened Wrappers

  type NodeName = string
  type TopicName = string

  datatype Cause = TopicInput(inputTopic: TopicName) | TimerInput(period: int)

  datatype Effect = TopicPublish(outputTopic: TopicName) | StatusPublish

  datatype NodeModel = NodeModel(name: NodeName, possibleInputs: seq<Cause>, effects: map<Cause, seq<Effect>>)

  /** `effects_for_input(cause)`: the effects of the callback for `cause` (none for an unknown cause). */
  function EffectsForInput(m: NodeModel, c: Cause): seq<Effect>
  {
    if c in m.effects then m.effects[c] else []
  }

  /** Index of the first model named `name`, scanning the list in order. */
  function ModelIndex(models: seq<NodeModel>, name: NodeName): (r: Option<nat>)
    ensures r.Some? ==> r.value < |models| && models[r.value].name == name
    ensures r.Some? ==> forall j :: 0 <= j < r.value ==> models[j].name != name
    ensures r.None? <==> forall j :: 0 <= j < |models| ==> models[j].name != name
  {
    if |models| == 0 then None
    else if models[0].name == name then Some(0)
    else match ModelIndex(models[1..], name)
      case None => None
      case Some(i) => Some(i + 1)
  }

  /** `__node_model_by_name`: the first model with that name; None where the source raises KeyError. */
  function NodeModelByName(models: seq<NodeModel>, name: NodeName): (r: Option<NodeModel>)
    ensures r.None? <==> forall j :: 0 <= j < |models| ==> models[j].name != name
    ensures r.Some? ==> r.value.name == name && r.value in models
  {
    match ModelIndex(models, name)
    case None => None
    case Some(i) => Some(models[i])
  }

  /** No two models share a name (they are loaded from a JSON object keyed by node name). */
  ghost predicate NamesUnique(models: seq<NodeModel>)
  {
    forall i, j :: 0 <= i < j < |models| ==> models[i].name != models[j].name
  }

  /** With unique names, looking up a model's own name finds that model. */
  lemma ByNameFindsModel(models: seq<NodeModel>, i: nat)
    requires NamesUnique(models)
    requires i < |models|
    ensures NodeModelByName(models, models[i].name) == Some(models[i])
  {
    assert ModelIndex(models, models[i].name).Some?;
  }

  /** Topics published by the callback of `m` for cause `c`. */
  predicate PublishesOn(m: NodeModel, c: Cause, topic: TopicName)
  {
    TopicPublish(topic) in EffectsForInput(m, c)
  }

  /**
   * The topic graph of the models is acyclic, witnessed by `rank`: every callback publishes
   * only on topics whose input cause ranks strictly below the cause that triggered it. This is
   * what makes the orchestrator's recursive expansion of effects terminate.
   */
  ghost predicate Layered(models: seq<NodeModel>, rank: Cause -> nat)
  {
    forall i, c, t :: 0 <= i < |models| && c in models[i].possibleInputs && PublishesOn(models[i], c, t) ==>
      rank(TopicInput(t)) < rank(c)
  }

  /** Names of the models that list `TopicInput(topic)` among their possible inputs, in model order. */
  function Listeners(models: seq<NodeModel>, topic: TopicName): (r: seq<NodeName>)
    ensures |r| <= |models|
    ensures forall n :: n in r <==> exists j :: 0 <= j < |models| && TopicInput(topic) in models[j].possibleInputs && models[j].name == n
  {
    if |models| == 0 then []
    else
      var init := models[..|models| - 1];
      var last := models[|models| - 1];
      assert forall j :: 0 <= j < |init| ==> init[j] == models[j];
      Listeners(init, topic) + (if TopicInput(topic) in last.possibleInputs then [last.name] else [])
  }

  /** With unique names, each listening model is named in `Listeners` exactly once. */
  lemma {:induction false} ListenersDistinct(models: seq<NodeModel>, topic: TopicName)
    requires NamesUnique(models)
    ensures forall i, j :: 0 <= i < j < |Listeners(models, topic)| ==> Listeners(models, topic)[i] != Listeners(models, topic)[j]
  {
    if |models| > 0 {
      var init := models[..|models| - 1];
      var last := models[|models| - 1];
      assert NamesUnique(init);
      ListenersDistinct(init, topic);
      if TopicInput(topic) in last.possibleInputs {
        assert last.name !in Listeners(init, topic);
      }
    }
  }
}
