/**
 * The remapping generator of src/orchestrator/orchestrator/remapping_generation.py: for every
 * configured node, in order, and every remapping of that node, in order, it emits a remapping of
 * "<node>:<internal>" to the node's intercepted name for the ROS topic, but only when the node's
 * model lists that topic as a possible input. The node's model is looked up inside the inner
 * loop, so a node without a model raises only when it has a remapping.
 *
 * Loading the launch and node configurations is not part of this model: the configuration is a
 * parameter, its dictionaries as sequences in their insertion order. `intercepted_name` is not
 * part of this model either: it is the parameter `interceptedName`.
 */
module RemappingGeneration {
  import opened Wrappers
  import opened NodeModels

  /** A node of the launch configuration: its name and its remappings (internal name, ROS name). */
  datatype NodeConfig = NodeConfig(name: NodeName, remappings: seq<(TopicName, TopicName)>)

  /** A `SetRemap` action: remap `src` to `dst`. */
  datatype Remap = Remap(src: string, dst: TopicName)

  /** The RuntimeError raised when no model has the node's name. */
  datatype RemapError = NoModel(name: NodeName)

  // ----- the specification -----

  /** The source name of a remapping: the node's name, a colon, the internal name. */
  function RemapSource(node: NodeName, internal: TopicName): (r: string)
    ensures |r| == |node| + 1 + |internal| && r[|node|] == ':'
    ensures r[..|node|] == node && r[|node| + 1..] == internal
  {
    node + ":" + internal
  }

  /** Whether the model of `node` makes its remapping to `ros` an intercepted one. */
  predicate Intercepts(m: NodeModel, ros: TopicName)
  {
    TopicInput(ros) in m.possibleInputs
  }

  /** The remappings emitted for the remappings `rs` of `node`, whose model is m. */
  function Kept(m: NodeModel, interceptedName: (NodeName, TopicName) -> TopicName, node: NodeName,
                rs: seq<(TopicName, TopicName)>): seq<Remap>
    decreases |rs|
  {
    if rs == [] then []
    else
      var (internal, ros) := rs[|rs| - 1];
      Kept(m, interceptedName, node, rs[..|rs| - 1]) +
      (if Intercepts(m, ros) then [Remap(RemapSource(node, internal), interceptedName(node, ros))] else [])
  }

  /** The inner loop's step: the remapping at j is appended, when kept, after those before it. */
  lemma KeptStep(m: NodeModel, interceptedName: (NodeName, TopicName) -> TopicName, node: NodeName,
                 rs: seq<(TopicName, TopicName)>, j: nat)
    requires j < |rs|
    ensures Kept(m, interceptedName, node, rs[..j + 1]) == Kept(m, interceptedName, node, rs[..j]) +
      (if Intercepts(m, rs[j].1) then [Remap(RemapSource(node, rs[j].0), interceptedName(node, rs[j].1))] else [])
  {
    assert rs[..j + 1][..j] == rs[..j];
  }

  /** A node with remappings but no model: looking up its model raises. */
  predicate Unmodelled(models: seq<NodeModel>, nc: NodeConfig)
  {
    nc.remappings != [] && NodeModelByName(models, nc.name).None?
  }

  /** What the inner loop contributes for one node. */
  function NodeRemaps(models: seq<NodeModel>, interceptedName: (NodeName, TopicName) -> TopicName, nc: NodeConfig): Result<seq<Remap>, RemapError>
  {
    if nc.remappings == [] then Ok([])
    else match NodeModelByName(models, nc.name)
      case None => Err(NoModel(nc.name))
      case Some(m) => Ok(Kept(m, interceptedName, nc.name, nc.remappings))
  }

  /** The result of `generate_remappings_from_config` for the nodes `config`, in order. */
  function Remappings(models: seq<NodeModel>, interceptedName: (NodeName, TopicName) -> TopicName, config: seq<NodeConfig>): Result<seq<Remap>, RemapError>
    decreases |config|
  {
    if config == [] then Ok([])
    else match Remappings(models, interceptedName, config[..|config| - 1])
      case Err(e) => Err(e)
      case Ok(prev) =>
        match NodeRemaps(models, interceptedName, config[|config| - 1])
        case Err(e) => Err(e)
        case Ok(mine) => Ok(prev + mine)
  }

  /** The number of configured remappings. */
  function TotalRemappings(config: seq<NodeConfig>): nat
    decreases |config|
  {
    if config == [] then 0 else TotalRemappings(config[..|config| - 1]) + |config[|config| - 1].remappings|
  }

  /** Once a prefix of the nodes raises, the whole configuration raises the same error. */
  lemma {:induction false} ErrorPersists(models: seq<NodeModel>, interceptedName: (NodeName, TopicName) -> TopicName,
                                         config: seq<NodeConfig>, i: nat)
    requires i <= |config| && Remappings(models, interceptedName, config[..i]).Err?
    ensures Remappings(models, interceptedName, config) == Remappings(models, interceptedName, config[..i])
    decreases |config|
  {
    if i == |config| {
      assert config[..i] == config;
    } else {
      var init := config[..|config| - 1];
      assert init[..i] == config[..i];
      ErrorPersists(models, interceptedName, init, i);
    }
  }

  /** Concatenation of emitted remappings is associative. */
  lemma Associative(x: seq<Remap>, y: seq<Remap>, z: seq<Remap>)
    ensures x + y + z == x + (y + z)
  {
  }

  // ----- the code -----

  /** `_find_node_model`: the first model with the name, or the RuntimeError. */
  method FindNodeModel(name: NodeName, models: seq<NodeModel>) returns (r: Result<NodeModel, RemapError>)
    ensures r.Err? <==> forall j :: 0 <= j < |models| ==> models[j].name != name
    ensures r.Err? ==> r.error == NoModel(name)
    ensures r.Ok? ==> exists i :: 0 <= i < |models| && models[i] == r.value && models[i].name == name &&
                                  forall j :: 0 <= j < i ==> models[j].name != name
    ensures r.Ok? <==> NodeModelByName(models, name).Some?
    ensures r.Ok? ==> r.value == NodeModelByName(models, name).value
  {
    var i := 0;
    while i < |models|
      invariant i <= |models|
      invariant forall j :: 0 <= j < i ==> models[j].name != name
    {
      if name == models[i].name {
        assert ModelIndex(models, name) == Some(i);
        return Ok(models[i]);
      }
      i := i + 1;
    }
    return Err(NoModel(name));
  }

  /** `generate_remappings_from_config`, once the configuration and the models are loaded. */
  method GenerateRemappings(config: seq<NodeConfig>, models: seq<NodeModel>, interceptedName: (NodeName, TopicName) -> TopicName)
    returns (r: Result<seq<Remap>, RemapError>)
    ensures r == Remappings(models, interceptedName, config)
  {
    var remapActions: seq<Remap> := [];
    var i := 0;
    while i < |config|
      invariant i <= |config|
      invariant Remappings(models, interceptedName, config[..i]) == Ok(remapActions)
    {
      var nc := config[i];
      ghost var before := remapActions;
      ghost var mine: seq<Remap> := [];
      var j := 0;
      while j < |nc.remappings|
        invariant j <= |nc.remappings|
        invariant remapActions == before + mine
        invariant 0 < j ==> NodeModelByName(models, nc.name).Some?
        invariant NodeModelByName(models, nc.name).Some? ==>
          mine == Kept(NodeModelByName(models, nc.name).value, interceptedName, nc.name, nc.remappings[..j])
        invariant j == 0 ==> mine == []
      {
        var (internalName, rosName) := nc.remappings[j];
        var model := FindNodeModel(nc.name, models);
        if model.Err? {
          assert config[..i + 1][..i] == config[..i];
          ErrorPersists(models, interceptedName, config, i + 1);
          return Err(model.error);
        }
        KeptStep(model.value, interceptedName, nc.name, nc.remappings, j);
        if TopicInput(rosName) in model.value.possibleInputs {
          var remap := Remap(RemapSource(nc.name, internalName), interceptedName(nc.name, rosName));
          Associative(before, mine, [remap]);
          remapActions := remapActions + [remap];
          mine := mine + [remap];
        }
        j := j + 1;
      }
      assert nc.remappings[..j] == nc.remappings;
      assert NodeRemaps(models, interceptedName, nc) == Ok(mine);
      assert config[..i + 1][..i] == config[..i];
      i := i + 1;
    }
    assert config[..i] == config;
    r := Ok(remapActions);
  }

  // ----- what the generator promises -----

  /** A remapping is kept exactly when the model intercepts its ROS topic; it maps "<node>:<internal>" to the intercepted name. */
  lemma {:induction false} KeptMembers(m: NodeModel, interceptedName: (NodeName, TopicName) -> TopicName, node: NodeName,
                                       rs: seq<(TopicName, TopicName)>, x: Remap)
    ensures x in Kept(m, interceptedName, node, rs) <==>
      exists j :: 0 <= j < |rs| && Intercepts(m, rs[j].1) && x == Remap(RemapSource(node, rs[j].0), interceptedName(node, rs[j].1))
    decreases |rs|
  {
    if rs != [] {
      var init := rs[..|rs| - 1];
      KeptMembers(m, interceptedName, node, init, x);
      assert forall j :: 0 <= j < |init| ==> init[j] == rs[j];
    }
  }

  /** At most one remapping is emitted per configured remapping, and in their order. */
  lemma {:induction false} KeptAppend(m: NodeModel, interceptedName: (NodeName, TopicName) -> TopicName, node: NodeName,
                                      rs1: seq<(TopicName, TopicName)>, rs2: seq<(TopicName, TopicName)>)
    ensures Kept(m, interceptedName, node, rs1 + rs2) == Kept(m, interceptedName, node, rs1) + Kept(m, interceptedName, node, rs2)
    ensures |Kept(m, interceptedName, node, rs1)| <= |rs1|
    decreases |rs2|, |rs1|
  {
    if rs2 == [] {
      assert rs1 + rs2 == rs1;
      if rs1 != [] {
        KeptAppend(m, interceptedName, node, rs1[..|rs1| - 1], []);
      }
    } else {
      var init := rs2[..|rs2| - 1];
      assert (rs1 + rs2)[..|rs1 + rs2| - 1] == rs1 + init;
      KeptAppend(m, interceptedName, node, rs1, init);
    }
  }

  /**
   * The generator raises exactly when some node has a remapping but no model, and then with the
   * RuntimeError for the first such node; a node without remappings never raises.
   */
  lemma {:induction false} RemappingsFailIff(models: seq<NodeModel>, interceptedName: (NodeName, TopicName) -> TopicName,
                                             config: seq<NodeConfig>)
    ensures Remappings(models, interceptedName, config).Err? <==> exists i :: 0 <= i < |config| && Unmodelled(models, config[i])
    ensures Remappings(models, interceptedName, config).Err? ==>
      exists i :: 0 <= i < |config| && Unmodelled(models, config[i]) &&
        Remappings(models, interceptedName, config).error == NoModel(config[i].name) &&
        forall i' :: 0 <= i' < i ==> !Unmodelled(models, config[i'])
    decreases |config|
  {
    if config != [] {
      var init := config[..|config| - 1];
      RemappingsFailIff(models, interceptedName, init);
      assert forall i :: 0 <= i < |init| ==> init[i] == config[i];
    }
  }

  /** The remapping (node, internal, ros) at position j of node i, which its model intercepts, is emitted as x. */
  predicate Emits(models: seq<NodeModel>, interceptedName: (NodeName, TopicName) -> TopicName, config: seq<NodeConfig>,
                  x: Remap, i: nat, j: nat)
  {
    i < |config| && j < |config[i].remappings| &&
    NodeModelByName(models, config[i].name).Some? &&
    Intercepts(NodeModelByName(models, config[i].name).value, config[i].remappings[j].1) &&
    x == Remap(RemapSource(config[i].name, config[i].remappings[j].0), interceptedName(config[i].name, config[i].remappings[j].1))
  }

  /**
   * When the generator succeeds, it emits a remapping exactly for each configured remapping
   * (node, internal, ros) whose node's model lists `TopicInput(ros)` among its possible inputs,
   * from "<node>:<internal>" to the intercepted name of (node, ros).
   */
  lemma {:induction false} RemappingsMembers(models: seq<NodeModel>, interceptedName: (NodeName, TopicName) -> TopicName,
                                             config: seq<NodeConfig>, x: Remap)
    requires Remappings(models, interceptedName, config).Ok?
    ensures x in Remappings(models, interceptedName, config).value <==> exists i: nat, j: nat :: Emits(models, interceptedName, config, x, i, j)
    decreases |config|
  {
    if config != [] {
      var init := config[..|config| - 1];
      var last := config[|config| - 1];
      var prev := Remappings(models, interceptedName, init).value;
      var mine := NodeRemaps(models, interceptedName, last).value;
      assert Remappings(models, interceptedName, config).value == prev + mine;
      RemappingsMembers(models, interceptedName, init, x);
      if last.remappings != [] {
        KeptMembers(NodeModelByName(models, last.name).value, interceptedName, last.name, last.remappings, x);
      }
      if x in prev {
        var i: nat, j: nat :| Emits(models, interceptedName, init, x, i, j);
        assert init[i] == config[i];
        assert Emits(models, interceptedName, config, x, i, j);
      } else if x in mine {
        var j :| 0 <= j < |last.remappings| && Intercepts(NodeModelByName(models, last.name).value, last.remappings[j].1) &&
          x == Remap(RemapSource(last.name, last.remappings[j].0), interceptedName(last.name, last.remappings[j].1));
        assert Emits(models, interceptedName, config, x, |config| - 1, j);
      } else {
        forall i: nat, j: nat | i < |config| ensures !Emits(models, interceptedName, config, x, i, j) {
          if i < |init| {
            assert init[i] == config[i];
            assert Emits(models, interceptedName, config, x, i, j) ==> Emits(models, interceptedName, init, x, i, j);
          } else {
            assert config[i] == last;
          }
        }
      }
    }
  }

  /** The generator emits at most as many remappings as are configured. */
  lemma {:induction false} RemappingsBound(models: seq<NodeModel>, interceptedName: (NodeName, TopicName) -> TopicName,
                                           config: seq<NodeConfig>)
    requires Remappings(models, interceptedName, config).Ok?
    ensures |Remappings(models, interceptedName, config).value| <= TotalRemappings(config)
    decreases |config|
  {
    if config != [] {
      var init := config[..|config| - 1];
      var last := config[|config| - 1];
      RemappingsBound(models, interceptedName, init);
      if last.remappings != [] {
        KeptAppend(NodeModelByName(models, last.name).value, interceptedName, last.name, last.remappings, []);
      }
    }
  }

  /**
   * The output follows the node order: the remappings of the nodes `a + b` are those of `a`
   * followed by those of `b`, and an error in `a` comes before anything `b` would raise.
   */
  lemma {:induction false} RemappingsAppend(models: seq<NodeModel>, interceptedName: (NodeName, TopicName) -> TopicName,
                                            a: seq<NodeConfig>, b: seq<NodeConfig>)
    ensures Remappings(models, interceptedName, a + b) ==
      match Remappings(models, interceptedName, a)
      case Err(e) => Err(e)
      case Ok(x) =>
        match Remappings(models, interceptedName, b)
        case Err(e) => Err(e)
        case Ok(y) => Ok(x + y)
    decreases |b|
  {
    if b == [] {
      assert a + b == a;
      var ra := Remappings(models, interceptedName, a);
      if ra.Ok? {
        assert ra.value + [] == ra.value;
      }
    } else {
      var init, last := b[..|b| - 1], b[|b| - 1];
      var ab := a + b;
      assert ab[..|ab| - 1] == a + init && ab[|ab| - 1] == last;
      RemappingsAppend(models, interceptedName, a, init);
      var ra, ri := Remappings(models, interceptedName, a), Remappings(models, interceptedName, init);
      var rl := NodeRemaps(models, interceptedName, last);
      var rai := Remappings(models, interceptedName, a + init);
      assert Remappings(models, interceptedName, ab) == match rai case Err(e) => Err(e) case Ok(p) => (match rl case Err(e) => Err(e) case Ok(q) => Ok(p + q));
      assert Remappings(models, interceptedName, b) == match ri case Err(e) => Err(e) case Ok(p) => (match rl case Err(e) => Err(e) case Ok(q) => Ok(p + q));
      if ra.Ok? && ri.Ok? && rl.Ok? {
        Associative(ra.value, ri.value, rl.value);
      }
    }
  }
}
