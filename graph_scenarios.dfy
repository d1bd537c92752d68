/** The graphs exercised by the repository's tests of
    `newGraph(...).buildOrder()`: their only build orders, or the proof that
    they have none. */
module GraphScenarios {
  import opened Results
  import opened VariableGraph
  import opened StagingUniqueness

  // ---------------------------------------------------------------------
  // "a depend on d depend on e"

  function ChainNodes(): seq<string> { ["a", "d", "e"] }
  function ChainDeps(): map<string, seq<string>> { map["a" := ["d"], "d" := ["e"]] }
  function ChainPlan(): seq<VariableGroup> { [VariableGroup(["e"]), VariableGroup(["d"]), VariableGroup(["a"])] }

  lemma ChainFlatten()
    ensures multiset(Flatten(ChainPlan())) == multiset(ChainNodes())
  {
    var plan := ChainPlan();
    FlattenAppend([], plan[0]);
    FlattenAppend(plan[..1], plan[1]);
    FlattenAppend(plan[..2], plan[2]);
    assert plan[..1] == [] + [plan[0]] && plan[..2] == plan[..1] + [plan[1]] && plan == plan[..2] + [plan[2]];
    assert Flatten(plan) == ["e"] + ["d"] + ["a"];
    assert ChainNodes() == ["a"] + ["d"] + ["e"];
  }

  lemma ChainLevels()
    ensures GroupIndex(ChainPlan(), "e") == 0 && GroupIndex(ChainPlan(), "d") == 1
    ensures GroupIndex(ChainPlan(), "a") == 2
  {
    var plan := ChainPlan();
    GroupIndexOf(plan, 0, "e");
    GroupIndexOf(plan, 1, "d");
    GroupIndexOf(plan, 2, "a");
  }

  lemma ChainGroups()
    ensures WellFormed(ChainPlan())
  {
    ChainLevels();
  }

  lemma ChainEarlier()
    ensures DepsEarlier(ChainDeps(), ChainPlan(), Elements(ChainNodes()))
  {
    ChainLevels();
  }

  lemma ChainTight()
    ensures Tight(ChainDeps(), ChainPlan(), Elements(ChainNodes()))
  {
    var nodes, deps, plan := ChainNodes(), ChainDeps(), ChainPlan();
    ChainLevels();
    forall v | v in Elements(nodes) && 0 < GroupIndex(plan, v)
      ensures exists w :: w in DepsOf(deps, v) && Below(plan, w, v)
    {
      if v == "a" { assert "d" in DepsOf(deps, v); } else { assert "e" in DepsOf(deps, v); }
    }
  }

  lemma ChainPlanIsStaging()
    ensures IsStaging(ChainNodes(), ChainDeps(), ChainPlan())
  {
    ChainFlatten();
    ChainGroups();
    ChainEarlier();
    ChainTight();
  }

  /** The chain is staged e, then d, then a (`ChainPlan`), and in no other way. */
  lemma ChainOrder(groups: seq<VariableGroup>)
    requires IsStaging(ChainNodes(), ChainDeps(), groups)
    ensures SameStages(groups, ChainPlan())
  {
    ChainPlanIsStaging();
    StagingUnique(ChainNodes(), ChainDeps(), groups, ChainPlan());
  }

  // ---------------------------------------------------------------------
  // "complete dep graph"

  function FullNodes(): seq<string> { ["f", "d", "c", "b", "g", "a", "h", "e"] }
  function FullDeps(): map<string, seq<string>> {
    map["e" := ["a", "b"], "a" := ["c", "f", "b"], "h" := ["b"], "g" := ["d"], "c" := ["f"], "b" := ["f"]]
  }
  function FullPlan(): seq<VariableGroup> {
    [VariableGroup(["f", "d"]), VariableGroup(["c", "b", "g"]), VariableGroup(["a", "h"]), VariableGroup(["e"])]
  }

  lemma FullFlatten()
    ensures Flatten(FullPlan()) == FullNodes()
  {
    var plan := FullPlan();
    FlattenAppend([], plan[0]);
    FlattenAppend(plan[..1], plan[1]);
    FlattenAppend(plan[..2], plan[2]);
    FlattenAppend(plan[..3], plan[3]);
    assert plan[..1] == [] + [plan[0]] && plan[..2] == plan[..1] + [plan[1]];
    assert plan[..3] == plan[..2] + [plan[2]] && plan == plan[..3] + [plan[3]];
  }

  // The eight placements are proved in two halves: together they cost the
  // verifier several times as much.
  lemma FullLevelsLow()
    ensures GroupIndex(FullPlan(), "f") == 0 && GroupIndex(FullPlan(), "d") == 0
    ensures GroupIndex(FullPlan(), "c") == 1 && GroupIndex(FullPlan(), "b") == 1
    ensures GroupIndex(FullPlan(), "g") == 1
  {
    var plan := FullPlan();
    GroupIndexOf(plan, 0, "f");
    GroupIndexOf(plan, 0, "d");
    GroupIndexOf(plan, 1, "c");
    GroupIndexOf(plan, 1, "b");
    GroupIndexOf(plan, 1, "g");
  }

  lemma FullLevelsHigh()
    ensures GroupIndex(FullPlan(), "a") == 2 && GroupIndex(FullPlan(), "h") == 2
    ensures GroupIndex(FullPlan(), "e") == 3
  {
    var plan := FullPlan();
    GroupIndexOf(plan, 2, "a");
    GroupIndexOf(plan, 2, "h");
    GroupIndexOf(plan, 3, "e");
  }

  lemma FullLevels()
    ensures GroupIndex(FullPlan(), "f") == 0 && GroupIndex(FullPlan(), "d") == 0
    ensures GroupIndex(FullPlan(), "c") == 1 && GroupIndex(FullPlan(), "b") == 1
    ensures GroupIndex(FullPlan(), "g") == 1
    ensures GroupIndex(FullPlan(), "a") == 2 && GroupIndex(FullPlan(), "h") == 2
    ensures GroupIndex(FullPlan(), "e") == 3
  {
    FullLevelsLow();
    FullLevelsHigh();
  }

  lemma FullDepsOf()
    ensures DepsOf(FullDeps(), "f") == [] && DepsOf(FullDeps(), "d") == []
    ensures DepsOf(FullDeps(), "c") == ["f"] && DepsOf(FullDeps(), "b") == ["f"]
    ensures DepsOf(FullDeps(), "g") == ["d"] && DepsOf(FullDeps(), "h") == ["b"]
    ensures DepsOf(FullDeps(), "a") == ["c", "f", "b"] && DepsOf(FullDeps(), "e") == ["a", "b"]
  {
  }

  lemma FullGroups()
    ensures WellFormed(FullPlan())
  {
    FullLevels();
  }

  lemma FullEarlier()
    ensures DepsEarlier(FullDeps(), FullPlan(), Elements(FullNodes()))
  {
    var nodes, deps, plan := FullNodes(), FullDeps(), FullPlan();
    FullLevels();
    FullDepsOf();
    forall v, w | v in Elements(nodes) && w in DepsOf(deps, v)
      ensures GroupIndex(plan, w) < GroupIndex(plan, v)
    {
      assert v in nodes;
    }
  }

  lemma FullTightAt(v: string)
    requires v in FullNodes() && 0 < GroupIndex(FullPlan(), v)
    ensures exists w :: w in DepsOf(FullDeps(), v) && Below(FullPlan(), w, v)
  {
    FullLevels();
    FullDepsOf();
    if v == "e" {
      assert "a" in DepsOf(FullDeps(), v);
    } else if v == "a" || v == "h" {
      assert "b" in DepsOf(FullDeps(), v);
    } else if v == "g" {
      assert "d" in DepsOf(FullDeps(), v);
    } else {
      assert "f" in DepsOf(FullDeps(), v);
    }
  }

  lemma FullTight()
    ensures Tight(FullDeps(), FullPlan(), Elements(FullNodes()))
  {
    forall v | v in Elements(FullNodes()) && 0 < GroupIndex(FullPlan(), v)
      ensures exists w :: w in DepsOf(FullDeps(), v) && Below(FullPlan(), w, v)
    {
      FullTightAt(v);
    }
  }

  lemma FullPlanIsStaging()
    ensures IsStaging(FullNodes(), FullDeps(), FullPlan())
  {
    FullFlatten();
    FullGroups();
    FullEarlier();
    FullTight();
  }

  /** The eight-variable graph is staged {f, d}, {c, b, g}, {a, h}, {e}
      (`FullPlan`), and in no other way up to the order inside a group. */
  lemma FullOrder(groups: seq<VariableGroup>)
    requires IsStaging(FullNodes(), FullDeps(), groups)
    ensures SameStages(groups, FullPlan())
  {
    FullPlanIsStaging();
    StagingUnique(FullNodes(), FullDeps(), groups, FullPlan());
  }

  // ---------------------------------------------------------------------
  // "single variable" and "independent variable"

  /** A lone name makes a single group. */
  lemma SingleOrder(groups: seq<VariableGroup>)
    requires IsStaging(["myVariable"], map[], groups)
    ensures SameStages(groups, [VariableGroup(["myVariable"])])
  {
    IndependentNames(["myVariable"], map[], groups);
  }

  /** Several names without dependencies make a single group. */
  lemma IndependentOrder(groups: seq<VariableGroup>)
    requires IsStaging(["a", "d", "e"], map[], groups)
    ensures SameStages(groups, [VariableGroup(["a", "d", "e"])])
  {
    IndependentNames(["a", "d", "e"], map[], groups);
  }

  // ---------------------------------------------------------------------
  // The circular cases

  /** "simple circular dep": a and b wait on each other. */
  lemma MutualHasNoOrder(groups: seq<VariableGroup>)
    ensures !IsStaging(["a", "b"], map["a" := ["b"], "b" := ["a"]], groups)
  {
    var nodes, deps := ["a", "b"], map["a" := ["b"], "b" := ["a"]];
    assert IsCycle(nodes, deps, ["a", "b"]) by {
      assert DepsOf(deps, "a") == ["b"] && DepsOf(deps, "b") == ["a"];
    }
    CycleIsStuck(nodes, deps, ["a", "b"]);
    StuckBlocksStaging(nodes, deps, groups, Elements(["a", "b"]));
  }

  /** "circular dep on the same node": a waits on itself. */
  lemma SelfLoopHasNoOrder(groups: seq<VariableGroup>)
    ensures !IsStaging(["a"], map["a" := ["a"]], groups)
  {
    var nodes, deps := ["a"], map["a" := ["a"]];
    assert IsCycle(nodes, deps, ["a"]) by {
      assert DepsOf(deps, "a") == ["a"];
    }
    CycleIsStuck(nodes, deps, ["a"]);
    StuckBlocksStaging(nodes, deps, groups, Elements(["a"]));
  }

  function LoopDeps(): map<string, seq<string>> {
    map["e" := ["a", "b"], "a" := ["c", "f", "b"], "h" := ["b"], "g" := ["d", "c"], "c" := ["f"],
        "b" := ["f"], "d" := ["d"]]
  }

  /** "circular dep with transition": d waits on itself, so g and everything
      above it can never be staged either. */
  lemma TransitiveLoopHasNoOrder(groups: seq<VariableGroup>)
    ensures !IsStaging(FullNodes(), LoopDeps(), groups)
  {
    var nodes, deps := FullNodes(), LoopDeps();
    assert IsCycle(nodes, deps, ["d"]) by {
      assert DepsOf(deps, "d") == ["d"];
    }
    CycleIsStuck(nodes, deps, ["d"]);
    StuckBlocksStaging(nodes, deps, groups, Elements(["d"]));
  }

  lemma ChainOutcome(r: Result<seq<VariableGroup>, BuildError>)
    requires r.Success? ==> IsStaging(ChainNodes(), ChainDeps(), r.value)
    requires r.Failure? ==> forall groups :: !IsStaging(ChainNodes(), ChainDeps(), groups)
    ensures r.Success? && SameStages(r.value, ChainPlan())
  {
    assert r.Success? by {
      ChainPlanIsStaging();
    }
    ChainOrder(r.value);
  }

  lemma FullOutcome(r: Result<seq<VariableGroup>, BuildError>)
    requires r.Success? ==> IsStaging(FullNodes(), FullDeps(), r.value)
    requires r.Failure? ==> forall groups :: !IsStaging(FullNodes(), FullDeps(), groups)
    ensures r.Success? && SameStages(r.value, FullPlan())
  {
    assert r.Success? by {
      FullPlanIsStaging();
    }
    FullOrder(r.value);
  }

  // ---------------------------------------------------------------------
  // The same graphs through `buildOrder`

  method SingleBuildOrder() returns (r: Result<seq<VariableGroup>, BuildError>)
    ensures r.Success? && SameStages(r.value, [VariableGroup(["myVariable"])])
  {
    var graph := new Graph(["myVariable"], map[]);
    r := graph.BuildOrder();
    OneGroupStaging(["myVariable"], map[]);
    SingleOrder(r.value);
  }

  method IndependentBuildOrder() returns (r: Result<seq<VariableGroup>, BuildError>)
    ensures r.Success? && SameStages(r.value, [VariableGroup(["a", "d", "e"])])
  {
    var graph := new Graph(["a", "d", "e"], map[]);
    r := graph.BuildOrder();
    OneGroupStaging(["a", "d", "e"], map[]);
    IndependentOrder(r.value);
  }

  method ChainBuildOrder() returns (r: Result<seq<VariableGroup>, BuildError>)
    ensures r.Success? && SameStages(r.value, ChainPlan())
  {
    var graph := new Graph(ChainNodes(), ChainDeps());
    r := graph.BuildOrder();
    ChainOutcome(r);
  }

  method FullBuildOrder() returns (r: Result<seq<VariableGroup>, BuildError>)
    ensures r.Success? && SameStages(r.value, FullPlan())
  {
    var graph := new Graph(FullNodes(), FullDeps());
    r := graph.BuildOrder();
    FullOutcome(r);
  }

  method MutualBuildOrder() returns (r: Result<seq<VariableGroup>, BuildError>)
    ensures r == Failure(CircularDependency)
  {
    var graph := new Graph(["a", "b"], map["a" := ["b"], "b" := ["a"]]);
    r := graph.BuildOrder();
    if r.Success? {
      MutualHasNoOrder(r.value);
    }
  }

  method SelfLoopBuildOrder() returns (r: Result<seq<VariableGroup>, BuildError>)
    ensures r == Failure(CircularDependency)
  {
    var graph := new Graph(["a"], map["a" := ["a"]]);
    r := graph.BuildOrder();
    if r.Success? {
      SelfLoopHasNoOrder(r.value);
    }
  }

  method TransitiveLoopBuildOrder() returns (r: Result<seq<VariableGroup>, BuildError>)
    ensures r == Failure(CircularDependency)
  {
    var graph := new Graph(FullNodes(), LoopDeps());
    r := graph.BuildOrder();
    if r.Success? {
      TransitiveLoopHasNoOrder(r.value);
    }
  }
}
