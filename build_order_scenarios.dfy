/** The variable lists exercised by the repository's tests of
    `BuildVariableOrder`. */
module BuildOrderScenarios {
  import opened Results
  import opened VariableDependencies
  import opened VariableGraph
  import opened StagingUniqueness
  import opened DependencyScenarios
  import opened VariableBuildOrder

  // ---------------------------------------------------------------------
  // "no variable" and "constant variable, no dep"

  /** No variables give no groups at all. */
  method NoVariablesOrder() returns (r: Result<seq<VariableGroup>, BuildError>)
    ensures r == Success([])
  {
    r := BuildVariableOrder([]);
    EmptyDependencies();
    assert VariableNames([]) == [];
    if r.Success? {
      IndependentNames([], map[], r.value);
    } else {
      assert IsStaging([], map[], []);
    }
  }

  /** A lone constant makes a single group. */
  method ConstantOrder() returns (r: Result<seq<VariableGroup>, BuildError>)
    ensures r.Success? && SameStages(r.value, [VariableGroup(["myVariable"])])
  {
    r := BuildVariableOrder([Constant("myVariable")]);
    ConstantDependencies();
    assert VariableNames([Constant("myVariable")]) == ["myVariable"];
    OneGroupStaging(["myVariable"], map[]);
    if r.Success? {
      IndependentNames(["myVariable"], map[], r.value);
    }
  }

  // ---------------------------------------------------------------------
  // "multiple usage of same variable"

  /** The variables of the example: the query of myVariable uses doe, bar,
      foo and bar again; bar's query uses foo. */
  function RepeatVariables(): seq<Variable> {
    TestList(QueryVariable("myVariable", RepeatQuery()))
  }

  function RepeatNodes(): seq<string> { ["myVariable", "foo", "bar", "doe"] }
  function RepeatDeps(): map<string, seq<string>> { map["myVariable" := ["doe", "foo", "bar"], "bar" := ["foo"]] }
  function RepeatPlan(): seq<VariableGroup> {
    [VariableGroup(["doe", "foo"]), VariableGroup(["bar"]), VariableGroup(["myVariable"])]
  }

  lemma RepeatFlatten()
    ensures multiset(Flatten(RepeatPlan())) == multiset(RepeatNodes())
  {
    var plan := RepeatPlan();
    FlattenAppend([], plan[0]);
    FlattenAppend(plan[..1], plan[1]);
    FlattenAppend(plan[..2], plan[2]);
    assert plan[..1] == [] + [plan[0]] && plan[..2] == plan[..1] + [plan[1]] && plan == plan[..2] + [plan[2]];
    assert Flatten(plan) == ["doe", "foo"] + ["bar"] + ["myVariable"];
    assert RepeatNodes() == ["myVariable"] + ["foo"] + ["bar"] + ["doe"];
  }

  lemma RepeatLevels()
    ensures GroupIndex(RepeatPlan(), "doe") == 0 && GroupIndex(RepeatPlan(), "foo") == 0
    ensures GroupIndex(RepeatPlan(), "bar") == 1 && GroupIndex(RepeatPlan(), "myVariable") == 2
  {
    var plan := RepeatPlan();
    GroupIndexOf(plan, 0, "doe");
    GroupIndexOf(plan, 0, "foo");
    GroupIndexOf(plan, 1, "bar");
    GroupIndexOf(plan, 2, "myVariable");
  }

  lemma RepeatGroups()
    ensures WellFormed(RepeatPlan())
  {
    RepeatLevels();
  }

  lemma RepeatEarlier()
    ensures DepsEarlier(RepeatDeps(), RepeatPlan(), Elements(RepeatNodes()))
  {
    RepeatLevels();
  }

  lemma RepeatTight()
    ensures Tight(RepeatDeps(), RepeatPlan(), Elements(RepeatNodes()))
  {
    RepeatLevels();
    forall v | v in Elements(RepeatNodes()) && 0 < GroupIndex(RepeatPlan(), v)
      ensures exists w :: w in DepsOf(RepeatDeps(), v) && Below(RepeatPlan(), w, v)
    {
      if v == "myVariable" {
        assert "bar" in DepsOf(RepeatDeps(), v);
      } else {
        assert "foo" in DepsOf(RepeatDeps(), v);
      }
    }
  }

  lemma RepeatPlanIsStaging()
    ensures IsStaging(RepeatNodes(), RepeatDeps(), RepeatPlan())
  {
    RepeatFlatten();
    RepeatGroups();
    RepeatEarlier();
    RepeatTight();
  }

  /** The graph of the example is staged {doe, foo}, {bar}, {myVariable}, and
      in no other way up to the order inside a group. */
  lemma RepeatOrder(groups: seq<VariableGroup>)
    requires IsStaging(RepeatNodes(), RepeatDeps(), groups)
    ensures SameStages(groups, RepeatPlan())
  {
    RepeatPlanIsStaging();
    StagingUnique(RepeatNodes(), RepeatDeps(), groups, RepeatPlan());
  }

  /** The declared names and the dependency map of the example. */
  lemma RepeatGraph()
    ensures VariableNames(RepeatVariables()) == RepeatNodes()
    ensures BuildVariableDependencies(RepeatVariables()) == Success(RepeatDeps())
  {
    TestListNames(QueryVariable("myVariable", RepeatQuery()));
    RepeatDependencies();
  }

  lemma RepeatOutcome(r: Result<seq<VariableGroup>, BuildError>)
    requires r.Success? ==> IsStaging(RepeatNodes(), RepeatDeps(), r.value)
    requires r.Failure? ==> forall groups :: !IsStaging(RepeatNodes(), RepeatDeps(), groups)
    ensures r.Success? && SameStages(r.value, RepeatPlan())
  {
    assert r.Success? by {
      RepeatPlanIsStaging();
    }
    RepeatOrder(r.value);
  }

  /** The four variables of the example come out as doe and foo, then bar,
      then myVariable. */
  method RepeatBuildOrder() returns (r: Result<seq<VariableGroup>, BuildError>)
    ensures r.Success? && SameStages(r.value, RepeatPlan())
  {
    r := BuildVariableOrder(RepeatVariables());
    RepeatGraph();
    RepeatOutcome(r);
  }

  /** An undefined reference stops `BuildVariableOrder` before any ordering. */
  method UndefinedOrder() returns (r: Result<seq<VariableGroup>, BuildError>)
    ensures r == Failure(UndefinedVariable("doe", "myVariable"))
  {
    r := BuildVariableOrder([QueryVariable("myVariable", RepeatQuery())]);
    UndefinedReference();
  }
}
