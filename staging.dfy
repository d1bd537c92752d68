/** A build order is unique up to the order of names inside each group, which
    is why the plan can be compared group by group as multisets. */
module StagingUniqueness {
  import opened Results
  import opened VariableGraph

  /** Two build orders of the same graph place every declared name at the
      same level; shown for names at level `k` of `b`, by strong induction. */
  lemma {:induction false} SameLevel(nodes: seq<string>, deps: map<string, seq<string>>,
                                     a: seq<VariableGroup>, b: seq<VariableGroup>, k: nat)
    requires IsStaging(nodes, deps, a) && IsStaging(nodes, deps, b)
    ensures forall v :: v in nodes && GroupIndex(b, v) == k ==> GroupIndex(a, v) == k
    decreases k
  {
    forall v | v in nodes && GroupIndex(b, v) == k ensures GroupIndex(a, v) == k {
      // Every dependency of v is declared and, below level k, already agrees.
      forall d | d in DepsOf(deps, v) ensures GroupIndex(a, d) == GroupIndex(b, d) {
        FlattenMembers(b, d);
        assert d in multiset(Flatten(b));
        SameLevel(nodes, deps, a, b, GroupIndex(b, d));
      }
      if k > 0 {
        var d :| d in DepsOf(deps, v) && GroupIndex(b, d) == k - 1;
        assert GroupIndex(a, d) == k - 1;
      }
    }
  }

  /** The level of a declared name is the same in every build order. */
  lemma LevelsAgree(nodes: seq<string>, deps: map<string, seq<string>>,
                    a: seq<VariableGroup>, b: seq<VariableGroup>, v: string)
    requires IsStaging(nodes, deps, a) && IsStaging(nodes, deps, b)
    requires v in nodes
    ensures GroupIndex(a, v) == GroupIndex(b, v)
  {
    SameLevel(nodes, deps, a, b, GroupIndex(b, v));
  }

  /** How often a name occurs in a plan is how often it occurs in its own group. */
  lemma {:induction false} CountInOwnGroup(groups: seq<VariableGroup>, v: string)
    requires forall i, v :: 0 <= i < |groups| && v in groups[i].variables ==> GroupIndex(groups, v) == i
    ensures multiset(Flatten(groups))[v] ==
      if GroupIndex(groups, v) < |groups| then multiset(groups[GroupIndex(groups, v)].variables)[v] else 0
  {
    if groups != [] {
      var n := |groups| - 1;
      var init := groups[..n];
      assert init + [groups[n]] == groups;
      forall i, w | 0 <= i < |init| && w in init[i].variables
        ensures GroupIndex(init, w) == i
      {
        assert groups[i] == init[i];
        GroupIndexPrefix(init, groups[n], w);
      }
      CountInOwnGroup(init, v);
      GroupIndexPrefix(init, groups[n], v);
    }
  }

  /** Every name of a plan is declared. */
  lemma NamedInPlan(nodes: seq<string>, deps: map<string, seq<string>>,
                    groups: seq<VariableGroup>, i: nat, j: nat)
    requires IsStaging(nodes, deps, groups)
    requires i < |groups| && j < |groups[i].variables|
    ensures groups[i].variables[j] in nodes
  {
    var v := groups[i].variables[j];
    FlattenMembers(groups, v);
    assert v in multiset(Flatten(groups));
  }

  /** Group `i` of a build order holds a name exactly as often as it is
      declared when the name's level is `i`, and never otherwise. */
  lemma GroupMultiplicity(nodes: seq<string>, deps: map<string, seq<string>>,
                          groups: seq<VariableGroup>, i: nat, v: string)
    requires IsStaging(nodes, deps, groups)
    requires i < |groups|
    ensures multiset(groups[i].variables)[v] ==
      if v in nodes && GroupIndex(groups, v) == i then multiset(nodes)[v] else 0
  {
    CountInOwnGroup(groups, v);
    if v in groups[i].variables {
      var j :| 0 <= j < |groups[i].variables| && groups[i].variables[j] == v;
      NamedInPlan(nodes, deps, groups, i, j);
    }
  }

  /** A build order has no more groups than any other: its last group holds
      a declared name, which every build order places at that same level. */
  lemma NoLonger(nodes: seq<string>, deps: map<string, seq<string>>,
                 a: seq<VariableGroup>, b: seq<VariableGroup>)
    requires IsStaging(nodes, deps, a) && IsStaging(nodes, deps, b)
    ensures |a| <= |b|
  {
    if |a| > 0 {
      var v := a[|a| - 1].variables[0];
      assert GroupIndex(a, v) == |a| - 1;
      NamedInPlan(nodes, deps, a, |a| - 1, 0);
      LevelsAgree(nodes, deps, a, b, v);
      FlattenMembers(b, v);
      assert v in multiset(Flatten(b));
    }
  }

  /** Two build orders of the same graph have as many groups, and their
      groups hold the same names as often, position by position. */
  lemma StagingUnique(nodes: seq<string>, deps: map<string, seq<string>>,
                      a: seq<VariableGroup>, b: seq<VariableGroup>)
    requires IsStaging(nodes, deps, a) && IsStaging(nodes, deps, b)
    ensures SameStages(a, b)
  {
    NoLonger(nodes, deps, a, b);
    NoLonger(nodes, deps, b, a);
    forall i | 0 <= i < |a| ensures multiset(a[i].variables) == multiset(b[i].variables) {
      forall v ensures multiset(a[i].variables)[v] == multiset(b[i].variables)[v] {
        GroupMultiplicity(nodes, deps, a, i, v);
        GroupMultiplicity(nodes, deps, b, i, v);
        if v in nodes {
          LevelsAgree(nodes, deps, a, b, v);
        }
      }
    }
  }

  /** Names without dependencies fit in a single group. */
  lemma OneGroupStaging(nodes: seq<string>, deps: map<string, seq<string>>)
    requires nodes != [] && forall v :: v in nodes ==> DepsOf(deps, v) == []
    ensures IsStaging(nodes, deps, [VariableGroup(nodes)])
  {
    var plan := [VariableGroup(nodes)];
    FlattenAppend([], VariableGroup(nodes));
    assert [] + [VariableGroup(nodes)] == plan;
    forall v | v in nodes ensures GroupIndex(plan, v) == 0 {
      GroupIndexOf(plan, 0, v);
    }
  }

  /** Names without dependencies all go in one group, and no names give no
      groups at all. */
  lemma IndependentNames(nodes: seq<string>, deps: map<string, seq<string>>, groups: seq<VariableGroup>)
    requires forall v :: v in nodes ==> DepsOf(deps, v) == []
    requires IsStaging(nodes, deps, groups)
    ensures nodes == [] ==> groups == []
    ensures nodes != [] ==> SameStages(groups, [VariableGroup(nodes)])
  {
    if nodes == [] {
      assert IsStaging(nodes, deps, []);
      StagingUnique(nodes, deps, groups, []);
    } else {
      OneGroupStaging(nodes, deps);
      StagingUnique(nodes, deps, groups, [VariableGroup(nodes)]);
    }
  }
}
