/** The dependency graph `newGraph(names, deps)` and its `buildOrder`: the
    variables are cut into groups, each group holding the variables whose
    dependencies all lie in earlier groups, every variable in the earliest
    group it can go in. */
module VariableGraph {
  import opened Results

  /** One stage of the plan; the order of names inside it carries no meaning. */
  datatype VariableGroup = VariableGroup(variables: seq<string>)

  /** The dependencies of `v`; a name without an entry has none. */
  function DepsOf(deps: map<string, seq<string>>, v: string): seq<string> {
    if v in deps then deps[v] else []
  }

  /** All names of a plan, group after group. */
  function Flatten(groups: seq<VariableGroup>): seq<string> {
    if groups == [] then []
    else Flatten(groups[..|groups| - 1]) + groups[|groups| - 1].variables
  }

  /** The index of the first group holding `v`, or `|groups|` when none does. */
  function GroupIndex(groups: seq<VariableGroup>, v: string): (k: nat)
    ensures k <= |groups|
    ensures k < |groups| ==> v in groups[k].variables
    ensures forall j :: 0 <= j < k ==> v !in groups[j].variables
  {
    if groups == [] then 0
    else if v in groups[0].variables then 0
    else 1 + GroupIndex(groups[1..], v)
  }

  /** Each group is non-empty and each of its names sits in no earlier group. */
  predicate WellFormed(groups: seq<VariableGroup>) {
    && (forall i :: 0 <= i < |groups| ==> groups[i].variables != [])
    && (forall i, v :: 0 <= i < |groups| && v in groups[i].variables ==> GroupIndex(groups, v) == i)
  }

  /** Every dependency of a name of `names` is in a strictly earlier group. */
  predicate DepsEarlier(deps: map<string, seq<string>>, groups: seq<VariableGroup>, names: set<string>) {
    forall v, d :: v in names && d in DepsOf(deps, v) ==> GroupIndex(groups, d) < GroupIndex(groups, v)
  }

  /** A name of `names` outside the first group has a dependency in the group
      just before its own, so it could not have gone any earlier. */
  predicate Tight(deps: map<string, seq<string>>, groups: seq<VariableGroup>, names: set<string>) {
    forall v :: v in names && 0 < GroupIndex(groups, v) ==>
      exists d :: d in DepsOf(deps, v) && Below(groups, d, v)
  }

  /** `d` sits in the group just before the group of `v`. */
  predicate Below(groups: seq<VariableGroup>, d: string, v: string) {
    GroupIndex(groups, d) == GroupIndex(groups, v) - 1
  }

  /** `groups` is a valid build order for the graph: every declared name
      occurs exactly as often as it is declared, the groups are well formed,
      and each declared name sits in the earliest group after all of its
      dependencies. */
  predicate IsStaging(nodes: seq<string>, deps: map<string, seq<string>>, groups: seq<VariableGroup>) {
    && multiset(Flatten(groups)) == multiset(nodes)
    && WellFormed(groups)
    && DepsEarlier(deps, groups, Elements(nodes))
    && Tight(deps, groups, Elements(nodes))
  }

  /** Two plans have as many groups and hold the same names, as often,
      group by group; only the order inside each group may differ. */
  predicate SameStages(a: seq<VariableGroup>, b: seq<VariableGroup>) {
    && |a| == |b|
    && forall i :: 0 <= i < |a| ==> multiset(a[i].variables) == multiset(b[i].variables)
  }

  /** A non-empty set of declared names each of which waits on a name of the
      set or on an undeclared name: none of them can ever be staged. */
  predicate IsStuck(nodes: seq<string>, deps: map<string, seq<string>>, stuck: set<string>) {
    && stuck != {}
    && (forall v :: v in stuck ==> v in nodes)
    && (forall v :: v in stuck ==> exists d :: d in DepsOf(deps, v) && (d in stuck || d !in nodes))
  }

  /** `cycle[0] -> cycle[1] -> ... -> cycle[0]` through declared names; a
      one-element cycle is a variable that depends on itself. */
  predicate IsCycle(nodes: seq<string>, deps: map<string, seq<string>>, cycle: seq<string>) {
    && |cycle| > 0
    && (forall i :: 0 <= i < |cycle| ==> cycle[i] in nodes)
    && (forall i :: 0 <= i < |cycle| ==> cycle[(i + 1) % |cycle|] in DepsOf(deps, cycle[i]))
  }

  /** All dependencies of `v` are already staged. */
  predicate Ready(deps: map<string, seq<string>>, placed: set<string>, v: string) {
    forall d :: d in DepsOf(deps, v) ==> d in placed
  }

  // ---------------------------------------------------------------------
  // Facts about plans

  lemma {:induction false} FlattenMembers(groups: seq<VariableGroup>, v: string)
    ensures v in Flatten(groups) <==> GroupIndex(groups, v) < |groups|
  {
    if groups != [] {
      var n := |groups| - 1;
      FlattenMembers(groups[..n], v);
      GroupIndexPrefix(groups[..n], groups[n], v);
      assert groups[..n] + [groups[n]] == groups;
    }
  }

  /** Appending a group leaves the index of every name already staged. */
  lemma {:induction false} GroupIndexPrefix(groups: seq<VariableGroup>, g: VariableGroup, v: string)
    ensures GroupIndex(groups + [g], v) ==
      if GroupIndex(groups, v) < |groups| then GroupIndex(groups, v)
      else if v in g.variables then |groups| else |groups| + 1
  {
    if groups != [] {
      assert (groups + [g])[1..] == groups[1..] + [g];
      GroupIndexPrefix(groups[1..], g, v);
    }
  }

  /** A name's index is the first group that holds it. */
  lemma {:induction false} GroupIndexOf(groups: seq<VariableGroup>, i: nat, v: string)
    requires i < |groups| && v in groups[i].variables
    requires forall j :: 0 <= j < i ==> v !in groups[j].variables
    ensures GroupIndex(groups, v) == i
  {
    if i > 0 {
      assert v !in groups[0].variables;
      GroupIndexOf(groups[1..], i - 1, v);
    }
  }

  lemma FlattenAppend(groups: seq<VariableGroup>, g: VariableGroup)
    ensures Flatten(groups + [g]) == Flatten(groups) + g.variables
  {
    assert (groups + [g])[..|groups|] == groups;
  }

  /** Under a staging, every name of a stuck set sits at group `k` or later. */
  lemma {:induction false} StuckLevel(nodes: seq<string>, deps: map<string, seq<string>>,
                                      groups: seq<VariableGroup>, stuck: set<string>, k: nat)
    requires IsStaging(nodes, deps, groups) && IsStuck(nodes, deps, stuck)
    ensures forall v :: v in stuck ==> GroupIndex(groups, v) >= k
  {
    if k > 0 {
      StuckLevel(nodes, deps, groups, stuck, k - 1);
      forall v | v in stuck ensures GroupIndex(groups, v) >= k {
        var d :| d in DepsOf(deps, v) && (d in stuck || d !in nodes);
        FlattenMembers(groups, d);
        assert d in multiset(Flatten(groups));
        assert d in stuck;
      }
    }
  }

  /** A stuck set rules out every build order. */
  lemma StuckBlocksStaging(nodes: seq<string>, deps: map<string, seq<string>>,
                           groups: seq<VariableGroup>, stuck: set<string>)
    requires IsStuck(nodes, deps, stuck)
    ensures !IsStaging(nodes, deps, groups)
  {
    if IsStaging(nodes, deps, groups) {
      var v :| v in stuck;
      StuckLevel(nodes, deps, groups, stuck, |groups| + 1);
      assert false;
    }
  }

  /** The names on a cycle form a stuck set. */
  lemma CycleIsStuck(nodes: seq<string>, deps: map<string, seq<string>>, cycle: seq<string>)
    requires IsCycle(nodes, deps, cycle)
    ensures IsStuck(nodes, deps, Elements(cycle))
  {
    assert cycle[0] in Elements(cycle);
    forall v | v in Elements(cycle)
      ensures exists d :: d in DepsOf(deps, v) && (d in Elements(cycle) || d !in nodes)
    {
      var i :| 0 <= i < |cycle| && cycle[i] == v;
      assert cycle[(i + 1) % |cycle|] in Elements(cycle);
    }
  }

  // ---------------------------------------------------------------------
  // The loop of `buildOrder`

  /** Every remaining name waited, at the last pass, on a name not yet staged
      before it. */
  predicate Waiting(deps: map<string, seq<string>>, groups: seq<VariableGroup>, remaining: seq<string>) {
    forall v :: v in remaining && 0 < |groups| ==>
      exists d :: d in DepsOf(deps, v) && GroupIndex(groups, d) >= |groups| - 1
  }

  /** The names staged so far and those remaining make up the declared ones,
      and `placed` is the set of staged names. */
  ghost predicate Partitioned(nodes: seq<string>, groups: seq<VariableGroup>, placed: set<string>, remaining: seq<string>) {
    && multiset(Flatten(groups)) + multiset(remaining) == multiset(nodes)
    && (forall v :: v in placed <==> v in Flatten(groups))
    && (forall v :: v in remaining ==> v !in placed)
  }

  /** What holds after each pass: `groups` stages `placed`, `remaining` is
      what is left, and nothing left could have been staged one pass earlier. */
  ghost predicate Progress(nodes: seq<string>, deps: map<string, seq<string>>,
                           groups: seq<VariableGroup>, placed: set<string>, remaining: seq<string>)
  {
    && Partitioned(nodes, groups, placed, remaining)
    && WellFormed(groups)
    && DepsEarlier(deps, groups, placed)
    && Tight(deps, groups, placed)
    && Waiting(deps, groups, remaining)
  }

  lemma ProgressInit(nodes: seq<string>, deps: map<string, seq<string>>)
    ensures Progress(nodes, deps, [], {}, nodes)
  {
  }

  /** The index of every name after appending the group `ready`. */
  lemma IndexAfterStep(groups: seq<VariableGroup>, placed: set<string>, ready: seq<string>)
    requires forall v :: v in placed <==> v in Flatten(groups)
    ensures forall v ::
      GroupIndex(groups + [VariableGroup(ready)], v) == (if v in placed then GroupIndex(groups, v) else if v in ready then |groups| else |groups| + 1)
    ensures forall v :: v in placed <==> GroupIndex(groups, v) < |groups|
  {
    forall v ensures GroupIndex(groups + [VariableGroup(ready)], v) ==
      if v in placed then GroupIndex(groups, v) else if v in ready then |groups| else |groups| + 1
    {
      GroupIndexPrefix(groups, VariableGroup(ready), v);
      FlattenMembers(groups, v);
    }
    forall v ensures v in placed <==> GroupIndex(groups, v) < |groups| {
      FlattenMembers(groups, v);
    }
  }

  lemma WellFormedStep(groups: seq<VariableGroup>, placed: set<string>, ready: seq<string>)
    requires WellFormed(groups)
    requires forall v :: v in placed <==> v in Flatten(groups)
    requires ready != [] && forall v :: v in ready ==> v !in placed
    ensures WellFormed(groups + [VariableGroup(ready)])
  {
    var groups' := groups + [VariableGroup(ready)];
    IndexAfterStep(groups, placed, ready);
    forall i, v | 0 <= i < |groups'| && v in groups'[i].variables
      ensures GroupIndex(groups', v) == i
    {
      if i < |groups| {
        assert groups'[i] == groups[i];
        assert v in placed;
      }
    }
  }

  lemma DepsEarlierStep(deps: map<string, seq<string>>, groups: seq<VariableGroup>, placed: set<string>,
                        ready: seq<string>)
    requires DepsEarlier(deps, groups, placed)
    requires forall v :: v in placed <==> v in Flatten(groups)
    requires forall v :: v in ready ==> Ready(deps, placed, v)
    ensures DepsEarlier(deps, groups + [VariableGroup(ready)], placed + Elements(ready))
  {
    IndexAfterStep(groups, placed, ready);
  }

  /** After appending the group `ready`, one staged name `v` still has a
      dependency in the group just before its own. */
  lemma TightAt(deps: map<string, seq<string>>, groups: seq<VariableGroup>, placed: set<string>,
                remaining: seq<string>, ready: seq<string>, v: string)
    requires Tight(deps, groups, placed) && Waiting(deps, groups, remaining)
    requires forall v :: v in placed <==> v in Flatten(groups)
    requires forall v :: v in ready ==> v in remaining && Ready(deps, placed, v)
    requires v in placed || v in ready
    requires 0 < GroupIndex(groups + [VariableGroup(ready)], v)
    ensures exists d :: d in DepsOf(deps, v) && Below(groups + [VariableGroup(ready)], d, v)
  {
    var g := VariableGroup(ready);
    GroupIndexPrefix(groups, g, v);
    FlattenMembers(groups, v);
    if v in placed {
      var d :| d in DepsOf(deps, v) && Below(groups, d, v);
      GroupIndexPrefix(groups, g, d);
    } else {
      var d :| d in DepsOf(deps, v) && GroupIndex(groups, d) >= |groups| - 1;
      assert d in placed;
      FlattenMembers(groups, d);
      GroupIndexPrefix(groups, g, d);
    }
  }

  lemma TightStep(deps: map<string, seq<string>>, groups: seq<VariableGroup>, placed: set<string>,
                  remaining: seq<string>, ready: seq<string>)
    requires Tight(deps, groups, placed) && Waiting(deps, groups, remaining)
    requires forall v :: v in placed <==> v in Flatten(groups)
    requires forall v :: v in ready ==> v in remaining && Ready(deps, placed, v)
    ensures Tight(deps, groups + [VariableGroup(ready)], placed + Elements(ready))
  {
    forall v | v in placed + Elements(ready) && 0 < GroupIndex(groups + [VariableGroup(ready)], v)
      ensures exists d :: d in DepsOf(deps, v) && Below(groups + [VariableGroup(ready)], d, v)
    {
      TightAt(deps, groups, placed, remaining, ready, v);
    }
  }

  lemma WaitingStep(deps: map<string, seq<string>>, groups: seq<VariableGroup>, placed: set<string>,
                    ready: seq<string>, rest: seq<string>)
    requires forall v :: v in placed <==> v in Flatten(groups)
    requires forall v :: v in rest ==> !Ready(deps, placed, v)
    ensures Waiting(deps, groups + [VariableGroup(ready)], rest)
  {
    var groups' := groups + [VariableGroup(ready)];
    IndexAfterStep(groups, placed, ready);
    forall v | v in rest && 0 < |groups'|
      ensures exists d :: d in DepsOf(deps, v) && GroupIndex(groups', d) >= |groups'| - 1
    {
      var d :| d in DepsOf(deps, v) && d !in placed;
    }
  }

  lemma PartitionStep(nodes: seq<string>, groups: seq<VariableGroup>, placed: set<string>,
                      remaining: seq<string>, ready: seq<string>, rest: seq<string>)
    requires Partitioned(nodes, groups, placed, remaining)
    requires multiset(ready) + multiset(rest) == multiset(remaining)
    requires forall v :: v in rest ==> v !in ready
    ensures Partitioned(nodes, groups + [VariableGroup(ready)], placed + Elements(ready), rest)
    ensures forall v :: v in ready ==> v in remaining && v !in placed
  {
    FlattenAppend(groups, VariableGroup(ready));
    assert forall v :: v in ready ==> v in multiset(remaining);
    assert forall v :: v in rest ==> v in multiset(remaining);
  }

  /** One pass of the loop keeps `Progress`. */
  lemma ProgressStep(nodes: seq<string>, deps: map<string, seq<string>>,
                     groups: seq<VariableGroup>, placed: set<string>, remaining: seq<string>,
                     ready: seq<string>, rest: seq<string>)
    requires Progress(nodes, deps, groups, placed, remaining)
    requires ready != []
    requires multiset(ready) + multiset(rest) == multiset(remaining)
    requires forall v :: v in ready ==> Ready(deps, placed, v)
    requires forall v :: v in rest ==> !Ready(deps, placed, v)
    ensures Progress(nodes, deps, groups + [VariableGroup(ready)], placed + Elements(ready), rest)
  {
    PartitionStep(nodes, groups, placed, remaining, ready, rest);
    WellFormedStep(groups, placed, ready);
    DepsEarlierStep(deps, groups, placed, ready);
    TightStep(deps, groups, placed, remaining, ready);
    WaitingStep(deps, groups, placed, ready, rest);
  }

  /** When the last pass staged nothing, what remains is stuck. */
  lemma ProgressStuck(nodes: seq<string>, deps: map<string, seq<string>>,
                      groups: seq<VariableGroup>, placed: set<string>, remaining: seq<string>,
                      rest: seq<string>)
    requires Progress(nodes, deps, groups, placed, remaining)
    requires remaining != []
    requires multiset(rest) == multiset(remaining)
    requires forall v :: v in rest ==> !Ready(deps, placed, v)
    ensures IsStuck(nodes, deps, Elements(remaining))
  {
    assert forall v :: v in remaining ==> v in multiset(rest);
    assert remaining[0] in Elements(remaining);
    forall v | v in Elements(remaining) ensures v in nodes {
      assert v in multiset(nodes);
    }
    forall v | v in Elements(remaining)
      ensures exists d :: d in DepsOf(deps, v) && (d in Elements(remaining) || d !in nodes)
    {
      assert v in multiset(rest);
      assert !Ready(deps, placed, v);
      var d :| d in DepsOf(deps, v) && d !in placed;
      if d in nodes {
        assert d in multiset(Flatten(groups)) + multiset(remaining);
      }
    }
  }

  /** When nothing remains, the groups are a valid build order. */
  lemma ProgressDone(nodes: seq<string>, deps: map<string, seq<string>>,
                     groups: seq<VariableGroup>, placed: set<string>)
    requires Progress(nodes, deps, groups, placed, [])
    ensures IsStaging(nodes, deps, groups)
  {
    forall v | v in nodes ensures v in placed {
      assert v in multiset(nodes);
    }
  }

  /** One pass: the remaining names whose dependencies are all staged, and
      the others, each in their original order. */
  method SplitReady(deps: map<string, seq<string>>, placed: set<string>, remaining: seq<string>)
    returns (ready: seq<string>, rest: seq<string>)
    ensures multiset(ready) + multiset(rest) == multiset(remaining)
    ensures |ready| + |rest| == |remaining|
    ensures forall v :: v in ready ==> Ready(deps, placed, v)
    ensures forall v :: v in rest ==> !Ready(deps, placed, v)
  {
    ready, rest := [], [];
    for i := 0 to |remaining|
      invariant multiset(ready) + multiset(rest) == multiset(remaining[..i])
      invariant |ready| + |rest| == i
      invariant forall v :: v in ready ==> Ready(deps, placed, v)
      invariant forall v :: v in rest ==> !Ready(deps, placed, v)
    {
      var v := remaining[i];
      assert remaining[..i + 1] == remaining[..i] + [v];
      if Ready(deps, placed, v) {
        ready := ready + [v];
      } else {
        rest := rest + [v];
      }
    }
    assert remaining[..|remaining|] == remaining;
  }

  // ---------------------------------------------------------------------
  // The graph object

  class Graph {
    var nodes: seq<string>
    var dependencies: map<string, seq<string>>

    /** `newGraph(names, deps)`. */
    constructor (nodes: seq<string>, dependencies: map<string, seq<string>>)
      ensures this.nodes == nodes && this.dependencies == dependencies
    {
      this.nodes := nodes;
      this.dependencies := dependencies;
    }

    /** `buildOrder`: peels off, pass after pass, every remaining name whose
        dependencies are all staged, in declaration order; a pass that stages
        nothing while names remain is a circular dependency. */
    method BuildOrder() returns (r: Result<seq<VariableGroup>, BuildError>)
      ensures r.Success? ==> IsStaging(nodes, dependencies, r.value)
      ensures r.Failure? ==> r.error == CircularDependency && exists stuck :: IsStuck(nodes, dependencies, stuck)
      ensures r.Failure? ==> forall groups :: !IsStaging(nodes, dependencies, groups)
    {
      var groups: seq<VariableGroup> := [];
      var placed: set<string> := {};
      var remaining := nodes;
      ProgressInit(nodes, dependencies);
      while remaining != []
        invariant Progress(nodes, dependencies, groups, placed, remaining)
        decreases |remaining|
      {
        var ready, rest := SplitReady(dependencies, placed, remaining);
        if ready == [] {
          ProgressStuck(nodes, dependencies, groups, placed, remaining, rest);
          forall g ensures !IsStaging(nodes, dependencies, g) {
            StuckBlocksStaging(nodes, dependencies, g, Elements(remaining));
          }
          return Failure(CircularDependency);
        }
        ProgressStep(nodes, dependencies, groups, placed, remaining, ready, rest);
        groups := groups + [VariableGroup(ready)];
        placed := placed + Elements(ready);
        remaining := rest;
      }
      ProgressDone(nodes, dependencies, groups, placed);
      r := Success(groups);
    }
  }
}
