/** `BuildVariableOrder`: the dependencies of the declared variables, then
    the build order of the graph of their names. */
module VariableBuildOrder {
  import opened Results
  import opened VariableDependencies
  import opened VariableGraph

  /** An undefined reference is reported as it is; otherwise the result is
      that of `buildOrder` on the graph of the declared names and the
      dependency map: a valid build order, or a circular dependency when
      there is none. */
  method BuildVariableOrder(vars: seq<Variable>) returns (r: Result<seq<VariableGroup>, BuildError>)
    ensures BuildVariableDependencies(vars).Failure? ==> r == Failure(BuildVariableDependencies(vars).error)
    ensures BuildVariableDependencies(vars).Success? && r.Success? ==>
      IsStaging(VariableNames(vars), BuildVariableDependencies(vars).value, r.value)
    ensures BuildVariableDependencies(vars).Success? && r.Failure? ==>
      r.error == CircularDependency &&
      forall groups :: !IsStaging(VariableNames(vars), BuildVariableDependencies(vars).value, groups)
  {
    var deps := BuildVariableDependencies(vars);
    if deps.Failure? {
      return Failure(deps.error);
    }
    var graph := new Graph(VariableNames(vars), deps.value);
    r := graph.BuildOrder();
  }
}
