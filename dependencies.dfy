/** Extraction of the dependency map `buildVariableDependencies`: for every
    list variable, the declared variables its plugin spec references. */
module VariableDependencies {
  import opened ReferenceScanner
  import opened PluginSpec
  import opened Results

  /** Text variables hold a constant; list variables are computed by a plugin. */
  datatype VariableKind = KindText | KindList

  /** A declared variable. A text variable's spec is its constant value. */
  datatype Variable = Variable(kind: VariableKind, name: string, spec: Value)

  function VariableNames(vars: seq<Variable>): seq<string> {
    seq(|vars|, i requires 0 <= i < |vars| => vars[i].name)
  }

  /** The tokens a variable contributes: a text variable is a leaf and
      contributes none, whatever its value. */
  function VariableTokens(v: Variable): seq<string> {
    if v.kind == KindText then [] else ValueTokens(v.spec)
  }

  /** A text variable has no tokens, whatever its value; the tokens of a list
      variable are exactly the names captured from the strings of its spec. */
  lemma VariableTokensFromStrings(v: Variable)
    ensures v.kind == KindText ==> VariableTokens(v) == []
    ensures v.kind == KindList ==>
      forall t :: t in VariableTokens(v) <==> exists s :: HasString(v.spec, s) && t in Tokens(s)
  {
    SpecTokensFromStrings(v.spec);
  }

  /** The names a variable references: its tokens, less the all-digit ones. */
  function ReferencedNames(v: Variable): set<string> {
    set t | t in VariableTokens(v) && !IsNumeric(t)
  }

  /** A token that is a reference to no declared variable. */
  predicate Undefined(t: string, declared: set<string>) {
    !IsNumeric(t) && t !in declared
  }

  /** Checks the tokens of one variable left to right: an all-digit token is
      skipped, the first undefined one is returned as the error, and the
      others are collected once each. */
  function ResolveReferences(tokens: seq<string>, declared: set<string>): (r: Result<seq<string>, string>)
    ensures r.Success? <==> forall t :: t in tokens ==> !Undefined(t, declared)
    ensures r.Success? ==> Distinct(r.value)
    ensures r.Success? ==> forall t :: t in r.value <==> t in tokens && !IsNumeric(t)
    ensures r.Failure? ==>
      exists i :: 0 <= i < |tokens| && tokens[i] == r.error && Undefined(r.error, declared) &&
        forall j :: 0 <= j < i ==> !Undefined(tokens[j], declared)
  {
    if tokens == [] then Success([])
    else
      var t := tokens[0];
      if IsNumeric(t) then
        assert forall i :: 0 <= i < |tokens[1..]| ==> tokens[1..][i] == tokens[i + 1];
        ResolveReferences(tokens[1..], declared)
      else if t !in declared then
        assert tokens[0] in tokens && Undefined(tokens[0], declared);
        Failure(t)
      else
        match ResolveReferences(tokens[1..], declared)
        case Failure(missing) =>
          assert forall i :: 0 <= i < |tokens[1..]| ==> tokens[1..][i] == tokens[i + 1];
          Failure(missing)
        case Success(deps) =>
          Success(if t in deps then deps else [t] + deps)
  }

  /** Variable `i` is the first whose references are not all declared, and
      `e` reports the first undefined reference it makes. */
  predicate ReportsFirstUndefined(vars: seq<Variable>, declared: set<string>, i: int, e: BuildError) {
    && 0 <= i < |vars|
    && ResolveReferences(VariableTokens(vars[i]), declared).Failure?
    && e == UndefinedVariable(ResolveReferences(VariableTokens(vars[i]), declared).error, vars[i].name)
    && forall j :: 0 <= j < i ==> ReferencedNames(vars[j]) <= declared
  }

  /** A variable's tokens resolve exactly when every name it references is declared. */
  lemma ResolvesWhenDeclared(v: Variable, declared: set<string>)
    ensures ResolveReferences(VariableTokens(v), declared).Success? <==> ReferencedNames(v) <= declared
  {
    if !ResolveReferences(VariableTokens(v), declared).Success? {
      var t :| t in VariableTokens(v) && Undefined(t, declared);
      assert t in ReferencedNames(v);
    }
  }

  /** The first failing variable of `vars[1..]` is the first of `vars` when
      `vars[0]` resolves. */
  lemma ReportsAfterFirst(vars: seq<Variable>, declared: set<string>, i: int, e: BuildError)
    requires vars != [] && ReferencedNames(vars[0]) <= declared
    requires ReportsFirstUndefined(vars[1..], declared, i, e)
    ensures ReportsFirstUndefined(vars, declared, i + 1, e)
  {
    assert vars[1..][i] == vars[i + 1];
    forall j | 0 <= j < i + 1 ensures ReferencedNames(vars[j]) <= declared {
      if j > 0 {
        assert vars[1..][j - 1] == vars[j];
      }
    }
  }

  /** Builds the map over `vars` in order; a variable without references gets
      no entry, and of two variables with one name the later entry is kept. */
  function CollectDependencies(vars: seq<Variable>, declared: set<string>): (r: Result<map<string, seq<string>>, BuildError>)
    ensures r.Success? <==> forall i :: 0 <= i < |vars| ==> ReferencedNames(vars[i]) <= declared
    ensures r.Failure? ==> exists i :: ReportsFirstUndefined(vars, declared, i, r.error)
  {
    if vars == [] then Success(map[])
    else
      var v := vars[0];
      ResolvesWhenDeclared(v, declared);
      match ResolveReferences(VariableTokens(v), declared)
      case Failure(missing) =>
        assert ReportsFirstUndefined(vars, declared, 0, UndefinedVariable(missing, v.name));
        Failure(UndefinedVariable(missing, v.name))
      case Success(deps) =>
        match CollectDependencies(vars[1..], declared)
        case Failure(e) =>
          ghost var i :| ReportsFirstUndefined(vars[1..], declared, i, e);
          ReportsAfterFirst(vars, declared, i, e);
          Failure(e)
        case Success(m) =>
          assert forall i :: 0 <= i < |vars[1..]| ==> vars[1..][i] == vars[i + 1];
          Success(if deps == [] || v.name in m then m else m[v.name := deps])
  }

  /** Each entry of a successfully built map lists, once each, the names
      referenced by a variable of that name, and every variable that
      references something has an entry. */
  lemma {:induction false} CollectedEntries(vars: seq<Variable>, declared: set<string>)
    requires CollectDependencies(vars, declared).Success?
    ensures forall k :: k in CollectDependencies(vars, declared).value ==>
      var deps := CollectDependencies(vars, declared).value[k];
      deps != [] && Distinct(deps) &&
      exists i :: 0 <= i < |vars| && vars[i].name == k && Elements(deps) == ReferencedNames(vars[i])
    ensures forall i :: 0 <= i < |vars| && ReferencedNames(vars[i]) != {} ==>
      vars[i].name in CollectDependencies(vars, declared).value
  {
    if vars != [] {
      var v := vars[0];
      var deps := ResolveReferences(VariableTokens(v), declared).value;
      assert Elements(deps) == ReferencedNames(v);
      CollectedEntries(vars[1..], declared);
      var m := CollectDependencies(vars[1..], declared).value;
      assert forall i :: 0 <= i < |vars[1..]| ==> vars[1..][i] == vars[i + 1];
      var r := CollectDependencies(vars, declared).value;
      assert r == if deps == [] || v.name in m then m else m[v.name := deps];
      forall k | k in r
        ensures exists i :: 0 <= i < |vars| && vars[i].name == k && Elements(r[k]) == ReferencedNames(vars[i])
      {
        if k in m {
          var i :| 0 <= i < |vars[1..]| && vars[1..][i].name == k && Elements(m[k]) == ReferencedNames(vars[1..][i]);
          assert vars[i + 1].name == k;
        } else {
          assert vars[0].name == k;
        }
      }
      forall i | 0 <= i < |vars| && ReferencedNames(vars[i]) != {} ensures vars[i].name in r {
        if i == 0 {
          assert deps != [];
        } else {
          assert vars[1..][i - 1] == vars[i];
        }
      }
    }
  }

  /** `buildVariableDependencies`: the dependency map of the declared
      variables, or the first reference to an undeclared one. */
  function BuildVariableDependencies(vars: seq<Variable>): (r: Result<map<string, seq<string>>, BuildError>)
    ensures r.Success? <==> forall i :: 0 <= i < |vars| ==> ReferencedNames(vars[i]) <= Elements(VariableNames(vars))
    ensures r.Failure? ==> exists i :: ReportsFirstUndefined(vars, Elements(VariableNames(vars)), i, r.error)
  {
    CollectDependencies(vars, Elements(VariableNames(vars)))
  }

  /** With distinct names, a variable has an entry exactly when it references
      something (so never when it is a text variable), and its entry lists
      each referenced name once. */
  lemma DependencyEntry(vars: seq<Variable>, i: int)
    requires Distinct(VariableNames(vars))
    requires 0 <= i < |vars|
    requires BuildVariableDependencies(vars).Success?
    ensures vars[i].name in BuildVariableDependencies(vars).value <==> ReferencedNames(vars[i]) != {}
    ensures vars[i].name in BuildVariableDependencies(vars).value ==>
      Distinct(BuildVariableDependencies(vars).value[vars[i].name]) &&
      Elements(BuildVariableDependencies(vars).value[vars[i].name]) == ReferencedNames(vars[i])
  {
    CollectedEntries(vars, Elements(VariableNames(vars)));
    var m := BuildVariableDependencies(vars).value;
    var k := vars[i].name;
    if k in m {
      var j :| 0 <= j < |vars| && vars[j].name == k && Elements(m[k]) == ReferencedNames(vars[j]);
      assert VariableNames(vars)[i] == k && VariableNames(vars)[j] == k;
      assert j == i;
      assert m[k][0] in Elements(m[k]);
    }
  }

  /** Every entry of the map belongs to a declared variable and lists only
      declared, non-numeric names. */
  lemma DependenciesAreDeclared(vars: seq<Variable>)
    requires BuildVariableDependencies(vars).Success?
    ensures forall k :: k in BuildVariableDependencies(vars).value ==> k in VariableNames(vars)
    ensures forall k, d :: k in BuildVariableDependencies(vars).value && d in BuildVariableDependencies(vars).value[k] ==>
      d in VariableNames(vars) && !IsNumeric(d)
  {
    var declared := Elements(VariableNames(vars));
    CollectedEntries(vars, declared);
    var m := BuildVariableDependencies(vars).value;
    forall k | k in m ensures k in VariableNames(vars) && forall d :: d in m[k] ==> d in declared && !IsNumeric(d) {
      var j :| 0 <= j < |vars| && vars[j].name == k && Elements(m[k]) == ReferencedNames(vars[j]);
      assert VariableNames(vars)[j] == k;
      assert ReferencedNames(vars[j]) <= declared;
      forall d | d in m[k] ensures d in declared && !IsNumeric(d) {
        assert d in Elements(m[k]);
      }
    }
  }
}
