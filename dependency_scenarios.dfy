/** The variable lists exercised by the repository's tests of
    `buildVariableDependencies`, with the query texts written as plain text
    and `$name` references. */
module DependencyScenarios {
  import opened ReferenceScanner
  import opened PluginSpec
  import opened Results
  import opened VariableDependencies

  /** A list variable whose plugin spec is `{"expr": query}`. */
  function QueryVariable(name: string, query: string): Variable {
    Variable(KindList, name, Object([Field("expr", Str(query))]))
  }

  /** A text variable holding `myConstant`. */
  function Constant(name: string): Variable {
    Variable(KindText, name, Str("myConstant"))
  }

  /** `sum by($doe) (rate($foo{label='$bar'}))` */
  function MixedQuery(): string {
    Interpolate("sum by(", [Ref("doe", ") (rate("), Ref("foo", "{label='"), Ref("bar", "'}))")])
  }

  /** `vector($foo)` */
  function VectorQuery(): string {
    Interpolate("vector(", [Ref("foo", ")")])
  }

  lemma MixedTokens()
    ensures Tokens(MixedQuery()) == ["doe", "foo", "bar"]
  {
    var refs := [Ref("doe", ") (rate("), Ref("foo", "{label='"), Ref("bar", "'}))")];
    TokensOfInterpolation("sum by(", refs);
  }

  lemma VectorTokens()
    ensures Tokens(VectorQuery()) == ["foo"]
  {
    TokensOfInterpolation("vector(", [Ref("foo", ")")]);
  }

  lemma TestTokens()
    ensures Tokens("test") == []
  {
    TokensPlain("test");
  }

  lemma QueryTokens(name: string, query: string)
    ensures VariableTokens(QueryVariable(name, query)) == Tokens(query)
  {
    assert FieldsTokens([Field("expr", Str(query))]) == Tokens(query) + FieldsTokens([]);
  }

  // ---------------------------------------------------------------------
  // Resolving a token list, one token at a time

  /** A declared reference joins the references resolved after it unless it
      is already among them. */
  lemma ResolveStep(tokens: seq<string>, declared: set<string>, deps: seq<string>)
    requires tokens != [] && tokens[0] in declared && !IsNumeric(tokens[0])
    requires ResolveReferences(tokens[1..], declared) == Success(deps)
    ensures ResolveReferences(tokens, declared) ==
      Success(if tokens[0] in deps then deps else [tokens[0]] + deps)
  {
  }

  /** An all-digit token is passed over. */
  lemma ResolveSkip(tokens: seq<string>, declared: set<string>)
    requires tokens != [] && IsNumeric(tokens[0])
    ensures ResolveReferences(tokens, declared) == ResolveReferences(tokens[1..], declared)
  {
  }

  /** Declared, distinct references come out as they are. */
  lemma {:induction false} ResolveDeclared(tokens: seq<string>, declared: set<string>)
    requires forall t :: t in tokens ==> t in declared && !IsNumeric(t)
    requires Distinct(tokens)
    ensures ResolveReferences(tokens, declared) == Success(tokens)
  {
    if tokens != [] {
      assert forall i :: 0 <= i < |tokens[1..]| ==> tokens[1..][i] == tokens[i + 1];
      ResolveDeclared(tokens[1..], declared);
      assert tokens[0] !in tokens[1..];
      assert [tokens[0]] + tokens[1..] == tokens;
    }
  }

  /** `$a $b $c $b`: the repeated name is listed once, at its last place. */
  lemma ResolveRepeated(a: string, b: string, c: string, declared: set<string>)
    requires a in declared && b in declared && c in declared
    requires !IsNumeric(a) && !IsNumeric(b) && !IsNumeric(c)
    requires a != b && a != c && b != c
    ensures ResolveReferences([a, b, c, b], declared) == Success([a, c, b])
  {
    assert [b][1..] == [] && [b] + [] == [b];
    ResolveStep([b], declared, []);
    assert [c, b][1..] == [b] && [c] + [b] == [c, b];
    ResolveStep([c, b], declared, [b]);
    assert [b, c, b][1..] == [c, b] && b in [c, b];
    ResolveStep([b, c, b], declared, [c, b]);
    assert [a, b, c, b][1..] == [b, c, b] && [a] + [c, b] == [a, c, b];
    ResolveStep([a, b, c, b], declared, [c, b]);
  }

  /** `$a $a $b`: a name used twice in a row is listed once. */
  lemma ResolveLeadingRepeat(a: string, b: string, declared: set<string>)
    requires a in declared && b in declared && !IsNumeric(a) && !IsNumeric(b) && a != b
    ensures ResolveReferences([a, a, b], declared) == Success([a, b])
  {
    assert [b][1..] == [] && [b] + [] == [b];
    ResolveStep([b], declared, []);
    assert [a, b][1..] == [b] && [a] + [b] == [a, b];
    ResolveStep([a, b], declared, [b]);
    assert [a, a, b][1..] == [a, b] && a in [a, b];
    ResolveStep([a, a, b], declared, [a, b]);
  }

  /** `$s $e $n` with `n` all digits: the number is dropped. */
  lemma ResolveNumberLast(s: string, e: string, n: string, declared: set<string>)
    requires s in declared && e in declared && !IsNumeric(s) && !IsNumeric(e) && IsNumeric(n) && s != e
    ensures ResolveReferences([s, e, n], declared) == Success([s, e])
  {
    assert [n][1..] == [] && [e, n][1..] == [n] && [e] + [] == [e];
    ResolveSkip([n], declared);
    ResolveStep([e, n], declared, []);
    assert [s, e, n][1..] == [e, n] && [s] + [e] == [s, e];
    ResolveStep([s, e, n], declared, [e]);
  }

  /** Kept apart from `ResolveWithNumber`, whose context makes this sequence
      identity expensive. */
  lemma PrependFour(a: string, b: string, c: string, d: string)
    ensures [a] + [b, c, d] == [a, b, c, d]
  {
  }

  /** `$s $k $s $e $n`: the repeated `s` keeps its last place. */
  lemma ResolveNumberRepeat(s: string, k: string, e: string, n: string, declared: set<string>)
    requires s in declared && k in declared && e in declared
    requires !IsNumeric(s) && !IsNumeric(k) && !IsNumeric(e) && IsNumeric(n)
    requires s != k && s != e && k != e
    ensures ResolveReferences([s, k, s, e, n], declared) == Success([k, s, e])
  {
    ResolveNumberLast(s, e, n, declared);
    assert [k, s, e, n][1..] == [s, e, n] && [k] + [s, e] == [k, s, e];
    ResolveStep([k, s, e, n], declared, [s, e]);
    assert [s, k, s, e, n][1..] == [k, s, e, n] && s in [k, s, e];
    ResolveStep([s, k, s, e, n], declared, [k, s, e]);
  }

  /** `$p $s $k $s $e $n` with `n` all digits: the number is dropped and the
      repeated `s` is listed once, at its last place. */
  lemma ResolveWithNumber(p: string, s: string, k: string, e: string, n: string, declared: set<string>)
    requires p in declared && s in declared && k in declared && e in declared
    requires !IsNumeric(p) && !IsNumeric(s) && !IsNumeric(k) && !IsNumeric(e) && IsNumeric(n)
    requires p != s && p != k && p != e && s != k && s != e && k != e
    ensures ResolveReferences([p, s, k, s, e, n], declared) == Success([p, k, s, e])
  {
    ResolveNumberRepeat(s, k, e, n, declared);
    assert [p, s, k, s, e, n][1..] == [s, k, s, e, n];
    ResolveStep([p, s, k, s, e, n], declared, [k, s, e]);
    PrependFour(p, k, s, e);
  }

  /** One step of building the map, from the first variable's references and
      the map of the others. */
  lemma CollectStep(vars: seq<Variable>, declared: set<string>, deps: seq<string>, m: map<string, seq<string>>)
    requires vars != []
    requires ResolveReferences(VariableTokens(vars[0]), declared) == Success(deps)
    requires CollectDependencies(vars[1..], declared) == Success(m)
    ensures CollectDependencies(vars, declared) ==
      Success(if deps == [] || vars[0].name in m then m else m[vars[0].name := deps])
  {
  }

  // ---------------------------------------------------------------------
  // The list shared by three tests: a first variable `myVariable`, then a
  // query `foo` without references, a query `bar` on `$foo`, a constant `doe`

  function TestList(first: Variable): seq<Variable> {
    [first, QueryVariable("foo", "test"), QueryVariable("bar", VectorQuery()), Constant("doe")]
  }

  function TestDeclared(): set<string> { {"myVariable", "foo", "bar", "doe"} }

  lemma TestListNames(first: Variable)
    requires first.name == "myVariable"
    ensures VariableNames(TestList(first)) == ["myVariable", "foo", "bar", "doe"]
  {
  }

  lemma TestListDeclared(first: Variable)
    requires first.name == "myVariable"
    ensures Elements(VariableNames(TestList(first))) == TestDeclared()
  {
    TestListNames(first);
  }

  lemma NotNumeric()
    ensures !IsNumeric("doe") && !IsNumeric("foo") && !IsNumeric("bar")
  {
    assert "doe"[0] == 'd' && "foo"[0] == 'f' && "bar"[0] == 'b';
  }

  lemma TestListRest()
    ensures ResolveReferences(VariableTokens(QueryVariable("foo", "test")), TestDeclared()) == Success([])
    ensures ResolveReferences(VariableTokens(QueryVariable("bar", VectorQuery())), TestDeclared()) == Success(["foo"])
    ensures ResolveReferences(VariableTokens(Constant("doe")), TestDeclared()) == Success([])
  {
    NotNumeric();
    TestTokens();
    VectorTokens();
    QueryTokens("foo", "test");
    QueryTokens("bar", VectorQuery());
    ResolveDeclared(["foo"], TestDeclared());
  }

  /** Whatever `myVariable` resolves to, the map of the list holds it and
      bar's dependency on foo, and nothing else. */
  lemma TestListDependencies(first: Variable, deps: seq<string>)
    requires first.name == "myVariable" && deps != []
    requires ResolveReferences(VariableTokens(first), TestDeclared()) == Success(deps)
    ensures BuildVariableDependencies(TestList(first)) == Success(map["myVariable" := deps, "bar" := ["foo"]])
  {
    assert map["bar" := ["foo"]]["myVariable" := deps] == map["myVariable" := deps, "bar" := ["foo"]];
    var vars, declared := TestList(first), TestDeclared();
    TestListDeclared(first);
    TestListRest();
    assert vars[3..][1..] == [];
    CollectStep(vars[3..], declared, [], map[]);
    assert vars[2..][1..] == vars[3..];
    CollectStep(vars[2..], declared, ["foo"], map[]);
    assert vars[1..][1..] == vars[2..];
    CollectStep(vars[1..], declared, [], map["bar" := ["foo"]]);
    CollectStep(vars, declared, deps, map["bar" := ["foo"]]);
  }

  // ---------------------------------------------------------------------
  // "query variable with variable used"

  /** myVariable depends on doe, foo and bar, bar on foo, and the others have
      no entry. */
  lemma MixedDependencies()
    ensures BuildVariableDependencies(TestList(QueryVariable("myVariable", MixedQuery()))) ==
      Success(map["myVariable" := ["doe", "foo", "bar"], "bar" := ["foo"]])
  {
    NotNumeric();
    MixedTokens();
    QueryTokens("myVariable", MixedQuery());
    ResolveDeclared(["doe", "foo", "bar"], TestDeclared());
    TestListDependencies(QueryVariable("myVariable", MixedQuery()), ["doe", "foo", "bar"]);
  }

  // ---------------------------------------------------------------------
  // "query variable label_values with variable used"

  /** `$foo` */
  function LabelName(): string {
    Interpolate("", [Ref("foo", "")])
  }

  /** `$foo{$bar='test'}` */
  function Matcher(): string {
    Interpolate("", [Ref("foo", "{"), Ref("bar", "='test'}")])
  }

  /** `{"label_name": "$foo", "matchers": ["$foo{$bar='test'}"]}` */
  function LabelValuesSpec(): Value {
    Object([Field("label_name", Str(LabelName())), Field("matchers", List([Str(Matcher())]))])
  }

  lemma LabelNameTokens()
    ensures Tokens(LabelName()) == ["foo"]
  {
    TokensOfInterpolation("", [Ref("foo", "")]);
  }

  lemma MatcherTokens()
    ensures Tokens(Matcher()) == ["foo", "bar"]
  {
    TokensOfInterpolation("", [Ref("foo", "{"), Ref("bar", "='test'}")]);
  }

  /** The tokens of both keys' strings, in document order. */
  lemma LabelValuesTokens()
    ensures VariableTokens(Variable(KindList, "myVariable", LabelValuesSpec())) == ["foo", "foo", "bar"]
  {
    LabelNameTokens();
    MatcherTokens();
    assert ItemsTokens([Str(Matcher())]) == Tokens(Matcher()) + ItemsTokens([]);
    assert FieldsTokens([Field("matchers", List([Str(Matcher())]))]) == ItemsTokens([Str(Matcher())]) + FieldsTokens([]);
  }

  /** Names found under any key and at any depth count: myVariable depends on
      foo and bar. */
  lemma LabelValuesDependencies()
    ensures BuildVariableDependencies(TestList(Variable(KindList, "myVariable", LabelValuesSpec()))) ==
      Success(map["myVariable" := ["foo", "bar"], "bar" := ["foo"]])
  {
    NotNumeric();
    LabelValuesTokens();
    ResolveLeadingRepeat("foo", "bar", TestDeclared());
    TestListDependencies(Variable(KindList, "myVariable", LabelValuesSpec()), ["foo", "bar"]);
  }

  // ---------------------------------------------------------------------
  // "multiple usage of the same variable" and "variable used but not defined"

  /** `sum by($doe, $bar) (rate($foo{label='$bar'}))` */
  function RepeatQuery(): string {
    Interpolate("sum by(", [Ref("doe", ", "), Ref("bar", ") (rate("), Ref("foo", "{label='"), Ref("bar", "'}))")])
  }

  lemma RepeatTokens()
    ensures VariableTokens(QueryVariable("myVariable", RepeatQuery())) == ["doe", "bar", "foo", "bar"]
  {
    TokensOfInterpolation("sum by(", [Ref("doe", ", "), Ref("bar", ") (rate("), Ref("foo", "{label='"), Ref("bar", "'}))")]);
    QueryTokens("myVariable", RepeatQuery());
  }

  /** A name referenced twice is listed once: myVariable depends on doe, foo
      and bar, bar on foo. */
  lemma RepeatDependencies()
    ensures BuildVariableDependencies(TestList(QueryVariable("myVariable", RepeatQuery()))) ==
      Success(map["myVariable" := ["doe", "foo", "bar"], "bar" := ["foo"]])
  {
    NotNumeric();
    RepeatTokens();
    ResolveRepeated("doe", "bar", "foo", TestDeclared());
    TestListDependencies(QueryVariable("myVariable", RepeatQuery()), ["doe", "foo", "bar"]);
  }

  /** The example's expected map, doe, bar, foo for myVariable, matches the
      one built here in the sense of `MatchesExpected`. */
  lemma RepeatElementsMatch()
    ensures MatchesExpected(BuildVariableDependencies(TestList(QueryVariable("myVariable", RepeatQuery()))),
                            map["myVariable" := ["doe", "bar", "foo"], "bar" := ["foo"]])
  {
    RepeatDependencies();
    RepeatMatch(BuildVariableDependencies(TestList(QueryVariable("myVariable", RepeatQuery()))));
  }

  /** The comparison itself, on the result `RepeatDependencies` fixes. */
  lemma RepeatMatch(r: Result<map<string, seq<string>>, BuildError>)
    requires r == Success(map["myVariable" := ["doe", "foo", "bar"], "bar" := ["foo"]])
    ensures MatchesExpected(r, map["myVariable" := ["doe", "bar", "foo"], "bar" := ["foo"]])
  {
    SwapLastTwo("doe", "foo", "bar");
  }

  /** How the examples compare a built map with the expected one: as many
      keys, and under every expected key the same names, in any order. */
  predicate MatchesExpected(r: Result<map<string, seq<string>>, BuildError>, expected: map<string, seq<string>>) {
    r.Success? && |r.value| == |expected| &&
    forall k :: k in expected ==> k in r.value && multiset(expected[k]) == multiset(r.value[k])
  }

  /** Exchanging the last two of three names keeps the multiset. */
  lemma SwapLastTwo(a: string, b: string, c: string)
    ensures multiset([a, b, c]) == multiset([a, c, b])
  {
  }

  /** The same query alone: its first reference, doe, is declared nowhere. */
  lemma UndefinedReference()
    ensures BuildVariableDependencies([QueryVariable("myVariable", RepeatQuery())]) ==
      Failure(UndefinedVariable("doe", "myVariable"))
  {
    var vars := [QueryVariable("myVariable", RepeatQuery())];
    assert VariableNames(vars) == ["myVariable"];
    assert !IsNumeric("doe") by {
      assert "doe"[0] == 'd';
    }
    assert "doe" !in Elements(VariableNames(vars));
    RepeatTokens();
  }

  // ---------------------------------------------------------------------
  // "no variable, not dep", "constant variable, no dep",
  // "query variable with no variable used"

  /** No variables give an empty map. */
  lemma EmptyDependencies()
    ensures BuildVariableDependencies([]) == Success(map[])
  {
  }

  /** A lone constant is a leaf and gets no entry. */
  lemma ConstantDependencies()
    ensures BuildVariableDependencies([Constant("myVariable")]) == Success(map[])
  {
    assert [Constant("myVariable")][1..] == [];
  }

  /** A lone query without references gets no entry. */
  lemma PlainQueryDependencies()
    ensures BuildVariableDependencies([QueryVariable("myVariable", "vector(1)")]) == Success(map[])
  {
    TokensPlain("vector(1)");
    QueryTokens("myVariable", "vector(1)");
    assert [QueryVariable("myVariable", "vector(1)")][1..] == [];
  }

  // ---------------------------------------------------------------------
  // "variable with only number is ignored"

  /** A text is plain when both of its pieces are. */
  lemma PlainConcat(a: string, b: string)
    requires IsPlain(a) && IsPlain(b)
    ensures IsPlain(a + b)
  {
    assert forall k :: |a| <= k < |a + b| ==> (a + b)[k] == b[k - |a|];
  }

  /** The prefix of the query, before its first reference. */
  function NumericPrefix(): string {
    "group by(prometheus) (label_replace(" + "kube_statefulset_labels{"
  }

  /** The references of the query with the text after each; the capture
      group `$1` of `label_replace` is all digits. */
  function NumericRefs(): seq<Ref> {
    [Ref("filter_platform", ",stack=~\""), Ref("PaaS", "\","), Ref("filter_kube_sts", ",stack=~\""),
     Ref("PaaS", "\",namespace=~\""), Ref("extlabels_prometheus_namespace", "\"},\"prometheus\",\""),
     Ref("1", "\",\"label_app_kubernetes_io_instance\"," + "\"([^-]+)-?.*\"))")]
  }

  function NumericQuery(): string {
    Interpolate(NumericPrefix(), NumericRefs())
  }

  /** A reference followed by plain text that cannot extend its name. */
  predicate Separated(r: Ref) {
    IsWord(r.name) && IsPlain(r.after) && (|r.after| > 0 ==> !IsWordChar(r.after[0]))
  }

  lemma LongNameIsWord()
    ensures IsWord("extlabels_prometheus_namespace")
  {
  }

  lemma LongRefSeparated()
    ensures Separated(Ref("extlabels_prometheus_namespace", "\"},\"prometheus\",\""))
  {
    LongNameIsWord();
  }

  lemma NumberRefSeparated()
    ensures Separated(Ref("1", "\",\"label_app_kubernetes_io_instance\"," + "\"([^-]+)-?.*\"))"))
  {
    PlainConcat("\",\"label_app_kubernetes_io_instance\",", "\"([^-]+)-?.*\"))");
  }

  lemma NumericRefsSeparated()
    ensures forall i :: 0 <= i < |NumericRefs()| ==> Separated(NumericRefs()[i])
  {
    LongRefSeparated();
    NumberRefSeparated();
  }

  lemma NumericRefNames()
    ensures RefNames(NumericRefs()) ==
      ["filter_platform", "PaaS", "filter_kube_sts", "PaaS", "extlabels_prometheus_namespace", "1"]
  {
  }

  lemma NumericQueryTokens()
    ensures Tokens(NumericQuery()) ==
      ["filter_platform", "PaaS", "filter_kube_sts", "PaaS", "extlabels_prometheus_namespace", "1"]
  {
    assert IsPlain(NumericPrefix()) by {
      PlainConcat("group by(prometheus) (label_replace(", "kube_statefulset_labels{");
    }
    NumericRefsSeparated();
    TokensOfInterpolation(NumericPrefix(), NumericRefs());
    NumericRefNames();
  }

  /** The spec of foo: the query, and a label name without references. */
  function NumericSpec(): Value {
    Object([Field("expr", Str(NumericQuery())), Field("label_name", Str("prometheus"))])
  }

  /** Four constants, then `foo`. */
  function NumericVariables(): seq<Variable> {
    [Constant("filter_platform"), Constant("PaaS"), Constant("filter_kube_sts"),
     Constant("extlabels_prometheus_namespace"), Variable(KindList, "foo", NumericSpec())]
  }

  function NumericDeclared(): set<string> {
    {"filter_platform", "PaaS", "filter_kube_sts", "extlabels_prometheus_namespace", "foo"}
  }

  /** The four referenced names are distinct declared names, not numbers;
      `1` is a number. */
  lemma NumericNames()
    ensures "filter_platform" in NumericDeclared() && "PaaS" in NumericDeclared()
    ensures "filter_kube_sts" in NumericDeclared() && "extlabels_prometheus_namespace" in NumericDeclared()
    ensures !IsNumeric("filter_platform") && !IsNumeric("PaaS") && !IsNumeric("filter_kube_sts")
    ensures !IsNumeric("extlabels_prometheus_namespace") && IsNumeric("1")
    ensures "filter_platform" != "filter_kube_sts"
  {
    assert "filter_platform"[0] == 'f' && "PaaS"[0] == 'P' && "filter_kube_sts"[0] == 'f';
    assert "extlabels_prometheus_namespace"[0] == 'e';
    assert "filter_platform"[7] != "filter_kube_sts"[7];
  }

  /** Only the query of foo's spec holds references. */
  lemma NumericSpecFields()
    ensures ValueTokens(NumericSpec()) == Tokens(NumericQuery())
  {
    var fields := [Field("expr", Str(NumericQuery())), Field("label_name", Str("prometheus"))];
    TokensPlain("prometheus");
    assert fields[1..][1..] == [];
    assert FieldsTokens(fields) == Tokens(NumericQuery()) + (Tokens("prometheus") + FieldsTokens([]));
  }

  lemma NumericSpecTokens()
    ensures VariableTokens(NumericVariables()[4]) ==
      ["filter_platform", "PaaS", "filter_kube_sts", "PaaS", "extlabels_prometheus_namespace", "1"]
  {
    NumericSpecFields();
    NumericQueryTokens();
  }

  lemma NumericResolved()
    ensures ResolveReferences(VariableTokens(NumericVariables()[4]), NumericDeclared()) == Success(NumericEntry())
  {
    NumericSpecTokens();
    NumericNames();
    ResolveWithNumber("filter_platform", "PaaS", "filter_kube_sts", "extlabels_prometheus_namespace", "1",
                      NumericDeclared());
  }

  /** The dependencies of `foo`, in the order the model lists them. */
  function NumericEntry(): seq<string> {
    ["filter_platform", "filter_kube_sts", "PaaS", "extlabels_prometheus_namespace"]
  }

  lemma NumericLastTwo()
    ensures CollectDependencies(NumericVariables()[3..], NumericDeclared()) == Success(map["foo" := NumericEntry()])
  {
    var vars, declared := NumericVariables(), NumericDeclared();
    NumericResolved();
    assert vars[4..][1..] == [];
    CollectStep(vars[4..], declared, NumericEntry(), map[]);
    assert vars[3..][1..] == vars[4..];
    CollectStep(vars[3..], declared, [], map["foo" := NumericEntry()]);
  }

  /** The digits-only `$1` is no reference: foo depends on the four
      constants, and nothing is reported undefined. */
  lemma NumericDependencies()
    ensures BuildVariableDependencies(NumericVariables()) == Success(map["foo" := NumericEntry()])
  {
    var vars, declared := NumericVariables(), NumericDeclared();
    assert Elements(VariableNames(vars)) == declared by {
      assert VariableNames(vars) == ["filter_platform", "PaaS", "filter_kube_sts", "extlabels_prometheus_namespace", "foo"];
    }
    NumericLastTwo();
    assert vars[2..][1..] == vars[3..];
    CollectStep(vars[2..], declared, [], map["foo" := NumericEntry()]);
    assert vars[1..][1..] == vars[2..];
    CollectStep(vars[1..], declared, [], map["foo" := NumericEntry()]);
    CollectStep(vars, declared, [], map["foo" := NumericEntry()]);
  }

  /** The example's expected map lists the four constants in another order;
      it matches the one built here in the sense of `MatchesExpected`. */
  lemma NumericElementsMatch()
    ensures MatchesExpected(BuildVariableDependencies(NumericVariables()),
                            map["foo" := ["filter_platform", "PaaS", "filter_kube_sts", "extlabels_prometheus_namespace"]])
  {
    NumericDependencies();
    NumericMatch(BuildVariableDependencies(NumericVariables()));
  }

  /** The comparison itself, on the result `NumericDependencies` fixes. */
  lemma NumericMatch(r: Result<map<string, seq<string>>, BuildError>)
    requires r == Success(map["foo" := NumericEntry()])
    ensures MatchesExpected(r, map["foo" := ["filter_platform", "PaaS", "filter_kube_sts", "extlabels_prometheus_namespace"]])
  {
    SwapLastTwo("filter_platform", "filter_kube_sts", "PaaS");
    assert NumericEntry() == ["filter_platform", "filter_kube_sts", "PaaS"] + ["extlabels_prometheus_namespace"];
    assert ["filter_platform", "PaaS", "filter_kube_sts", "extlabels_prometheus_namespace"] ==
      ["filter_platform", "PaaS", "filter_kube_sts"] + ["extlabels_prometheus_namespace"];
  }
}
