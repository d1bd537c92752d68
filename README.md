# Variable build order of perses dashboards

Dashboard variables can refer to each other: the query of a list variable may
embed `$other` or `${other}`. Before anything is evaluated, the dashboard
package of perses works out an order in which the variables can be computed.
This project models that resolver and proves its properties in Dafny. It has
three entry points, whose behaviour the repository pins down in
`pkg/model/api/v1/dashboard/variable_build_order_test.go`:

- `buildVariableDependencies(variables)` (modules `ReferenceScanner`,
  `PluginSpec`, `VariableDependencies`).
  - It walks the plugin spec of every list variable, a tree of strings,
    numbers, lists and objects.
  - It scans every string for `$name` / `${name}` references.
  - It drops all-digit tokens such as the `$1` of a regular-expression
    capture group.
  - It returns a map from each variable that references something to the
    names it references, each once.
  - A reference to a name that no variable declares is an error naming the
    missing variable and the variable that uses it. The first such reference
    is the one reported.
  - Text (constant) variables are leaves.
- `newGraph(names, deps)` and `graph.buildOrder()` (module `VariableGraph`,
  class `Graph`).
  - The loop peels off, pass after pass, every remaining name whose
    dependencies are all staged, and appends them as one `VariableGroup`.
  - A pass that stages nothing while names remain fails with a circular
    dependency.
- `BuildVariableOrder(variables)` (module `VariableBuildOrder`) chains the two.

What a correct result is, is stated once, as the predicate
`VariableGraph.IsStaging`:
- every declared name occurs in the plan exactly as often as it is declared;
- groups are non-empty;
- every dependency sits in a strictly earlier group;
- every name sits in the earliest group it can go in, so a name outside the
  first group has a dependency in the group just before its own.

`Graph.BuildOrder` is proved against this predicate:
- on success it returns such a plan;
- on failure it has found a stuck set of names, and no plan exists at all.

Module `StagingUniqueness` proves that such a plan is unique up to the order
of names inside each group. That is exactly the sense in which the tests
compare plans: equal length, and `ElementsMatch` group by group.
The dependency-map scenarios (module `DependencyScenarios`) are lemmas that
fix the map each test's variables give. The build-order scenarios are
modelled twice:
- as lemmas, which fix the only possible plan or rule every plan out;
- as methods that call `BuildOrder` or `BuildVariableOrder` on the test's
  input (modules `GraphScenarios`, `BuildOrderScenarios`).

## Model

| member | source | states |
|---|---|---|
| ReferenceScanner.Scan | pkg/model/api/v1/dashboard/variable_build_order_test.go:266-326 | every captured name is a non-empty run of letters, digits and `_` (`filter_kube_sts`, `PaaS`, `1`) |
| ReferenceScanner.TokensExactlyMatches | pkg/model/api/v1/dashboard/variable_build_order_test.go:71-134 | a name is among the tokens of a string exactly when some `$name` or `${name}` match in the string captures it: nothing is invented and no reference is skipped |
| ReferenceScanner.TokensPlain | pkg/model/api/v1/dashboard/variable_build_order_test.go:51-70 | a string without `$` (such as `vector(1)`) has no references |
| ReferenceScanner.TokensConcat | pkg/model/api/v1/dashboard/variable_build_order_test.go:71-134 | a string cut where no match can straddle the cut scans as its two parts one after the other |
| ReferenceScanner.TokensOfInterpolation | pkg/model/api/v1/dashboard/variable_build_order_test.go:202-265 | a query made of plain text and `$name` references yields exactly those names, in order, repetitions included |
| PluginSpec.ItemsTokens | pkg/model/api/v1/dashboard/variable_build_order_test.go:135-201 | a name is a token of a list exactly when it is a token of one of its elements |
| PluginSpec.FieldsTokens | pkg/model/api/v1/dashboard/variable_build_order_test.go:135-201 | a name is a token of an object exactly when it is a token of one of its field values |
| PluginSpec.ValueTokensFromStrings | pkg/model/api/v1/dashboard/variable_build_order_test.go:135-201 | a name is a token of a spec exactly when it is captured from one of the spec's strings, at any depth of lists and objects |
| PluginSpec.ValueTokens | pkg/model/api/v1/dashboard/variable_build_order_test.go:135-201 | every token taken from a spec is a name: a non-empty run of letters, digits and `_` |
| PluginSpec.SpecTokensFromStrings | pkg/model/api/v1/dashboard/variable_build_order_test.go:135-201 | a name is a token of a spec exactly when some string of the spec, at any depth, captures it |
| VariableDependencies.VariableTokensFromStrings | pkg/model/api/v1/dashboard/variable_build_order_test.go:36-70 | a text variable references nothing, whatever its value; a list variable's tokens are exactly the names captured from its spec's strings |
| VariableDependencies.ResolveReferences | pkg/model/api/v1/dashboard/variable_build_order_test.go:346-365 | success exactly when every non-numeric token is declared; the list holds each non-numeric token once and nothing else; a failure names the first undefined token, all before it being fine |
| VariableDependencies.CollectDependencies | pkg/model/api/v1/dashboard/variable_build_order_test.go:340-372 | the map is built exactly when every variable references only declared names; otherwise the error names the first failing variable and its first undefined reference |
| VariableDependencies.CollectedEntries | pkg/model/api/v1/dashboard/variable_build_order_test.go:328-337 | every entry is non-empty, repetition-free and lists the referenced names of a variable of that name; every variable that references something has an entry |
| VariableDependencies.DependencyEntry | pkg/model/api/v1/dashboard/variable_build_order_test.go:31-70 | with distinct names, a variable has an entry exactly when it references something, and the entry lists each referenced name once |
| VariableDependencies.DependenciesAreDeclared | pkg/model/api/v1/dashboard/variable_build_order_test.go:266-326 | every key and every listed dependency is a declared name, and no dependency is all digits |
| VariableDependencies.BuildVariableDependencies | pkg/model/api/v1/dashboard/variable_build_order_test.go:328-372 | the map is built exactly when every variable's referenced names are declared; a failure reports the first undefined reference of some variable |
| DependencyScenarios.EmptyDependencies | pkg/model/api/v1/dashboard/variable_build_order_test.go:31-35 | no variables give an empty map |
| DependencyScenarios.ConstantDependencies | pkg/model/api/v1/dashboard/variable_build_order_test.go:36-50 | a lone constant gives an empty map |
| DependencyScenarios.PlainQueryDependencies | pkg/model/api/v1/dashboard/variable_build_order_test.go:51-70 | a lone query without references gives an empty map |
| DependencyScenarios.MixedDependencies | pkg/model/api/v1/dashboard/variable_build_order_test.go:71-134 | the map is exactly myVariable → doe, foo, bar and bar → foo |
| DependencyScenarios.LabelValuesTokens | pkg/model/api/v1/dashboard/variable_build_order_test.go:135-201 | the strings under `label_name` and inside the `matchers` list are all scanned; the token order follows the model's field order (see Left out) |
| DependencyScenarios.LabelValuesDependencies | pkg/model/api/v1/dashboard/variable_build_order_test.go:135-201 | the map is exactly myVariable → foo, bar and bar → foo |
| DependencyScenarios.ResolveRepeated | pkg/model/api/v1/dashboard/variable_build_order_test.go:202-265 | the token list `doe bar foo bar` resolves to three names, bar once |
| DependencyScenarios.RepeatDependencies | pkg/model/api/v1/dashboard/variable_build_order_test.go:202-265 | a name used twice is listed once: the map is exactly myVariable → doe, foo, bar and bar → foo |
| DependencyScenarios.RepeatElementsMatch | pkg/model/api/v1/dashboard/variable_build_order_test.go:257-264 | the built map has the expected two keys, myVariable holding the same names as doe, bar, foo and bar those of foo |
| DependencyScenarios.UndefinedReference | pkg/model/api/v1/dashboard/variable_build_order_test.go:346-365 | the query alone fails with doe used in myVariable but not defined |
| DependencyScenarios.NumericQueryTokens | pkg/model/api/v1/dashboard/variable_build_order_test.go:266-326 | the `label_replace` query yields filter_platform, PaaS, filter_kube_sts, PaaS, extlabels_prometheus_namespace and the capture group 1 |
| DependencyScenarios.ResolveWithNumber | pkg/model/api/v1/dashboard/variable_build_order_test.go:266-326 | an all-digit token is dropped and a repeated name listed once |
| DependencyScenarios.NumericDependencies | pkg/model/api/v1/dashboard/variable_build_order_test.go:266-326 | `$1` is no reference and not undefined: the map is exactly foo → the four constants |
| DependencyScenarios.NumericElementsMatch | pkg/model/api/v1/dashboard/variable_build_order_test.go:321-325 | the built map has one key, foo, with the same names as filter_platform, PaaS, filter_kube_sts, extlabels_prometheus_namespace |
| VariableGraph.StuckBlocksStaging | pkg/model/api/v1/dashboard/variable_build_order_test.go:472-477 | a stuck set of names (each waiting on one of them or on an undeclared name) rules out every build order |
| VariableGraph.CycleIsStuck | pkg/model/api/v1/dashboard/variable_build_order_test.go:443-470 | the names on a cycle, a self-loop included, form a stuck set |
| VariableGraph.SplitReady | pkg/model/api/v1/dashboard/variable_build_order_test.go:425-432 | one pass splits the remaining names, as a permutation, into those whose dependencies are all staged and those that still wait |
| VariableGraph.ProgressStep | pkg/model/api/v1/dashboard/variable_build_order_test.go:425-432 | a pass that stages some names keeps the loop invariant: partition of the declared names, dependencies earlier, earliest placement, waiting names |
| VariableGraph.ProgressStuck | pkg/model/api/v1/dashboard/variable_build_order_test.go:472-477 | a pass that stages nothing leaves a stuck set |
| VariableGraph.Graph.constructor | pkg/model/api/v1/dashboard/variable_build_order_test.go:426 | `newGraph` holds the names and the dependency map as given |
| VariableGraph.Graph.BuildOrder | pkg/model/api/v1/dashboard/variable_build_order_test.go:425-432 | success returns a valid build order; failure is the circular-dependency error, with a stuck set and no build order existing |
| StagingUniqueness.LevelsAgree | pkg/model/api/v1/dashboard/variable_build_order_test.go:392-422 | every declared name sits in the same group in every build order |
| StagingUniqueness.StagingUnique | pkg/model/api/v1/dashboard/variable_build_order_test.go:429-432 | two build orders of one graph have as many groups, and hold the same names group by group |
| StagingUniqueness.OneGroupStaging | pkg/model/api/v1/dashboard/variable_build_order_test.go:387-391 | names without dependencies fit in one group |
| StagingUniqueness.IndependentNames | pkg/model/api/v1/dashboard/variable_build_order_test.go:382-391 | without edges, the only build order is one group of all names, or none for no names |
| GraphScenarios.SingleOrder | pkg/model/api/v1/dashboard/variable_build_order_test.go:382-386 | the only build order of a lone name is one group |
| GraphScenarios.SingleBuildOrder | pkg/model/api/v1/dashboard/variable_build_order_test.go:382-386 | `buildOrder` returns that one group |
| GraphScenarios.IndependentOrder | pkg/model/api/v1/dashboard/variable_build_order_test.go:387-391 | the only build order of a, d, e without edges is one group |
| GraphScenarios.IndependentBuildOrder | pkg/model/api/v1/dashboard/variable_build_order_test.go:387-391 | `buildOrder` returns that one group |
| GraphScenarios.ChainPlanIsStaging | pkg/model/api/v1/dashboard/variable_build_order_test.go:392-404 | e, d, a in three groups is a build order of the chain |
| GraphScenarios.ChainOrder | pkg/model/api/v1/dashboard/variable_build_order_test.go:392-404 | it is the only one |
| GraphScenarios.ChainBuildOrder | pkg/model/api/v1/dashboard/variable_build_order_test.go:392-404 | `buildOrder` returns it |
| GraphScenarios.FullPlanIsStaging | pkg/model/api/v1/dashboard/variable_build_order_test.go:405-422 | {f, d}, {c, b, g}, {a, h}, {e} is a build order of the eight-name graph |
| GraphScenarios.FullOrder | pkg/model/api/v1/dashboard/variable_build_order_test.go:405-422 | it is the only one |
| GraphScenarios.FullBuildOrder | pkg/model/api/v1/dashboard/variable_build_order_test.go:405-422 | `buildOrder` returns it |
| GraphScenarios.MutualHasNoOrder | pkg/model/api/v1/dashboard/variable_build_order_test.go:443-450 | a and b waiting on each other have no build order |
| GraphScenarios.MutualBuildOrder | pkg/model/api/v1/dashboard/variable_build_order_test.go:443-450 | `buildOrder` fails with the circular dependency |
| GraphScenarios.SelfLoopHasNoOrder | pkg/model/api/v1/dashboard/variable_build_order_test.go:451-457 | a waiting on itself has no build order |
| GraphScenarios.SelfLoopBuildOrder | pkg/model/api/v1/dashboard/variable_build_order_test.go:451-457 | `buildOrder` fails with the circular dependency |
| GraphScenarios.TransitiveLoopHasNoOrder | pkg/model/api/v1/dashboard/variable_build_order_test.go:458-470 | the eight-name graph with d waiting on itself has no build order |
| GraphScenarios.TransitiveLoopBuildOrder | pkg/model/api/v1/dashboard/variable_build_order_test.go:458-470 | `buildOrder` fails with the circular dependency |
| VariableBuildOrder.BuildVariableOrder | pkg/model/api/v1/dashboard/variable_build_order_test.go:567-576 | an undefined reference is returned unchanged; otherwise the result is a valid build order of the declared names and their dependency map, or the circular dependency when none exists |
| BuildOrderScenarios.NoVariablesOrder | pkg/model/api/v1/dashboard/variable_build_order_test.go:487-489 | no variables give no groups |
| BuildOrderScenarios.ConstantOrder | pkg/model/api/v1/dashboard/variable_build_order_test.go:490-504 | a lone constant gives one group holding it |
| BuildOrderScenarios.RepeatPlanIsStaging | pkg/model/api/v1/dashboard/variable_build_order_test.go:505-565 | {doe, foo}, {bar}, {myVariable} is a build order of the example's graph |
| BuildOrderScenarios.RepeatOrder | pkg/model/api/v1/dashboard/variable_build_order_test.go:505-565 | it is the only one |
| BuildOrderScenarios.RepeatBuildOrder | pkg/model/api/v1/dashboard/variable_build_order_test.go:505-565 | `BuildVariableOrder` returns it |
| BuildOrderScenarios.UndefinedOrder | pkg/model/api/v1/dashboard/variable_build_order_test.go:346-365 | `BuildVariableOrder` reports doe used in myVariable but not defined |
| Results.SameElements | pkg/model/api/v1/dashboard/variable_build_order_test.go:333-335 | two repetition-free lists with the same names are equal as multisets: for such lists, which every built entry is, `ElementsMatch` amounts to holding the same names |

## Left out

- The implementation file `variable_build_order.go` is not part of this model.
  The model follows what the tests assert and the resolver's documented
  behaviour: the `$name`/`${name}` scanner, the pass-by-pass grouping loop,
  and its two errors (undefined reference, circular dependency).
- The scanner captures a run of letters, digits and `_` after `$`, or inside
  `${…}`. It then drops all-digit names.
  - A name that starts with a digit and holds a letter (`$1a`) is therefore
    kept.
  - Suffixes inside the braces, such as `${name.field}` or `${name:format}`,
    are not modelled: such a brace does not match.
  - The tests only exercise the bare form.
- Keys of plugin-spec objects are not scanned; numbers, booleans and nulls
  hold no references. Numbers are modelled as integers, since their value
  never matters here.
- The order of the names inside one dependency list is not something the
  tests fix (they compare with `ElementsMatch`). The model lists each name at
  its last occurrence, where the examples write their expected lists in
  first-seen order. `DependencyScenarios.RepeatDependencies` and
  `DependencyScenarios.NumericDependencies` state the model's order. Their
  companions `RepeatElementsMatch` and `NumericElementsMatch` show that the
  result matches the example's expected list under the tests' comparison:
  the same keys, and the same names under each key, in any order.
- VariableGraph.SplitReady: does not state that both parts keep the order of
  the remaining names. The order of names inside a group carries no meaning,
  and `IsStaging` leaves it free.
- The dependency map returned is a Dafny `map`, which has no order, like
  the Go map it models.
- The plugin spec of a variable is a Go `map[string]interface{}` in the
  source, and its fields have no order. The model writes an object as a
  sequence of fields, and that sequence's order is the model's own choice.
  Two results depend on that choice and are facts of the model, not of the
  source:
  - which undefined reference is reported when two fields of one spec each
    hold one;
  - the order of the tokens `DependencyScenarios.LabelValuesTokens` states.
  Whether a spec succeeds, and the set of names in each dependency list, do
  not depend on the field order (`PluginSpec.FieldsTokens`).
- Duplicate variable names are neither rejected nor assumed away. The caller
  hands over names already checked for uniqueness, and the tests never
  repeat one.
  - `IsStaging` counts each name as often as it is declared.
  - `CollectDependencies` keeps the later entry of two variables with one
    name.
- The text of the Go errors (`variable %q is used in the variable %q but not
  defined`, `circular dependency detected`) is modelled by the two
  constructors of `Results.BuildError`.
- VariableBuildOrder.BuildVariableOrder: its failure case states that no
  build order exists. It does not repeat the stuck set that
  `Graph.BuildOrder` exhibits.
- Plugin kinds (`PrometheusPromQLVariable`), the Go types of variables and
  specs, the execution of variables against data sources, and the concurrent
  evaluation of groups belong to callers of the resolver.
