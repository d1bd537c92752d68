/** Outcomes of the build-order operations and the two errors they report. */
module Results {

  datatype Result<T, E> = Success(value: T) | Failure(error: E)

  /** The only two ways resolving the build order can fail. */
  datatype BuildError =
    /** `name` is used in the variable `usedIn` but no variable declares it. */
    | UndefinedVariable(name: string, usedIn: string)
    /** Some variables can never be staged ("circular dependency detected"). */
    | CircularDependency

  /** No name occurs twice. */
  predicate Distinct(s: seq<string>) {
    forall i, j :: 0 <= i < j < |s| ==> s[i] != s[j]
  }

  /** The names a list holds, ignoring order and repetition. */
  function Elements(s: seq<string>): set<string> {
    set x | x in s
  }

  /** A list without repetitions holds each of its names exactly once. */
  lemma {:induction false} DistinctCount(s: seq<string>, x: string)
    requires Distinct(s)
    ensures multiset(s)[x] == if x in s then 1 else 0
  {
    if s != [] {
      var n := |s| - 1;
      assert s == s[..n] + [s[n]];
      assert forall i, j :: 0 <= i < j < |s[..n]| ==> s[..n][i] == s[i] && s[..n][j] == s[j];
      DistinctCount(s[..n], x);
      if x == s[n] {
        assert x !in s[..n];
      }
    }
  }

  /** Two lists without repetitions that hold the same names are the same up
      to order (the sense in which two dependency lists are compared). */
  lemma SameElements(a: seq<string>, b: seq<string>)
    requires Distinct(a) && Distinct(b) && Elements(a) == Elements(b)
    ensures multiset(a) == multiset(b)
  {
    forall x ensures multiset(a)[x] == multiset(b)[x] {
      DistinctCount(a, x);
      DistinctCount(b, x);
      assert x in a <==> x in Elements(a);
      assert x in b <==> x in Elements(b);
    }
  }
}
