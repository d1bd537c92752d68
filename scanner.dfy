/** The `$name` / `${name}` reference scanner applied to every string of a
    list variable's plugin spec.

    The scanner behaves like a leftmost-first regular expression
    `\$(\w+)|\$\{(\w+)\}` searched repeatedly over the string: at a `$` the
    bare form is tried first (with a greedy `\w+`), then the braced form, and
    when neither matches the search resumes one character further on. Matches
    never overlap. */
module ReferenceScanner {

  /** `\w` of the regular expression: ASCII letters, digits and `_`. */
  predicate IsWordChar(c: char) {
    ('a' <= c <= 'z') || ('A' <= c <= 'Z') || ('0' <= c <= '9') || c == '_'
  }

  /** A non-empty run of word characters: what a capture group can hold. */
  predicate IsWord(t: string) {
    |t| > 0 && forall k :: 0 <= k < |t| ==> IsWordChar(t[k])
  }

  /** A token made only of digits, such as the `1` of a `$1` back-reference. */
  predicate IsNumeric(t: string) {
    forall k :: 0 <= k < |t| ==> '0' <= t[k] <= '9'
  }

  /** The end of the longest run of word characters starting at `i`. */
  function WordEnd(s: string, i: nat): (j: nat)
    requires i <= |s|
    ensures i <= j <= |s|
    ensures forall k :: i <= k < j ==> IsWordChar(s[k])
    ensures j < |s| ==> !IsWordChar(s[j])
    decreases |s| - i
  {
    if i < |s| && IsWordChar(s[i]) then WordEnd(s, i + 1) else i
  }

  /** The bare form `$name` matches at `p`. */
  predicate BareAt(s: string, p: nat) {
    p + 1 < |s| && s[p] == '$' && IsWordChar(s[p + 1])
  }

  /** The braced form `${name}` matches at `p` (tried only when the bare form
      does not, which is always the case since `{` is not a word character). */
  predicate BracedAt(s: string, p: nat) {
    p + 2 < |s| && s[p] == '$' && s[p + 1] == '{' && WordEnd(s, p + 2) > p + 2 &&
    WordEnd(s, p + 2) < |s| && s[WordEnd(s, p + 2)] == '}'
  }

  /** The regular expression matches at position `p` and captures `t`. */
  predicate TokenAt(s: string, p: nat, t: string) {
    (BareAt(s, p) && t == s[p + 1..WordEnd(s, p + 1)]) ||
    (BracedAt(s, p) && t == s[p + 2..WordEnd(s, p + 2)])
  }

  /** The captured names of all matches in `s[from..]`, left to right. */
  function Scan(s: string, from: nat): (r: seq<string>)
    requires from <= |s|
    ensures forall t :: t in r ==> IsWord(t)
    decreases |s| - from
  {
    if from == |s| then []
    else if BareAt(s, from) then
      [s[from + 1..WordEnd(s, from + 1)]] + Scan(s, WordEnd(s, from + 1))
    else if BracedAt(s, from) then
      [s[from + 2..WordEnd(s, from + 2)]] + Scan(s, WordEnd(s, from + 2) + 1)
    else
      Scan(s, from + 1)
  }

  /** All captured names of a string. */
  function Tokens(s: string): (r: seq<string>)
    ensures forall t :: t in r ==> IsWord(t)
  {
    Scan(s, 0)
  }

  /** Where the scan resumes after looking at position `p`. */
  function Next(s: string, p: nat): nat
    requires p < |s|
  {
    if BareAt(s, p) then WordEnd(s, p + 1)
    else if BracedAt(s, p) then WordEnd(s, p + 2) + 1
    else p + 1
  }

  /** What the scan captures at position `p`: one name or none. */
  function Head(s: string, p: nat): seq<string>
    requires p < |s|
  {
    if BareAt(s, p) then [s[p + 1..WordEnd(s, p + 1)]]
    else if BracedAt(s, p) then [s[p + 2..WordEnd(s, p + 2)]]
    else []
  }

  /** The scan from `p` is one step followed by the scan from where it resumes. */
  lemma ScanUnfold(s: string, p: nat)
    requires p < |s|
    ensures p < Next(s, p) <= |s|
    ensures Scan(s, p) == Head(s, p) + Scan(s, Next(s, p))
  {
  }

  /** Every name the scanner reports is captured by a match in the scanned part. */
  lemma {:induction false} ScanSound(s: string, from: nat, t: string)
    requires from <= |s|
    requires t in Scan(s, from)
    ensures exists p :: from <= p && TokenAt(s, p, t)
    decreases |s| - from
  {
    if BareAt(s, from) {
      if t == s[from + 1..WordEnd(s, from + 1)] {
        assert TokenAt(s, from, t);
      } else {
        ScanSound(s, WordEnd(s, from + 1), t);
      }
    } else if BracedAt(s, from) {
      if t == s[from + 2..WordEnd(s, from + 2)] {
        assert TokenAt(s, from, t);
      } else {
        ScanSound(s, WordEnd(s, from + 2) + 1, t);
      }
    } else {
      ScanSound(s, from + 1, t);
    }
  }

  /** A step of the scan that starts before a match never jumps past it. */
  lemma NextNotPast(s: string, from: nat, p: nat, t: string)
    requires from < p
    requires TokenAt(s, p, t)
    ensures Next(s, from) <= p
  {
    if BareAt(s, from) {
      assert !IsWordChar(s[p]);
    } else if BracedAt(s, from) {
      assert !IsWordChar(s[p]) && s[p] != '{' && s[p] != '}';
    }
  }

  /** Every match at or after `from` is reported: a `$` never lies inside an
      earlier match, so no reference is skipped. */
  lemma {:induction false} ScanComplete(s: string, from: nat, p: nat, t: string)
    requires from <= p
    requires TokenAt(s, p, t)
    ensures t in Scan(s, from)
    decreases |s| - from
  {
    ScanUnfold(s, from);
    if from < p {
      NextNotPast(s, from, p, t);
      ScanComplete(s, Next(s, from), p, t);
    }
  }

  /** A name is among a string's tokens exactly when some `$name` or
      `${name}` match of the string captures it. */
  lemma TokensExactlyMatches(s: string, t: string)
    ensures t in Tokens(s) <==> exists p :: TokenAt(s, p, t)
  {
    if t in Tokens(s) {
      ScanSound(s, 0, t);
    }
    if exists p :: TokenAt(s, p, t) {
      var p :| TokenAt(s, p, t);
      ScanComplete(s, 0, p, t);
    }
  }

  /** `WordEnd` is the first non-word position: any `j` with that property is it. */
  lemma {:induction false} WordEndAt(s: string, i: nat, j: nat)
    requires i <= j <= |s|
    requires forall k :: i <= k < j ==> IsWordChar(s[k])
    requires j < |s| ==> !IsWordChar(s[j])
    ensures WordEnd(s, i) == j
    decreases j - i
  {
    if i < j {
      WordEndAt(s, i + 1, j);
    }
  }

  /** Text without a `$` contributes no reference. */
  lemma {:induction false} ScanSkip(s: string, from: nat, m: nat)
    requires from <= m <= |s|
    requires forall k :: from <= k < m ==> s[k] != '$'
    ensures Scan(s, from) == Scan(s, m)
    decreases m - from
  {
    if from < m {
      ScanSkip(s, from + 1, m);
    }
  }

  /** A `$` followed by the word `s[from + 1..j]` and then a non-word
      character (or the end) captures that whole word: the match is greedy. */
  lemma ScanBare(s: string, from: nat, j: nat)
    requires from + 1 < j <= |s| && s[from] == '$'
    requires forall k :: from + 1 <= k < j ==> IsWordChar(s[k])
    requires j < |s| ==> !IsWordChar(s[j])
    ensures Scan(s, from) == [s[from + 1..j]] + Scan(s, j)
  {
    WordEndAt(s, from + 1, j);
  }

  /** The end of a word run does not depend on what precedes it. */
  lemma {:induction false} WordEndShift(a: string, b: string, k: nat)
    requires k <= |b|
    ensures WordEnd(a + b, |a| + k) == |a| + WordEnd(b, k)
    decreases |b| - k
  {
    if k < |b| {
      assert (a + b)[|a| + k] == b[k];
      WordEndShift(a, b, k + 1);
    }
  }

  /** Whether and what the expression matches at a position does not depend
      on what precedes the position. */
  lemma MatchShift(a: string, b: string, k: nat)
    requires k < |b|
    ensures BareAt(a + b, |a| + k) == BareAt(b, k)
    ensures BracedAt(a + b, |a| + k) == BracedAt(b, k)
    ensures BareAt(b, k) ==>
      (a + b)[|a| + k + 1..WordEnd(a + b, |a| + k + 1)] == b[k + 1..WordEnd(b, k + 1)]
    ensures BracedAt(b, k) ==>
      (a + b)[|a| + k + 2..WordEnd(a + b, |a| + k + 2)] == b[k + 2..WordEnd(b, k + 2)]
  {
    var s := a + b;
    assert s[|a| + k] == b[k];
    if k + 1 < |b| {
      assert s[|a| + k + 1] == b[k + 1];
      WordEndShift(a, b, k + 1);
    }
    if k + 2 <= |b| {
      WordEndShift(a, b, k + 2);
      var e := WordEnd(b, k + 2);
      if e < |b| {
        assert s[|a| + e] == b[e];
      }
    }
  }

  /** One step of the scan of `a + b` at a position inside `b` is the same
      step as the scan of `b` there. */
  lemma ShiftStep(a: string, b: string, k: nat)
    requires k < |b|
    ensures Next(a + b, |a| + k) == |a| + Next(b, k)
    ensures Head(a + b, |a| + k) == Head(b, k)
  {
    MatchShift(a, b, k);
    if k + 1 < |b| {
      WordEndShift(a, b, k + 1);
    }
    if k + 2 <= |b| {
      WordEndShift(a, b, k + 2);
    }
  }

  /** Scanning only looks forward: a prefix never changes what follows it. */
  lemma {:induction false} ScanShift(a: string, b: string, k: nat)
    requires k <= |b|
    ensures Scan(a + b, |a| + k) == Scan(b, k)
    decreases |b| - k
  {
    if k < |b| {
      ScanUnfold(b, k);
      calc {
        Scan(a + b, |a| + k);
      == { ScanUnfold(a + b, |a| + k); }
        Head(a + b, |a| + k) + Scan(a + b, Next(a + b, |a| + k));
      == { ShiftStep(a, b, k); ScanShift(a, b, Next(b, k)); }
        Head(b, k) + Scan(b, Next(b, k));
      }
    }
  }

  /** A word run inside `a` ends where it ends in `a + b` when `b` cannot
      continue it. */
  lemma {:induction false} WordEndPrefix(a: string, b: string, i: nat)
    requires i <= |a|
    requires |b| > 0 ==> !IsWordChar(b[0])
    ensures WordEnd(a + b, i) == WordEnd(a, i)
    decreases |a| - i
  {
    if i < |a| {
      assert (a + b)[i] == a[i];
      WordEndPrefix(a, b, i + 1);
    } else if |b| > 0 {
      assert (a + b)[i] == b[0];
    }
  }

  /** Inside `a`, the expression matches in `a + b` as it does in `a`, when
      `b` starts with a character no match can continue with. */
  lemma MatchPrefix(a: string, b: string, i: nat)
    requires i < |a|
    requires |b| > 0 ==> !IsWordChar(b[0]) && b[0] != '{' && b[0] != '}'
    ensures BareAt(a + b, i) == BareAt(a, i)
    ensures BracedAt(a + b, i) == BracedAt(a, i)
    ensures BareAt(a, i) ==> (a + b)[i + 1..WordEnd(a + b, i + 1)] == a[i + 1..WordEnd(a, i + 1)]
    ensures BracedAt(a, i) ==> (a + b)[i + 2..WordEnd(a + b, i + 2)] == a[i + 2..WordEnd(a, i + 2)]
  {
    var s := a + b;
    assert s[i] == a[i];
    if i + 1 < |a| {
      assert s[i + 1] == a[i + 1];
      WordEndPrefix(a, b, i + 1);
    } else if |b| > 0 {
      assert s[i + 1] == b[0];
    }
    if i + 2 <= |a| {
      WordEndPrefix(a, b, i + 2);
      var e := WordEnd(a, i + 2);
      if e < |a| {
        assert s[e] == a[e];
      } else if |b| > 0 {
        assert s[e] == b[0];
      }
    }
  }

  /** One step of the scan of `a + b` at a position inside `a` is the same
      step as the scan of `a` there, when `b` starts with a character no
      match can continue with. */
  lemma PrefixStep(a: string, b: string, i: nat)
    requires i < |a|
    requires |b| > 0 ==> !IsWordChar(b[0]) && b[0] != '{' && b[0] != '}'
    ensures Next(a + b, i) == Next(a, i)
    ensures Head(a + b, i) == Head(a, i)
  {
    MatchPrefix(a, b, i);
    if i + 1 <= |a| {
      WordEndPrefix(a, b, i + 1);
    }
    if i + 2 <= |a| {
      WordEndPrefix(a, b, i + 2);
    }
  }

  /** Scanning `a + b` from inside `a` reports the names of `a` from there,
      then those of `b`, when no match can straddle the cut. */
  lemma {:induction false} ScanPrefix(a: string, b: string, i: nat)
    requires i <= |a|
    requires |b| > 0 ==> !IsWordChar(b[0]) && b[0] != '{' && b[0] != '}'
    ensures Scan(a + b, i) == Scan(a, i) + Scan(a + b, |a|)
    decreases |a| - i
  {
    if i < |a| {
      ScanUnfold(a, i);
      calc {
        Scan(a + b, i);
      == { ScanUnfold(a + b, i); }
        Head(a + b, i) + Scan(a + b, Next(a + b, i));
      == { PrefixStep(a, b, i); ScanPrefix(a, b, Next(a, i)); }
        Head(a, i) + (Scan(a, Next(a, i)) + Scan(a + b, |a|));
      ==
        (Head(a, i) + Scan(a, Next(a, i))) + Scan(a + b, |a|);
      }
    }
  }

  /** A string cut where no match can straddle the cut (the second part starts
      with a character that is neither a word character nor a brace) scans as
      its two parts one after the other. */
  lemma TokensConcat(a: string, b: string)
    requires |b| > 0 ==> !IsWordChar(b[0]) && b[0] != '{' && b[0] != '}'
    ensures Tokens(a + b) == Tokens(a) + Tokens(b)
  {
    ScanPrefix(a, b, 0);
    ScanShift(a, b, 0);
  }

  /** Text without any `$`. */
  predicate IsPlain(p: string) {
    forall k :: 0 <= k < |p| ==> p[k] != '$'
  }

  /** Plain text holds no reference. */
  lemma TokensPlain(p: string)
    requires IsPlain(p)
    ensures Tokens(p) == []
  {
    ScanSkip(p, 0, |p|);
  }

  /** `$name` followed by plain text that cannot continue the name holds
      exactly the reference `name`. */
  lemma TokensRef(name: string, after: string)
    requires IsWord(name) && IsPlain(after)
    requires |after| > 0 ==> !IsWordChar(after[0])
    ensures Tokens("$" + name + after) == [name]
  {
    var s := "$" + name + after;
    assert forall k :: 1 <= k < |name| + 1 ==> s[k] == name[k - 1];
    assert |after| > 0 ==> s[|name| + 1] == after[0];
    ScanBare(s, 0, |name| + 1);
    assert s[1..|name| + 1] == name;
    assert forall k :: |name| + 1 <= k < |s| ==> s[k] == after[k - |name| - 1];
    ScanSkip(s, |name| + 1, |s|);
  }

  /** One `$name` reference and the plain text that follows it. */
  datatype Ref = Ref(name: string, after: string)

  /** A query text made of plain text and `$name` references. */
  function Interpolate(prefix: string, refs: seq<Ref>): string {
    if refs == [] then prefix
    else Interpolate(prefix, refs[..|refs| - 1]) + ("$" + refs[|refs| - 1].name + refs[|refs| - 1].after)
  }

  function RefNames(refs: seq<Ref>): seq<string> {
    seq(|refs|, i requires 0 <= i < |refs| => refs[i].name)
  }

  /** A text built from plain pieces and `$name` references yields exactly
      those names, in order and with repetitions. */
  lemma {:induction false} TokensOfInterpolation(prefix: string, refs: seq<Ref>)
    requires IsPlain(prefix)
    requires forall i :: 0 <= i < |refs| ==>
      IsWord(refs[i].name) && IsPlain(refs[i].after) &&
      (|refs[i].after| > 0 ==> !IsWordChar(refs[i].after[0]))
    ensures Tokens(Interpolate(prefix, refs)) == RefNames(refs)
  {
    if refs == [] {
      TokensPlain(prefix);
    } else {
      var last := refs[|refs| - 1];
      TokensOfInterpolation(prefix, refs[..|refs| - 1]);
      TokensRef(last.name, last.after);
      TokensConcat(Interpolate(prefix, refs[..|refs| - 1]), "$" + last.name + last.after);
      assert RefNames(refs) == RefNames(refs[..|refs| - 1]) + [last.name];
    }
  }
}
