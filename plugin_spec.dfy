/** The plugin spec of a list variable: an open tree of strings, numbers,
    booleans, nulls, lists and objects whose schema belongs to the plugin.
    Only its strings are scanned for references. */
module PluginSpec {
  import opened ReferenceScanner

  datatype Value =
    | Str(s: string)
    | Num(n: int)
    | Bool(b: bool)
    | Null
    | List(items: seq<Value>)
    | Object(fields: seq<Field>)

  /** One key/value pair of an object, in document order. Keys are not scanned. */
  datatype Field = Field(key: string, value: Value)

  /** `s` is one of the string leaves of `v`, at any depth. */
  predicate HasString(v: Value, s: string)
    decreases v
  {
    match v
    case Str(x) => x == s
    case List(items) => exists i :: 0 <= i < |items| && HasString(items[i], s)
    case Object(fields) => exists i :: 0 <= i < |fields| && HasString(fields[i].value, s)
    case _ => false
  }

  /** The captured names of every string leaf, in the order of the tree. */
  function ValueTokens(v: Value): (r: seq<string>)
    ensures forall t :: t in r ==> IsWord(t)
    decreases v, 1
  {
    match v
    case Str(s) => Tokens(s)
    case List(items) => ItemsTokens(items)
    case Object(fields) => FieldsTokens(fields)
    case _ => []
  }

  /** The tokens of a list are those of its elements. */
  function ItemsTokens(items: seq<Value>): (r: seq<string>)
    ensures forall t :: t in r <==> exists i :: 0 <= i < |items| && t in ValueTokens(items[i])
    decreases items, 0
  {
    if items == [] then []
    else ValueTokens(items[0]) + ItemsTokens(items[1..])
  }

  /** The tokens of an object are those of its field values. */
  function FieldsTokens(fields: seq<Field>): (r: seq<string>)
    ensures forall t :: t in r <==> exists i :: 0 <= i < |fields| && t in ValueTokens(fields[i].value)
    decreases fields, 0
  {
    if fields == [] then []
    else ValueTokens(fields[0].value) + FieldsTokens(fields[1..])
  }

  /** A list's tokens come from its strings once each element's do. */
  lemma ListFromStrings(items: seq<Value>, t: string)
    requires forall i :: 0 <= i < |items| ==>
      (t in ValueTokens(items[i]) <==> exists s :: HasString(items[i], s) && t in Tokens(s))
    ensures t in ValueTokens(List(items)) <==> exists s :: HasString(List(items), s) && t in Tokens(s)
  {
    var v := List(items);
    if t in ValueTokens(v) {
      var i :| 0 <= i < |items| && t in ValueTokens(items[i]);
      var s :| HasString(items[i], s) && t in Tokens(s);
      assert HasString(v, s);
    }
    if exists s :: HasString(v, s) && t in Tokens(s) {
      var s :| HasString(v, s) && t in Tokens(s);
      var i :| 0 <= i < |items| && HasString(items[i], s);
      assert t in ValueTokens(items[i]);
    }
  }

  /** An object's tokens come from its strings once each field value's do. */
  lemma ObjectFromStrings(fields: seq<Field>, t: string)
    requires forall i :: 0 <= i < |fields| ==>
      (t in ValueTokens(fields[i].value) <==> exists s :: HasString(fields[i].value, s) && t in Tokens(s))
    ensures t in ValueTokens(Object(fields)) <==> exists s :: HasString(Object(fields), s) && t in Tokens(s)
  {
    var v := Object(fields);
    if t in ValueTokens(v) {
      var i :| 0 <= i < |fields| && t in ValueTokens(fields[i].value);
      var s :| HasString(fields[i].value, s) && t in Tokens(s);
      assert HasString(v, s);
    }
    if exists s :: HasString(v, s) && t in Tokens(s) {
      var s :| HasString(v, s) && t in Tokens(s);
      var i :| 0 <= i < |fields| && HasString(fields[i].value, s);
      assert t in ValueTokens(fields[i].value);
    }
  }

  /** A name is among the tokens of a spec exactly when it is captured from
      one of the spec's strings, however deeply nested in lists and objects. */
  lemma {:induction false} ValueTokensFromStrings(v: Value, t: string)
    ensures t in ValueTokens(v) <==> exists s :: HasString(v, s) && t in Tokens(s)
    decreases v
  {
    match v
    case Str(x) =>
      assert HasString(v, x);
    case List(items) =>
      forall i | 0 <= i < |items| {
        ValueTokensFromStrings(items[i], t);
      }
      ListFromStrings(items, t);
    case Object(fields) =>
      forall i | 0 <= i < |fields| {
        ValueTokensFromStrings(fields[i].value, t);
      }
      ObjectFromStrings(fields, t);
    case _ =>
  }

  /** The tokens of a spec, for every name at once. */
  lemma SpecTokensFromStrings(v: Value)
    ensures forall t :: t in ValueTokens(v) <==> exists s :: HasString(v, s) && t in Tokens(s)
  {
    forall t ensures t in ValueTokens(v) <==> exists s :: HasString(v, s) && t in Tokens(s) {
      ValueTokensFromStrings(v, t);
    }
  }
}
