/** The part of the SQL text the handlers build at run time: an `UPDATE`'s
    `SET column = $k` list and the matching positional parameters. */
module Sql {
  import opened Base
  import opened JsText

  datatype SqlValue = SqlText(s: string) | SqlInt(i: int) | SqlBool(b: bool) | SqlTextArray(a: seq<string>)

  /** One `column = $placeholder` item of a `SET` list. */
  datatype Assignment<C> = Assignment(column: C, placeholder: nat)

  /** The placeholders of a `SET` list are $1, $2, ... in order. */
  predicate Numbered<C>(fields: seq<Assignment<C>>) {
    forall k :: 0 <= k < |fields| ==> fields[k].placeholder == k + 1
  }

  function Columns<C>(fields: seq<Assignment<C>>): (cs: seq<C>)
    ensures |cs| == |fields| && forall k :: 0 <= k < |fields| ==> cs[k] == fields[k].column
  {
    seq(|fields|, k requires 0 <= k < |fields| => fields[k].column)
  }

  /** The `SET` list naming `cols` in order, numbered $1, $2, ... */
  function Numbering<C>(cols: seq<C>): (fields: seq<Assignment<C>>)
    ensures Numbered(fields) && Columns(fields) == cols
  {
    seq(|cols|, k requires 0 <= k < |cols| => Assignment(cols[k], k + 1))
  }

  /** Naming one more column adds one item, numbered next. */
  lemma NumberingSnoc<C>(cols: seq<C>, c: C)
    ensures Numbering(cols + [c]) == Numbering(cols) + [Assignment(c, |cols| + 1)]
  {
    var a := Numbering(cols + [c]);
    var b := Numbering(cols) + [Assignment(c, |cols| + 1)];
    assert |a| == |b|;
    forall k | 0 <= k < |a| ensures a[k] == b[k] {
      if k < |cols| { assert (cols + [c])[k] == cols[k]; }
    }
  }

  /** The placeholder of the first item naming `c`. */
  function Lookup<C(==)>(fields: seq<Assignment<C>>, c: C): Option<nat> {
    if fields == [] then None
    else if fields[0].column == c then Some(fields[0].placeholder)
    else Lookup(fields[1..], c)
  }

  lemma {:induction false} LookupFirst<C>(fields: seq<Assignment<C>>, c: C)
    ensures c !in Columns(fields) ==> Lookup(fields, c) == None
    ensures c in Columns(fields) ==> Lookup(fields, c) == Some(fields[FirstIndex(Columns(fields), c)].placeholder)
  {
    if fields != [] {
      LookupFirst(fields[1..], c);
      var cs := Columns(fields);
      assert Columns(fields[1..]) == cs[1..];
      assert cs == [cs[0]] + cs[1..];
    }
  }

  /** The parameter that `$placeholder` refers to. */
  function Param(params: seq<SqlValue>, placeholder: nat): SqlValue
    requires 1 <= placeholder <= |params|
  {
    params[placeholder - 1]
  }

  /** The value a `SET` list gives a column: the parameter of the item naming
      it, if any. (The builders never name a column twice, which Postgres
      would reject; the items take effect together.) */
  function AssignedValue<C(==)>(fields: seq<Assignment<C>>, params: seq<SqlValue>, c: C): Option<SqlValue> {
    match Lookup(fields, c)
    case None => None
    case Some(ph) => if 1 <= ph <= |params| then Some(Param(params, ph)) else None
  }

  /** With the list naming `cols` in order and their values first among the
      parameters, a named column gets its own value and any other column
      none. */
  lemma AssignedValueOf<C>(cols: seq<C>, vals: seq<SqlValue>, extra: seq<SqlValue>, c: C)
    requires |vals| == |cols|
    ensures c in cols ==> AssignedValue(Numbering(cols), vals + extra, c) == Some(vals[FirstIndex(cols, c)])
    ensures c !in cols ==> AssignedValue(Numbering(cols), vals + extra, c) == None
  {
    var fields := Numbering(cols);
    LookupFirst(fields, c);
    assert Columns(fields) == cols;
    if c in cols {
      var k := FirstIndex(cols, c);
      assert fields[k].placeholder == k + 1;
      assert (vals + extra)[k] == vals[k];
    }
  }
}
