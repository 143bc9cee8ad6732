/** Option and Result, for absent values and for the errors the scripts raise. */
module Wrappers {
  datatype Option<T> = None | Some(value: T)

  datatype Result<T, E> = Ok(value: T) | Err(error: E)
}

/**
 * The slice of a pandas DataFrame that the scripts rely on: named columns,
 * rows of named cells, column assignment (`df[name] = ...`), column selection
 * by name, and dropping cells by name.
 */
module Frames {
  import opened Wrappers

  /** A parsed cell: text, or NaN for an empty cell. */
  datatype Value = Text(s: string) | Null

  datatype Cell = Cell(name: string, value: Value)

  /** One row, as the Series `df.apply(..., axis=1)` hands to its function. */
  type Row = seq<Cell>

  datatype Frame = Frame(columns: seq<string>, rows: seq<Row>)

  /** What stops a script: a missing column (KeyError) or a CSV it cannot parse. */
  datatype Error = MissingColumn(name: string) | Unparseable

  predicate Distinct(ns: seq<string>)
  {
    forall i, j :: 0 <= i < j < |ns| ==> ns[i] != ns[j]
  }

  /** Every row carries exactly the frame's columns, and no column name repeats. */
  predicate WellFormed(f: Frame)
  {
    Distinct(f.columns) && forall i :: 0 <= i < |f.rows| ==> Names(f.rows[i]) == f.columns
  }

  function Names(r: Row): (ns: seq<string>)
    ensures |ns| == |r|
    ensures forall i :: 0 <= i < |r| ==> ns[i] == r[i].name
  {
    if r == [] then [] else [r[0].name] + Names(r[1..])
  }

  /** The row as a CSV record: its values in its own column order. */
  function Values(r: Row): (vs: seq<Value>)
    ensures |vs| == |r|
    ensures forall i :: 0 <= i < |r| ==> vs[i] == r[i].value
  {
    if r == [] then [] else [r[0].value] + Values(r[1..])
  }

  /** `row[n]`: the value of the first cell named `n`, NaN when there is none. */
  function Get(r: Row, n: string): Value
  {
    if r == [] then Null
    else if r[0].name == n then r[0].value
    else Get(r[1..], n)
  }

  /** Column assignment on one row: an existing column keeps its place, a new one goes last. */
  function Extend(ns: seq<string>, n: string): seq<string>
  {
    if n in ns then ns else ns + [n]
  }

  /** `df[n] = v` on one row. */
  function Put(r: Row, n: string, v: Value): (r': Row)
    ensures Names(r') == Extend(Names(r), n)
    ensures Get(r', n) == v
    ensures forall m :: m != n ==> Get(r', m) == Get(r, m)
  {
    if r == [] then [Cell(n, v)]
    else if r[0].name == n then [Cell(n, v)] + r[1..]
    else [r[0]] + Put(r[1..], n, v)
  }

  /** The column names that are not in `out`, in their order. */
  function Exclude(ns: seq<string>, out: set<string>): (r: seq<string>)
    ensures |r| <= |ns|
    ensures forall x :: x in r <==> x in ns && x !in out
  {
    if ns == [] then []
    else (if ns[0] in out then [] else [ns[0]]) + Exclude(ns[1..], out)
  }

  /** `row.drop(out, errors='ignore')`: the cells whose names are not in `out`, in their order. */
  function Drop(r: Row, out: set<string>): (r': Row)
    ensures Names(r') == Exclude(Names(r), out)
    ensures forall m :: m !in out ==> Get(r', m) == Get(r, m)
    ensures forall m :: m in out ==> Get(r', m) == Null
  {
    if r == [] then []
    else
      var rest := Drop(r[1..], out);
      if r[0].name in out then rest
      else assert ([r[0]] + rest)[1..] == rest; [r[0]] + rest
  }

  /** `df[[n] + [c for c in df.columns if c != n]]` on one row. */
  function ToFront(r: Row, n: string): (r': Row)
    ensures Names(r') == [n] + Exclude(Names(r), {n})
    ensures forall m :: Get(r', m) == Get(r, m)
  {
    [Cell(n, Get(r, n))] + Drop(r, {n})
  }

  /** The first position of `n` in `ns`. */
  function IndexOf(ns: seq<string>, n: string): (i: nat)
    requires n in ns
    ensures i < |ns| && ns[i] == n && n !in ns[..i]
  {
    if ns[0] == n then 0
    else
      assert ns[1..][..IndexOf(ns[1..], n)] == ns[..IndexOf(ns[1..], n) + 1][1..];
      1 + IndexOf(ns[1..], n)
  }

  /** Reading back by header position finds the same value as looking the cell up by name. */
  lemma {:induction false} GetByPosition(r: Row, n: string)
    requires n in Names(r)
    ensures Values(r)[IndexOf(Names(r), n)] == Get(r, n)
  {
    if r[0].name != n {
      assert Names(r)[1..] == Names(r[1..]);
      assert Values(r)[1..] == Values(r[1..]);
      GetByPosition(r[1..], n);
    }
  }

  lemma {:induction false} ExcludeConcat(a: seq<string>, b: seq<string>, out: set<string>)
    ensures Exclude(a + b, out) == Exclude(a, out) + Exclude(b, out)
  {
    if a != [] {
      assert (a + b)[0] == a[0] && (a + b)[1..] == a[1..] + b;
      ExcludeConcat(a[1..], b, out);
    } else {
      assert a + b == b;
    }
  }

  lemma {:induction false} ExcludeDistinct(ns: seq<string>, out: set<string>)
    requires Distinct(ns)
    ensures Distinct(Exclude(ns, out))
  {
    if ns != [] {
      ExcludeDistinct(ns[1..], out);
      assert ns[0] !in ns[1..];
    }
  }

  lemma {:induction false} ExcludeNothing(ns: seq<string>, out: set<string>)
    requires forall x :: x in ns ==> x !in out
    ensures Exclude(ns, out) == ns
  {
    if ns != [] {
      ExcludeNothing(ns[1..], out);
    }
  }

  lemma ExtendDistinct(ns: seq<string>, n: string)
    requires Distinct(ns)
    ensures Distinct(Extend(ns, n))
  {
  }

  /** Excluding a name after adding it is the same as excluding it from the start. */
  lemma ExcludeExtended(ns: seq<string>, n: string)
    ensures Exclude(Extend(ns, n), {n}) == Exclude(ns, {n})
  {
    if n !in ns {
      ExcludeConcat(ns, [n], {n});
      assert Exclude([n], {n}) == [];
    }
  }

  /** Adding a name that is not excluded adds it at the end of what is kept. */
  lemma ExcludeExtendedOther(ns: seq<string>, n: string, out: set<string>)
    requires n !in out
    ensures Exclude(Extend(ns, n), out) == Exclude(ns, out) + (if n in ns then [] else [n])
  {
    if n !in ns {
      ExcludeConcat(ns, [n], out);
      assert Exclude([n], out) == [n];
    }
  }

  lemma DistinctCons(x: string, ns: seq<string>)
    requires Distinct(ns) && x !in ns
    ensures Distinct([x] + ns)
  {
  }
}
