/** HypotheticSource.extract_unique_metadata: drop the named columns, then
    every column whose values are all the same (pandas nunique == 1). What
    remains are the replacement coordinates handed to the aggregate builder. */
module CoordinateReduction {
  import opened Common
  import opened MetadataSpace

  /** The first name of drop that is not a column, if any. */
  function FirstMissing(drop: seq<string>, columns: seq<string>): (r: Option<string>)
    ensures r.None? <==> forall d :: d in drop ==> d in columns
    ensures r.Some? ==> r.value in drop && r.value !in columns
  {
    if drop == [] then None
    else if drop[0] !in columns then Some(drop[0])
    else FirstMissing(drop[1..], columns)
  }

  /** The table restricted to the given columns, in their given order. */
  function Project(t: Table, columns: seq<string>): (r: Table)
    ensures r.columns == columns && |r.rows| == |t.rows|
  {
    var keep := set c | c in columns;
    Table(columns, seq(|t.rows|, i requires 0 <= i < |t.rows| => map c | c in t.rows[i] && c in keep :: t.rows[i][c]))
  }

  /** DataFrame.drop(drop, axis=1): KeyError when a name is not a column. */
  function DropColumns(t: Table, drop: seq<string>): Result<Table> {
    match FirstMissing(drop, t.columns)
    case Some(name) => Err(UnknownColumn(name))
    case None => Ok(Project(t, Without(t.columns, set d | d in drop)))
  }

  /** The values of column c, row by row. */
  function Column(t: Table, c: string): (vs: seq<Value>)
    requires WellFormed(t) && c in t.columns
    ensures |vs| == |t.rows| && forall i :: 0 <= i < |t.rows| ==> vs[i] == t.rows[i][c]
  {
    seq(|t.rows|, i requires 0 <= i < |t.rows| => t.rows[i][c])
  }

  /** pandas Series.nunique: the number of distinct values. */
  function NUnique(t: Table, c: string): nat
    requires WellFormed(t) && c in t.columns
  {
    |set v | v in Column(t, c)|
  }

  /** Every row holds the same value in column c. */
  predicate Constant(t: Table, c: string)
    requires WellFormed(t) && c in t.columns
  {
    forall i :: 0 <= i < |t.rows| ==> t.rows[i][c] == t.rows[0][c]
  }

  /** A column has exactly one distinct value iff the table has rows and
      they all agree on it; an empty table has none, so nothing is dropped. */
  lemma NUniqueIsOne(t: Table, c: string)
    requires WellFormed(t) && c in t.columns
    ensures NUnique(t, c) == 1 <==> |t.rows| > 0 && Constant(t, c)
  {
    var vs := Column(t, c);
    var distinct := set v | v in vs;
    if |t.rows| > 0 && Constant(t, c) {
      assert distinct == {vs[0]};
    }
    if |t.rows| == 0 {
      assert distinct == {};
    } else if !Constant(t, c) {
      var i :| 0 <= i < |t.rows| && t.rows[i][c] != t.rows[0][c];
      var pair := {vs[0], vs[i]};
      assert pair <= distinct;
      assert |pair| == 2;
      assert distinct == pair + (distinct - pair);
      assert |distinct| == |pair| + |distinct - pair|;
    }
  }

  /** extract_unique_metadata(drop) on a well-formed table. */
  function ExtractUnique(t: Table, drop: seq<string>): Result<Table>
    requires WellFormed(t)
  {
    match DropColumns(t, drop)
    case Err(e) => Err(e)
    case Ok(rest) =>
      ProjectWellFormed(t, rest.columns);
      Ok(Project(rest, Without(rest.columns, set c | c in rest.columns && NUnique(rest, c) == 1)))
  }

  lemma ProjectWellFormed(t: Table, columns: seq<string>)
    requires WellFormed(t) && Subsequence(columns, t.columns) && NoDuplicates(columns)
    ensures WellFormed(Project(t, columns))
    ensures forall i, c :: 0 <= i < |t.rows| && c in columns ==> Project(t, columns).rows[i][c] == t.rows[i][c]
  {
    SubsequenceMembers(columns, t.columns);
  }

  lemma {:induction false} SubsequenceMembers(a: seq<string>, b: seq<string>)
    requires Subsequence(a, b)
    ensures forall x :: x in a ==> x in b
    decreases |b|
  {
    if a != [] {
      if a[0] == b[0] && Subsequence(a[1..], b[1..]) {
        SubsequenceMembers(a[1..], b[1..]);
        assert forall x :: x in a ==> x == a[0] || x in a[1..];
      } else {
        SubsequenceMembers(a, b[1..]);
      }
    }
  }

  lemma {:induction false} SubsequenceTrans(a: seq<string>, b: seq<string>, c: seq<string>)
    requires Subsequence(a, b) && Subsequence(b, c)
    ensures Subsequence(a, c)
    decreases |c|
  {
    if a != [] {
      if b[0] == c[0] && Subsequence(b[1..], c[1..]) {
        if a[0] == b[0] && Subsequence(a[1..], b[1..]) {
          SubsequenceTrans(a[1..], b[1..], c[1..]);
        } else {
          SubsequenceTrans(a, b[1..], c[1..]);
        }
      } else {
        SubsequenceTrans(a, b, c[1..]);
      }
    }
  }

  /** The replacement coordinates: a KeyError exactly when a dropped name is
      not a column; otherwise the columns kept are exactly those not dropped
      and not constant over a non-empty table, in their original order, with
      every value of a kept column unchanged. */
  lemma ExtractUniqueSpec(t: Table, drop: seq<string>)
    requires WellFormed(t)
    ensures ExtractUnique(t, drop).Err? <==> exists d :: d in drop && d !in t.columns
    ensures ExtractUnique(t, drop).Ok? ==>
      var r := ExtractUnique(t, drop).value;
      && WellFormed(r)
      && Subsequence(r.columns, t.columns)
      && (forall c :: c in r.columns <==>
            c in t.columns && c !in drop && !(|t.rows| > 0 && Constant(t, c)))
      && |r.rows| == |t.rows|
      && (forall i, c :: 0 <= i < |t.rows| && c in r.columns ==> r.rows[i][c] == t.rows[i][c])
  {
    if FirstMissing(drop, t.columns).None? {
      var rest := DropColumns(t, drop).value;
      ProjectWellFormed(t, rest.columns);
      var kept := Without(rest.columns, set c | c in rest.columns && NUnique(rest, c) == 1);
      ProjectWellFormed(rest, kept);
      SubsequenceTrans(kept, rest.columns, t.columns);
      forall c | c in rest.columns
        ensures NUnique(rest, c) == 1 <==> |t.rows| > 0 && Constant(t, c)
      {
        NUniqueIsOne(rest, c);
      }
    }
  }

  /** Dropping only existing columns never raises. */
  lemma ExtractUniqueSucceeds(t: Table, drop: seq<string>)
    requires WellFormed(t) && forall d :: d in drop ==> d in t.columns
    ensures ExtractUnique(t, drop).Ok?
  {
    ExtractUniqueSpec(t, drop);
  }
}
