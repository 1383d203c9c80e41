/** The metadata table of HypotheticSource.generate_metadata: the declared
    metadata mapping, the cartesian product of its list-valued fields, one
    row per product tuple merged with the scalar fields, and a uri per row
    from the key generator. */
module MetadataSpace {
  import opened Common
  import Decimal

  const ForecastPeriod: string := "forecast_period"
  const ForecastReferenceTime: string := "forecast_reference_time"
  const Uri: string := "uri"

  /** A metadata value: an integer (a Python int, a numpy.int64 once it sits
      in a DataFrame), a string, or any other value known by its str() text. */
  datatype Value = Int(n: int) | Text(s: string) | Other(repr: string)

  /** The text the key generator sees: str(int(v)) for integers, str(v) otherwise. */
  function Str(v: Value): (s: string)
    ensures v.Int? ==> s == Decimal.Show(v.n) && Decimal.Parse(s) == Some(v.n)
  {
    match v
    case Int(n) => Decimal.ShowRoundTrip(n); Decimal.Show(n)
    case Text(t) => t
    case Other(r) => r
  }

  /** A field of the declaration is either list-valued or a scalar. */
  datatype Field = Scalar(value: Value) | Items(values: seq<Value>)

  function Keys(md: seq<(string, Field)>): (ks: seq<string>)
    ensures |ks| == |md|
  {
    if md == [] then [] else [md[0].0] + Keys(md[1..])
  }

  /** No key occurs twice: each key is absent from the pairs after it. */
  predicate DistinctKeys(md: seq<(string, Field)>)
    decreases |md|
  {
    md == [] || (md[0].0 !in Keys(md[1..]) && DistinctKeys(md[1..]))
  }

  lemma {:induction false} DistinctKeysNoDuplicates(md: seq<(string, Field)>)
    ensures DistinctKeys(md) <==> NoDuplicates(Keys(md))
  {
    if md != [] {
      DistinctKeysNoDuplicates(md[1..]);
      ConsNoDuplicates(md[0].0, Keys(md[1..]));
    }
  }

  /** A pair whose key is new may go in front. */
  lemma ConsDistinct(p: (string, Field), md: seq<(string, Field)>)
    requires DistinctKeys(md) && p.0 !in Keys(md)
    ensures DistinctKeys([p] + md) && Keys([p] + md) == [p.0] + Keys(md)
  {
    assert ([p] + md)[1..] == md;
  }

  /** Every pair's key is among the keys. */
  lemma {:induction false} KeysCover(md: seq<(string, Field)>)
    ensures forall p :: p in md ==> p.0 in Keys(md)
  {
    if md != [] {
      KeysCover(md[1..]);
      assert forall p :: p in md ==> p == md[0] || p in md[1..];
    }
  }

  /** A Python dict: pairs in insertion order, no key twice. */
  type Metadata = md: seq<(string, Field)> | DistinctKeys(md) witness []

  /** md.get(key). */
  function Lookup(md: seq<(string, Field)>, key: string): (r: Option<Field>)
    ensures r.Some? <==> key in Keys(md)
    ensures r.Some? ==> (key, r.value) in md
  {
    if md == [] then None
    else if md[0].0 == key then Some(md[0].1)
    else Lookup(md[1..], key)
  }

  /** md[key] = f: replaces the value in place when the key is present,
      appends the pair otherwise. */
  function Assign(md: Metadata, key: string, f: Field): (r: Metadata)
    ensures Keys(r) == if key in Keys(md) then Keys(md) else Keys(md) + [key]
  {
    if md == [] then
      ConsDistinct((key, f), []);
      [(key, f)]
    else if md[0].0 == key then
      ConsDistinct((key, f), md[1..]);
      [(key, f)] + md[1..]
    else
      var rest := Assign(md[1..], key, f);
      ConsDistinct(md[0], rest);
      [md[0]] + rest
  }

  /** After md[key] = f, md.get(key) is f and every other key reads as
      before. */
  lemma {:induction false} AssignLookup(md: Metadata, key: string, f: Field)
    ensures Lookup(Assign(md, key, f), key) == Some(f)
    ensures forall k :: k != key ==> Lookup(Assign(md, key, f), k) == Lookup(md, k)
  {
    if md != [] && md[0].0 != key {
      AssignLookup(md[1..], key, f);
    }
  }

  /** Assigning a key twice leaves only the second value: a fresh window
      replaces a stale one whatever the stale one was. */
  lemma {:induction false} AssignTwice(md: Metadata, key: string, a: Field, b: Field)
    ensures Assign(Assign(md, key, a), key, b) == Assign(md, key, b)
  {
    if md != [] && md[0].0 != key {
      AssignTwice(md[1..], key, a, b);
    }
  }

  /** The list-valued fields, in declaration order. */
  function Axes(md: seq<(string, Field)>): (axes: seq<seq<Value>>)
    ensures |axes| <= |md|
  {
    if md == [] then []
    else if md[0].1.Items? then [md[0].1.values] + Axes(md[1..])
    else Axes(md[1..])
  }

  /** The names of the scalar fields, in declaration order. */
  function ScalarKeys(md: seq<(string, Field)>): (ks: seq<string>)
    ensures forall k :: k in ks <==> exists v :: (k, Scalar(v)) in md
    ensures DistinctKeys(md) ==> NoDuplicates(ks)
  {
    if md == [] then []
    else
      var rest := ScalarKeys(md[1..]);
      KeysCover(md[1..]);
      if md[0].1.Scalar? then
        ConsNoDuplicates(md[0].0, rest);
        [md[0].0] + rest
      else rest
  }

  /** {key: value for key, value in md.items() if not isinstance(value, list)}. */
  function Scalars(md: Metadata): (m: map<string, Value>)
    ensures forall k, v :: (k, Scalar(v)) in md <==> k in m && m[k] == v
  {
    if md == [] then map[]
    else
      var rest := Scalars(md[1..]);
      KeysCover(md[1..]);
      assert forall v :: (md[0].0, Scalar(v)) !in md[1..];
      if md[0].1.Scalar? then rest[md[0].0 := md[0].1.value] else rest
  }

  /** The number of combinations: the product of the axis lengths. */
  function Size(axes: seq<seq<Value>>): nat {
    if axes == [] then 1 else |axes[0]| * Size(axes[1..])
  }

  lemma SizeOfTwo(axes: seq<seq<Value>>)
    requires |axes| == 2
    ensures Size(axes) == |axes[0]| * |axes[1]|
  {
    assert axes[1..][1..] == [];
    assert Size(axes[1..]) == |axes[1]|;
  }

  /** t picks one value from each axis, in axis order. */
  predicate Picks(t: seq<Value>, axes: seq<seq<Value>>) {
    |t| == |axes| && forall j :: 0 <= j < |axes| ==> t[j] in axes[j]
  }

  /** [[x] + t for t in ts]. */
  function Tag(x: Value, ts: seq<seq<Value>>): (r: seq<seq<Value>>)
    ensures |r| == |ts| && forall i :: 0 <= i < |ts| ==> r[i] == [x] + ts[i]
  {
    seq(|ts|, i requires 0 <= i < |ts| => [x] + ts[i])
  }

  /** [[x] + t for x in xs for t in ts]: the first position varies slowest. */
  function Prepend(xs: seq<Value>, ts: seq<seq<Value>>): seq<seq<Value>> {
    if xs == [] then [] else Tag(xs[0], ts) + Prepend(xs[1..], ts)
  }

  /** itertools.product(*axes). */
  function Product(axes: seq<seq<Value>>): seq<seq<Value>> {
    if axes == [] then [[]] else Prepend(axes[0], Product(axes[1..]))
  }

  lemma {:induction false} PrependShape(xs: seq<Value>, ts: seq<seq<Value>>)
    ensures |Prepend(xs, ts)| == |xs| * |ts|
    ensures forall t :: t in Prepend(xs, ts) <==> |t| > 0 && t[0] in xs && t[1..] in ts
  {
    if xs != [] {
      PrependShape(xs[1..], ts);
      assert |xs| * |ts| == |ts| + (|xs| - 1) * |ts|;
      forall t ensures t in Prepend(xs, ts) <==> |t| > 0 && t[0] in xs && t[1..] in ts {
        if |t| > 0 && t[0] == xs[0] && t[1..] in ts {
          var i :| 0 <= i < |ts| && ts[i] == t[1..];
          assert t == [xs[0]] + ts[i];
          assert Tag(xs[0], ts)[i] == t;
        }
      }
    }
  }

  /** The product has one tuple per combination and holds exactly the tuples
      that pick one value from each axis. */
  lemma {:induction false} ProductShape(axes: seq<seq<Value>>)
    ensures |Product(axes)| == Size(axes)
    ensures forall t :: t in Product(axes) <==> Picks(t, axes)
  {
    if axes == [] {
      assert forall t :: Picks(t, axes) ==> t == [];
    } else {
      ProductShape(axes[1..]);
      PrependShape(axes[0], Product(axes[1..]));
      forall t ensures t in Product(axes) <==> Picks(t, axes) {
        if |t| > 0 {
          assert Picks(t, axes) <==> t[0] in axes[0] && Picks(t[1..], axes[1..]) by {
            if Picks(t[1..], axes[1..]) && t[0] in axes[0] {
              forall j | 0 <= j < |axes| ensures t[j] in axes[j] {
                if j > 0 { assert t[1..][j - 1] == t[j]; }
              }
            }
            if Picks(t, axes) {
              forall j | 0 <= j < |axes| - 1 ensures t[1..][j] in axes[1..][j] {
                assert t[j + 1] in axes[j + 1];
              }
            }
          }
        }
      }
    }
  }

  lemma {:induction false} PrependDistinct(xs: seq<Value>, ts: seq<seq<Value>>)
    requires NoDuplicates(xs) && NoDuplicates(ts)
    ensures NoDuplicates(Prepend(xs, ts))
  {
    if xs != [] {
      var head, tail := Tag(xs[0], ts), Prepend(xs[1..], ts);
      PrependDistinct(xs[1..], ts);
      PrependShape(xs[1..], ts);
      forall i, j | 0 <= i < j < |head + tail| ensures (head + tail)[i] != (head + tail)[j] {
        if j < |head| {
          assert head[i][1..] == ts[i] && head[j][1..] == ts[j];
        } else if i < |head| {
          assert tail[j - |head|] in tail;
          assert xs[0] !in xs[1..];
        }
      }
    }
  }

  /** When no axis repeats a value, no combination appears twice. */
  lemma {:induction false} ProductDistinct(axes: seq<seq<Value>>)
    requires forall j :: 0 <= j < |axes| ==> NoDuplicates(axes[j])
    ensures NoDuplicates(Product(axes))
  {
    if axes != [] {
      ProductDistinct(axes[1..]);
      PrependDistinct(axes[0], Product(axes[1..]));
    }
  }

  /** The DataFrame of generate_metadata: its column names in order and one
      mapping from column name to value per row. */
  datatype Table = Table(columns: seq<string>, rows: seq<map<string, Value>>)

  function ColumnSet(t: Table): set<string> {
    set c | c in t.columns
  }

  predicate WellFormed(t: Table) {
    NoDuplicates(t.columns) && forall i :: 0 <= i < |t.rows| ==> t.rows[i].Keys == ColumnSet(t)
  }

  /** [k for k in ks if k not in drop]. */
  function Without(ks: seq<string>, drop: set<string>): (r: seq<string>)
    ensures forall k :: k in r <==> k in ks && k !in drop
    ensures NoDuplicates(ks) ==> NoDuplicates(r)
    ensures Subsequence(r, ks)
  {
    if ks == [] then []
    else
      var rest := Without(ks[1..], drop);
      ConsNoDuplicates(ks[0], ks[1..]);
      if ks[0] in drop then rest
      else
        ConsNoDuplicates(ks[0], rest);
        [ks[0]] + rest
  }

  /** The columns of the frame built from the row dicts, before the uri
      column: the two labelled positions, then the scalar fields. */
  function BaseColumns(md: Metadata): seq<string> {
    [ForecastPeriod, ForecastReferenceTime] + Without(ScalarKeys(md), {ForecastPeriod, ForecastReferenceTime})
  }

  /** df['uri'] = ... replaces an existing uri column in place, or appends one. */
  function WithUri(columns: seq<string>): seq<string> {
    if Uri in columns then columns else columns + [Uri]
  }

  /** {**{'forecast_period': fp, 'forecast_reference_time': frt}, **scalars}:
      the tuple is labelled by position, and a scalar of the same name wins. */
  function BaseRow(fp: Value, frt: Value, scalars: map<string, Value>): map<string, Value> {
    map[ForecastPeriod := fp, ForecastReferenceTime := frt] + scalars
  }

  /** The copy of a row handed to the key generator, every value as text. */
  function Stringified(row: map<string, Value>): (r: map<string, string>)
    ensures r.Keys == row.Keys
    ensures forall k :: k in row ==> r[k] == Str(row[k])
  {
    map k | k in row :: Str(row[k])
  }

  /** A key generator maps the stringified row to a storage location. */
  type KeyGenerator = map<string, string> -> string

  /** One finished row: the base row with its uri set. */
  function RowFor(t: seq<Value>, scalars: map<string, Value>, keygen: KeyGenerator): map<string, Value>
    requires |t| == 2
  {
    var base := BaseRow(t[0], t[1], scalars);
    base[Uri := Text(keygen(Stringified(base)))]
  }

  /** generate_metadata from line 137 on, for the mapping md after the window
      has been stored in it. */
  function BuildTable(md: Metadata, keygen: KeyGenerator): Result<Table> {
    var axes := Axes(md);
    var combos := Product(axes);
    if combos == [] then Ok(Table([Uri], []))
    else if |axes| != 2 then Err(TupleArity(|axes|))
    else
      ProductShape(axes);
      assert forall k :: 0 <= k < |combos| ==> Picks(combos[k], axes);
      var scalars := Scalars(md);
      Ok(Table(WithUri(BaseColumns(md)),
               seq(|combos|, k requires 0 <= k < |combos| => RowFor(combos[k], scalars, keygen))))
  }

  /** Unpacking as (fp, frt) fails exactly when the product is not empty and
      there are not exactly two list-valued fields. */
  lemma TableErrors(md: Metadata, keygen: KeyGenerator)
    ensures BuildTable(md, keygen).Err? <==> Size(Axes(md)) > 0 && |Axes(md)| != 2
    ensures BuildTable(md, keygen).Err? ==> BuildTable(md, keygen).error == TupleArity(|Axes(md)|)
  {
    ProductShape(Axes(md));
  }

  /** The column names: distinct, and exactly the two labelled positions,
      the scalar fields and uri. */
  lemma ColumnsShape(md: Metadata)
    ensures var cols := WithUri(BaseColumns(md));
      && NoDuplicates(cols)
      && (set c | c in cols) == {ForecastPeriod, ForecastReferenceTime} + Scalars(md).Keys + {Uri}
  {
    var scalars := Scalars(md);
    var rest := Without(ScalarKeys(md), {ForecastPeriod, ForecastReferenceTime});
    var base := BaseColumns(md);
    AppendNoDuplicates([ForecastPeriod, ForecastReferenceTime], rest);
    if Uri !in base {
      AppendNoDuplicates(base, [Uri]);
    }
    forall c ensures c in ScalarKeys(md) <==> c in scalars {
      if c in scalars {
        assert (c, Scalar(scalars[c])) in md;
      }
    }
    assert (set c | c in base) == {ForecastPeriod, ForecastReferenceTime} + scalars.Keys;
  }

  lemma RowForKeys(combo: seq<Value>, scalars: map<string, Value>, keygen: KeyGenerator)
    requires |combo| == 2
    ensures RowFor(combo, scalars, keygen).Keys == {ForecastPeriod, ForecastReferenceTime} + scalars.Keys + {Uri}
  {
  }

  /** The result is a well-formed table: distinct column names, the uri
      column among them, and every row holding exactly those columns. */
  lemma TableWellFormed(md: Metadata, keygen: KeyGenerator)
    requires BuildTable(md, keygen).Ok?
    ensures WellFormed(BuildTable(md, keygen).value)
    ensures Uri in BuildTable(md, keygen).value.columns
  {
    var t := BuildTable(md, keygen).value;
    if Product(Axes(md)) != [] {
      ColumnsShape(md);
      var keys := {ForecastPeriod, ForecastReferenceTime} + Scalars(md).Keys + {Uri};
      assert ColumnSet(t) == keys;
      ProductShape(Axes(md));
      forall k | 0 <= k < |t.rows| ensures t.rows[k].Keys == keys {
        var combo := Product(Axes(md))[k];
        assert Picks(combo, Axes(md));
        RowForKeys(combo, Scalars(md), keygen);
      }
    }
  }

  lemma {:induction false} PrependAt(xs: seq<Value>, ts: seq<seq<Value>>, i: nat, j: nat)
    requires i < |xs| && j < |ts|
    ensures i * |ts| + j < |Prepend(xs, ts)|
    ensures Prepend(xs, ts)[i * |ts| + j] == [xs[i]] + ts[j]
  {
    var n := |ts|;
    if i == 0 {
      assert Prepend(xs, ts)[j] == Tag(xs[0], ts)[j];
    } else {
      PrependAt(xs[1..], ts, i - 1, j);
      assert i * n + j == n + ((i - 1) * n + j);
      assert Prepend(xs, ts)[i * n + j] == Prepend(xs[1..], ts)[(i - 1) * n + j];
    }
  }

  /** itertools.product order for two axes: the first axis varies slowest,
      the i-th value of the first with the j-th of the second at i * |ys| + j. */
  lemma ProductOfTwoAt(xs: seq<Value>, ys: seq<Value>, i: nat, j: nat)
    requires i < |xs| && j < |ys|
    ensures i * |ys| + j < |Product([xs, ys])|
    ensures Product([xs, ys])[i * |ys| + j] == [xs[i], ys[j]]
  {
    var inner := Product([ys]);
    assert [xs, ys][1..] == [ys] && [ys][1..] == [];
    assert Product([]) == [[]];
    assert inner == Prepend(ys, [[]]);
    assert |inner| == |ys| && inner[j] == [ys[j]] by {
      PrependAt(ys, [[]], j, 0);
      PrependShape(ys, [[]]);
    }
    PrependAt(xs, inner, i, j);
    ProductShape([xs, ys]);
  }

  /** Row k of the table is the k-th product tuple made into a row. */
  lemma TableRowAt(md: Metadata, keygen: KeyGenerator, k: nat)
    requires |Axes(md)| == 2 && k < |Product(Axes(md))|
    ensures Picks(Product(Axes(md))[k], Axes(md))
    ensures BuildTable(md, keygen).Ok? && k < |BuildTable(md, keygen).value.rows|
    ensures BuildTable(md, keygen).value.rows[k] == RowFor(Product(Axes(md))[k], Scalars(md), keygen)
  {
    ProductShape(Axes(md));
    assert Picks(Product(Axes(md))[k], Axes(md));
  }

  /** With exactly two list-valued fields the table has one row per
      combination, the row's position being its position in the product; the
      first list-valued field is labelled forecast_period and the second
      forecast_reference_time whatever their declared names (unless a scalar
      of that name overrides it); every scalar field is carried unchanged. */
  lemma TableRows(md: Metadata, keygen: KeyGenerator)
    requires |Axes(md)| == 2
    ensures BuildTable(md, keygen).Ok?
    ensures var t := BuildTable(md, keygen).value; var axes := Axes(md);
      && |t.rows| == |axes[0]| * |axes[1]|
      && (forall k :: 0 <= k < |t.rows| ==> Picks(Product(axes)[k], axes))
      && (forall k :: 0 <= k < |t.rows| && ForecastPeriod !in Scalars(md) ==>
            t.rows[k][ForecastPeriod] == Product(axes)[k][0])
      && (forall k :: 0 <= k < |t.rows| && ForecastReferenceTime !in Scalars(md) ==>
            t.rows[k][ForecastReferenceTime] == Product(axes)[k][1])
      && (forall k, key :: 0 <= k < |t.rows| && key in Scalars(md) && key != Uri ==>
            key in t.rows[k] && t.rows[k][key] == Scalars(md)[key])
  {
    var axes := Axes(md);
    ProductShape(axes);
    SizeOfTwo(axes);
    var t := BuildTable(md, keygen).value;
    var scalars := Scalars(md);
    assert |t.rows| == |Product(axes)|;
    forall k | 0 <= k < |t.rows|
      ensures Picks(Product(axes)[k], axes)
      ensures ForecastPeriod !in scalars ==> t.rows[k][ForecastPeriod] == Product(axes)[k][0]
      ensures ForecastReferenceTime !in scalars ==> t.rows[k][ForecastReferenceTime] == Product(axes)[k][1]
      ensures forall key :: key in scalars && key != Uri ==> key in t.rows[k] && t.rows[k][key] == scalars[key]
    {
      TableRowAt(md, keygen, k);
    }
  }

  /** Each row's uri is the key generator applied to the row, before the uri
      is set, with every value stringified. */
  lemma TableUris(md: Metadata, keygen: KeyGenerator)
    requires BuildTable(md, keygen).Ok?
    requires Uri !in Scalars(md)
    ensures var t := BuildTable(md, keygen).value;
      forall k :: 0 <= k < |t.rows| ==>
        Uri in t.rows[k] && t.rows[k][Uri] == Text(keygen(Stringified(t.rows[k] - {Uri})))
  {
    var t := BuildTable(md, keygen).value;
    forall k | 0 <= k < |t.rows|
      ensures Uri in t.rows[k] && t.rows[k][Uri] == Text(keygen(Stringified(t.rows[k] - {Uri})))
    {
      TableRowAt(md, keygen, k);
      var combo := Product(Axes(md))[k];
      var base := BaseRow(combo[0], combo[1], Scalars(md));
      assert t.rows[k] - {Uri} == base;
    }
  }

  /** A declaration with list fields level and forecast_period gains the
      window as a third list field, and the (fp, frt) unpacking then fails
      on the first product tuple instead of yielding a row per combination. */
  lemma ThreeListFieldsExample(window: seq<Value>, keygen: KeyGenerator)
    requires window != []
    ensures BuildTable(Assign(LevelDeclaration(), ForecastReferenceTime, Items(window)), keygen) == Err(TupleArity(3))
  {
    var md := Assign(LevelDeclaration(), ForecastReferenceTime, Items(window));
    LevelDeclarationAxes(window);
    TableErrors(md, keygen);
  }

  /** {level: [10, 20], forecast_period: [0, 6]}. */
  function LevelDeclaration(): Metadata {
    var md: seq<(string, Field)> := [("level", Items([Int(10), Int(20)])), (ForecastPeriod, Items([Int(0), Int(6)]))];
    assert md[1..][1..] == [] && Keys(md[1..]) == [ForecastPeriod];
    assert DistinctKeys(md[1..]);
    md
  }

  lemma LevelDeclarationAxes(window: seq<Value>)
    ensures var axes := Axes(Assign(LevelDeclaration(), ForecastReferenceTime, Items(window)));
      |axes| == 3 && Size(axes) == 4 * |window|
  {
    var declared := LevelDeclaration();
    var md := Assign(declared, ForecastReferenceTime, Items(window));
    LevelDeclarationFields();
    AssignAppends(declared, ForecastReferenceTime, Items(window));
    AxesAppend(declared, ForecastReferenceTime, window);
    var two := [[Int(10), Int(20)], [Int(0), Int(6)]];
    assert Axes(md) == two + [window];
    assert two + [window] == [[Int(10), Int(20)], [Int(0), Int(6)], window];
    LevelDeclarationSize(window);
  }

  lemma LevelDeclarationFields()
    ensures Keys(LevelDeclaration()) == ["level", ForecastPeriod]
    ensures Axes(LevelDeclaration()) == [[Int(10), Int(20)], [Int(0), Int(6)]]
  {
    var declared := LevelDeclaration();
    assert Keys(declared[1..][1..]) == [];
    assert Axes(declared[1..][1..]) == [];
  }

  lemma LevelDeclarationSize(window: seq<Value>)
    ensures Size([[Int(10), Int(20)], [Int(0), Int(6)], window]) == 4 * |window|
  {
    var axes := [[Int(10), Int(20)], [Int(0), Int(6)], window];
    assert axes[1..][1..] == [window] && axes[1..][1..][1..] == [];
    assert Size(axes[1..][1..]) == |window|;
    assert Size(axes[1..]) == 2 * |window|;
  }

  /** Assigning a new key appends it at the end: dicts keep insertion order. */
  lemma {:induction false} AssignAppends(md: Metadata, key: string, f: Field)
    requires key !in Keys(md)
    ensures Assign(md, key, f) == md + [(key, f)]
  {
    if md != [] {
      var rest: Metadata := md[1..];
      assert key != md[0].0 && key !in Keys(rest) by {
        assert Keys(md) == [md[0].0] + Keys(rest);
      }
      AssignAppends(rest, key, f);
      assert md + [(key, f)] == [md[0]] + (rest + [(key, f)]);
    }
  }

  lemma {:induction false} AxesAppend(md: seq<(string, Field)>, key: string, values: seq<Value>)
    ensures Axes(md + [(key, Items(values))]) == Axes(md) + [values]
  {
    var last := [(key, Items(values))];
    if md == [] {
      assert Axes(last[1..]) == [];
    } else {
      assert (md + last)[1..] == md[1..] + last;
      AxesAppend(md[1..], key, values);
    }
  }
}
