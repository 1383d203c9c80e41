/** HypotheticSource.read_partition: validate the partition index and pick
    the block it names. The dataset is what the external aggregate builder
    returned: one aggregate cube, or a list of them. */
module PartitionIndex {
  import opened Common

  /** The data of one aggregate: already an in-memory array, or a deferred
      (dask) array whose slices are computed on demand. */
  datatype Aggregate = InMemory(data: nat) | Deferred(data: nat)

  /** A single aggregate cube, or a CubeList of them. */
  datatype Dataset = Single(aggregate: Aggregate) | Many(aggregates: seq<Aggregate>)

  /** The argument i: a tuple, a list, or anything else. */
  datatype Index = TupleIndex(items: seq<int>) | ListIndex(items: seq<int>) | OtherIndex

  /** What a read returns: a whole in-memory array, or the computed slice of
      a deferred array at an index. */
  datatype Block = Whole(data: nat) | Slice(data: nat, index: seq<int>)

  /** The type check and the list-to-tuple conversion. */
  function AsTuple(i: Index): (r: Result<seq<int>>)
    ensures r.Err? <==> i.OtherIndex?
    ensures r.Err? ==> r.error == PartitionNotTuple
    ensures r.Ok? ==> r.value == i.items
  {
    match i
    case TupleIndex(items) => Ok(items)
    case ListIndex(items) => Ok(items)
    case OtherIndex => Err(PartitionNotTuple)
  }

  /** read_partition as written: after the checks, isinstance(self._ds,
      CubeList) names a class the module never imports. */
  function ReadPartitionAsWritten(ds: Dataset, i: Index): Result<Block> {
    match AsTuple(i)
    case Err(e) => Err(e)
    case Ok(_) => Err(CubeListUndefined)
  }

  /** As written, no index reads anything: a non-sequence raises TypeError
      and every tuple or list raises NameError. */
  lemma AsWrittenNeverReads(ds: Dataset, i: Index)
    ensures ReadPartitionAsWritten(ds, i).Err?
    ensures ReadPartitionAsWritten(ds, i).error == if i.OtherIndex? then PartitionNotTuple else CubeListUndefined
  {
  }

  /** seq[k] in Python: a negative k counts from the end. */
  function PyItem<T>(s: seq<T>, k: int): (r: Option<T>)
    ensures r.Some? <==> -|s| <= k < |s|
    ensures 0 <= k < |s| ==> r == Some(s[k])
    ensures -|s| <= k < 0 ==> r == Some(s[|s| + k])
  {
    if 0 <= k < |s| then Some(s[k])
    else if -|s| <= k < 0 then Some(s[|s| + k])
    else None
  }

  /** arr if it is an in-memory array, otherwise arr[index].compute(). */
  function Materialize(a: Aggregate, index: seq<int>): Block {
    match a
    case InMemory(x) => Whole(x)
    case Deferred(x) => Slice(x, index)
  }

  /** read_partition with CubeList in scope: for a list of aggregates the
      first component picks the aggregate and the rest indexes inside it; a
      single aggregate takes the whole index. */
  function ReadPartition(ds: Dataset, i: Index): Result<Block> {
    match AsTuple(i)
    case Err(e) => Err(e)
    case Ok(t) =>
      match ds
      case Single(a) => Ok(Materialize(a, t))
      case Many(aggs) =>
        if t == [] then Err(EmptyPartitionIndex)
        else
          match PyItem(aggs, t[0])
          case None => Err(CubeIndexOutOfRange(t[0]))
          case Some(a) => Ok(Materialize(a, t[1..]))
  }

  /** The intended reading: a non-sequence is rejected, a list reads as the
      equal tuple, a first component in range selects that aggregate and the
      rest of the tuple indexes within it, and a deferred array is sliced at
      exactly that index. */
  lemma ReadPartitionSpec(ds: Dataset, items: seq<int>)
    ensures ReadPartition(ds, OtherIndex) == Err(PartitionNotTuple)
    ensures ReadPartition(ds, ListIndex(items)) == ReadPartition(ds, TupleIndex(items))
    ensures ds.Single? && ds.aggregate.Deferred? ==>
      ReadPartition(ds, TupleIndex(items)) == Ok(Slice(ds.aggregate.data, items))
    ensures ds.Many? && items != [] && 0 <= items[0] < |ds.aggregates| ==>
      ReadPartition(ds, TupleIndex(items)) == Ok(Materialize(ds.aggregates[items[0]], items[1..]))
    ensures ds.Many? && items != [] && !(-|ds.aggregates| <= items[0] < |ds.aggregates|) ==>
      ReadPartition(ds, TupleIndex(items)) == Err(CubeIndexOutOfRange(items[0]))
  {
  }

  /** On three deferred aggregates, (1, 0, 0) selects aggregate 1 and
      computes its block at (0, 0); the code as written raises NameError on
      the same call. */
  lemma ThreeAggregatesExample(a: nat, b: nat, c: nat)
    ensures var ds := Many([Deferred(a), Deferred(b), Deferred(c)]);
      && ReadPartition(ds, TupleIndex([1, 0, 0])) == Ok(Slice(b, [0, 0]))
      && ReadPartitionAsWritten(ds, TupleIndex([1, 0, 0])) == Err(CubeListUndefined)
  {
    assert [1, 0, 0][1..] == [0, 0];
  }
}
