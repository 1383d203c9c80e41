/** Shared wrappers and the exceptions the hypothetic source raises. */
module Common {

  datatype Option<+T> = None | Some(value: T)

  predicate NoDuplicates<T(==)>(s: seq<T>) {
    forall i, j :: 0 <= i < j < |s| ==> s[i] != s[j]
  }

  /** a is b with some elements deleted, the rest kept in order. */
  predicate Subsequence<T(==)>(a: seq<T>, b: seq<T>)
    decreases |b|
  {
    a == [] || (b != [] && ((a[0] == b[0] && Subsequence(a[1..], b[1..])) || Subsequence(a, b[1..])))
  }

  lemma ConsNoDuplicates<T>(x: T, s: seq<T>)
    ensures NoDuplicates([x] + s) <==> x !in s && NoDuplicates(s)
  {
    var r := [x] + s;
    assert forall i :: 0 <= i < |s| ==> r[i + 1] == s[i];
    if x !in s && NoDuplicates(s) {
      forall i, j | 0 <= i < j < |r| ensures r[i] != r[j] {
        if i > 0 { assert r[i] == s[i - 1] && r[j] == s[j - 1]; }
        else { assert r[j] == s[j - 1]; }
      }
    }
    if NoDuplicates(r) {
      forall i, j | 0 <= i < j < |s| ensures s[i] != s[j] {
        assert r[i + 1] == s[i] && r[j + 1] == s[j];
      }
      forall k | 0 <= k < |s| ensures s[k] != x {
        assert r[0] == x && r[k + 1] == s[k];
      }
    }
  }

  /** A Python call either returns a value or raises one of the errors below. */
  datatype Result<+T> = Ok(value: T) | Err(error: Error)

  /** A Python call run for its effect: it returns, or raises. */
  datatype Outcome = Pass | Fail(error: Error)

  /** One constructor per place in the source where an exception is raised;
      the comment names the Python exception class. */
  datatype Error =
    | ZeroInterval                        // ZeroDivisionError: interval is 0
    | NoRunHourYet                        // ValueError: max() of an empty list of run hours
    | RunHourOutOfRange(hour: int)        // ValueError: datetime.replace with an hour outside 0..23
    | TupleArity(arity: nat)              // ValueError: a product tuple unpacked as (fp, frt)
    | NoMetadataTable                     // AttributeError: metadata_df is still None
    | MissingUri                          // KeyError: a row without a 'uri' entry
    | UriNotText                          // AttributeError: the uri is not a string
    | NotS3Path(path: string)             // AssertionError: uri does not start with s3://
    | NoBucketKeySeparator(path: string)  // ValueError: no '/' between bucket and key
    | FetchFailed(reason: string)         // any fetch or parse failure other than NoSuchKey
    | TemplateNotFound                    // ValueError: every row was missing
    | UnknownColumn(name: string)         // KeyError: DataFrame.drop of an absent column
    | PartitionNotTuple                   // TypeError: partition index not a tuple or list
    | CubeListUndefined                   // NameError: CubeList is referenced but never imported
    | EmptyPartitionIndex                 // IndexError: i[0] of an empty tuple
    | CubeIndexOutOfRange(index: int)     // IndexError: no aggregate at that position

  lemma AppendNoDuplicates<T>(a: seq<T>, b: seq<T>)
    requires NoDuplicates(a) && NoDuplicates(b)
    requires forall x :: x in a ==> x !in b
    ensures NoDuplicates(a + b)
  {
    var r := a + b;
    forall i, j | 0 <= i < j < |r| ensures r[i] != r[j] {
      if j >= |a| && i < |a| {
        assert r[i] in a && r[j] == b[j - |a|];
      } else if i >= |a| {
        assert r[i] == b[i - |a|] && r[j] == b[j - |a|];
      }
    }
  }
}
