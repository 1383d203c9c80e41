/** HypotheticSource.find_template_cube: scan the table in row order and take
    the first row whose object can be fetched and loaded, skipping rows whose
    key does not exist. The S3 fetch, the temporary file and iris.load_cube
    are one oracle, Fetcher. */
module TemplateDiscovery {
  import opened Common
  import opened MetadataSpace

  const S3Scheme: string := "s3://"

  /** The cube iris.load_cube returns: opaque to this core. */
  datatype Cube = Cube(handle: nat)

  /** What fetching s3://bucket/key into a temporary file and loading it
      with iris.load_cube(path, var_name) gives. */
  datatype Probe = Found(cube: Cube) | NoSuchKey | Failed(reason: string)

  /** (bucket, key, var_name) to the outcome of the fetch and load. */
  type Fetcher = (string, string, Option<string>) -> Probe

  /** The position of the first c in s, or |s| when there is none. */
  function IndexOf(s: string, c: char): (r: nat)
    ensures r <= |s| && (r < |s| ==> s[r] == c)
    ensures forall i :: 0 <= i < r ==> s[i] != c
  {
    if s == [] || s[0] == c then 0 else 1 + IndexOf(s[1..], c)
  }

  /** The assertion on the s3:// prefix, then path[len('s3://'):].split('/', 1)
      unpacked into bucket and key. */
  function SplitS3(path: string): (r: Result<(string, string)>)
    ensures r.Ok? <==> S3Scheme <= path && '/' in path[|S3Scheme|..]
    ensures !(S3Scheme <= path) ==> r == Err(NotS3Path(path))
    ensures r.Ok? ==> path == S3Scheme + r.value.0 + "/" + r.value.1 && '/' !in r.value.0
  {
    if !(S3Scheme <= path) then Err(NotS3Path(path))
    else
      var rest := path[|S3Scheme|..];
      var i := IndexOf(rest, '/');
      if i == |rest| then Err(NoBucketKeySeparator(path))
      else
        assert rest == rest[..i] + "/" + rest[i + 1..];
        Ok((rest[..i], rest[i + 1..]))
  }

  /** The first c in s + [c] + t is the one just after s, when s has none. */
  lemma {:induction false} IndexOfSeparator(s: string, c: char, t: string)
    requires c !in s
    ensures IndexOf(s + [c] + t, c) == |s|
  {
    if s != [] {
      assert (s + [c] + t)[1..] == s[1..] + [c] + t;
      IndexOfSeparator(s[1..], c, t);
    }
  }

  /** Joining a bucket without '/' and any key, then splitting, gives them back. */
  lemma SplitS3RoundTrip(bucket: string, key: string)
    requires '/' !in bucket
    ensures SplitS3(S3Scheme + bucket + "/" + key) == Ok((bucket, key))
  {
    var path := S3Scheme + bucket + "/" + key;
    var rest := bucket + "/" + key;
    assert path[|S3Scheme|..] == rest;
    IndexOfSeparator(bucket, '/', key);
    assert rest[..|bucket|] == bucket && rest[|bucket| + 1..] == key;
  }

  /** The outcome of one pass of the loop body on a row. */
  datatype Step = Hit(path: string, cube: Cube) | Skip | Abort(error: Error)

  function Attempt(row: map<string, Value>, fetch: Fetcher, varName: Option<string>): Step {
    if Uri !in row then Abort(MissingUri)
    else if !row[Uri].Text? then Abort(UriNotText)
    else
      var path := row[Uri].s;
      match SplitS3(path)
      case Err(e) => Abort(e)
      case Ok(bk) =>
        match fetch(bk.0, bk.1, varName)
        case Found(cube) => Hit(path, cube)
        case NoSuchKey => Skip
        case Failed(reason) => Abort(FetchFailed(reason))
  }

  /** The result of find_template_cube on the given rows. */
  function Search(rows: seq<map<string, Value>>, fetch: Fetcher, varName: Option<string>): Result<(string, Cube)> {
    if rows == [] then Err(TemplateNotFound)
    else
      match Attempt(rows[0], fetch, varName)
      case Hit(path, cube) => Ok((path, cube))
      case Skip => Search(rows[1..], fetch, varName)
      case Abort(e) => Err(e)
  }

  /** The position of the first row that is not skipped, or |rows|. */
  function FirstDecisive(rows: seq<map<string, Value>>, fetch: Fetcher, varName: Option<string>): (k: nat)
    ensures k <= |rows|
    ensures forall j :: 0 <= j < k ==> Attempt(rows[j], fetch, varName) == Skip
    ensures k < |rows| ==> Attempt(rows[k], fetch, varName) != Skip
  {
    if rows == [] || Attempt(rows[0], fetch, varName) != Skip then 0
    else
      var k := FirstDecisive(rows[1..], fetch, varName);
      assert forall j :: 0 <= j < 1 + k ==> Attempt(rows[j], fetch, varName) == Skip by {
        forall j | 0 < j < 1 + k ensures rows[j] == rows[1..][j - 1] { }
      }
      1 + k
  }

  /** The search is decided by the first row that is not missing: its cube
      when it loads, its error when it fails; only when every row is missing
      does it raise "Failed to find template cube". */
  lemma {:induction false} SearchDecidedByFirst(rows: seq<map<string, Value>>, fetch: Fetcher, varName: Option<string>)
    ensures var k := FirstDecisive(rows, fetch, varName);
      Search(rows, fetch, varName) ==
        if k == |rows| then Err(TemplateNotFound)
        else match Attempt(rows[k], fetch, varName)
          case Hit(path, cube) => Ok((path, cube))
          case Abort(e) => Err(e)
          case Skip => Err(TemplateNotFound)
  {
    if rows != [] && Attempt(rows[0], fetch, varName) == Skip {
      SearchDecidedByFirst(rows[1..], fetch, varName);
    }
  }

  /** Rows after the first one that is not missing are never looked at. */
  lemma {:induction false} SearchIgnoresLaterRows(rows: seq<map<string, Value>>, later: seq<map<string, Value>>, fetch: Fetcher, varName: Option<string>)
    requires FirstDecisive(rows, fetch, varName) < |rows|
    ensures Search(rows + later, fetch, varName) == Search(rows, fetch, varName)
  {
    assert (rows + later)[0] == rows[0];
    if Attempt(rows[0], fetch, varName) == Skip {
      assert (rows + later)[1..] == rows[1..] + later;
      SearchIgnoresLaterRows(rows[1..], later, fetch, varName);
    }
  }

  /** The scan stops at row i when every earlier row was missing and row
      i is not: the search gives row i's cube or error. */
  lemma ScanStopsAt(rows: seq<map<string, Value>>, i: nat, fetch: Fetcher, varName: Option<string>)
    requires i <= |rows|
    requires forall j :: 0 <= j < i ==> Attempt(rows[j], fetch, varName) == Skip
    requires i < |rows| ==> Attempt(rows[i], fetch, varName) != Skip
    ensures FirstDecisive(rows, fetch, varName) == i
    ensures i == |rows| ==> Search(rows, fetch, varName) == Err(TemplateNotFound)
    ensures i < |rows| && Attempt(rows[i], fetch, varName).Hit? ==>
      Search(rows, fetch, varName) == Ok((Attempt(rows[i], fetch, varName).path, Attempt(rows[i], fetch, varName).cube))
    ensures i < |rows| && Attempt(rows[i], fetch, varName).Abort? ==>
      Search(rows, fetch, varName) == Err(Attempt(rows[i], fetch, varName).error)
  {
    SearchDecidedByFirst(rows, fetch, varName);
  }
}
