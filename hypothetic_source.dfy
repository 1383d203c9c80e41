/** The HypotheticSource object: the metadata mapping it mutates, the table,
    the template path, and the cached dataset and schema that _get_schema
    fills and close clears. The clock, the S3 fetch and the aggregate
    builder are parameters of the methods that use them. */
module HypotheticSourceModel {
  import opened Common
  import opened ReferenceTimes
  import opened MetadataSpace
  import opened TemplateDiscovery
  import opened CoordinateReduction
  import opened PartitionIndex

  /** The variable name _open_dataset passes to the aggregate builder. */
  const VariableName: string := "soil_temperature"

  /** The intake Schema built by _get_schema: datashape, dtype, shape and
      npartitions are None and the extra metadata is empty. */
  datatype Schema = Schema(extraMetadata: map<string, string>)

  /** iris_hypothetic.load_hypotheticube(template path, variable name,
      replacement coordinates, uris). */
  type Builder = (string, string, Table, seq<Value>) -> Dataset

  /** strftime("%Y-%m-%dT%H:%M:%SZ") of a time in seconds. */
  type Formatter = int -> string

  /** list(generate_frts(...)): the window as the list of formatted times. */
  function WindowField(times: seq<int>, format: Formatter): (f: Field)
    ensures f.Items? && |f.values| == |times|
    ensures forall i :: 0 <= i < |times| ==> f.values[i] == Text(format(times[i]))
  {
    Items(seq(|times|, i requires 0 <= i < |times| => Text(format(times[i]))))
  }

  class HypotheticSource {
    const keyGenerator: KeyGenerator
    const frtDescription: Schedule
    const format: Formatter
    var metadata: Metadata
    var metadataDf: Option<Table>
    var templateCubePath: Option<string>
    var ds: Option<Dataset>
    var schema: Option<Schema>

    /** The dataset and the schema are cached together, and an open
        dataset was built from a table and a template. */
    ghost predicate Valid()
      reads this
    {
      && TableReady()
      && (ds.Some? <==> schema.Some?)
      && (ds.Some? ==> metadataDf.Some? && templateCubePath.Some?)
    }

    /** A stored table came out of generate_metadata: it is well formed and
        has its uri column. */
    ghost predicate TableReady()
      reads this`metadataDf
    {
      metadataDf.Some? ==> WellFormed(metadataDf.value) && Uri in metadataDf.value.columns
    }

    constructor (keyGenerator: KeyGenerator, frtDescription: Schedule, format: Formatter, metadata: Metadata)
      ensures Valid()
      ensures this.keyGenerator == keyGenerator && this.frtDescription == frtDescription
      ensures this.format == format && this.metadata == metadata
      ensures metadataDf.None? && templateCubePath.None? && ds.None? && schema.None?
    {
      this.keyGenerator := keyGenerator;
      this.frtDescription := frtDescription;
      this.format := format;
      this.metadata := metadata;
      metadataDf := None;
      templateCubePath := None;
      ds := None;
      schema := None;
    }

    /** generate_metadata: store the fresh window in the mapping, whatever
        it held before, then build the table from the mapping. When the
        window cannot be computed the mapping is left as it was. */
    method GenerateMetadata(now: Clock) returns (r: Result<Table>)
      requires ValidClock(now)
      modifies this`metadata
      ensures var w := GenerateFrts(frtDescription, now);
        && (w.Err? ==> metadata == old(metadata) && r == Err(w.error))
        && (w.Ok? ==> metadata == Assign(old(metadata), ForecastReferenceTime, WindowField(w.value, format))
                      && Lookup(metadata, ForecastReferenceTime) == Some(WindowField(w.value, format))
                      && r == BuildTable(metadata, keyGenerator))
    {
      var w := GenerateFrts(frtDescription, now);
      if w.Err? {
        return Err(w.error);
      }
      AssignLookup(metadata, ForecastReferenceTime, WindowField(w.value, format));
      metadata := Assign(metadata, ForecastReferenceTime, WindowField(w.value, format));
      r := BuildTable(metadata, keyGenerator);
    }

    /** find_template_cube: the loop stops at the first row, in table
        order, whose object is not missing, and returns its path and cube,
        or the error that row raised. */
    method FindTemplateCube(varName: Option<string>, fetch: Fetcher) returns (r: Result<(string, Cube)>)
      ensures metadataDf.None? ==> r == Err(NoMetadataTable)
      ensures metadataDf.Some? ==> r == Search(metadataDf.value.rows, fetch, varName)
    {
      if metadataDf.None? {
        return Err(NoMetadataTable);
      }
      var rows := metadataDf.value.rows;
      var i := 0;
      while i < |rows|
        invariant 0 <= i <= |rows|
        invariant forall j :: 0 <= j < i ==> Attempt(rows[j], fetch, varName) == Skip
      {
        var row := rows[i];
        if Uri !in row {
          ScanStopsAt(rows, i, fetch, varName);
          return Err(MissingUri);
        }
        if !row[Uri].Text? {
          ScanStopsAt(rows, i, fetch, varName);
          return Err(UriNotText);
        }
        var path := row[Uri].s;
        var split := SplitS3(path);
        if split.Err? {
          ScanStopsAt(rows, i, fetch, varName);
          return Err(split.error);
        }
        var bucket, key := split.value.0, split.value.1;
        var probe := fetch(bucket, key, varName);
        match probe {
          case NoSuchKey =>
          case Found(cube) =>
            ScanStopsAt(rows, i, fetch, varName);
            return Ok((path, cube));
          case Failed(reason) =>
            ScanStopsAt(rows, i, fetch, varName);
            return Err(FetchFailed(reason));
        }
        i := i + 1;
      }
      ScanStopsAt(rows, i, fetch, varName);
      return Err(TemplateNotFound);
    }

    /** extract_unique_metadata(drop): before any table exists the call
        fails (metadata_df is None). */
    function ExtractUniqueMetadata(drop: seq<string>): (r: Result<Table>)
      reads this
      requires TableReady()
      ensures metadataDf.None? ==> r == Err(NoMetadataTable)
      ensures metadataDf.Some? ==> r == ExtractUnique(metadataDf.value, drop)
    {
      match metadataDf
      case None => Err(NoMetadataTable)
      case Some(t) => ExtractUnique(t, drop)
    }

    /** The state _open_dataset leaves behind, given the state before it:
        md0, df0, path0 and ds0. Each step that fails stops the method with
        the earlier fields already updated and the later ones as they were. */
    ghost predicate Opening(md0: Metadata, df0: Option<Table>, path0: Option<string>, ds0: Option<Dataset>,
                            now: Clock, fetch: Fetcher, build: Builder, r: Outcome)
      reads this`metadata, this`metadataDf, this`templateCubePath, this`ds
      requires ValidClock(now)
    {
      var w := GenerateFrts(frtDescription, now);
      if w.Err? then
        r == Fail(w.error) && metadata == md0 && metadataDf == df0 && templateCubePath == path0 && ds == ds0
      else
        && metadata == Assign(md0, ForecastReferenceTime, WindowField(w.value, format))
        && var table := BuildTable(metadata, keyGenerator);
        if table.Err? then
          r == Fail(table.error) && metadataDf == df0 && templateCubePath == path0 && ds == ds0
        else
          && WellFormed(table.value) && Uri in table.value.columns
          && metadataDf == Some(table.value)
          && var found := Search(table.value.rows, fetch, None);
          if found.Err? then
            r == Fail(found.error) && templateCubePath == path0 && ds == ds0
          else
            && ExtractUnique(table.value, [Uri]).Ok?
            && r == Pass
            && templateCubePath == Some(found.value.0)
            && ds == Some(build(found.value.0, VariableName, ExtractUnique(table.value, [Uri]).value,
                                Column(table.value, Uri)))
    }

    /** _open_dataset: regenerate the table (and the window stored in the
        mapping), find the template cube without a variable name, reduce
        the coordinates to those that vary, and build the aggregate from the
        template, the coordinates and the uri column. */
    method OpenDataset(now: Clock, fetch: Fetcher, build: Builder) returns (r: Outcome)
      requires ValidClock(now) && TableReady()
      modifies this`metadata, this`metadataDf, this`templateCubePath, this`ds
      ensures TableReady()
      ensures r.Fail? ==> ds == old(ds)
      ensures r.Pass? ==> ds.Some? && metadataDf.Some? && templateCubePath.Some?
      ensures Opening(old(metadata), old(metadataDf), old(templateCubePath), old(ds), now, fetch, build, r)
    {
      var table := GenerateMetadata(now);
      if table.Err? {
        return Fail(table.error);
      }
      TableWellFormed(metadata, keyGenerator);
      metadataDf := Some(table.value);
      var found := FindTemplateCube(None, fetch);
      if found.Err? {
        return Fail(found.error);
      }
      templateCubePath := Some(found.value.0);
      LoadAggregate(build);
      r := Pass;
    }

    /** The last lines of _open_dataset: the uri column and the varying
        coordinates go to the aggregate builder with the template path. */
    method LoadAggregate(build: Builder)
      requires TableReady() && metadataDf.Some? && templateCubePath.Some?
      modifies this`ds
      ensures ExtractUnique(metadataDf.value, [Uri]).Ok?
      ensures ds == Some(build(templateCubePath.value, VariableName, ExtractUnique(metadataDf.value, [Uri]).value,
                               Column(metadataDf.value, Uri)))
    {
      var uris := Column(metadataDf.value, Uri);
      ExtractUniqueSucceeds(metadataDf.value, [Uri]);
      var coords := ExtractUniqueMetadata([Uri]).value;
      ds := Some(build(templateCubePath.value, VariableName, coords, uris));
    }
  
    /** _get_schema: an open dataset returns the cached schema and changes
        nothing; otherwise the dataset is opened and, only if that
        succeeds, the schema (no datashape, dtype, shape or partition
        count, empty extra metadata) is cached with it. */
    method GetSchema(now: Clock, fetch: Fetcher, build: Builder) returns (r: Result<Schema>)
      requires Valid() && ValidClock(now)
      modifies this`metadata, this`metadataDf, this`templateCubePath, this`ds, this`schema
      ensures Valid()
      ensures old(ds).Some? ==>
        && r == Ok(old(schema).value)
        && metadata == old(metadata) && metadataDf == old(metadataDf)
        && templateCubePath == old(templateCubePath) && ds == old(ds) && schema == old(schema)
      ensures old(ds).None? ==>
        && Opening(old(metadata), old(metadataDf), old(templateCubePath), None, now, fetch, build,
                   if r.Ok? then Pass else Fail(r.error))
        && (r.Ok? ==> r.value == Schema(map[]) && ds.Some?)
        && schema == (if r.Ok? then Some(Schema(map[])) else None)
    {
      if ds.Some? {
        return Ok(schema.value);
      }
      var outcome := OpenDataset(now, fetch, build);
      if outcome.Fail? {
        return Err(outcome.error);
      }
      schema := Some(Schema(map[]));
      r := Ok(schema.value);
    }

    /** close: forget the dataset and the schema; the mapping, the table
        and the template path stay. */
    method Close()
      modifies this`ds, this`schema
      ensures ds.None? && schema.None?
      ensures old(Valid()) ==> Valid()
    {
      ds := None;
      schema := None;
    }

    /** read_partition: load the schema first if there is none (the base
        class's _load_metadata), then check the index and pick the block
        it names from the open dataset. */
    method ReadPartition(i: Index, now: Clock, fetch: Fetcher, build: Builder) returns (r: Result<Block>)
      requires Valid() && ValidClock(now)
      modifies this`metadata, this`metadataDf, this`templateCubePath, this`ds, this`schema
      ensures Valid()
      ensures old(schema).Some? ==>
        && r == PartitionIndex.ReadPartition(old(ds).value, i)
        && metadata == old(metadata) && metadataDf == old(metadataDf)
        && templateCubePath == old(templateCubePath) && ds == old(ds) && schema == old(schema)
      ensures old(schema).None? ==>
        exists outcome :: Opening(old(metadata), old(metadataDf), old(templateCubePath), None, now, fetch, build, outcome)
          && (outcome.Fail? ==> r == Err(outcome.error) && ds.None?)
          && (outcome.Pass? ==> ds.Some? && r == PartitionIndex.ReadPartition(ds.value, i))
      ensures i.OtherIndex? ==> r.Err?
    {
      if schema.None? {
        var loaded := GetSchema(now, fetch, build);
        if loaded.Err? {
          return Err(loaded.error);
        }
      }
      r := PartitionIndex.ReadPartition(ds.value, i);
    }

    /** Closing and asking for the schema again reopens the dataset: the
        mapping then holds the window of the new clock reading, not the one
        from the first opening. */
    method Reopen(now: Clock, fetch: Fetcher, build: Builder) returns (r: Result<Schema>)
      requires Valid() && ValidClock(now)
      modifies this`metadata, this`metadataDf, this`templateCubePath, this`ds, this`schema
      ensures Valid()
      ensures GenerateFrts(frtDescription, now).Ok? ==>
        Lookup(metadata, ForecastReferenceTime) == Some(WindowField(GenerateFrts(frtDescription, now).value, format))
      ensures forall k :: k != ForecastReferenceTime ==> Lookup(metadata, k) == Lookup(old(metadata), k)
      ensures r.Ok? ==> ds.Some? && metadataDf.Some? && BuildTable(metadata, keyGenerator) == Ok(metadataDf.value)
      ensures r.Ok? ==>
        && Search(metadataDf.value.rows, fetch, None).Ok?
        && templateCubePath == Some(Search(metadataDf.value.rows, fetch, None).value.0)
        && ExtractUnique(metadataDf.value, [Uri]).Ok?
        && ds == Some(build(templateCubePath.value, VariableName, ExtractUnique(metadataDf.value, [Uri]).value,
                            Column(metadataDf.value, Uri)))
    {
      Close();
      ghost var md0, df0, path0 := metadata, metadataDf, templateCubePath;
      r := GetSchema(now, fetch, build);
      OpeningFacts(md0, df0, path0, None, now, fetch, build, if r.Ok? then Pass else Fail(r.error));
      if GenerateFrts(frtDescription, now).Ok? {
        AssignLookup(md0, ForecastReferenceTime, WindowField(GenerateFrts(frtDescription, now).value, format));
      }
    }

    /** What an opening leaves in the mapping and the table. */
    lemma OpeningFacts(md0: Metadata, df0: Option<Table>, path0: Option<string>, ds0: Option<Dataset>,
                       now: Clock, fetch: Fetcher, build: Builder, r: Outcome)
      requires ValidClock(now) && Opening(md0, df0, path0, ds0, now, fetch, build, r)
      ensures GenerateFrts(frtDescription, now).Ok? ==>
        metadata == Assign(md0, ForecastReferenceTime, WindowField(GenerateFrts(frtDescription, now).value, format))
      ensures r.Pass? ==> ds.Some? && metadataDf.Some? && BuildTable(metadata, keyGenerator) == Ok(metadataDf.value)
    {
    }
  }
}
