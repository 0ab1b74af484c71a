/** The file-backed cache (euro_converter/cache/filecache.py): the table in
    one file, the metadata in a JSON file beside it. The file system is a
    map from file name to what the file holds; a file that is missing or
    holds something else cannot be read. */
module CacheFile {
  import opened Wrappers
  import opened EcbTypes
  import opened IsoTime
  import opened CacheBase
  import RateTable

  const DEFAULT_DATA_FILENAME: string := "data.parquet"
  const DEFAULT_TIMESTAMPS_FILENAME: string := "last_timestamps.json"

  /** The JSON metadata: the ISO text of the last update and, per strategy
      key, the list `[modified_since, etag]` with `null` kept. */
  datatype FileMeta = FileMeta(lastUpdate: string, lastTimestamps: map<string, seq<Option<string>>>)

  datatype FileContent = TableFile(table: RateTable.Table) | MetaFile(meta: FileMeta) | OtherFile

  /** `value or default` for an optional string argument. */
  function OrDefault(v: Option<string>, default: string): (r: string)
    ensures Present(v) ==> r == v.value
    ensures !Present(v) ==> r == default
  {
    if Present(v) then v.value else default
  }

  /** The two-element list `save` writes for one strategy. */
  function EncodeTimestamps(ts: UpdateTimestamps): (values: seq<Option<string>>)
    ensures |values| == 2
  {
    [ts.modifiedSince, ts.etag]
  }

  /** `UpdateTimestamps(*values)`: missing positions default to `None`, a
      third value is a `TypeError`. */
  function DecodeTimestamps(values: seq<Option<string>>): (r: Result<UpdateTimestamps, CacheError>)
    ensures r.Ok? <==> |values| <= 2
    ensures r.Ok? && |values| == 2 ==> r.value == UpdateTimestamps(values[0], values[1])
    ensures r.Ok? && |values| >= 1 ==> r.value.modifiedSince == values[0]
    ensures r.Ok? && |values| < 2 ==> r.value.etag == None
    ensures r.Ok? && values == [] ==> r.value == DEFAULT_TIMESTAMPS
  {
    if |values| > 2 then Err(TooManyValidatorValues)
    else Ok(UpdateTimestamps(
      if |values| > 0 then values[0] else None,
      if |values| > 1 then values[1] else None))
  }

  function EncodeFileMeta(s: Snapshot): (m: FileMeta)
    ensures m.lastTimestamps.Keys == s.lastTimestamps.Keys
  {
    FileMeta(
      IsoFormat(s.lastUpdate),
      map k | k in s.lastTimestamps :: EncodeTimestamps(s.lastTimestamps[k]))
  }

  /** The snapshot `load` builds once both files were read. */
  function DecodeFileMeta(table: RateTable.Table, m: FileMeta): (r: Result<Snapshot, CacheError>)
    ensures r.Ok? <==> FromIsoFormat(m.lastUpdate).Some?
                       && forall k :: k in m.lastTimestamps ==> |m.lastTimestamps[k]| <= 2
    ensures r.Ok? ==> r.value.rates == table && Some(r.value.lastUpdate) == FromIsoFormat(m.lastUpdate)
    ensures r.Ok? ==> r.value.lastTimestamps.Keys == m.lastTimestamps.Keys
    ensures r.Ok? ==> forall k :: k in m.lastTimestamps ==> DecodeTimestamps(m.lastTimestamps[k]) == Ok(r.value.lastTimestamps[k])
  {
    var t := FromIsoFormat(m.lastUpdate);
    if t.None? then Err(BadTimestamp)
    else if exists k :: k in m.lastTimestamps && |m.lastTimestamps[k]| > 2 then Err(TooManyValidatorValues)
    else Ok(Snapshot(table, t.value, map k | k in m.lastTimestamps :: DecodeTimestamps(m.lastTimestamps[k]).value))
  }

  /** `save` then `load` gives back exactly the snapshot: `None` fields and
      empty strings alike survive the list encoding. */
  lemma FileRoundTrip(s: Snapshot)
    ensures DecodeFileMeta(s.rates, EncodeFileMeta(s)) == Ok(s)
  {
    var m := EncodeFileMeta(s);
    IsoRoundTrip(s.lastUpdate);
    var d := DecodeFileMeta(s.rates, m);
    assert d.Ok?;
    assert d.value.lastTimestamps == s.lastTimestamps;
  }

  class FileCache {
    var data: Option<Snapshot>
    /** Kept, but no file name is built from it. */
    const path: string
    const dataFilename: string
    const timestampsFilename: string
    var files: map<string, FileContent>

    /** Empty or missing arguments take the defaults. */
    constructor(path: Option<string>, dataFilename: Option<string>, timestampsFilename: Option<string>,
                files: map<string, FileContent>)
      ensures this.data == None && this.files == files
      ensures this.path == OrDefault(path, "")
      ensures this.dataFilename == OrDefault(dataFilename, DEFAULT_DATA_FILENAME)
      ensures this.timestampsFilename == OrDefault(timestampsFilename, DEFAULT_TIMESTAMPS_FILENAME)
    {
      this.data := None;
      this.path := OrDefault(path, "");
      this.dataFilename := OrDefault(dataFilename, DEFAULT_DATA_FILENAME);
      this.timestampsFilename := OrDefault(timestampsFilename, DEFAULT_TIMESTAMPS_FILENAME);
      this.files := files;
    }

    predicate TableReadable()
      reads this
    {
      dataFilename in files && files[dataFilename].TableFile?
    }

    predicate MetaReadable()
      reads this
    {
      timestampsFilename in files && files[timestampsFilename].MetaFile?
    }

    /** `load`: a file that cannot be read makes it return quietly; once both
        are read the snapshot is replaced, unless decoding the metadata
        raises, which leaves it as it was. */
    method Load() returns (r: Result<(), CacheError>)
      modifies this
      ensures files == old(files)
      ensures !TableReadable() || !MetaReadable() ==> r.Ok? && data == old(data)
      ensures TableReadable() && MetaReadable() ==>
        match DecodeFileMeta(files[dataFilename].table, files[timestampsFilename].meta)
        case Ok(s) => r.Ok? && data == Some(s)
        case Err(e) => r == Err(e) && data == old(data)
    {
      if !TableReadable() {
        return Ok(());
      }
      var table := files[dataFilename].table;
      if !MetaReadable() {
        return Ok(());
      }
      var meta := files[timestampsFilename].meta;
      var decoded := DecodeFileMeta(table, meta);
      if decoded.Err? {
        return Err(decoded.error);
      }
      data := Some(decoded.value);
      r := Ok(());
    }

    /** `save`: the table file is written first, then the metadata file. */
    method Save(fault: WriteFault) returns (r: Result<(), CacheError>)
      modifies this
      ensures data == old(data)
      ensures r.Ok? <==> data.Some? && fault == NoFault
      ensures data.None? ==> r == Err(NoSnapshot)
      ensures data.None? || fault == TableWriteFails ==> files == old(files)
      ensures data.Some? && fault == MetaWriteFails ==>
        files == old(files)[dataFilename := TableFile(data.value.rates)]
      ensures r.Ok? ==>
        files == old(files)[dataFilename := TableFile(data.value.rates)]
                           [timestampsFilename := MetaFile(EncodeFileMeta(data.value))]
    {
      if data.None? {
        return Err(NoSnapshot);
      }
      var snapshot := data.value;
      if fault == TableWriteFails {
        return Err(WriteFailed);
      }
      files := files[dataFilename := TableFile(snapshot.rates)];
      if fault == MetaWriteFails {
        return Err(WriteFailed);
      }
      files := files[timestampsFilename := MetaFile(EncodeFileMeta(snapshot))];
      r := Ok(());
    }
  }
}
