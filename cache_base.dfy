/** The snapshot the calculator works on (`RatesCacheData`,
    euro_converter/cache/data.py) and the two caches of
    euro_converter/cache/base.py: the plain one that keeps the snapshot in
    memory only, and the stored one that writes the table and a metadata
    dictionary to a store. The store is modelled by two fields holding what
    was last written; a failing write is the `WriteFault` parameter. */
module CacheBase {
  import opened Wrappers
  import opened EcbTypes
  import opened IsoTime
  import RateTable

  /** The table, the instant of the last update (seconds), and the
      validators of the last response per strategy key. */
  datatype Snapshot = Snapshot(
    rates: RateTable.Table,
    lastUpdate: int,
    lastTimestamps: map<string, UpdateTimestamps>)

  /** Which write of a `save`, if any, raises. */
  datatype WriteFault = NoFault | TableWriteFails | MetaWriteFails

  /** The exceptions `load` and `save` raise. */
  datatype CacheError =
    | NoSnapshot             // `save` with `data = None`
    | WriteFailed            // the store refused a write
    | BadTimestamp           // `fromisoformat` rejected the stored text
    | UnknownValidatorField  // `UpdateTimestamps(**values)` with another key
    | TooManyValidatorValues // `UpdateTimestamps(*values)` with more than two

  /** `RatesCache`: the snapshot lives in memory only. */
  class RatesCache {
    var data: Option<Snapshot>

    constructor()
      ensures data == None
    {
      data := None;
    }

    /** Loading finds nothing to load. */
    method Load()
      ensures unchanged(this)
    {
    }

    /** Saving has nowhere to write. */
    method Save()
      ensures unchanged(this)
    {
    }
  }

  // ---------------------------------------------------------------------
  // The metadata dictionary of the stored cache.

  const MODIFIED_SINCE: string := "modified_since"
  const ETAG: string := "etag"

  datatype StoredMeta = StoredMeta(lastUpdate: string, lastHeaders: map<string, map<string, string>>)

  /** The validators of one strategy, without the fields that are `None` or
      empty. */
  function EncodeHeaders(ts: UpdateTimestamps): (m: map<string, string>)
    ensures MODIFIED_SINCE in m <==> Present(ts.modifiedSince)
    ensures ETAG in m <==> Present(ts.etag)
    ensures m.Keys <= {MODIFIED_SINCE, ETAG}
    ensures MODIFIED_SINCE in m ==> m[MODIFIED_SINCE] == ts.modifiedSince.value
    ensures ETAG in m ==> m[ETAG] == ts.etag.value
  {
    var m1: map<string, string> := if Present(ts.modifiedSince) then map[MODIFIED_SINCE := ts.modifiedSince.value] else map[];
    if Present(ts.etag) then m1[ETAG := ts.etag.value] else m1
  }

  /** `UpdateTimestamps(**values)`: a missing field is `None`, any other key
      is a `TypeError`. */
  function DecodeHeaders(m: map<string, string>): (r: Result<UpdateTimestamps, CacheError>)
    ensures r.Ok? <==> m.Keys <= {MODIFIED_SINCE, ETAG}
    ensures r.Ok? ==> r.value == UpdateTimestamps(Get(m, MODIFIED_SINCE), Get(m, ETAG))
  {
    if m.Keys <= {MODIFIED_SINCE, ETAG} then Ok(UpdateTimestamps(Get(m, MODIFIED_SINCE), Get(m, ETAG)))
    else Err(UnknownValidatorField)
  }

  /** The metadata `save` writes. */
  function EncodeMeta(s: Snapshot): (m: StoredMeta)
    ensures m.lastHeaders.Keys == s.lastTimestamps.Keys
    ensures forall k :: k in m.lastHeaders ==> m.lastHeaders[k] == EncodeHeaders(s.lastTimestamps[k])
  {
    StoredMeta(
      IsoFormat(s.lastUpdate),
      map k | k in s.lastTimestamps :: EncodeHeaders(s.lastTimestamps[k]))
  }

  /** The snapshot `load` rebuilds from a stored table and metadata. */
  function DecodeMeta(table: RateTable.Table, m: StoredMeta): (r: Result<Snapshot, CacheError>)
    ensures r.Ok? <==> FromIsoFormat(m.lastUpdate).Some?
                       && forall k :: k in m.lastHeaders ==> DecodeHeaders(m.lastHeaders[k]).Ok?
    ensures r.Ok? ==> r.value.rates == table && Some(r.value.lastUpdate) == FromIsoFormat(m.lastUpdate)
    ensures r.Ok? ==> r.value.lastTimestamps.Keys == m.lastHeaders.Keys
    ensures r.Ok? ==> forall k :: k in m.lastHeaders ==>
      Ok(r.value.lastTimestamps[k]) == DecodeHeaders(m.lastHeaders[k])
  {
    var t := FromIsoFormat(m.lastUpdate);
    if t.None? then Err(BadTimestamp)
    else if exists k :: k in m.lastHeaders && DecodeHeaders(m.lastHeaders[k]).Err? then Err(UnknownValidatorField)
    else Ok(Snapshot(table, t.value, map k | k in m.lastHeaders :: DecodeHeaders(m.lastHeaders[k]).value))
  }

  /** What a stored validator reads back as: an empty string is dropped on
      the way out and comes back as `None`. */
  function Normalize(ts: UpdateTimestamps): UpdateTimestamps {
    UpdateTimestamps(
      if Present(ts.modifiedSince) then ts.modifiedSince else None,
      if Present(ts.etag) then ts.etag else None)
  }

  lemma HeadersRoundTrip(ts: UpdateTimestamps)
    ensures DecodeHeaders(EncodeHeaders(ts)) == Ok(Normalize(ts))
  {
  }

  /** `save` then `load` gives back the table, the instant and the validators,
      each empty validator turned into `None`. */
  lemma {:induction false} StoredRoundTrip(s: Snapshot)
    ensures DecodeMeta(s.rates, EncodeMeta(s))
         == Ok(s.(lastTimestamps := map k | k in s.lastTimestamps :: Normalize(s.lastTimestamps[k])))
  {
    var m := EncodeMeta(s);
    IsoRoundTrip(s.lastUpdate);
    forall k | k in m.lastHeaders ensures DecodeHeaders(m.lastHeaders[k]) == Ok(Normalize(s.lastTimestamps[k])) {
      HeadersRoundTrip(s.lastTimestamps[k]);
    }
    var d := DecodeMeta(s.rates, m);
    assert d.Ok?;
    assert d.value.lastTimestamps == map k | k in s.lastTimestamps :: Normalize(s.lastTimestamps[k]);
  }

  /** Without empty validators the round trip is exact. */
  lemma StoredRoundTripExact(s: Snapshot)
    requires forall k :: k in s.lastTimestamps ==>
      s.lastTimestamps[k].modifiedSince != Some("") && s.lastTimestamps[k].etag != Some("")
    ensures DecodeMeta(s.rates, EncodeMeta(s)) == Ok(s)
  {
    StoredRoundTrip(s);
    assert (map k | k in s.lastTimestamps :: Normalize(s.lastTimestamps[k])) == s.lastTimestamps;
  }

  /** `StoredRatesCache`: `storedTable` and `storedMeta` are what the store
      holds; `None` for the metadata stands for nothing stored or an empty
      dictionary. */
  class StoredRatesCache {
    var data: Option<Snapshot>
    var storedTable: Option<RateTable.Table>
    var storedMeta: Option<StoredMeta>

    constructor(table: Option<RateTable.Table>, meta: Option<StoredMeta>)
      ensures data == None && storedTable == table && storedMeta == meta
    {
      data := None;
      storedTable := table;
      storedMeta := meta;
    }

    /** `load`: the snapshot is replaced only when both pieces are stored
        and decode; a decoding failure raises and leaves it as it was. */
    method Load() returns (r: Result<(), CacheError>)
      modifies this
      ensures storedTable == old(storedTable) && storedMeta == old(storedMeta)
      ensures storedTable.None? || storedMeta.None? ==> r.Ok? && data == old(data)
      ensures storedTable.Some? && storedMeta.Some? ==>
        match DecodeMeta(storedTable.value, storedMeta.value)
        case Ok(s) => r.Ok? && data == Some(s)
        case Err(e) => r == Err(e) && data == old(data)
    {
      if storedTable.Some? && storedMeta.Some? {
        var decoded := DecodeMeta(storedTable.value, storedMeta.value);
        if decoded.Err? {
          return Err(decoded.error);
        }
        data := Some(decoded.value);
      }
      r := Ok(());
    }

    /** `save`: the table is written first, then the metadata. */
    method Save(fault: WriteFault) returns (r: Result<(), CacheError>)
      modifies this
      ensures data == old(data)
      ensures r.Ok? <==> data.Some? && fault == NoFault
      ensures data.None? ==> r == Err(NoSnapshot)
      ensures storedTable == (if data.Some? && fault != TableWriteFails then Some(data.value.rates) else old(storedTable))
      ensures storedMeta == (if r.Ok? then Some(EncodeMeta(data.value)) else old(storedMeta))
    {
      if data.None? {
        return Err(NoSnapshot);
      }
      var snapshot := data.value;
      if fault == TableWriteFails {
        return Err(WriteFailed);
      }
      storedTable := Some(snapshot.rates);
      if fault == MetaWriteFails {
        return Err(WriteFailed);
      }
      storedMeta := Some(EncodeMeta(snapshot));
      r := Ok(());
    }
  }
}
