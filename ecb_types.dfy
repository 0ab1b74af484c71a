/** Update strategies and the staleness classifier that picks one
    (euro_converter/ecb/types.py). Instants and durations are whole seconds;
    the current time is a parameter instead of a call to the clock. */
module EcbTypes {
  import opened Wrappers

  const SECONDS_PER_DAY: int := 86400
  /** `DELTA_1`: one day. */
  const DELTA_1: int := SECONDS_PER_DAY
  /** `DELTA_90`: ninety days. */
  const DELTA_90: int := 90 * SECONDS_PER_DAY

  /** Which variant of the feed to fetch. */
  datatype UpdateType = Full | Incremental90Days | IncrementalDaily {
    /** The enum's value, also the key under which validators are stored. */
    function Value(): string {
      match this
      case Full => "full"
      case Incremental90Days => "incremental-90-days"
      case IncrementalDaily => "incremental-daily"
    }
  }

  /** `UpdateTimestamps`: the HTTP validators of the last response for one
      strategy; both default to `None`. */
  datatype UpdateTimestamps = UpdateTimestamps(modifiedSince: Option<string>, etag: Option<string>)

  const DEFAULT_TIMESTAMPS: UpdateTimestamps := UpdateTimestamps(None, None)

  /** `get_update_type`: no previous update means a full fetch; otherwise the
      time elapsed since it picks the strategy (a last update in the future is
      a negative elapsed time, hence daily). */
  function GetUpdateType(now: int, latestCheck: Option<int>): (r: UpdateType)
    ensures r == Full <==> latestCheck.None? || now - latestCheck.value >= DELTA_90
    ensures r == IncrementalDaily <==> latestCheck.Some? && now - latestCheck.value < DELTA_1
    ensures r == Incremental90Days <==> latestCheck.Some? && DELTA_1 <= now - latestCheck.value < DELTA_90
  {
    if latestCheck.None? then Full
    else
      var delta := now - latestCheck.value;
      if delta < DELTA_1 then IncrementalDaily
      else if DELTA_1 <= delta < DELTA_90 then Incremental90Days
      else Full
  }

  /** How much of the feed a strategy fetches: daily < 90 days < full. */
  function Coverage(t: UpdateType): nat {
    match t
    case IncrementalDaily => 0
    case Incremental90Days => 1
    case Full => 2
  }

  /** The longer the last update lies back, the more of the feed is fetched. */
  lemma StalenessMonotone(now1: int, now2: int, last: int)
    requires now1 <= now2
    ensures Coverage(GetUpdateType(now1, Some(last))) <= Coverage(GetUpdateType(now2, Some(last)))
  {
  }

  /** The three strategies have three different keys. */
  lemma ValuesDistinct(t1: UpdateType, t2: UpdateType)
    ensures t1.Value() == t2.Value() <==> t1 == t2
  {
    assert |Full.Value()| != |Incremental90Days.Value()|;
    assert |Full.Value()| != |IncrementalDaily.Value()|;
    assert |Incremental90Days.Value()| != |IncrementalDaily.Value()|;
  }

  /** The cases of the calculator's update test, at 2023-01-05T12:01 UTC
      (seconds since 2022-01-01T00:00). */
  lemma UpdateTypeExamples()
    ensures var now := 369 * SECONDS_PER_DAY + 12 * 3600 + 60;
      && GetUpdateType(now, None) == Full
      && GetUpdateType(now, Some(0)) == Full
      && GetUpdateType(now, Some(365 * SECONDS_PER_DAY)) == Incremental90Days
      && GetUpdateType(now, Some(369 * SECONDS_PER_DAY)) == IncrementalDaily
  {
  }
}
