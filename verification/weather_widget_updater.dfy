/**
 `WeatherWidgetUpdater`: the GTK weather widget whose update state is a
 separate updater object. Its `update_data` propagates I/O errors with `?`
 and the delay is chosen from that `Result`, not from the recorded fetch
 error. `UpdateData`/`Update` follow the code as written; `UpdateDataCorrected`
 and `UpdateCorrected` are the behaviour the other two weather widgets have
 and this one evidently intends (see `MissingCacheFirstTickPanics`).
 */
module WeatherWidgetUpdater {
  import opened Wrappers
  import opened WeatherCommon

  datatype Props = Props(updateInterval: nat, retryTimeout: nat)

  datatype Updater = Updater(data: Option<WeatherData>, errorStr: Option<string>)

  /** The updater as `init` creates it. */
  const Initial := Updater(None, None)

  /** The `std::io::Error`s the update can propagate. */
  datatype IoError = NotFound | CannotWrite

  /** `load_cache`: opening a missing file is an error; unparsable contents panic. */
  function LoadCache(u: Updater, cache: CacheFile): (o: Outcome<(Updater, Result<(), IoError>)>)
    ensures cache.Absent? ==> o == Done((u, Err(NotFound)))
    ensures cache.Present? && cache.data.None? ==> o == Panic(CorruptCache)
    ensures cache.Present? && cache.data.Some? ==> o == Done((u.(data := cache.data), Ok(())))
    ensures o.Done? && o.value.1.Ok? ==> cache.Present? && o.value.0 == u.(data := cache.data) && o.value.0.data.Some?
  {
    match cache
    case Absent => Done((u, Err(NotFound)))
    case Present(_, d) =>
      if d.None? then Panic(CorruptCache) else Done((u.(data := d), Ok(())))
  }

  datatype DataUpdate = DataUpdate(updater: Updater, cache: CacheFile, result: Result<(), IoError>)

  /** The fetch-and-store half of `update_data`, shared with the corrected version. */
  function FetchAndStore(u: Updater, cache: CacheFile, now: real, fetch: Fetch, writable: bool): (d: DataUpdate)
    ensures fetch.FetchFailed? ==> d == DataUpdate(u.(errorStr := Some(fetch.message)), cache, Ok(()))
    ensures fetch.Fetched? && writable ==>
              d == DataUpdate(Updater(Some(fetch.data), None), WriteCache(now, fetch.data), Ok(()))
    ensures fetch.Fetched? && !writable ==> d == DataUpdate(u, cache, Err(CannotWrite))
  {
    match fetch
    case Fetched(x) =>
      if writable then DataUpdate(Updater(Some(x), None), WriteCache(now, x), Ok(()))
      else DataUpdate(u, cache, Err(CannotWrite))
    case FetchFailed(e) => DataUpdate(u.(errorStr := Some(e)), cache, Ok(()))
  }

  /** `update_data` as written: `metadata(..)?` returns early when the cache file is missing. */
  function UpdateData(u: Updater, props: Props, cache: CacheFile, now: real, fetch: Fetch, writable: bool): (o: Outcome<DataUpdate>)
    ensures cache.Absent? ==> o == Done(DataUpdate(u, cache, Err(NotFound)))
    ensures cache.Present? && now < cache.modified ==> o == Panic(ClockWentBack)
    ensures cache.Present? && cache.modified <= now && now - cache.modified < props.updateInterval as real ==>
              o == (if cache.data.None? then Panic(CorruptCache)
                    else Done(DataUpdate(u.(data := cache.data), cache, Ok(()))))
    ensures cache.Present? && cache.modified <= now && now - cache.modified >= props.updateInterval as real ==>
              o == Done(FetchAndStore(u, cache, now, fetch, writable))
    ensures o.Done? && o.value.result.Err? ==> o.value.updater == u && o.value.cache == cache
    ensures o.Done? && o.value.cache != cache ==> fetch.Fetched? && o.value.cache == WriteCache(now, fetch.data)
  {
    match CheckCache(cache, now, props.updateInterval)
    case Missing => Done(DataUpdate(u, cache, Err(NotFound)))
    case ClockBehind => Panic(ClockWentBack)
    case Fresh(_) =>
      (match LoadCache(u, cache)
       case Panic(r) => Panic(r)
       case Done((loaded, result)) => Done(DataUpdate(loaded, cache, result)))
    case Stale => Done(FetchAndStore(u, cache, now, fetch, writable))
  }

  datatype Round = Round(updater: Updater, cache: CacheFile, view: View, delay: nat)

  /** `update` as written: the delay depends only on whether `update_data` returned `Ok`. */
  function Update(u: Updater, props: Props, cache: CacheFile, now: real, fetch: Fetch, writable: bool): (o: Outcome<Round>)
    ensures o.Done? ==> UpdateData(u, props, cache, now, fetch, writable).Done?
    ensures o.Done? ==>
      var d := UpdateData(u, props, cache, now, fetch, writable).value;
      && o.value.updater == d.updater
      && o.value.cache == d.cache
      && o.value.delay == (if d.result.Ok? then props.updateInterval else props.retryTimeout)
      && o.value.view.error == d.updater.errorStr
    ensures var d := UpdateData(u, props, cache, now, fetch, writable);
      o.Done? <==> d.Done? && RenderView(d.value.updater.errorStr, d.value.updater.data).Done?
    ensures var d := UpdateData(u, props, cache, now, fetch, writable);
      o.Done? ==> o.value.view == RenderView(d.value.updater.errorStr, d.value.updater.data).value
  {
    match UpdateData(u, props, cache, now, fetch, writable)
    case Panic(r) => Panic(r)
    case Done(d) =>
      var delay := if d.result.Ok? then props.updateInterval else props.retryTimeout;
      match RenderView(d.updater.errorStr, d.updater.data)
      case Panic(r) => Panic(r)
      case Done(view) => Done(Round(d.updater, d.cache, view, delay))
  }

  /**
   As written, the first update on a machine without a cache file panics,
   whatever the API would return: `update_data` gives up before fetching and
   `update_components` unwraps the record that was never set.
   */
  lemma MissingCacheFirstTickPanics(props: Props, now: real, fetch: Fetch, writable: bool)
    ensures Update(Initial, props, Absent, now, fetch, writable) == Panic(NoData)
  {
  }

  /** As written, a failed fetch shows its error but schedules the normal interval, not the retry. */
  lemma FetchErrorWaitsFullInterval(u: Updater, props: Props, cache: CacheFile, now: real, message: string, writable: bool)
    requires CheckCache(cache, now, props.updateInterval).Stale?
    ensures var o := Update(u, props, cache, now, FetchFailed(message), writable);
      o.Done? && o.value.view.error == Some(message) && o.value.delay == props.updateInterval
  {
  }

  /** `update_data` with a missing cache treated as stale, as the other weather widgets do. */
  function UpdateDataCorrected(u: Updater, props: Props, cache: CacheFile, now: real, fetch: Fetch, writable: bool): (o: Outcome<DataUpdate>)
    ensures cache.Absent? ==> o == Done(FetchAndStore(u, cache, now, fetch, writable))
    ensures cache.Present? ==> o == UpdateData(u, props, cache, now, fetch, writable)
  {
    match CheckCache(cache, now, props.updateInterval)
    case ClockBehind => Panic(ClockWentBack)
    case Fresh(_) =>
      (match LoadCache(u, cache)
       case Panic(r) => Panic(r)
       case Done((loaded, result)) => Done(DataUpdate(loaded, cache, result)))
    case _ => Done(FetchAndStore(u, cache, now, fetch, writable))
  }

  /** The tick ended without an error: no I/O failure and no recorded fetch error. */
  predicate Healthy(d: DataUpdate) {
    d.result.Ok? && d.updater.errorStr.None?
  }

  /** `update` on the corrected `update_data`, retrying early after any error. */
  function UpdateCorrected(u: Updater, props: Props, cache: CacheFile, now: real, fetch: Fetch, writable: bool): (o: Outcome<Round>)
    ensures o.Done? ==> UpdateDataCorrected(u, props, cache, now, fetch, writable).Done?
    ensures o.Done? ==>
      var d := UpdateDataCorrected(u, props, cache, now, fetch, writable).value;
      && o.value.updater == d.updater
      && o.value.cache == d.cache
      && o.value.delay == (if Healthy(d) then props.updateInterval else props.retryTimeout)
      && o.value.view.error == d.updater.errorStr
    ensures var d := UpdateDataCorrected(u, props, cache, now, fetch, writable);
      o.Done? <==> d.Done? && RenderView(d.value.updater.errorStr, d.value.updater.data).Done?
    ensures var d := UpdateDataCorrected(u, props, cache, now, fetch, writable);
      o.Done? ==> o.value.view == RenderView(d.value.updater.errorStr, d.value.updater.data).value
  {
    match UpdateDataCorrected(u, props, cache, now, fetch, writable)
    case Panic(r) => Panic(r)
    case Done(d) =>
      var delay := if Healthy(d) then props.updateInterval else props.retryTimeout;
      match RenderView(d.updater.errorStr, d.updater.data)
      case Panic(r) => Panic(r)
      case Done(view) => Done(Round(d.updater, d.cache, view, delay))
  }

  /**
   With the correction, an update never unwraps a missing record, as long as
   the cache directory is writable or the updater already holds something to
   show; in particular the first update without a cache file fetches.
   */
  lemma CorrectedNeverMissesData(u: Updater, props: Props, cache: CacheFile, now: real, fetch: Fetch, writable: bool)
    requires writable || Displayable(u.errorStr, u.data)
    ensures UpdateCorrected(u, props, cache, now, fetch, writable) != Panic(NoData)
  {
    match UpdateDataCorrected(u, props, cache, now, fetch, writable)
    case Panic(r) =>
    case Done(d) =>
      assert Displayable(d.updater.errorStr, d.updater.data);
  }

  /** With the correction, a failed fetch is retried after `retry_timeout`. */
  lemma CorrectedFetchErrorRetries(u: Updater, props: Props, cache: CacheFile, now: real, message: string, writable: bool)
    requires cache.Absent? || CheckCache(cache, now, props.updateInterval).Stale?
    ensures var o := UpdateCorrected(u, props, cache, now, FetchFailed(message), writable);
      o.Done? && o.value.view.error == Some(message) && o.value.delay == props.retryTimeout
  {
  }
}
