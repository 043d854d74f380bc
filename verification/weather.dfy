/**
 `Weather`: the freya weather component. Each turn of its update loop runs
 `update_data` (serve the cache or fetch and store), records the result in
 the component state and sleeps for the delay it picked.
 */
module Weather {
  import opened Wrappers
  import opened WeatherCommon

  datatype Config = Config(updateInterval: nat, retryTimeout: nat)

  /** What `update_data` returned, the cache it left behind, and whether it called the API. */
  datatype DataUpdate = DataUpdate(result: Result<WeatherData, string>, cache: CacheFile, fetched: bool)

  /** `update_data`. */
  function UpdateData(config: Config, cache: CacheFile, now: real, fetch: Fetch, writable: bool): (o: Outcome<DataUpdate>)
    ensures var check := CheckCache(cache, now, config.updateInterval);
      && (check.ClockBehind? <==> o == Panic(ClockWentBack))
      && (o.Done? ==> (o.value.fetched <==> check.Missing? || check.Stale?))
      && (o.Done? && !o.value.fetched ==>
            check.Fresh? && check.data.Some? && o.value.result == Ok(check.data.value) && o.value.cache == cache)
      && (o.Done? && o.value.fetched ==>
            && (o.value.result.Ok? <==> fetch.Fetched?)
            && (fetch.Fetched? ==> o.value.result.value == fetch.data && o.value.cache == WriteCache(now, fetch.data))
            && (fetch.FetchFailed? ==> o.value.result == Err(fetch.message) && o.value.cache == cache))
    ensures var check := CheckCache(cache, now, config.updateInterval);
      && (check.Fresh? ==>
            o == if check.data.None? then Panic(CorruptCache) else Done(DataUpdate(Ok(check.data.value), cache, false)))
      && ((check.Missing? || check.Stale?) && fetch.Fetched? ==>
            o == if writable then Done(DataUpdate(Ok(fetch.data), WriteCache(now, fetch.data), true)) else Panic(WriteFailed))
      && ((check.Missing? || check.Stale?) && fetch.FetchFailed? ==>
            o == Done(DataUpdate(Err(fetch.message), cache, true)))
  {
    match CheckCache(cache, now, config.updateInterval)
    case ClockBehind => Panic(ClockWentBack)
    case Fresh(d) =>
      if d.None? then Panic(CorruptCache) else Done(DataUpdate(Ok(d.value), cache, false))
    case _ =>
      match fetch
      case Fetched(w) =>
        if !writable then Panic(WriteFailed) else Done(DataUpdate(Ok(w), WriteCache(now, w), true))
      case FetchFailed(e) => Done(DataUpdate(Err(e), cache, true))
  }

  /** A served cache does not depend on what the API would have returned. */
  lemma ServedIgnoresFetch(config: Config, cache: CacheFile, now: real, f1: Fetch, f2: Fetch, writable: bool)
    requires CheckCache(cache, now, config.updateInterval).Fresh?
    ensures UpdateData(config, cache, now, f1, writable) == UpdateData(config, cache, now, f2, writable)
  {
  }

  /** The component's reactive state. */
  datatype State = State(data: WeatherData, hasErr: bool, errorStr: string, condIcon: string)

  const Initial := State(DefaultData, false, "", "")

  datatype Tick = Tick(state: State, cache: CacheFile, delay: nat)

  /** The view shows the error panel instead of the weather. */
  predicate ShowsError(s: State) {
    s.hasErr || |s.data.weather| == 0
  }

  /** One turn of the update loop. */
  function Step(s: State, config: Config, cache: CacheFile, now: real, fetch: Fetch, writable: bool): (o: Outcome<Tick>)
    ensures o.Done? ==> UpdateData(config, cache, now, fetch, writable).Done?
    ensures o.Done? ==> var u := UpdateData(config, cache, now, fetch, writable).value;
      && o.value.cache == u.cache
      && (u.result.Ok? ==>
            && o.value.state.data == u.result.value
            && !o.value.state.hasErr
            && o.value.state.errorStr == s.errorStr
            && o.value.delay == config.updateInterval
            && |u.result.value.weather| > 0
            && Some(o.value.state.condIcon) == EmojiIcon(IconKey(u.result.value.weather[0].icon)))
      && (u.result.Err? ==>
            && o.value.state == s.(hasErr := true, errorStr := u.result.error)
            && o.value.delay == config.retryTimeout)
      && (ShowsError(o.value.state) <==> u.result.Err?)
    ensures UpdateData(config, cache, now, fetch, writable).Done? ==>
              var u := UpdateData(config, cache, now, fetch, writable).value;
              u.result.Ok? ==>
                (o.Done? <==> |u.result.value.weather| > 0 && IconKey(u.result.value.weather[0].icon) in IconCodes)
    ensures UpdateData(config, cache, now, fetch, writable).Done? ==>
              var u := UpdateData(config, cache, now, fetch, writable).value;
              u.result.Err? ==> o == Done(Tick(s.(hasErr := true, errorStr := u.result.error), u.cache, config.retryTimeout))
    ensures UpdateData(config, cache, now, fetch, writable).Panic? ==>
              o == Panic(UpdateData(config, cache, now, fetch, writable).reason)
  {
    match UpdateData(config, cache, now, fetch, writable)
    case Panic(r) => Panic(r)
    case Done(u) =>
      match u.result
      case Ok(d) =>
        if |d.weather| == 0 then Panic(NoCondition)
        else
          (match EmojiIcon(IconKey(d.weather[0].icon))
           case None => Panic(UnknownIcon)
           case Some(icon) => Done(Tick(State(d, false, s.errorStr, icon), u.cache, config.updateInterval)))
      case Err(e) => Done(Tick(s.(hasErr := true, errorStr := e), u.cache, config.retryTimeout))
  }

  /**
   The loop sleeps exactly `update_interval` after a fetch it stored, and the
   freshness test is strict, so the next turn finds the cache stale and
   fetches again: the cache only saves a fetch after a restart.
   */
  lemma NextTurnFetchesAgain(s: State, config: Config, cache: CacheFile, now: real, fetch: Fetch, writable: bool)
    ensures var u := UpdateData(config, cache, now, fetch, writable);
      var o := Step(s, config, cache, now, fetch, writable);
      fetch.Fetched? && u.Done? && u.value.fetched && o.Done? ==>
        CheckCache(o.value.cache, now + o.value.delay as real, config.updateInterval) == Stale
  {
  }
}
