/**
 `WeatherWidget`: the GTK weather widget. It keeps the last record and the
 last fetch error; each update refreshes them, redraws, and schedules the
 next update after `update_interval`, or `retry_timeout` while an error is
 recorded.
 */
module WeatherWidget {
  import opened Wrappers
  import opened WeatherCommon

  datatype Props = Props(updateInterval: nat, retryTimeout: nat)

  datatype Widget = Widget(data: Option<WeatherData>, errorStr: Option<string>)

  /** The widget as `build` creates it. */
  const Initial := Widget(None, None)

  datatype Updated = Updated(widget: Widget, cache: CacheFile)

  /**
   `update_data`: a fresh cache is loaded and the recorded error is kept; a
   stale or missing one leads to a fetch, whose success is stored and clears
   the error and whose failure is recorded with the record left alone.
   */
  function UpdateData(w: Widget, props: Props, cache: CacheFile, now: real, fetch: Fetch, writable: bool): (o: Outcome<Updated>)
    ensures var check := CheckCache(cache, now, props.updateInterval);
      && (check.ClockBehind? ==> o == Panic(ClockWentBack))
      && (check.Fresh? ==>
            if check.data.None? then o == Panic(CorruptCache)
            else o == Done(Updated(w.(data := check.data), cache)))
      && ((check.Missing? || check.Stale?) && fetch.Fetched? ==>
            if writable then o == Done(Updated(Widget(Some(fetch.data), None), WriteCache(now, fetch.data)))
            else o == Panic(WriteFailed))
      && ((check.Missing? || check.Stale?) && fetch.FetchFailed? ==>
            o == Done(Updated(w.(errorStr := Some(fetch.message)), cache)))
    ensures o.Done? ==> Displayable(o.value.widget.errorStr, o.value.widget.data)
  {
    match CheckCache(cache, now, props.updateInterval)
    case ClockBehind => Panic(ClockWentBack)
    case Fresh(d) =>
      if d.None? then Panic(CorruptCache) else Done(Updated(w.(data := d), cache))
    case _ =>
      match fetch
      case Fetched(x) =>
        if !writable then Panic(WriteFailed) else Done(Updated(Widget(Some(x), None), WriteCache(now, x)))
      case FetchFailed(e) => Done(Updated(w.(errorStr := Some(e)), cache))
  }

  datatype Round = Round(widget: Widget, cache: CacheFile, view: View, delay: nat)

  /** `update`: refresh, pick the delay from the recorded error, redraw. */
  function Update(w: Widget, props: Props, cache: CacheFile, now: real, fetch: Fetch, writable: bool): (o: Outcome<Round>)
    ensures o.Done? ==> UpdateData(w, props, cache, now, fetch, writable).Done?
    ensures o.Done? ==>
      var u := UpdateData(w, props, cache, now, fetch, writable).value;
      && o.value.widget == u.widget
      && o.value.cache == u.cache
      && o.value.delay == (if u.widget.errorStr.None? then props.updateInterval else props.retryTimeout)
      && o.value.view.error == u.widget.errorStr
    ensures var d := UpdateData(w, props, cache, now, fetch, writable);
      o.Done? <==> d.Done? && RenderView(d.value.widget.errorStr, d.value.widget.data).Done?
    ensures var d := UpdateData(w, props, cache, now, fetch, writable);
      o.Done? ==> o.value.view == RenderView(d.value.widget.errorStr, d.value.widget.data).value
    ensures o != Panic(NoData)
  {
    match UpdateData(w, props, cache, now, fetch, writable)
    case Panic(r) => Panic(r)
    case Done(u) =>
      var delay := if u.widget.errorStr.None? then props.updateInterval else props.retryTimeout;
      match RenderView(u.widget.errorStr, u.widget.data)
      case Panic(r) => Panic(r)
      case Done(view) => Done(Round(u.widget, u.cache, view, delay))
  }

  /**
   Once a fetch has failed, the error stays on screen, and the retry delay
   in force, until a fetch succeeds: serving the cache does not clear it.
   */
  lemma ErrorPersistsOnCacheHit(w: Widget, props: Props, cache: CacheFile, now: real, fetch: Fetch, writable: bool)
    requires w.errorStr.Some?
    requires CheckCache(cache, now, props.updateInterval).Fresh?
    requires CheckCache(cache, now, props.updateInterval).data.Some?
    ensures Update(w, props, cache, now, fetch, writable).Done?
    ensures var r := Update(w, props, cache, now, fetch, writable).value;
      r.view == View(w.errorStr, None) && r.delay == props.retryTimeout
  {
  }
}
