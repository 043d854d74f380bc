/**
 What the three weather widgets share: the OpenWeather record they display,
 the on-disk cache and its freshness test, the icon tables, the two-character
 icon key and the 16-point compass used for the wind direction.

 The cache file is an input: it is absent, or present with a modification
 time and contents that either parse as a weather record or do not. Times
 are seconds as reals; `now` is the wall clock at the moment of the tick.
 */
module WeatherCommon {
  import opened Wrappers
  import opened Seqs

  datatype Condition = Condition(id: nat, main: string, description: string, icon: string)

  /** The fields of `WeatherData` the widgets read. */
  datatype WeatherData = WeatherData(
    weather: seq<Condition>,
    temp: real,
    humidity: real,
    windSpeed: real,
    windDeg: real,
    sunrise: nat,
    sunset: nat,
    timezone: int)

  /** `WeatherData::default()`: in particular, no weather conditions. */
  const DefaultData := WeatherData([], 0.0, 0.0, 0.0, 0.0, 0, 0, 0)

  /** The cache file `weather.json`; `data` is `None` when its JSON does not parse. */
  datatype CacheFile = Absent | Present(modified: real, data: Option<WeatherData>)

  /** What the weather API call returned. */
  datatype Fetch = Fetched(data: WeatherData) | FetchFailed(message: string)

  /** Panic messages of the `unwrap`s and indexing on the update paths. */
  /** `Option::unwrap()` on `None`, told apart by the value that was missing. */
  const NoData := "called `Option::unwrap()` on a `None` value: weather data"
  const UnknownIcon := "called `Option::unwrap()` on a `None` value: icon"
  const ClockWentBack := "called `Result::unwrap()` on an `Err` value: SystemTimeError"
  const CorruptCache := "called `Result::unwrap()` on an `Err` value: serde_json::Error"
  const WriteFailed := "called `Result::unwrap()` on an `Err` value: io::Error"
  const NoCondition := "index out of bounds: the len is 0 but the index is 0"

  /** The outcome of looking at the cache before deciding whether to fetch. */
  datatype CacheCheck = Missing | ClockBehind | Fresh(data: Option<WeatherData>) | Stale

  /**
   The freshness test: the cache is served when it exists and is younger than
   `interval` seconds, strictly; a modification time in the future makes
   `duration_since` fail.
   */
  function CheckCache(cache: CacheFile, now: real, interval: nat): (c: CacheCheck)
    ensures c.Missing? <==> cache.Absent?
    ensures c.ClockBehind? <==> cache.Present? && now < cache.modified
    ensures c.Fresh? <==> cache.Present? && cache.modified <= now && now - cache.modified < interval as real
    ensures c.Fresh? ==> c.data == cache.data
  {
    match cache
    case Absent => Missing
    case Present(modified, data) =>
      if now < modified then ClockBehind
      else if now - modified < interval as real then Fresh(data)
      else Stale
  }

  /** The cache after `serde_json::to_writer` stored `data` at time `now`. */
  function WriteCache(now: real, data: WeatherData): (cache: CacheFile)
    ensures cache.Present? && cache.data == Some(data)
  {
    Present(now, Some(data))
  }

  /**
   A cache written at `written` is served back unchanged to every tick less
   than `interval` seconds later, and to no later one.
   */
  lemma WrittenCacheServed(written: real, now: real, interval: nat, data: WeatherData)
    requires written <= now
    ensures CheckCache(WriteCache(written, data), now, interval)
            == if now - written < interval as real then Fresh(Some(data)) else Stale
  {
  }

  /** `icon.chars().take(2).collect()`. */
  function IconKey(icon: string): (key: string)
    ensures |key| == Min(2, |icon|)
    ensures key == icon[..|key|]
  {
    Take(icon, 2)
  }

  /** OpenWeather icon codes are two digits and a day/night letter: the key is the digits. */
  lemma IconKeyOfCode(digits: string, suffix: string)
    requires |digits| == 2
    ensures IconKey(digits + suffix) == digits
  {
    assert (digits + suffix)[..2] == digits;
  }

  /** The nine condition codes the icon tables know. */
  const IconCodes: seq<string> := ["01", "02", "03", "04", "09", "10", "11", "13", "50"]

  /** The GTK widgets' symbols, one per code in `IconCodes`. */
  const PlainSymbols: seq<string> := [
    "\U{2600}", "\U{1F324}", "\U{1F325}", "\U{2601}", "\U{1F327}",
    "\U{1F326}", "\U{1F329}", "\U{1F328}", "\U{1F32B}"]

  /** Unicode's emoji-presentation selector, which the freya table appends. */
  const EmojiPresentation: char := '\U{FE0F}'

  function IndexOf(xs: seq<string>, x: string): (i: Option<nat>)
    ensures i.None? <==> x !in xs
    ensures i.Some? ==> i.value < |xs| && xs[i.value] == x
  {
    if |xs| == 0 then None
    else if xs[0] == x then Some(0)
    else match IndexOf(xs[1..], x)
      case None => None
      case Some(j) => Some(j + 1)
  }

  /** `ICON_MAP.get(key)` of the GTK widgets. */
  function PlainIcon(key: string): (symbol: Option<string>)
    ensures symbol.Some? <==> key in IconCodes
    ensures symbol.Some? ==> symbol.value in PlainSymbols
  {
    match IndexOf(IconCodes, key)
    case None => None
    case Some(i) => Some(PlainSymbols[i])
  }

  /** `ICON_MAP.get(key)` of the freya widget. */
  function EmojiIcon(key: string): (symbol: Option<string>)
    ensures symbol.Some? <==> key in IconCodes
  {
    match IndexOf(IconCodes, key)
    case None => None
    case Some(i) => Some(PlainSymbols[i] + [EmojiPresentation])
  }

  /** The two tables agree on their keys and differ only by the presentation selector. */
  lemma IconTablesAgree(key: string)
    ensures PlainIcon(key).Some? <==> EmojiIcon(key).Some?
    ensures EmojiIcon(key).Some? ==> EmojiIcon(key).value == PlainIcon(key).value + [EmojiPresentation]
  {
  }

  /** The 16 compass points, clockwise from north. */
  const Directions: seq<string> := [
    "N", "NNE", "NE", "ENE", "E", "ESE", "SE", "SSE",
    "S", "SSW", "SW", "WSW", "W", "WNW", "NW", "NNW"]

  /** `360.0 / directions.len()`. */
  const SectorAngle: real := 22.5

  const UsizeMax: nat := 0x1_0000_0000_0000_0000 - 1

  /** Rust's `as usize` on a float: rounds toward zero and saturates. */
  function SaturatingToUsize(x: real): (n: nat)
    ensures n <= UsizeMax
    ensures x < 0.0 ==> n == 0
    ensures 0.0 <= x < UsizeMax as real + 1.0 ==> n as real <= x < n as real + 1.0
    ensures x >= UsizeMax as real + 1.0 ==> n == UsizeMax
  {
    if x < 0.0 then 0
    else if x >= UsizeMax as real + 1.0 then UsizeMax
    else x.Floor
  }

  /** `degrees_to_direction`. */
  function DegreesToDirection(degrees: real): (d: string)
    ensures d in Directions
  {
    var i := SaturatingToUsize((degrees + SectorAngle / 2.0) / SectorAngle) % |Directions|;
    Directions[i]
  }

  /**
   The compass rule: sector `k` spans `SectorAngle` degrees centred on
   `k * SectorAngle`, and every angle in it gets the `k mod 16`-th point.
   */
  lemma DirectionOfSector(degrees: real, k: nat)
    requires k as real * SectorAngle - SectorAngle / 2.0 <= degrees
    requires degrees < k as real * SectorAngle + SectorAngle / 2.0
    requires k <= UsizeMax
    ensures DegreesToDirection(degrees) == Directions[k % 16]
  {
    var x := (degrees + SectorAngle / 2.0) / SectorAngle;
    assert x * SectorAngle == degrees + SectorAngle / 2.0;
    assert k as real <= x < k as real + 1.0;
    assert SaturatingToUsize(x) == k;
  }

  /** Angles below the first sector saturate to index 0, north. */
  lemma NegativeAnglesAreNorth(degrees: real)
    requires degrees < -SectorAngle / 2.0
    ensures DegreesToDirection(degrees) == "N"
  {
    var x := (degrees + SectorAngle / 2.0) / SectorAngle;
    assert x * SectorAngle == degrees + SectorAngle / 2.0;
    assert x < 0.0;
    assert SaturatingToUsize(x) == 0;
  }

  lemma CompassPoints()
    ensures DegreesToDirection(0.0) == "N"
    ensures DegreesToDirection(90.0) == "E"
    ensures DegreesToDirection(180.0) == "S"
    ensures DegreesToDirection(270.0) == "W"
    ensures DegreesToDirection(348.75) == "N"
    ensures DegreesToDirection(360.0) == "N"
  {
    DirectionOfSector(0.0, 0);
    DirectionOfSector(90.0, 4);
    DirectionOfSector(180.0, 8);
    DirectionOfSector(270.0, 12);
    DirectionOfSector(348.75, 16);
    DirectionOfSector(360.0, 16);
  }

  /** The labels a GTK widget fills in from the weather record. */
  datatype Fields = Fields(icon: string, conditions: string, windDirection: string)

  /** What a GTK widget shows: the error text, and the fields when it refreshed them. */
  datatype View = View(error: Option<string>, fields: Option<Fields>)

  /** A widget state `update_components` can draw without unwrapping a missing record. */
  predicate Displayable(errorStr: Option<string>, data: Option<WeatherData>) {
    errorStr.Some? || data.Some?
  }

  /**
   `update_components` of the GTK widgets: an error is shown alone and the
   record is not read; otherwise the record must be there, with a first
   condition whose icon key is known.
   */
  function RenderView(errorStr: Option<string>, data: Option<WeatherData>): (o: Outcome<View>)
    ensures errorStr.Some? ==> o == Done(View(errorStr, None))
    ensures !Displayable(errorStr, data) ==> o == Panic(NoData)
    ensures errorStr.None? && data.Some? ==>
              (o.Done? <==> |data.value.weather| > 0 && IconKey(data.value.weather[0].icon) in IconCodes)
    ensures o.Done? && errorStr.None? ==>
              && o.value.error.None?
              && o.value.fields.Some?
              && o.value.fields.value.icon in PlainSymbols
              && o.value.fields.value.windDirection in Directions
              && o.value.fields.value.windDirection == DegreesToDirection(data.value.windDeg)
  {
    match errorStr
    case Some(_) => Done(View(errorStr, None))
    case None =>
      match data
      case None => Panic(NoData)
      case Some(d) =>
        if |d.weather| == 0 then Panic(NoCondition)
        else
          match PlainIcon(IconKey(d.weather[0].icon))
          case None => Panic(UnknownIcon)
          case Some(icon) =>
            Done(View(None, Some(Fields(icon, d.weather[0].description, DegreesToDirection(d.windDeg)))))
  }
}
