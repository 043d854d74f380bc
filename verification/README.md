# dogky core, modelled in Dafny

dogky is a "system vitals" desktop widget. It shows weather, network, CPU, memory, process and disk panels. The same panels exist in up to three front ends:

- an iced application (`src/components/*.rs`);
- GTK widgets (`*_widget.rs`);
- an older GTK updater (`*_widget/updater.rs`).

The freya front end exists for the weather panel only.

This project models the logic behind those panels as pure Dafny functions. One tick of a panel is a state-transition function. Everything the program asks the operating system or the network becomes an input parameter:

- `sysinfo` probes;
- `udevadm` output;
- `/sys` reads;
- the weather API;
- the clock;
- the cache file and its mtime;
- the interface regular expression.

Arithmetic follows a release build of the program:

- `u32` and `u64` arithmetic wraps (`Machine.WrapU32`, `Machine.WrapU64`);
- a `u32` cast to `i32` is read as two's complement (`Machine.AsI32`);
- `f32` is modelled as `real`, and a division by zero gives an infinity or NaN (`Machine.Divide`, `Ratio.NonFinite`);
- each `unwrap` on `None`/`Err`, out-of-range slice and division by zero becomes a `Panic(reason)` outcome (`Wrappers.Outcome`).

Modules:

- **Basics:**
  - `Wrappers`, `Seqs`, `Text`: Option/Result/Outcome, iterator combinators, decimal rendering, `join`/`split` and the `{:?}` escapes.
  - `Machine`: wrapping integers, the `i32` cast, float division, bar spacing.
  - `History`: the bounded graph histories.
  - `Ranking`: stable descending sort and top-k.
- **Duration and config parsing:**
  - `Utils`: `div_rem`, `format_duration` and the parser that reads a duration back.
  - `BoxSides`, `SerdeGaps`, `SerdePadding`: the CSS padding shorthand (section 8.4 of CSS 2.1) and the two config deserialisers.
- **Weather:**
  - `WeatherCommon`: the cache check, icon tables and compass.
  - `Weather` (freya loop), `WeatherWidget` (GTK), `WeatherWidgetUpdater` (updater variant).
- **Network:**
  - `NetworkCommon`: IPv4 text round trip, interface and address lookup.
  - `Network` (iced), `NetworkWidget` (GTK).
- **CPU and memory:**
  - `CpuCommon`: brand-mark removal, bar rows, command line.
  - `CpuMemory` (iced), `CpuMemoryWidget` (GTK), `CpuMemoryWidgetUpdater`.
- **Disk:**
  - `DiskCommon`: `udevadm` lines, device paths, temperature file, disk lookup, space.
  - `Disk` (iced), `DiskWidget` (GTK).

Two behaviours of the program shape the model:

- A cache file that exists but does not parse panics, because the JSON read is unwrapped (src/components/weather.rs:39, src/components/weather_widget.rs:83, src/components/weather_widget/updater.rs:79). Such a file is not treated as stale.
- The process tables are ranked by a stable descending sort followed by `take(k)` (src/components/cpu_memory.rs:336-349, src/components/cpu_memory_widget.rs:290-293).

## Model

| member | source | states |
|---|---|---|
| Utils.DivRem | src/utils.rs:1-3 | quotient times divisor plus remainder is the dividend, and the remainder is below the divisor (a zero divisor is the caller's obligation) |
| Utils.Breakdown | src/utils.rs:6-18 | the days/hours/minutes/seconds fields recompose exactly to the total, with hours below 24 and minutes and seconds below 60 |
| Utils.FormatDuration | src/utils.rs:5-19 | the text always ends in the seconds unit `s`, and its leading field is zero exactly when the duration is zero |
| Utils.FormatDurationFields | src/utils.rs:6-18 | below a minute only unpadded seconds are printed. Below an hour, below a day and from a day on, the text is `m`, `h` or `d` fields with a non-zero leading field and every later field zero-padded to two digits |
| Utils.FormatDurationRoundTrip | src/utils.rs:5-19 | reading the printed fields back and summing their weights gives the original number of seconds, so the rendering loses nothing |
| SerdeGaps.SplitWhitespace | src/serde_structs/serde_gaps.rs:34 | every token is non-empty and contains no whitespace, so runs of spaces never give empty tokens |
| SerdeGaps.SplitWhitespaceKeepsText | src/serde_structs/serde_gaps.rs:34 | the tokens concatenated are the input with its whitespace removed: splitting drops nothing else |
| SerdeGaps.ParseAll | src/serde_structs/serde_gaps.rs:36-60 | the values parse exactly when every token parses, each value is its token's number, and any failure is the float-parse error |
| SerdeGaps.ParseGapsSpec | src/serde_structs/serde_gaps.rs:28-63 | blank input gives the default gaps. One to four float tokens give the CSS shorthand expansion of their values. Five or more tokens give "Invalid number of parameters", and a bad token gives the parse error |
| SerdeGaps.DeserializeGaps | src/serde_structs/serde_gaps.rs:65-76 | deserialisation succeeds exactly when `parse_gaps` does, with the same gaps, and wraps its message as a custom error |
| SerdePadding.FromPair | src/serde_structs/serde_padding.rs:39-40 | a pair sets top and bottom to its first value, and right and left to its second |
| SerdePadding.DeserializeSpec | src/serde_structs/serde_padding.rs:30-54 | a padding is accepted exactly when it is a number or a list of two or four numbers. Accepted values expand by the CSS shorthand rule. Anything else is "Invalid padding", or the untagged-enum error when neither shape matches |
| SerdePadding.SingletonListRejected | src/serde_structs/serde_padding.rs:48-50 | a one-element list is rejected even though the same number alone is accepted |
| WeatherCommon.CheckCache | src/components/weather.rs:44-50 | the cache is fresh exactly when it exists, its mtime is not in the future, and its age is strictly below the update interval. A future mtime is its own outcome, and a missing file is distinguished |
| WeatherCommon.WrittenCacheServed | src/components/weather.rs:44-58 | data written at one time is served back on a later check exactly while its age stays below the interval |
| WeatherCommon.IconKey | src/components/weather.rs:84 | the key is the icon code's first two characters, or the whole code when shorter |
| WeatherCommon.IconKeyOfCode | src/components/weather.rs:84 | for an OpenWeather code of two digits plus a day/night letter, the key is the two digits |
| WeatherCommon.PlainIcon | src/components/weather_widget.rs:18-28 | an icon symbol exists exactly for the nine known keys |
| WeatherCommon.EmojiIcon | src/components/weather.rs:20-30 | the freya table knows exactly the same nine keys |
| WeatherCommon.IconTablesAgree | src/components/weather.rs:20-30 | the freya symbol is the GTK symbol followed by the emoji presentation selector, for every key |
| WeatherCommon.SaturatingToUsize | src/components/weather_widget.rs:55 | the float-to-`usize` cast floors in range, sends negatives to 0, and saturates above the largest `usize` |
| WeatherCommon.DegreesToDirection | src/components/weather_widget.rs:47-57 | the direction is always one of the sixteen compass labels |
| WeatherCommon.DirectionOfSector | src/components/weather_widget.rs:51-56 | an angle in the k-th 22.5-degree sector, centred on k times 22.5, gets label k modulo 16 |
| WeatherCommon.NegativeAnglesAreNorth | src/components/weather_widget.rs:55 | angles below −11.25 degrees all come out as "N", because the cast saturates at zero |
| WeatherCommon.CompassPoints | src/components/weather_widget.rs:47-57 | 0, 90, 180 and 270 degrees are N, E, S and W, and 348.75 and 360 degrees wrap to N |
| WeatherCommon.RenderView | src/components/weather_widget.rs:113-138 | an error is shown alone and the data is never read. Otherwise missing data panics, and the view succeeds exactly when the first condition's icon key is known, with a known symbol and a valid wind direction |
| Weather.UpdateData | src/components/weather.rs:42-61 | a future mtime panics. A fresh cache is served as is without a fetch, and panics if it does not parse. A missing or stale cache leads to exactly one fetch. A success is written to the cache and returned, and an unwritable cache panics. A failure returns its message and leaves the cache alone |
| Weather.ServedIgnoresFetch | src/components/weather.rs:44-50 | with a fresh cache the outcome does not depend on what a fetch would have returned |
| Weather.Step | src/components/weather.rs:76-98 | a good update stores the data, clears the error flag, picks the icon and waits the update interval. A failed one is exactly the old state with the error flag and text set, the cache the update left, and the retry timeout. The error view shows exactly after a failure. An unknown icon key or an empty condition list panics, and a panic of `update_data` is passed on |
| Weather.NextTurnFetchesAgain | src/components/weather.rs:79-95 | after a fetch, the cache written is already stale when the next turn runs |
| WeatherWidget.UpdateData | src/components/weather_widget.rs:87-111 | a fresh cache replaces the data and keeps the error. A fetch success writes the cache, sets the data and clears the error. A fetch failure only sets the error. A corrupt cache, an unwritable cache or a future mtime panics. Afterwards there is always something to display |
| WeatherWidget.Update | src/components/weather_widget.rs:140-154 | a round succeeds exactly when `update_data` and the redraw of its result both succeed. The view is that redraw and the cache is the one `update_data` left. The next delay is the update interval exactly when no error is stored, otherwise the retry timeout, and a round never panics for lack of data |
| WeatherWidget.ErrorPersistsOnCacheHit | src/components/weather_widget.rs:89-95 | once an error is stored, a fresh and readable cache gives a round that succeeds, keeps showing the error and keeps the retry delay |
| WeatherWidgetUpdater.LoadCache | src/components/weather_widget/updater.rs:77-82 | a missing file is an I/O error and a corrupt one panics. A readable file always loads: its data replaces the record, the error text is kept, and the result is `Ok` |
| WeatherWidgetUpdater.FetchAndStore | src/components/weather_widget/updater.rs:96-106 | a fetch failure sets the error text yet reports success. A fetch success writes the cache, sets the data and clears the error. A cache-write failure is the reported error |
| WeatherWidgetUpdater.UpdateData | src/components/weather_widget/updater.rs:84-107 | a missing cache file returns the I/O error before any fetch, and a future mtime panics. A fresh cache is loaded without a fetch (a corrupt one panics). A stale cache goes to exactly one fetch and store. An error result leaves the widget state and the cache unchanged. The cache changes only by writing freshly fetched data |
| WeatherWidgetUpdater.Update | src/components/weather_widget/updater.rs:130-143 | a round succeeds exactly when `update_data` and the redraw of the stored error and record both succeed. The view is that redraw and the cache is the one `update_data` left. The delay is the update interval exactly when `update_data` returned success, whatever error text is stored |
| WeatherWidgetUpdater.MissingCacheFirstTickPanics | src/components/weather_widget/updater.rs:86 | without a cache file, the first round panics on the missing data whatever the fetch would return |
| WeatherWidgetUpdater.FetchErrorWaitsFullInterval | src/components/weather_widget/updater.rs:131-135 | after a stale cache and a failed fetch, the error is shown but the next attempt waits the full update interval |
| WeatherWidgetUpdater.UpdateDataCorrected | src/components/weather_widget/updater.rs:84-107 | with no cache file it fetches and stores. With a cache file it behaves exactly like the code as written |
| WeatherWidgetUpdater.UpdateCorrected | src/components/weather_widget/updater.rs:130-143 | as `Update` over the corrected `update_data`: a round succeeds exactly when that and the redraw do, with that view and cache. The delay is the update interval only after a success with no error stored, otherwise the retry timeout |
| WeatherWidgetUpdater.CorrectedNeverMissesData | src/components/weather_widget/updater.rs:84-107 | when the cache can be written, or something is already displayable, the corrected round never panics for lack of data |
| WeatherWidgetUpdater.CorrectedFetchErrorRetries | src/components/weather_widget/updater.rs:131-135 | after a failed fetch, the corrected round shows the error and retries after the retry timeout |
| Machine.Divide | src/components/cpu_memory.rs:150-154 | the float quotient is finite exactly for a non-zero divisor, and then times the divisor gives the dividend |
| Machine.BarSpacing | src/components/cpu_memory_widget.rs:95 | the `u32` margin computation panics exactly when there is one item per row (division by zero), and otherwise yields a `u32` |
| Machine.BarSpacingFits | src/components/cpu_memory_widget.rs:95 | with at least two items that fit, the margin is the largest one for which items plus gaps still fit the container |
| Machine.BarSpacingOverflow | src/components/cpu_memory_widget.rs:95 | items wider than the container make the subtraction wrap to a huge margin (two 60-pixel bars in 100 pixels give 2^32 − 20) |
| Machine.AsI32 | src/components/disk_widget.rs:94 | a `u32` cast to `i32` stays in the `i32` range and keeps the bits. It is non-negative exactly below 2^31, and then it is unchanged |
| Machine.AsI32RoundTrip | src/components/disk_widget.rs:94 | casting back to `u32` recovers the original value |
| Machine.OverflowSpacingNegative | src/components/network_widget.rs:58-59 | two 60-pixel graphs in a 100-pixel container get a spacing of −20 |
| History.Push | src/components/cpu_memory.rs:140 | a push keeps the capacity and puts the value first, in front of the newest `capacity − 1` older values |
| History.PushAllKeepsNewest | src/components/cpu_memory.rs:114-140 | after any number of pushes, the history holds the newest `capacity` values, newest first |
| History.HistoryExample | src/components/cpu_memory.rs:114-140 | four pushes into a 3-slot history keep the last three in reverse order |
| NetworkCommon.Ipv4RoundTrip | src/components/network.rs:212-221 | an IPv4 address printed in dotted decimal parses back to itself, and the text has no space |
| NetworkCommon.LocalIpsRoundTrip | src/components/network.rs:212-221 | the space-joined local address text parses back to exactly the IPv4 addresses, in order |
| NetworkCommon.FirstMatching | src/components/network.rs:76-79 | none exactly when no interface name matches, otherwise the first matching interface |
| NetworkCommon.AddressesWhereIsFilterMap | src/components/network.rs:66-72 | the `filter_map` recursion equals filtering the rows by name and then mapping each row to its address |
| NetworkCommon.AddressesWhereSpec | src/components/network.rs:66-72 | the addresses are exactly those of table rows whose name qualifies, and none exactly when no row qualifies |
| Network.LocalIps | src/components/network.rs:66-72 | every address of the named interface is listed, and every listed address belongs to it |
| Network.UpdateData | src/components/network.rs:74-109 | without a matching interface nothing changes. A failed address query panics. With a match the local addresses are replaced. With no address only they change. Otherwise the name and totals are copied, speeds are bytes per interval, and each history gets one push of speed over its maximum |
| Network.PushedFractions | src/components/network.rs:98-102 | the newest download history value times interval and maximum gives the bytes received this refresh |
| Network.Update | src/components/network.rs:111-137 | a tick succeeds exactly when the data update does. A WAN IP result overwrites the public IP, even with none. Clicks copy the public IP (if any) or the newline-joined local addresses and change nothing |
| Network.Subscriptions | src/components/network.rs:139-149 | the refresh timer always runs, and the WAN IP poll runs at its interval exactly when one is configured and no public IP is known |
| Network.PollingStopsOnceAssigned | src/components/network.rs:120-147 | assigning a public IP stops the WAN IP poll, and assigning none restarts it when configured |
| Network.Render | src/components/network.rs:197-221 | the view says "Disconnected" exactly when there is no local address. Otherwise the address text reads back as the IPv4 addresses |
| Network.DisconnectedIffNoAddress | src/components/network.rs:74-89 | after a tick with a matching interface, the panel is disconnected exactly when that interface has no address, and without a match the view is as before |
| NetworkWidget.GraphSpacing | src/components/network_widget.rs:58-59 | the two-graph margin never panics and is handed over as an `i32`. It is the leftover width when both graphs fit with less than 2^31 to spare. Graphs that overflow the container by at most 2^31 give the negative overflow |
| NetworkWidget.GetNetwork | src/components/network_widget.rs:74-83 | the interface returned matches the pattern and is listed. None is returned exactly when no interface matches |
| NetworkWidget.GetLocalIps | src/components/network_widget.rs:86-92 | the addresses are exactly those of rows whose name matches the pattern, not the selected interface's name |
| NetworkWidget.UpdateLocalIps | src/components/network_widget.rs:94-124 | a failed address query panics. The connected container and the error label have opposite visibility, and connected means an interface and some address. When connected, the labels name the interface and read back as the IPv4 addresses |
| NetworkWidget.UpdateNetwork | src/components/network_widget.rs:126-150 | totals are copied, and each speed times the interval gives the bytes of this refresh (finite exactly for a non-zero interval) |
| NetworkWidget.Update | src/components/network_widget.rs:152-168 | the addresses are always refreshed, rates and totals whenever an interface matched, and the next round comes after the update interval |
| NetworkWidget.CountersWithoutAddress | src/components/network_widget.rs:157-166 | a matching interface without addresses shows the error label yet still updates its counters |
| NetworkWidget.UpdatePublicIp | src/components/network_widget.rs:198-207 | a found address replaces the label, a failed lookup keeps the old one, and the next lookup is always scheduled |
| NetworkWidget.BuildPublicIp | src/components/network_widget.rs:177-196 | with no interval the WAN row is hidden and nothing is polled. Otherwise a first lookup runs on a visible row |
| NetworkWidget.LastFoundAddressShown | src/components/network_widget.rs:198-207 | after a found address, any number of failed lookups keep showing it |
| CpuCommon.RemoveAbsent | src/components/cpu_memory.rs:82 | removing a pattern that does not occur leaves the string unchanged |
| CpuCommon.RemoveCharIsFilter | src/components/cpu_memory.rs:82 | removing a one-character pattern deletes exactly that character and keeps the rest in order |
| CpuCommon.CleanModel | src/components/cpu_memory.rs:81-83 | removing the brand marks in turn never lengthens the model name |
| CpuCommon.RemoveFirst | src/components/cpu_memory.rs:82 | `replace(pat, "")` keeps the text before the first occurrence, drops that occurrence, and goes on with the rest |
| CpuCommon.RemoveFromParenFree | src/components/cpu_memory.rs:82 | a mark beginning with `(` is never found in a name without `(`, so removing it changes nothing |
| CpuCommon.CleanModelDropsMarks | src/components/cpu_memory.rs:81-83 | a brand `a(R)b(TM)c` with no other `(` becomes exactly `abc` after both marks are removed in turn |
| CpuCommon.GroupBars | src/components/cpu_memory_widget/updater.rs:53-69 | the row-flush loop panics exactly when there are CPUs and zero bars per row. Otherwise one sender per CPU in order, all CPUs covered in order, every row 1 to `num_per_row` bars, and every row but the last full |
| CpuCommon.Chunks | src/components/cpu_memory.rs:247 | `chunks(n)` rows concatenate to the input, each has 1 to n items, and all but the last have n |
| CpuCommon.RowsAreChunks | src/components/cpu_memory_widget/updater.rs:53-69 | any rows that cover the input in order, and are full except the last, are exactly its `chunks` |
| CpuCommon.GroupBarsAreChunks | src/components/cpu_memory_widget/updater.rs:53-69 | the GTK row-flush rule lays out the same rows as iced's `chunks` |
| CpuCommon.ArgsTextIsJoin | src/components/cpu_memory.rs:189-193 | folding the arguments with a trailing space each is their space-join plus one space |
| CpuCommon.CommandLine | src/components/cpu_memory.rs:189-196 | the command is the name and a space, followed by each argument after `argv[0]` and a space |
| Ranking.SortDesc | src/components/cpu_memory.rs:336 | sorting keeps the rows as a permutation of the input |
| Ranking.SortDescSorted | src/components/cpu_memory.rs:336 | the sorted rows have non-increasing keys |
| Ranking.SortDescStable | src/components/cpu_memory.rs:336 | rows sharing a key keep their input order |
| Ranking.TopK | src/components/cpu_memory.rs:338-340 | the ranking shows `min(k, n)` rows |
| Ranking.TopKSpec | src/components/cpu_memory.rs:336-343 | the ranking is a prefix of the sorted permutation, sorted, and no shown row ranks below a hidden one |
| Ranking.TopKBeatsRest | src/components/cpu_memory.rs:336-343 | in terms of the input alone: the shown rows come from the input, and every row left out has a key no larger than any shown |
| Ranking.ResortKeepsTies | src/components/cpu_memory.rs:345 | after re-sorting the first-key order by a second key, rows tied on the second key stay ordered by the first |
| CpuMemory.CpuModel | src/components/cpu_memory.rs:66-83 | a system without CPUs panics. Otherwise the model name is no longer than the first CPU's brand and contains no `!` |
| CpuMemory.MarkedBrandCleaned | src/components/cpu_memory.rs:66-83 | a first brand `a(R)b(TM)c` with no other `(` and no `!` gives the model name `abc`, whatever the other CPUs report |
| CpuMemory.UpdateCpuData | src/components/cpu_memory.rs:122-141 | the tick succeeds exactly when there is a CPU and a "Package id 0" sensor with a temperature. Frequency is the first CPU's MHz in GHz. Core usages are kept in order, and the history gets one push of global usage over 100 |
| CpuMemory.UpdateMemory | src/components/cpu_memory.rs:143-155 | each history gets one push of used over total. Without swap the swap push is not finite |
| CpuMemory.TaskPids | src/components/cpu_memory.rs:174-179 | every task listed by any probed process is in the set |
| CpuMemory.TaskPidsListed | src/components/cpu_memory.rs:174-179 | the converse: each PID in the set is listed as a task by some probed process, so the set is exactly the union of the processes' task lists |
| CpuMemory.Rows | src/components/cpu_memory.rs:180-202 | the list holds only non-task PIDs the second probe still knows. Every such process of the first probe yields its row (command, PID, usage, memory), and the list is never longer than the probe |
| CpuMemory.NumRunning | src/components/cpu_memory.rs:180-188 | the running count never exceeds the number of probed processes |
| CpuMemory.BoundedByNonTasks | src/components/cpu_memory.rs:180-201 | both the running count and the list length are bounded by the number of processes that are not tasks |
| CpuMemory.UpdateProcesses | src/components/cpu_memory.rs:161-203 | the two-pass loop computes exactly the task-excluding list and running count |
| CpuMemory.RunningButGone | src/components/cpu_memory.rs:186-201 | a running process absent from the second probe is counted as running but gets no row |
| CpuMemory.TasksNeverCounted | src/components/cpu_memory.rs:183-188 | when every process is a task, none is counted as running |
| CpuMemory.ProcessTable | src/components/cpu_memory.rs:334-352 | both tables have `min(k, n)` rows taken from the list, one sorted by CPU and one by memory. The CPU table is the top `k` of the list by CPU, and the memory table is the top `k` by memory of the CPU-sorted list |
| CpuMemory.ProcessTableBeatsRest | src/components/cpu_memory.rs:334-352 | no process left out of a table uses more CPU (or memory) than any process shown in it |
| CpuMemory.MemoryTiesKeepCpuOrder | src/components/cpu_memory.rs:345-352 | in the memory table, rows with equal memory stay in descending CPU order |
| CpuMemory.Boundary | src/components/cpu_memory.rs:313 | a char boundary at a byte offset is found exactly when some prefix has that UTF-8 length |
| CpuMemory.FormatCmd | src/components/cpu_memory.rs:310-317 | a command whose UTF-8 length fits is kept. A longer one succeeds exactly when the budget is positive and byte `max − 1` is a char boundary, and is then the prefix of exactly `max − 1` bytes followed by the ellipsis, within `max` chars. Otherwise the slice panics: out of bounds at `usize::MAX` for a zero budget, or not a char boundary at byte `max − 1` |
| CpuMemory.FormatCmdByChars | src/components/cpu_memory.rs:310-317 | counting characters: a command is kept exactly when it fits, and a longer one becomes its first `max − 1` characters and an ellipsis, `max` in all |
| CpuMemory.AsciiCmdAgrees | src/components/cpu_memory.rs:310-317 | on ASCII commands with a positive budget, the code as written and the character-counting truncation agree |
| CpuMemory.AccentedCmdPanics | src/components/cpu_memory.rs:313 | "café x" with a 5-character budget slices inside `é` and panics |
| CpuMemory.AccentedCmdMessage | src/components/cpu_memory.rs:313 | that panic reads "byte index 4 is not a char boundary; it is inside 'é' (bytes 3..5) of \`café x\`" |
| CpuMemory.FloorBoundary | src/components/cpu_memory.rs:313 | the part of the string a failed slice prints is the longest prefix of at most the given number of bytes |
| CpuMemory.ShortStringShownWhole | src/components/cpu_memory.rs:313 | a failed slice of a string of at most 256 bytes prints the whole string, with no `[...]` |
| CpuMemory.CpuBarRows | src/components/cpu_memory.rs:243-267 | zero bars per row panics. Otherwise the rows hold every core usage over 100, in order, in rows of 1 to `num_per_row`, all but the last full |
| CpuMemory.Update | src/components/cpu_memory.rs:212-236 | a tick refreshes. A model click copies the model name. A table click runs the configured command (binary, then its arguments) exactly when one is configured |
| CpuMemoryWidget.CpuModel | src/components/cpu_memory_widget.rs:201-208 | removing "(R)" and "(TM)" never lengthens the model name |
| CpuMemoryWidget.PlainBrandUnchanged | src/components/cpu_memory_widget.rs:201-208 | a model name without `(` is shown unchanged |
| CpuMemoryWidget.MarkedBrandCleaned | src/components/cpu_memory_widget.rs:201-208 | a brand `a(R)b(TM)c` with no other `(` is shown as `abc` |
| CpuMemoryWidget.BuildCpuBars | src/components/cpu_memory_widget.rs:88-116 | building panics exactly on a one-per-row margin division (after `u32` truncation) or on a zero row size with CPUs. Otherwise the margin is the `u32` bar spacing read as an `i32`, there is one sender per CPU, and the rows are the `chunks` of the CPUs |
| CpuMemoryWidget.UpdateCpu | src/components/cpu_memory_widget.rs:216-240 | a missing package sensor panics. Frequency is shown in GHz with the package temperature. Each bar gets its core's usage over 100 while bars and cores last, and the graph gets the global usage |
| CpuMemoryWidget.BarsAgreeWithIced | src/components/cpu_memory_widget.rs:216-240 | with one bar per core, the bar values are the iced bar rows flattened |
| CpuMemoryWidget.UpdateMemory | src/components/cpu_memory_widget.rs:242-256 | KiB become bytes with `u64` wrap-around. The share is finite exactly for a non-zero total and is 100·used over total |
| CpuMemoryWidget.MemoryShareWithoutOverflow | src/components/cpu_memory_widget.rs:242-256 | without overflow the share is 100·used/total, and the graph value matches the iced history push |
| CpuMemoryWidget.RowOf | src/components/cpu_memory_widget.rs:276-286 | a row shows the command line, the PID, the CPU usage per core, and the memory in bytes |
| CpuMemoryWidget.UpdateProcesses | src/components/cpu_memory_widget.rs:262-295 | asking for more rows than processes panics. Otherwise the counts are running over all processes, and the tables are the top `k` by CPU, then the CPU-sorted list's top `k` by memory |
| CpuMemoryWidget.ShownBeatHidden | src/components/cpu_memory_widget.rs:288-294 | both tables are sorted, drawn from the processes, and no hidden process outranks a shown one |
| CpuMemoryWidgetUpdater.CreateCpuBars | src/components/cpu_memory_widget/updater.rs:48-70 | panics exactly with CPUs and zero bars per row. Otherwise one sender per CPU, in rows that are the `chunks` of the CPUs |
| CpuMemoryWidgetUpdater.CpuModel | src/components/cpu_memory_widget/updater.rs:72-78 | the cleaned name is no longer than the brand and equals it when it has no `(` |
| CpuMemoryWidgetUpdater.MarkedBrandCleaned | src/components/cpu_memory_widget/updater.rs:72-78 | a brand `a(R)b(TM)c` with no other `(` is shown as `abc` |
| CpuMemoryWidgetUpdater.UpdateCpu | src/components/cpu_memory_widget/updater.rs:80-99 | as in the GTK widget without the graph: a missing package sensor panics, frequency is in GHz, and bars get usage over 100 |
| CpuMemoryWidgetUpdater.ProcessCounts | src/components/cpu_memory_widget/updater.rs:105-118 | the first count is the number of running processes and the second the number of processes. The running count equals the total exactly when all run, and is zero exactly when none runs |
| CpuMemoryWidgetUpdater.CountAllOrNone | src/components/cpu_memory_widget/updater.rs:108-116 | counting running statuses reaches the length exactly when all run, and zero exactly when none does |
| DiskCommon.StripCr | src/components/disk.rs:48 | a trailing carriage return is dropped and nothing else changes |
| DiskCommon.Lines | src/components/disk.rs:48 | no line contains a newline |
| DiskCommon.LinesOfOneLine | src/components/disk.rs:48 | one newline-terminated line reads back as itself |
| DiskCommon.LinesOfTerminated | src/components/disk.rs:48 | any list of lines, each without `\n` or a trailing `\r`, printed one per line reads back as exactly that list |
| DiskCommon.GetDiskModel | src/components/disk.rs:39-56 | a model is found exactly when some line is `ID_MODEL=` with at least one more character. It is the rest of the first such line with every `_` turned into a space, so non-empty and underscore-free. Otherwise the error names the device path |
| DiskCommon.ModelFromLines | src/components/disk.rs:48-55 | over the listing's lines: a model is found exactly when some line is `ID_MODEL=` with more after it, and it is the rest of the first such line with `_` turned into spaces. Otherwise the error names the device path |
| DiskCommon.ModelOfLine | src/components/disk.rs:50-52 | the model a matching line carries is non-empty and underscore-free, one character per character after the key, each `_` becoming a space |
| DiskCommon.ModelRoundTrip | src/components/disk.rs:39-56 | a model line written for an underscore-free model reads back as that model |
| DiskCommon.ModelLineFound | src/components/disk.rs:39-56 | in a longer listing, the first `ID_MODEL` line gives the model, whatever plain lines come before it without a model or after it |
| DiskCommon.FileName | src/components/disk.rs:62 | the last path component, when there is one, is a plain name: no `/`, not empty, `.` or `..` |
| DiskCommon.DeviceFileName | src/components/disk.rs:62 | the file name of `/dev/<name>` is the name |
| DiskCommon.SensorPath | src/components/disk.rs:63 | the sensor path splits on `/` into the root, `sys`, `class`, `block`, the device name, `device`, `hwmon`, `hwmon1` and `temp1_input` |
| DiskCommon.ParseI32 | src/components/disk.rs:66 | a parsed temperature reading is an `i32` |
| DiskCommon.ParseI32RoundTrip | src/components/disk.rs:66 | a non-negative `i32` printed in decimal parses back to itself |
| DiskCommon.ParseNegativeRoundTrip | src/components/disk.rs:66 | a negative `i32` printed with a minus sign parses back to itself |
| DiskCommon.DiskTemperature | src/components/disk.rs:58-67 | a path without a file name panics. A reading is the first line of the sensor file, parsed as `i32` and divided by 1000 |
| DiskCommon.TemperatureOfReading | src/components/disk.rs:58-67 | a sensor file holding millidegrees for `/dev/<name>` reads as that value over 1000 |
| DiskCommon.GetDisk | src/components/disk.rs:94-99 | the disk is the first one mounted exactly at the configured point, and none panics |
| DiskCommon.FileSystemLabel | src/components/disk.rs:78-79 | the label is the name, " (", the file system and ")" |
| DiskCommon.UsedSpace | src/components/disk.rs:139 | used plus available is the total whenever available does not exceed it (`u64` subtraction) |
| DiskCommon.BarFill | src/components/disk.rs:146-147 | the bar value is finite exactly for a non-zero total |
| DiskCommon.BarFillShare | src/components/disk.rs:139-147 | the bar shows the used share, one minus available over total, between 0 and 1 |
| DiskCommon.AvailableAboveTotalWraps | src/components/disk.rs:139 | available above total wraps used space to a huge `u64` |
| Disk.New | src/components/disk.rs:70-92 | no disk at the mount point panics. A missing model panics with the quoted device-path message. Otherwise the model, the "name (fs)" label and the total are fixed from the disk found |
| Disk.UpdateData | src/components/disk.rs:101-110 | a tick changes only the temperature and the available space. Model, label and total stay fixed. It succeeds exactly when the disk and its temperature can be read |
| Disk.Update | src/components/disk.rs:112-121 | a tick refreshes and a model click copies the model |
| Disk.Render | src/components/disk.rs:128-147 | the view shows the stored model, label, temperature, total and available. Its bar is finite exactly for a non-zero total |
| Disk.BarAfterUpdate | src/components/disk.rs:101-147 | after a tick, the bar shows one minus the fresh available space over the total fixed at start |
| DiskWidget.BarWidth | src/components/disk_widget.rs:94 | the width is the container width minus 90, in `u32` and then cast to `i32`. It equals that difference for any container below 2^31 + 90 pixels |
| DiskWidget.NarrowContainerNegativeWidth | src/components/disk_widget.rs:94 | a 50-pixel container gives a bar width of −40 |
| DiskWidget.UpdateStaticProps | src/components/disk_widget.rs:105-112 | a missing model panics with the quoted device-path message. Otherwise the model is underscore-free and the label is "name (fs)" |
| DiskCommon.UnwrapErr | src/components/disk.rs:76 | the panic of `unwrap` on a `String` error starts with the standard prefix and then shows the error in quotes |
| Text.EscapeDebugRoundTrip | src/components/disk.rs:76 | the escapes `{:?}` writes lose nothing: reading them back gives the text |
| Text.DebugStrPlain | src/components/disk.rs:76 | text with no character needing an escape is only put in double quotes |
| DiskWidget.UpdateDisk | src/components/disk_widget.rs:114-137 | the readout succeeds exactly when the temperature reads. The usage label shows total and available, not used, and the bar gets the used share |
| DiskWidget.Update | src/components/disk_widget.rs:139-145 | no disk at the mount point panics. A successful round shows the sensor temperature and the total and available space of the disk as read now, and the bar gets that disk's used share |
| DiskWidget.BarUsesCurrentTotal | src/components/disk_widget.rs:114-137 | the bar shows one minus available over the total read in this round |

## Left out

- `format_size` and every `{:.N}` float rendering are not modelled. They rely on `f32` `log2`/`powi`, and the model keeps sizes and ratios as exact numbers.
- `f32` rounding is not modelled: ratios are exact reals.
- NaN is left out.
  - `partial_cmp(..).unwrap()` in the process sorts panics on NaN usages. The model's keys are reals, so that panic is not represented.
  - The bar and graph drawing of a NaN or infinite fraction is left out.
- The regular expressions are not modelled.
  - The interface pattern is a string predicate parameter.
  - The `ID_MODEL=` pattern is modelled directly as "prefix plus at least one character".
  - `\d+ MHz` over `/run/lshw-memory.txt`, and the unused temperature pattern, are left out.
- shlex and `substitute_env_vars` are not modelled. `CpuMemory.Update` returns the command to run as an effect, and does not model environment substitution or the `Command::status().unwrap()` panic.
- OS queries and I/O become inputs:
  - sysinfo probes become lists and maps;
  - `udevadm` output becomes a string;
  - file reads become a `string -> Option<string>` function;
  - the clock and cache mtime become reals;
  - HTTP fetches and public-IP lookups become optional results.

  Failures of `File::open` and `read_to_string` are part of those inputs.
- The JSON encoding of the cache is not modelled. A parse failure is a distinct cache state.
- Timers, subscriptions, glib timeouts, freya spawn loops and clipboard tasks are modelled only as the delay or effect a tick returns. The iced disk and CPU subscriptions are plain timers and are not modelled.
- Non-UTF-8 `OsStr` names (`to_str().unwrap()`) are not represented: every name is a `string`.
- IPv6 text is opaque. Only the IPv4 dotted-decimal form is rendered and parsed.
- `circular_queue` is modelled as a bounded sequence, newest first. A zero capacity drops every push.
- `Padding::from([a, b])` of iced is taken as its documented meaning (vertical, horizontal). `Gaps::new` is taken to be (top, right, bottom, left).
- The GTK graph margin in `src/components/cpu_memory_widget.rs:125-127` is not modelled separately. It is the same two-item computation as `NetworkWidget.GraphSpacing`.
- Sunrise/sunset formatting, title-casing of descriptions and temperature rounding in the weather views are not modelled.
- `update_system` (uptime) and the memory frequency label are not modelled.
- sysinfo's command-line filling is not modelled. The iced process command comes from the first probe's `cmd`, as the code reads it.
- DiskCommon.SensorPath: the path is stated through its `/`-separated parts rather than as one literal string.
- CpuMemory.NumRunning: stated only as bounded by the probe here. The sharper bound by the non-task processes is `CpuMemory.BoundedByNonTasks`.
- The cache's mtime is always present in the model. In the source, an error from `modified()` makes the GTK updater skip straight to a fetch (`if let Ok`, src/components/weather_widget/updater.rs:86), and the other two front ends panic on it (`unwrap`, src/components/weather.rs:45 and src/components/weather_widget.rs:90). Platforms without file times are out of scope.
- A partial cache write is not modelled. In the GTK updater, `File::create` can succeed and `serde_json::to_writer` then fail (src/components/weather_widget/updater.rs:97-98), which leaves a truncated file with a fresh mtime, so the next fresh tick panics on the corrupt cache. The model's unwritable cache leaves the old cache untouched, because the JSON encoding is not modelled.
- Text.DebugStr: only the backslash escapes of `{:?}` are modelled. Rust also writes `\u{…}` for unprintable characters, which a device path does not normally contain.
- WeatherCommon.NoData: Rust prints the same `Option::unwrap` message for missing data and for an unknown icon. The model adds a suffix naming the missing value so that the contracts can tell the two panics apart.
- Panic reasons that carry a foreign error's `Debug` form name only the error type: `serde_json::Error`, `io::Error`, `SystemTimeError`, `ParseIntError`, `local_ip_address::Error` and `Os { kind: NotFound }`. That text comes from libraries outside the model.
- Machine.BarSpacing: the panic reason is the division by zero of a one-per-row layout. A zero-per-row layout wraps `0 − 1` to `u32::MAX` and does not panic there.

## Findings

| source | as written | input that shows it | evidently intended | confidence | as-written member | corrected member |
|---|---|---|---|---|---|---|
| src/components/weather_widget/updater.rs:86 | `metadata(cache)?` returns the I/O error before any fetch when the cache file does not exist; the round then reads the missing data and panics | the first tick on a fresh install (no cache file) | a missing cache is fetched and stored, as in the other two front ends | high, not executed | WeatherWidgetUpdater.MissingCacheFirstTickPanics | WeatherWidgetUpdater.CorrectedNeverMissesData |
| src/components/weather_widget/updater.rs:131-135 | the delay is chosen from `update_data`'s result, which is `Ok` after a failed fetch, so a fetch error waits the full update interval | a stale cache and a failing weather API | a failed fetch is retried after the retry timeout, as in the other two front ends | medium, not executed | WeatherWidgetUpdater.FetchErrorWaitsFullInterval | WeatherWidgetUpdater.CorrectedFetchErrorRetries |
| src/components/cpu_memory.rs:310-317 | the command's byte length is compared with a character budget and sliced at byte `max − 1`, which panics inside a multi-byte character | command "café x" with a budget of 5 characters | truncate to `max − 1` characters and append the ellipsis | high, not executed | CpuMemory.AccentedCmdPanics | CpuMemory.FormatCmdByChars |
