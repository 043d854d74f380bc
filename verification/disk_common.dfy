/**
 `DiskCommon`: what both disk widgets do alike. The device model comes from
 the `ID_MODEL=` line of `udevadm info --query=property`, the temperature
 from the device's first hwmon sensor file, the disk from the mount table by
 exact mount point, and the used space from total minus available.
 */
module DiskCommon {
  import opened Wrappers
  import opened Seqs
  import opened Text
  import opened Machine

  /** A line as `BufRead::lines` yields it: a `\r` before the `\n` is dropped. */
  function StripCr(l: string): (r: string)
    ensures '\n' !in l ==> '\n' !in r
    ensures |l| > 0 && l[|l| - 1] == '\r' ==> r == l[..|l| - 1]
    ensures (|l| == 0 || l[|l| - 1] != '\r') ==> r == l
  {
    if |l| > 0 && l[|l| - 1] == '\r' then
      var r := l[..|l| - 1];
      assert forall i :: 0 <= i < |r| ==> r[i] == l[i];
      r
    else l
  }

  /**
   `BufRead::lines`: the pieces between `\n`s, each without a trailing
   `\r`; a final `\n` does not start another line, and the last line keeps
   any `\r` since no `\n` follows it.
   */
  function Lines(s: string): (ls: seq<string>)
    ensures forall i :: 0 <= i < |ls| ==> '\n' !in ls[i]
  {
    var parts := SplitOn(s, '\n');
    var init := Map(parts[..|parts| - 1], StripCr);
    var last := parts[|parts| - 1];
    if last == "" then init else init + [last]
  }

  /** The lines of a one-line text ending in a newline. */
  lemma LinesOfOneLine(a: string)
    requires '\n' !in a && (|a| == 0 || a[|a| - 1] != '\r')
    ensures Lines(a + "\n") == [a]
  {
    assert a + "\n" == a + ['\n'] + "";
    SplitOnSepAfter(a, "", '\n');
    assert SplitOn("", '\n') == [""];
  }

  /** A line `lines` gives back as written: no `\n` in it and no `\r` at its end. */
  predicate PlainLine(l: string) {
    '\n' !in l && (|l| == 0 || l[|l| - 1] != '\r')
  }

  /** A text made of the given lines, each followed by `\n`, as a command prints them. */
  function Terminated(ls: seq<string>): string {
    if |ls| == 0 then "" else ls[0] + "\n" + Terminated(ls[1..])
  }

  lemma {:induction false} SplitTerminated(ls: seq<string>)
    requires forall i :: 0 <= i < |ls| ==> '\n' !in ls[i]
    ensures SplitOn(Terminated(ls), '\n') == ls + [""]
  {
    if |ls| > 0 {
      SplitTerminated(ls[1..]);
      assert Terminated(ls) == ls[0] + ['\n'] + Terminated(ls[1..]);
      SplitOnSepAfter(ls[0], Terminated(ls[1..]), '\n');
      assert [ls[0]] + (ls[1..] + [""]) == ls + [""];
    }
  }

  /** Reading back newline-terminated plain lines gives exactly those lines. */
  lemma LinesOfTerminated(ls: seq<string>)
    requires forall i :: 0 <= i < |ls| ==> PlainLine(ls[i])
    ensures Lines(Terminated(ls)) == ls
  {
    SplitTerminated(ls);
    LinesOfPieces(Terminated(ls), ls);
    StripCrPlain(ls);
  }

  /** A text whose `\n`-separated pieces end in an empty one has one line per other piece. */
  lemma LinesOfPieces(s: string, pieces: seq<string>)
    requires SplitOn(s, '\n') == pieces + [""]
    ensures Lines(s) == Map(pieces, StripCr)
  {
    var parts := pieces + [""];
    assert parts[..|parts| - 1] == pieces;
  }

  lemma StripCrPlain(ls: seq<string>)
    requires forall i :: 0 <= i < |ls| ==> PlainLine(ls[i])
    ensures Map(ls, StripCr) == ls
  {
    var m := Map(ls, StripCr);
    forall i | 0 <= i < |ls|
      ensures m[i] == ls[i]
    {
      assert PlainLine(ls[i]);
    }
  }

  const ModelKey := "ID_MODEL="

  /** A line the pattern `^ID_MODEL=(.+)` matches: the key and at least one more character. */
  predicate IsModelLine(l: string) {
    |l| > |ModelKey| && l[..|ModelKey|] == ModelKey
  }

  function UnderscoreToSpace(c: char): char {
    if c == '_' then ' ' else c
  }

  function MissingDevice(devicePath: string): string {
    "Specified device path " + devicePath + " does not exist"
  }

  const UnwrapErrPrefix := "called `Result::unwrap()` on an `Err` value: "

  /** The panic message of `unwrap` on `Err(e)` with a `String` error: `e` in its `{:?}` form. */
  function UnwrapErr(e: string): (m: string)
    ensures |m| >= |UnwrapErrPrefix| + |e| + 2
    ensures m[..|UnwrapErrPrefix|] == UnwrapErrPrefix
  {
    UnwrapErrPrefix + DebugStr(e)
  }

  /**
   The search of `get_disk_model` over the listing's lines: the text after
   `ID_MODEL=` on the first line that carries one, with every underscore
   turned into a space; an error naming the device when no line does.
   */
  function ModelFromLines(devicePath: string, lines: seq<string>): (r: Result<string, string>)
    ensures r.Ok? <==> exists i :: 0 <= i < |lines| && IsModelLine(lines[i])
    ensures r.Ok? ==> |r.value| > 0 && '_' !in r.value
    ensures r.Ok? ==> exists i :: (0 <= i < |lines|
      && (forall j :: 0 <= j < i ==> !IsModelLine(lines[j]))
      && IsModelLine(lines[i])
      && |r.value| == |lines[i]| - |ModelKey|
      && forall k :: 0 <= k < |r.value| ==> r.value[k] == UnderscoreToSpace(lines[i][|ModelKey| + k]))
    ensures r.Err? ==> r.error == MissingDevice(devicePath)
  {
    match Find(lines, IsModelLine)
    case None => Err(MissingDevice(devicePath))
    case Some(line) =>
      var i :| 0 <= i < |lines| && lines[i] == line && IsModelLine(lines[i])
                && forall j :: 0 <= j < i ==> !IsModelLine(lines[j]);
      ModelOfLine(line);
      Ok(Map(line[|ModelKey|..], UnderscoreToSpace))
  }

  /** `get_disk_model`: the model from the lines `udevadm` prints. */
  function GetDiskModel(devicePath: string, udevOutput: string): (r: Result<string, string>)
    ensures r.Ok? <==> exists i :: 0 <= i < |Lines(udevOutput)| && IsModelLine(Lines(udevOutput)[i])
    ensures r.Ok? ==> |r.value| > 0 && '_' !in r.value
    ensures r.Ok? ==> exists i :: (0 <= i < |Lines(udevOutput)|
      && (forall j :: 0 <= j < i ==> !IsModelLine(Lines(udevOutput)[j]))
      && IsModelLine(Lines(udevOutput)[i])
      && |r.value| == |Lines(udevOutput)[i]| - |ModelKey|
      && forall k :: 0 <= k < |r.value| ==> r.value[k] == UnderscoreToSpace(Lines(udevOutput)[i][|ModelKey| + k]))
    ensures r.Err? ==> r.error == MissingDevice(devicePath)
  {
    ModelFromLines(devicePath, Lines(udevOutput))
  }

  /** The model a model line carries: its text after the key, underscores turned into spaces. */
  lemma ModelOfLine(line: string)
    requires IsModelLine(line)
    ensures var model := Map(line[|ModelKey|..], UnderscoreToSpace);
      && |model| > 0 && '_' !in model
      && |model| == |line| - |ModelKey|
      && forall k :: 0 <= k < |model| ==> model[k] == UnderscoreToSpace(line[|ModelKey| + k])
  {
    var rest := line[|ModelKey|..];
    var model := Map(rest, UnderscoreToSpace);
    assert forall k :: 0 <= k < |model| ==> model[k] == UnderscoreToSpace(rest[k]) && rest[k] == line[|ModelKey| + k];
    assert forall k :: 0 <= k < |model| ==> model[k] != '_';
  }

  /** A property listing with one `ID_MODEL` line gives that model back. */
  lemma ModelRoundTrip(devicePath: string, model: string)
    requires |model| > 0 && '_' !in model && '\n' !in model && '\r' !in model
    ensures GetDiskModel(devicePath, ModelKey + model + "\n") == Ok(model)
  {
    var a := ModelKey + model;
    assert a[|a| - 1] == model[|model| - 1];
    assert '\n' !in a by {
      assert forall i :: 0 <= i < |a| ==> a[i] == if i < |ModelKey| then ModelKey[i] else model[i - |ModelKey|];
    }
    LinesOfOneLine(a);
    assert a[|ModelKey|..] == model;
    UnderscoreFreeUnchanged(model);
  }

  /** The line written for a model is a plain model line. */
  lemma ModelLineIsPlain(model: string)
    requires |model| > 0 && '\n' !in model && '\r' !in model
    ensures PlainLine(ModelKey + model) && IsModelLine(ModelKey + model)
  {
    var line := ModelKey + model;
    assert '\n' !in line by {
      assert forall i :: 0 <= i < |line| ==> line[i] == if i < |ModelKey| then ModelKey[i] else model[i - |ModelKey|];
    }
    assert line[|line| - 1] == model[|model| - 1];
  }

  lemma PlainAround(before: seq<string>, line: string, after: seq<string>)
    requires forall i :: 0 <= i < |before| ==> PlainLine(before[i])
    requires PlainLine(line)
    requires forall i :: 0 <= i < |after| ==> PlainLine(after[i])
    ensures forall i :: 0 <= i < |before + [line] + after| ==> PlainLine((before + [line] + after)[i])
  {
    var ls := before + [line] + after;
    forall i | 0 <= i < |ls|
      ensures PlainLine(ls[i])
    {
      if i < |before| { assert ls[i] == before[i]; }
      else if i == |before| { assert ls[i] == line; }
      else { assert ls[i] == after[i - |before| - 1]; }
    }
  }

  /** The first model line is found, whatever follows it. */
  lemma FindFirstModelLine(before: seq<string>, line: string, after: seq<string>)
    requires forall i :: 0 <= i < |before| ==> !IsModelLine(before[i])
    requires IsModelLine(line)
    ensures Find(before + [line] + after, IsModelLine) == Some(line)
  {
    var ls := before + [line] + after;
    assert ls[|before|] == line;
    assert forall j :: 0 <= j < |before| ==> ls[j] == before[j];
    var found := Find(ls, IsModelLine);
    var k :| 0 <= k < |ls| && ls[k] == found.value && IsModelLine(ls[k])
              && forall j :: 0 <= j < k ==> !IsModelLine(ls[j]);
    assert k == |before|;
  }

  /**
   In a longer property listing, the first `ID_MODEL` line gives the model,
   whatever plain lines precede it without a model or follow it.
   */
  lemma ModelLineFound(devicePath: string, before: seq<string>, model: string, after: seq<string>)
    requires |model| > 0 && '_' !in model && '\n' !in model && '\r' !in model
    requires forall i :: 0 <= i < |before| ==> PlainLine(before[i]) && !IsModelLine(before[i])
    requires forall i :: 0 <= i < |after| ==> PlainLine(after[i])
    ensures GetDiskModel(devicePath, Terminated(before + [ModelKey + model] + after)) == Ok(model)
  {
    var line := ModelKey + model;
    var ls := before + [line] + after;
    ModelLineIsPlain(model);
    PlainAround(before, line, after);
    LinesOfTerminated(ls);
    FindFirstModelLine(before, line, after);
    ModelFromFoundLine(devicePath, Terminated(ls), line);
    assert line[|ModelKey|..] == model;
    UnderscoreFreeUnchanged(model);
  }

  /** A model without underscores is printed as it is. */
  lemma UnderscoreFreeUnchanged(model: string)
    requires '_' !in model
    ensures Map(model, UnderscoreToSpace) == model
  {
    assert forall k :: 0 <= k < |model| ==> UnderscoreToSpace(model[k]) == model[k];
  }

  lemma ModelFromFoundLine(devicePath: string, udevOutput: string, line: string)
    requires Find(Lines(udevOutput), IsModelLine) == Some(line)
    ensures GetDiskModel(devicePath, udevOutput) == Ok(Map(line[|ModelKey|..], UnderscoreToSpace))
  {
  }

  /** A path component of a file name: not empty, `.` or `..`. */
  predicate IsNamePart(p: string) {
    p != "" && p != "."
  }

  /**
   `Path::file_name`: the last component after empty and `.` components are
   dropped; none when there is no component or it is `..`.
   */
  function FileName(path: string): (r: Option<string>)
    ensures r.Some? ==> '/' !in r.value && r.value != "" && r.value != "." && r.value != ".."
  {
    var parts := Filter(SplitOn(path, '/'), IsNamePart);
    if |parts| == 0 || parts[|parts| - 1] == ".." then None
    else Some(parts[|parts| - 1])
  }

  predicate IsDeviceName(name: string) {
    '/' !in name && name != "" && name != "." && name != ".."
  }

  /** The file name of `/dev/<name>` is the name. */
  lemma DeviceFileName(name: string)
    requires IsDeviceName(name)
    ensures FileName("/dev/" + name) == Some(name)
  {
    assert "/dev/" + name == "" + ['/'] + ("dev" + ['/'] + name);
    SplitOnSepAfter("", "dev" + ['/'] + name, '/');
    SplitOnSepAfter("dev", name, '/');
    SplitOnNoSep(name, '/');
    var pieces := ["", "dev", name];
    assert SplitOn("/dev/" + name, '/') == pieces;
    assert pieces[1..][1..][1..] == [];
    assert Filter(pieces[1..][1..], IsNamePart) == [name];
    assert Filter(pieces[1..], IsNamePart) == ["dev", name];
  }

  /** The parts of the sensor path, the device name fifth. */
  function SensorPathParts(name: string): seq<string> {
    ["", "sys", "class", "block", name, "device", "hwmon", "hwmon1", "temp1_input"]
  }

  /** `/sys/class/block/<name>/device/hwmon/hwmon1/temp1_input`, as its `/`-separated parts. */
  function SensorPath(name: string): (p: string)
    requires IsDeviceName(name)
    ensures SplitOn(p, '/') == SensorPathParts(name)
  {
    var parts := SensorPathParts(name);
    SplitJoinRoundTrip(parts, '/');
    Join(parts, '/')
  }

  const MissingValue := "called `Option::unwrap()` on a `None` value"
  const ParseIntFailed := "called `Result::unwrap()` on an `Err` value: ParseIntError"
  const CannotOpen := "called `Result::unwrap()` on an `Err` value: Os { kind: NotFound }"

  const I32Min: int := -0x8000_0000
  const I32Max: int := 0x7FFF_FFFF

  /** `str::parse::<i32>`: an optional sign, then decimal digits, within range. */
  function ParseI32(s: string): (r: Option<int>)
    ensures r.Some? ==> I32Min <= r.value <= I32Max
  {
    var signed := |s| > 0 && (s[0] == '-' || s[0] == '+');
    var digits := if signed then s[1..] else s;
    if |digits| == 0 || !AllDigits(digits) then None
    else
      var v: int := if signed && s[0] == '-' then 0 - DecimalValue(digits) else DecimalValue(digits);
      if I32Min <= v <= I32Max then Some(v) else None
  }

  /** Parsing a rendered integer gives it back. */
  lemma ParseI32RoundTrip(n: nat)
    requires n <= I32Max
    ensures ParseI32(NatToString(n)) == Some(n as int)
  {
    NatToStringRoundTrip(n);
  }

  lemma ParseNegativeRoundTrip(n: nat)
    requires n <= -I32Min
    ensures ParseI32("-" + NatToString(n)) == Some(0 - n)
  {
    NatToStringRoundTrip(n);
    assert ("-" + NatToString(n))[1..] == NatToString(n);
  }

  /**
   `get_disk_temperature`: the first line of the device's sensor file as a
   number of millidegrees; `readFile` stands for opening and reading a file.
   */
  function DiskTemperature(devicePath: string, readFile: string -> Option<string>): (o: Outcome<real>)
    ensures FileName(devicePath).None? ==> o == Panic(MissingValue)
    ensures o.Done? ==>
      && FileName(devicePath).Some?
      && var content := readFile(SensorPath(FileName(devicePath).value));
      && content.Some? && |Lines(content.value)| > 0
      && ParseI32(Lines(content.value)[0]).Some?
      && o.value * 1000.0 == ParseI32(Lines(content.value)[0]).value as real
  {
    match FileName(devicePath)
    case None => Panic(MissingValue)
    case Some(name) =>
      match readFile(SensorPath(name))
      case None => Panic(CannotOpen)
      case Some(content) =>
        var lines := Lines(content);
        if |lines| == 0 then Panic(MissingValue)
        else
          match ParseI32(lines[0])
          case None => Panic(ParseIntFailed)
          case Some(milli) => Done(milli as real / 1000.0)
  }

  /** The successful path through `get_disk_temperature`, step by step. */
  lemma TemperatureSteps(devicePath: string, readFile: string -> Option<string>, name: string, content: string, milli: int)
    requires FileName(devicePath) == Some(name)
    requires readFile(SensorPath(name)) == Some(content)
    requires |Lines(content)| > 0 && ParseI32(Lines(content)[0]) == Some(milli)
    ensures DiskTemperature(devicePath, readFile) == Done(milli as real / 1000.0)
  {
  }

  /** A sensor file holding `n` millidegrees gives `n / 1000` degrees. */
  lemma TemperatureOfReading(name: string, readFile: string -> Option<string>, n: nat)
    requires IsDeviceName(name) && n <= I32Max
    requires readFile(SensorPath(name)) == Some(NatToString(n) + "\n")
    ensures DiskTemperature("/dev/" + name, readFile) == Done(n as real / 1000.0)
  {
    var d := NatToString(n);
    var content := d + "\n";
    assert FileName("/dev/" + name) == Some(name) by {
      DeviceFileName(name);
    }
    assert Lines(content) == [d] by {
      DigitsAvoid(d, '\n');
      DigitsAvoid(d, '\r');
      LinesOfOneLine(d);
    }
    assert ParseI32(d) == Some(n as int) by {
      ParseI32RoundTrip(n);
    }
    TemperatureSteps("/dev/" + name, readFile, name, content, n);
  }

  /** A mounted file system as sysinfo reports it. */
  datatype Disk = Disk(mountPoint: string, fileSystem: string, totalSpace: nat, availableSpace: nat)

  function MountedAt(mountPoint: string): Disk -> bool {
    (d: Disk) => d.mountPoint == mountPoint
  }

  /** `get_disk`: the first disk mounted exactly at `mountPoint`; none is a panic. */
  function GetDisk(disks: seq<Disk>, mountPoint: string): (o: Outcome<Disk>)
    ensures o.Panic? <==> forall i :: 0 <= i < |disks| ==> disks[i].mountPoint != mountPoint
    ensures o.Done? ==> exists i :: (0 <= i < |disks| && disks[i] == o.value && o.value.mountPoint == mountPoint
      && forall j :: 0 <= j < i ==> disks[j].mountPoint != mountPoint)
  {
    match Find(disks, MountedAt(mountPoint))
    case None => Panic(MissingValue)
    case Some(d) => Done(d)
  }

  /** The file-system label: the configured name, then the file system in parentheses. */
  function FileSystemLabel(name: string, fileSystem: string): (s: string)
    ensures |s| == |name| + |fileSystem| + 3
    ensures s[..|name|] == name && s[|name|..|name| + 2] == " ("
    ensures s[|name| + 2..|s| - 1] == fileSystem && s[|s| - 1] == ')'
  {
    name + " (" + fileSystem + ")"
  }

  /** `total - available` in `u64`. */
  function UsedSpace(total: nat, available: nat): (u: nat)
    ensures u < U64Modulus
    ensures available <= total < U64Modulus ==> u + available == total
  {
    WrapU64(total - available)
  }

  /** The bar's fill: the used share of the disk. */
  function BarFill(total: nat, available: nat): (r: Ratio)
    ensures r.Finite? <==> total != 0
  {
    Divide(UsedSpace(total, available) as real, total as real)
  }

  /** With sensible counters the bar shows the used share, between empty and full. */
  lemma BarFillShare(total: nat, available: nat)
    requires 0 < total < U64Modulus && available <= total
    ensures BarFill(total, available) == Finite(1.0 - available as real / total as real)
    ensures 0.0 <= BarFill(total, available).value <= 1.0
  {
    var t, a := total as real, available as real;
    var f := BarFill(total, available).value;
    assert f * t == t - a;
    assert (1.0 - a / t) * t == t - a;
    assert a / t <= 1.0;
  }

  /** More available than total space makes the used space wrap around to almost `2^64`. */
  lemma AvailableAboveTotalWraps(total: nat, available: nat)
    requires total < available < U64Modulus
    ensures UsedSpace(total, available) == U64Modulus - (available - total)
  {
  }
}
