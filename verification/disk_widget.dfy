/**
 `DiskWidget`: the GTK disk widget. Unlike the iced component it reads the
 total space again on every update, and it sizes the bar from the
 container width less a fixed left margin.
 */
module DiskWidget {
  import opened Wrappers
  import opened Machine
  import opened DiskCommon

  const BarMarginLeft: nat := 90

  /**
   `build_file_system_bar`'s width: `container_width - 90` in `u32`, then
   read as an `i32`; a container narrower than the margin gives a negative
   width.
   */
  function BarWidth(containerWidth: nat): (w: int)
    requires IsU32(containerWidth)
    ensures -I32Span <= w < I32Span
    ensures (w - (containerWidth - BarMarginLeft)) % U32Modulus == 0
    ensures containerWidth < I32Span + BarMarginLeft ==> w == containerWidth - BarMarginLeft
  {
    AsI32(WrapU32(containerWidth - BarMarginLeft))
  }

  lemma NarrowContainerNegativeWidth()
    ensures BarWidth(50) == -40
  {
  }

  datatype Props = Props(name: string, devicePath: string, mountPoint: string)

  datatype StaticLabels = StaticLabels(model: string, fileSystemName: string)

  /** `update_static_props`: the model (an error panics) and the file-system label. */
  function UpdateStaticProps(disk: DiskCommon.Disk, props: Props, udevOutput: string): (o: Outcome<StaticLabels>)
    ensures o.Panic? <==> GetDiskModel(props.devicePath, udevOutput).Err?
    ensures o.Panic? ==> o.reason == UnwrapErr(MissingDevice(props.devicePath))
    ensures o.Done? ==>
      && o.value.model == GetDiskModel(props.devicePath, udevOutput).value
      && '_' !in o.value.model
      && o.value.fileSystemName == FileSystemLabel(props.name, disk.fileSystem)
  {
    match GetDiskModel(props.devicePath, udevOutput)
    case Err(e) => Panic(UnwrapErr(e))
    case Ok(model) => Done(StaticLabels(model, FileSystemLabel(props.name, disk.fileSystem)))
  }

  /** The labels and bar value of one update. */
  datatype Readout = Readout(temperature: real, total: nat, usageTotal: nat, usageAvailable: nat, barValue: Ratio)

  /**
   `update_disk`: the temperature, the total, the usage label (total and
   available) and the used share sent to the bar, all from the disk as
   refreshed now.
   */
  function UpdateDisk(disk: DiskCommon.Disk, devicePath: string, readFile: string -> Option<string>): (o: Outcome<Readout>)
    ensures o.Done? <==> DiskTemperature(devicePath, readFile).Done?
    ensures o.Done? ==>
      && o.value.temperature == DiskTemperature(devicePath, readFile).value
      && o.value.total == disk.totalSpace == o.value.usageTotal
      && o.value.usageAvailable == disk.availableSpace
      && o.value.barValue == BarFill(disk.totalSpace, disk.availableSpace)
  {
    match DiskTemperature(devicePath, readFile)
    case Panic(reason) => Panic(reason)
    case Done(t) => Done(Readout(t, disk.totalSpace, disk.totalSpace, disk.availableSpace,
                                 BarFill(disk.totalSpace, disk.availableSpace)))
  }

  /** `update`: the disk at the mount point (or a panic), then its readout. */
  function Update(disks: seq<DiskCommon.Disk>, props: Props, readFile: string -> Option<string>): (o: Outcome<Readout>)
    ensures GetDisk(disks, props.mountPoint).Panic? ==> o == Panic(MissingValue)
    ensures o.Done? <==> GetDisk(disks, props.mountPoint).Done? && DiskTemperature(props.devicePath, readFile).Done?
    ensures o.Done? ==>
      var d := GetDisk(disks, props.mountPoint).value;
      && o.value.temperature == DiskTemperature(props.devicePath, readFile).value
      && o.value.total == d.totalSpace == o.value.usageTotal
      && o.value.usageAvailable == d.availableSpace
      && o.value.barValue == BarFill(d.totalSpace, d.availableSpace)
  {
    match GetDisk(disks, props.mountPoint)
    case Panic(reason) => Panic(reason)
    case Done(disk) => UpdateDisk(disk, props.devicePath, readFile)
  }

  /**
   The bar shows the used share of the disk as it is now, since the total is
   read again: a disk grown since start is measured against its new size.
   */
  lemma BarUsesCurrentTotal(disks: seq<DiskCommon.Disk>, props: Props, readFile: string -> Option<string>)
    ensures var o := Update(disks, props, readFile);
      o.Done? ==>
        var d := GetDisk(disks, props.mountPoint).value;
        0 < d.totalSpace < U64Modulus && d.availableSpace <= d.totalSpace ==>
          o.value.barValue == Finite(1.0 - d.availableSpace as real / d.totalSpace as real)
  {
    var o := Update(disks, props, readFile);
    if o.Done? {
      var d := GetDisk(disks, props.mountPoint).value;
      if 0 < d.totalSpace < U64Modulus && d.availableSpace <= d.totalSpace {
        BarFillShare(d.totalSpace, d.availableSpace);
      }
    }
  }
}
