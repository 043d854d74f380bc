/**
 `Disk`: the iced disk component. It resolves the disk, its model and its
 file-system label once at start, keeps the total space from then on, and
 on every tick refreshes only the temperature and the available space.
 */
module Disk {
  import opened Wrappers
  import opened Machine
  import opened DiskCommon

  datatype Props = Props(name: string, devicePath: string, mountPoint: string)

  /** The component: the static labels, the total space read at start, and the live values. */
  datatype Component = Component(model: string, fileSystemName: string, totalSpace: nat,
                                 temperature: real, availableSpace: nat)

  /**
   `new`: the disk at the mount point (or a panic), then the model (an error
   panics with its message), then the label and the total; the live values
   start at zero.
   */
  function New(props: Props, disks: seq<DiskCommon.Disk>, udevOutput: string): (o: Outcome<Component>)
    ensures GetDisk(disks, props.mountPoint).Panic? ==> o == Panic(MissingValue)
    ensures GetDisk(disks, props.mountPoint).Done? && GetDiskModel(props.devicePath, udevOutput).Err? ==>
      o == Panic(UnwrapErr(MissingDevice(props.devicePath)))
    ensures o.Done? <==> GetDisk(disks, props.mountPoint).Done? && GetDiskModel(props.devicePath, udevOutput).Ok?
    ensures o.Done? ==>
      var disk := GetDisk(disks, props.mountPoint).value;
      && o.value.model == GetDiskModel(props.devicePath, udevOutput).value
      && o.value.fileSystemName == FileSystemLabel(props.name, disk.fileSystem)
      && o.value.totalSpace == disk.totalSpace
      && o.value.temperature == 0.0 && o.value.availableSpace == 0
  {
    match GetDisk(disks, props.mountPoint)
    case Panic(reason) => Panic(reason)
    case Done(disk) =>
      match GetDiskModel(props.devicePath, udevOutput)
      case Err(e) => Panic(UnwrapErr(e))
      case Ok(model) =>
        Done(Component(model, FileSystemLabel(props.name, disk.fileSystem), disk.totalSpace, 0.0, 0))
  }

  /**
   `update_data`: the disk again, then the temperature and the available
   space; the model, label and total stay as they were.
   */
  function UpdateData(c: Component, props: Props, disks: seq<DiskCommon.Disk>, readFile: string -> Option<string>): (o: Outcome<Component>)
    ensures o.Done? <==> GetDisk(disks, props.mountPoint).Done? && DiskTemperature(props.devicePath, readFile).Done?
    ensures GetDisk(disks, props.mountPoint).Panic? ==> o == Panic(MissingValue)
    ensures o.Done? ==>
      && o.value.model == c.model && o.value.fileSystemName == c.fileSystemName && o.value.totalSpace == c.totalSpace
      && o.value.temperature == DiskTemperature(props.devicePath, readFile).value
      && o.value.availableSpace == GetDisk(disks, props.mountPoint).value.availableSpace
  {
    match GetDisk(disks, props.mountPoint)
    case Panic(reason) => Panic(reason)
    case Done(disk) =>
      match DiskTemperature(props.devicePath, readFile)
      case Panic(reason) => Panic(reason)
      case Done(t) => Done(c.(temperature := t, availableSpace := disk.availableSpace))
  }

  datatype Message = DiskTick | DiskModelClick

  datatype Effect = Refresh | WriteClipboard(text: string)

  /** `update`: a tick refreshes the data, a click on the model copies it. */
  function Update(c: Component, message: Message): (e: Effect)
    ensures e == Refresh <==> message == DiskTick
    ensures e.WriteClipboard? ==> e.text == c.model
  {
    match message
    case DiskTick => Refresh
    case DiskModelClick => WriteClipboard(c.model)
  }

  /** What `view` shows: the usage label gives the total and the available space, not the used. */
  datatype View = View(model: string, temperature: real, fileSystemName: string,
                       total: nat, available: nat, barFill: Ratio)

  function Render(c: Component): (v: View)
    ensures v.model == c.model && v.fileSystemName == c.fileSystemName && v.temperature == c.temperature
    ensures v.total == c.totalSpace && v.available == c.availableSpace
    ensures v.barFill.Finite? <==> c.totalSpace != 0
  {
    View(c.model, c.temperature, c.fileSystemName, c.totalSpace, c.availableSpace,
         BarFill(c.totalSpace, c.availableSpace))
  }

  /**
   After any number of ticks the bar still divides by the total read at
   start: when the available space stays within it, the bar shows the used
   share of that total.
   */
  lemma BarAfterUpdate(c: Component, props: Props, disks: seq<DiskCommon.Disk>, readFile: string -> Option<string>)
    requires 0 < c.totalSpace < U64Modulus
    ensures var o := UpdateData(c, props, disks, readFile);
      o.Done? && o.value.availableSpace <= c.totalSpace ==>
        Render(o.value).barFill == Finite(1.0 - o.value.availableSpace as real / c.totalSpace as real)
  {
    var o := UpdateData(c, props, disks, readFile);
    if o.Done? && o.value.availableSpace <= c.totalSpace {
      BarFillShare(c.totalSpace, o.value.availableSpace);
    }
  }
}
