/** The dispatcher: `handle_arguments`, `manage_images` and
    `manage_machines`.  Each command is specified by a function giving its
    whole effect (the argument vectors handed to machinectl, the result and
    the reports); the methods are proved to have exactly that effect, and
    the lemmas state the dispatcher's rules about those functions. */
module Handler {
  import opened Base
  import opened Text
  import opened Records
  import opened Utils
  import opened Process
  import opened ImagesOps
  import opened MachinesOps
  import opened Tables
  import opened Selection
  import opened Args
  import opened Bulk

  /** The image type of a remote name: the text after its last `/`, or the
      whole name when it has none. */
  function ImageType(remoteName: string): (t: string)
    ensures '/' !in t
    ensures |t| <= |remoteName| && t == remoteName[|remoteName| - |t|..]
    ensures |t| < |remoteName| ==> remoteName[|remoteName| - |t| - 1] == '/'
  {
    LastSegment(remoteName, '/')
  }

  /** The local name of an imported image: `--local-name` if given,
      otherwise the remote name with every `/` turned into `-`. */
  function LocalName(remoteName: string, localName: Option<string>): (n: string)
    ensures localName.Some? ==> n == localName.value
    ensures localName.None? ==> |n| == |remoteName| && '/' !in n
    ensures localName.None? ==> forall i :: 0 <= i < |n| ==>
      n[i] == if remoteName[i] == '/' then '-' else remoteName[i]
  {
    match localName
    case Some(name) => name
    case None =>
      ReplaceCharRemovesAll(remoteName, '/', '-');
      ReplaceChar(remoteName, '/', '-')
  }

  /** Where an image is downloaded from. */
  function ImportUrl(server: string, remoteName: string): string {
    server + "/storage/" + remoteName + "/" + "image." + ImageType(remoteName) + ".xz"
  }

  /** Where the remote listing is downloaded from. */
  function ListingUrl(server: string): string {
    server + "/storage/list.txt"
  }

  /** The URLs an image command downloads. */
  function ImagesFetched(cmd: ImageCommand): seq<string> {
    if cmd.RemoteList? && cmd.server.Some? then [ListingUrl(cmd.server.value)] else []
  }

  /** What an image command does when its first command is the `base`-th
      machinectl has run. */
  function ImagesEffect(mc: Machinectl, base: nat, cmd: ImageCommand, width: Option<u16>,
                        usageInGb: ImageData -> string, formatDate: int -> string): Effect
  {
    match cmd
    case ListImages(ro, typeField, pattern) =>
      (match OutputResult(mc.statusOf(base), mc.imageListing)
       case Err(e) => Effect([ListImagesArgv(mc.outputArgs)], Err(e), [])
       case Ok(images) =>
         var view := ImagesView(ListedImages(images, ro, typeField, pattern), width, usageInGb, formatDate);
         Effect([ListImagesArgv(mc.outputArgs)], Ok(()), [Table(view)]))
    case StartImages(all, pattern, machine) =>
      BulkEffect(mc, base, StartOp, Select(machine, all, pattern), LocalImages, false, InvalidImage)
    case SetImage(readOnly, readWrite, name) =>
      if readOnly || readWrite then
        Effect([ReadOnlyArgv(name, readOnly)], Ok(()),
               [Item(name, ResultOutcome(StatusResult(mc.statusOf(base), READ_ONLY_FAILED)))])
      else Effect([], Ok(()), [NoActionSpecified])
    case RemoveImages(all, pattern, image) =>
      BulkEffect(mc, base, RemoveOp, Select(image, all, pattern), LocalImages, true, InvalidImage)
    case CloneImage(current, newImage) =>
      Effect([CloneArgv(current, newImage)], Ok(()),
             [Item(current, ResultOutcome(StatusResult(mc.statusOf(base), CLONE_FAILED)))])
    case RenameImage(current, newImage) =>
      Effect([RenameArgv(current, newImage)], Ok(()),
             [Item(current, ResultOutcome(StatusResult(mc.statusOf(base), RENAME_FAILED)))])
    case RemoteList(_, server) =>
      if server.None? then Effect([], Err(Panic), [])
      else Effect([], if mc.remoteOk(ListingUrl(server.value)) then Ok(()) else Err(NetworkFailed), [])
    case RemoteImport(remoteName, localName, server) =>
      if server.None? then Effect([], Err(Panic), [])
      else
        match ImportArgv(ImportUrl(server.value, remoteName), ImageType(remoteName), LocalName(remoteName, localName))
        case Err(e) => Effect([], Ok(()), [Item(remoteName, Failed(e))])
        case Ok(argv) =>
          Effect([argv], Ok(()), [Item(remoteName, ResultOutcome(StatusResult(mc.statusOf(base), IMPORT_FAILED)))])
  }

  /** `manage_images`. */
  method ManageImages(mc: Machinectl, cmd: ImageCommand, width: Option<u16>,
                      usageInGb: ImageData -> string, formatDate: int -> string)
    returns (r: Result<Unit>, reports: seq<Report>)
    modifies mc`trace, mc`fetched
    ensures var e := ImagesEffect(mc, |old(mc.trace)|, cmd, width, usageInGb, formatDate);
      mc.trace == old(mc.trace) + e.issued && r == e.result && reports == e.reports
    ensures mc.fetched == old(mc.fetched) + ImagesFetched(cmd)
  {
    match cmd {
      case ListImages(ro, typeField, pattern) =>
        var images := ListLocalImages(mc);
        if images.Err? {
          return Err(images.error), [];
        }
        var t := CreateImagesTable(ListedImages(images.value, ro, typeField, pattern), width, usageInGb, formatDate);
        r, reports := Ok(()), [Table(t.View())];
      case StartImages(all, pattern, machine) =>
        r, reports := BulkRun(mc, StartOp, Select(machine, all, pattern), LocalImages, false, InvalidImage);
      case RemoveImages(all, pattern, image) =>
        r, reports := BulkRun(mc, RemoveOp, Select(image, all, pattern), LocalImages, true, InvalidImage);
      case SetImage(readOnly, readWrite, name) =>
        if readOnly || readWrite {
          var done := SetReadOnly(mc, name, readOnly);
          r, reports := Ok(()), [Item(name, ResultOutcome(done))];
        } else {
          r, reports := Ok(()), [NoActionSpecified];
        }
      case CloneImage(current, newImage) =>
        var done := ImagesOps.CloneImage(mc, current, newImage);
        r, reports := Ok(()), [Item(current, ResultOutcome(done))];
      case RenameImage(current, newImage) =>
        var done := ImagesOps.RenameImage(mc, current, newImage);
        r, reports := Ok(()), [Item(current, ResultOutcome(done))];
      case RemoteList(_, _) =>
        r, reports := ManageRemote(mc, cmd, width, usageInGb, formatDate);
      case RemoteImport(_, _, _) =>
        r, reports := ManageRemote(mc, cmd, width, usageInGb, formatDate);
    }
  }

  /** The `images remote` branches of `manage_images`: list fetches the
      listing, import pulls the image through machinectl. */
  method ManageRemote(mc: Machinectl, cmd: ImageCommand, width: Option<u16>,
                      usageInGb: ImageData -> string, formatDate: int -> string)
    returns (r: Result<Unit>, reports: seq<Report>)
    requires cmd.RemoteList? || cmd.RemoteImport?
    modifies mc`trace, mc`fetched
    ensures var e := ImagesEffect(mc, |old(mc.trace)|, cmd, width, usageInGb, formatDate);
      mc.trace == old(mc.trace) + e.issued && r == e.result && reports == e.reports
    ensures mc.fetched == old(mc.fetched) + ImagesFetched(cmd)
  {
    if cmd.server.None? {
      return Err(Panic), [];
    }
    if cmd.RemoteList? {
      r := ListRemoteImages(mc, ListingUrl(cmd.server.value));
      reports := [];
    } else {
      var url := ImportUrl(cmd.server.value, cmd.remoteName);
      var done := ImportRemoteImage(mc, url, ImageType(cmd.remoteName), LocalName(cmd.remoteName, cmd.localName));
      r, reports := Ok(()), [Item(cmd.remoteName, ResultOutcome(done))];
    }
  }

  /** What a machine command does when its first command is the `base`-th
      machinectl has run. */
  function MachinesEffect(mc: Machinectl, base: nat, cmd: MachineCommand, width: Option<u16>): Effect {
    match cmd
    case ListMachines(pattern) =>
      (match OutputResult(mc.statusOf(base), mc.machineListing)
       case Err(e) => Effect([ListMachinesArgv(mc.outputArgs)], Err(e), [])
       case Ok(machines) =>
         Effect([ListMachinesArgv(mc.outputArgs)], Ok(()), [Table(MachinesView(ListedMachines(machines, pattern), width))]))
    case ShellMachine(machine, user) =>
      if machine.None? then Effect([], Ok(()), [Usage(InvalidMachine)])
      else
        var o := ResultOutcome(SpawnResult(mc.statusOf(base)));
        Effect([ShellArgv(machine.value, UserOrDefault(user))], OutcomeResult(o), [Item(machine.value, o)])
    case StopMachines(machine, all, pattern) =>
      BulkEffect(mc, base, StopOp, Select(machine, all, pattern), ActiveMachines, false, InvalidMachine)
    case KillMachines(machine, all, pattern, signal) =>
      BulkEffect(mc, base, KillOp(signal), Select(machine, all, pattern), ActiveMachines, false, InvalidMachine)
    case ExecMachines(machine, command, all, pattern, user) =>
      BulkEffect(mc, base, ExecOp(UserOrDefault(user), command), Select(machine, all, pattern), ActiveMachines, false, InvalidMachine)
    case TerminateMachines(machine, all, pattern) =>
      BulkEffect(mc, base, TerminateOp, Select(machine, all, pattern), ActiveMachines, false, InvalidMachine)
    case RebootMachines(machine, all, pattern) =>
      BulkEffect(mc, base, RebootOp, Select(machine, all, pattern), ActiveMachines, false, InvalidMachine)
    case NetworkMachines(machine, all, pattern) =>
      BulkEffect(mc, base, NetworkOp, Select(machine, all, pattern), ActiveMachines, false, InvalidMachine)
  }

  /** `manage_machines`. */
  method ManageMachines(mc: Machinectl, cmd: MachineCommand, width: Option<u16>)
    returns (r: Result<Unit>, reports: seq<Report>)
    modifies mc`trace
    ensures var e := MachinesEffect(mc, |old(mc.trace)|, cmd, width);
      mc.trace == old(mc.trace) + e.issued && r == e.result && reports == e.reports
  {
    match cmd {
      case ListMachines(pattern) =>
        var machines := ListActiveMachines(mc);
        if machines.Err? {
          return Err(machines.error), [];
        }
        var t := CreateMachinesTable(ListedMachines(machines.value, pattern), width);
        r, reports := Ok(()), [Table(t.View())];
      case StopMachines(machine, all, pattern) =>
        r, reports := BulkRun(mc, StopOp, Select(machine, all, pattern), ActiveMachines, false, InvalidMachine);
      case KillMachines(machine, all, pattern, signal) =>
        r, reports := BulkRun(mc, KillOp(signal), Select(machine, all, pattern), ActiveMachines, false, InvalidMachine);
      case ExecMachines(machine, command, all, pattern, user) =>
        var login := UserOrDefault(user);
        r, reports := BulkRun(mc, ExecOp(login, command), Select(machine, all, pattern), ActiveMachines, false, InvalidMachine);
      case ShellMachine(machine, user) =>
        var login := UserOrDefault(user);
        if machine.None? {
          return Ok(()), [Usage(InvalidMachine)];
        }
        var done := MachineShell(mc, machine.value, login);
        var o := ResultOutcome(done);
        r, reports := OutcomeResult(o), [Item(machine.value, o)];
      case TerminateMachines(machine, all, pattern) =>
        r, reports := BulkRun(mc, TerminateOp, Select(machine, all, pattern), ActiveMachines, false, InvalidMachine);
      case RebootMachines(machine, all, pattern) =>
        r, reports := BulkRun(mc, RebootOp, Select(machine, all, pattern), ActiveMachines, false, InvalidMachine);
      case NetworkMachines(machine, all, pattern) =>
        r, reports := BulkRun(mc, NetworkOp, Select(machine, all, pattern), ActiveMachines, false, InvalidMachine);
    }
  }

  /** `handle_arguments`: no subcommand does nothing. */
  method HandleArguments(mc: Machinectl, args: Arguments, usageInGb: ImageData -> string, formatDate: int -> string)
    returns (r: Result<Unit>, reports: seq<Report>)
    modifies mc`trace, mc`fetched
    ensures args.cmd.None? ==> mc.trace == old(mc.trace) && mc.fetched == old(mc.fetched) && r == Ok(()) && reports == []
    ensures args.cmd.Some? ==> old(mc.trace) <= mc.trace
    ensures args.cmd.Some? && args.cmd.value.Images? ==>
      Effect(mc.trace[|old(mc.trace)|..], r, reports)
        == ImagesEffect(mc, |old(mc.trace)|, args.cmd.value.images, args.width, usageInGb, formatDate)
      && mc.fetched == old(mc.fetched) + ImagesFetched(args.cmd.value.images)
    ensures args.cmd.Some? && args.cmd.value.Machines? ==>
      Effect(mc.trace[|old(mc.trace)|..], r, reports) == MachinesEffect(mc, |old(mc.trace)|, args.cmd.value.machines, args.width)
      && mc.fetched == old(mc.fetched)
  {
    if args.cmd.None? {
      return Ok(()), [];
    }
    var cmd := args.cmd.value;
    if cmd.Images? {
      r, reports := ManageImages(mc, cmd.images, args.width, usageInGb, formatDate);
    } else {
      r, reports := ManageMachines(mc, cmd.machines, args.width);
    }
  }
}
