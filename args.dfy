/** The parsed command line, mirroring the command-line declarations: one
    constructor per subcommand, with the options each one carries.  Parsing
    itself is not modelled; defaults the parser fills in are constants. */
module Args {
  import opened Base

  /** `--signal` when none is given. */
  const DEFAULT_SIGNAL: string := "SIGTERM"
  /** `--server` when none is given. */
  const DEFAULT_SERVER: string := "https://hub.nspawn.org"
  /** The login user of `exec` and `shell` when `--user` is absent. */
  const DEFAULT_USER: string := "root"

  datatype ImageCommand =
    | ListImages(ro: bool, typeField: Option<string>, pattern: Option<string>)
    | StartImages(all: bool, pattern: Option<string>, machine: Option<string>)
    | RemoveImages(all: bool, pattern: Option<string>, image: Option<string>)
    | SetImage(readOnly: bool, readWrite: bool, name: string)
    | CloneImage(currentImage: string, newImage: string)
    | RenameImage(currentImage: string, newImage: string)
    | RemoteList(pattern: Option<string>, server: Option<string> := Some(DEFAULT_SERVER))
    | RemoteImport(remoteName: string, localName: Option<string>, server: Option<string> := Some(DEFAULT_SERVER))

  datatype MachineCommand =
    | ListMachines(pattern: Option<string>)
    | StopMachines(machine: Option<string>, all: bool, pattern: Option<string>)
    | KillMachines(machine: Option<string>, all: bool, pattern: Option<string>, signal: string := DEFAULT_SIGNAL)
    | ExecMachines(machine: Option<string>, command: string, all: bool, pattern: Option<string>, user: Option<string>)
    | ShellMachine(machine: Option<string>, user: Option<string>)
    | TerminateMachines(machine: Option<string>, all: bool, pattern: Option<string>)
    | RebootMachines(machine: Option<string>, all: bool, pattern: Option<string>)
    | NetworkMachines(machine: Option<string>, all: bool, pattern: Option<string>)

  datatype Command = Images(images: ImageCommand) | Machines(machines: MachineCommand)

  /** The whole command line: an optional subcommand and the table width. */
  datatype Arguments = Arguments(cmd: Option<Command>, width: Option<u16>)

  /** `user.unwrap_or_else(|| "root")`. */
  function UserOrDefault(user: Option<string>): (u: string)
    ensures user.Some? ==> u == user.value
    ensures user.None? ==> u == DEFAULT_USER
  {
    match user
    case Some(name) => name
    case None => DEFAULT_USER
  }
}
