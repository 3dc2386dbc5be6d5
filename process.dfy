/** The outside world the tool talks to: the `machinectl` control utility and
    the remote image server.  Every argument vector handed to machinectl is
    appended to `trace`, every URL requested over HTTP to `fetched`; what the
    world answers is fixed in advance by the constant fields (an oracle). */
module Process {
  import opened Base
  import opened Records

  /** How a spawned process ended: it could not be started, or it exited
      with a success or failure status. */
  datatype Status = NotSpawned | Exited(success: bool)

  class Machinectl {
    /** Every argument vector machinectl was started with, in order. */
    var trace: seq<seq<string>>
    /** Every URL requested from a remote server, in order. */
    var fetched: seq<string>

    /** `OUTPUT_ARGUMENTS`, the output-format options of listing commands. */
    const outputArgs: seq<string>
    /** `BIN_PATH`, the directory prefixed to the program `exec` runs. */
    const binPath: string
    /** How the n-th started command (counted from 0 in `trace`) ends. */
    const statusOf: nat -> Status
    /** What `list-images` decodes to once started. */
    const imageListing: Result<seq<ImageData>>
    /** What the machine listing decodes to once started. */
    const machineListing: Result<seq<Machine>>
    /** What `ip -j a` inside a machine decodes to once started. */
    const networkOf: string -> Result<seq<InterfaceConfig>>
    /** Whether an HTTP request to a URL succeeds. */
    const remoteOk: string -> bool

    constructor (outputArgs: seq<string>, binPath: string, statusOf: nat -> Status,
                 imageListing: Result<seq<ImageData>>, machineListing: Result<seq<Machine>>,
                 networkOf: string -> Result<seq<InterfaceConfig>>, remoteOk: string -> bool)
      ensures trace == [] && fetched == []
      ensures this.outputArgs == outputArgs && this.binPath == binPath && this.statusOf == statusOf
      ensures this.imageListing == imageListing && this.machineListing == machineListing
      ensures this.networkOf == networkOf && this.remoteOk == remoteOk
    {
      trace, fetched := [], [];
      this.outputArgs, this.binPath, this.statusOf := outputArgs, binPath, statusOf;
      this.imageListing, this.machineListing := imageListing, machineListing;
      this.networkOf, this.remoteOk := networkOf, remoteOk;
    }

    /** `Command::new(MACHINECTL).args(argv).status()`: start machinectl and
        wait for it. */
    method Spawn(argv: seq<string>) returns (s: Status)
      modifies this`trace
      ensures trace == old(trace) + [argv]
      ensures s == statusOf(|old(trace)|)
    {
      s := statusOf(|trace|);
      trace := trace + [argv];
    }

    /** A blocking HTTP GET of `url`. */
    method Fetch(url: string) returns (r: Result<Unit>)
      modifies this`fetched
      ensures fetched == old(fetched) + [url]
      ensures r == if remoteOk(url) then Ok(()) else Err(NetworkFailed)
    {
      r := if remoteOk(url) then Ok(()) else Err(NetworkFailed);
      fetched := fetched + [url];
    }
  }

  /** The result of a command whose exit status is ignored: only a failure
      to start it is an error. */
  function SpawnResult(s: Status): (r: Result<Unit>)
    ensures r.Ok? <==> s.Exited?
    ensures r.Err? ==> r.error == SpawnFailed
  {
    if s.Exited? then Ok(()) else Err(SpawnFailed)
  }

  /** The result of a command whose exit status is checked: success exactly
      for a successful exit, otherwise the operation's own fixed message
      (or the spawn error). */
  function StatusResult(s: Status, failure: string): (r: Result<Unit>)
    ensures r.Ok? <==> s == Exited(true)
    ensures s == Exited(false) ==> r == Err(OpFailed(failure))
    ensures s == NotSpawned ==> r == Err(SpawnFailed)
  {
    match s
    case NotSpawned => Err(SpawnFailed)
    case Exited(ok) => if ok then Ok(()) else Err(OpFailed(failure))
  }

  /** The result of a read command: a failure to start it, or whatever its
      output decodes to. */
  function OutputResult<T>(s: Status, decoded: Result<T>): (r: Result<T>)
    ensures s.Exited? ==> r == decoded
    ensures s == NotSpawned ==> r == Err(SpawnFailed)
  {
    if s.Exited? then decoded else Err(SpawnFailed)
  }
}
