/** The image operations: each builds one machinectl argument vector, starts
    machinectl with it and maps the outcome to a result. */
module ImagesOps {
  import opened Base
  import opened Records
  import opened Text
  import opened Process

  const REMOVE_FAILED: string := "Failed to remove image"
  const RENAME_FAILED: string := "Failed to rename image"
  const CLONE_FAILED: string := "Failed to clone image"
  const IMPORT_FAILED: string := "Failed to import image"
  const INVALID_TYPE: string := "Invalid image type"
  const READ_ONLY_FAILED: string := "Failed to set read-only"

  function ListImagesArgv(outputArgs: seq<string>): seq<string> {
    ["list-images"] + outputArgs
  }

  function StartArgv(name: string): seq<string> {
    ["start", name]
  }

  function RemoveArgv(name: string): seq<string> {
    ["remove", name]
  }

  function RenameArgv(oldName: string, newName: string): seq<string> {
    ["rename", oldName, newName]
  }

  function CloneArgv(oldName: string, newName: string): seq<string> {
    ["clone", oldName, newName]
  }

  function ReadOnlyArgv(name: string, value: bool): seq<string> {
    ["read-only", name, BoolText(value)]
  }

  /** The pull verb for an image type: only "raw" and "tar" have one. */
  function PullCommand(imageType: string): (r: Option<string>)
    ensures r.Some? <==> imageType == "raw" || imageType == "tar"
    ensures r.Some? ==> r.value == "pull-" + imageType
  {
    if imageType == "raw" then Some("pull-raw")
    else if imageType == "tar" then Some("pull-tar")
    else None
  }

  /** The import command: `[pull verb, url, local name]`, or the invalid-type
      error when the type has no pull verb. */
  function ImportArgv(url: string, imageType: string, importName: string): (r: Result<seq<string>>)
    ensures r.Ok? <==> imageType == "raw" || imageType == "tar"
    ensures r.Err? ==> r.error == OpFailed(INVALID_TYPE)
    ensures r.Ok? ==> r.value == ["pull-" + imageType, url, importName]
  {
    match PullCommand(imageType)
    case None => Err(OpFailed(INVALID_TYPE))
    case Some(pull) => Ok([pull, url, importName])
  }

  /** `list_local_images`. */
  method ListLocalImages(mc: Machinectl) returns (r: Result<seq<ImageData>>)
    modifies mc`trace
    ensures mc.trace == old(mc.trace) + [ListImagesArgv(mc.outputArgs)]
    ensures r == OutputResult(mc.statusOf(|old(mc.trace)|), mc.imageListing)
  {
    var s := mc.Spawn(ListImagesArgv(mc.outputArgs));
    r := OutputResult(s, mc.imageListing);
  }

  /** `start_image`: the exit status is not looked at. */
  method StartImage(mc: Machinectl, name: string) returns (r: Result<Unit>)
    modifies mc`trace
    ensures mc.trace == old(mc.trace) + [StartArgv(name)]
    ensures r == SpawnResult(mc.statusOf(|old(mc.trace)|))
  {
    var s := mc.Spawn(StartArgv(name));
    r := SpawnResult(s);
  }

  /** `list_remote_images`: one GET of the listing URL; the body is printed
      as it is. */
  method ListRemoteImages(mc: Machinectl, url: string) returns (r: Result<Unit>)
    modifies mc`fetched
    ensures mc.fetched == old(mc.fetched) + [url]
    ensures r == if mc.remoteOk(url) then Ok(()) else Err(NetworkFailed)
  {
    r := mc.Fetch(url);
  }

  /** `remove_image`. */
  method RemoveImage(mc: Machinectl, name: string) returns (r: Result<Unit>)
    modifies mc`trace
    ensures mc.trace == old(mc.trace) + [RemoveArgv(name)]
    ensures r == StatusResult(mc.statusOf(|old(mc.trace)|), REMOVE_FAILED)
  {
    var s := mc.Spawn(RemoveArgv(name));
    r := StatusResult(s, REMOVE_FAILED);
  }

  /** `rename_image`. */
  method RenameImage(mc: Machinectl, oldName: string, newName: string) returns (r: Result<Unit>)
    modifies mc`trace
    ensures mc.trace == old(mc.trace) + [RenameArgv(oldName, newName)]
    ensures r == StatusResult(mc.statusOf(|old(mc.trace)|), RENAME_FAILED)
  {
    var s := mc.Spawn(RenameArgv(oldName, newName));
    r := StatusResult(s, RENAME_FAILED);
  }

  /** `clone_image`. */
  method CloneImage(mc: Machinectl, oldName: string, newName: string) returns (r: Result<Unit>)
    modifies mc`trace
    ensures mc.trace == old(mc.trace) + [CloneArgv(oldName, newName)]
    ensures r == StatusResult(mc.statusOf(|old(mc.trace)|), CLONE_FAILED)
  {
    var s := mc.Spawn(CloneArgv(oldName, newName));
    r := StatusResult(s, CLONE_FAILED);
  }

  /** `import_remote_image`: an unknown type fails before anything is
      started. */
  method ImportRemoteImage(mc: Machinectl, url: string, imageType: string, importName: string) returns (r: Result<Unit>)
    modifies mc`trace
    ensures ImportArgv(url, imageType, importName).Err? ==>
      mc.trace == old(mc.trace) && r == Err(OpFailed(INVALID_TYPE))
    ensures ImportArgv(url, imageType, importName).Ok? ==>
      mc.trace == old(mc.trace) + [ImportArgv(url, imageType, importName).value]
      && r == StatusResult(mc.statusOf(|old(mc.trace)|), IMPORT_FAILED)
  {
    var argv := ImportArgv(url, imageType, importName);
    if argv.Err? {
      return Err(argv.error);
    }
    var s := mc.Spawn(argv.value);
    r := StatusResult(s, IMPORT_FAILED);
  }

  /** `set_read_only`. */
  method SetReadOnly(mc: Machinectl, name: string, value: bool) returns (r: Result<Unit>)
    modifies mc`trace
    ensures mc.trace == old(mc.trace) + [ReadOnlyArgv(name, value)]
    ensures r == StatusResult(mc.statusOf(|old(mc.trace)|), READ_ONLY_FAILED)
  {
    var s := mc.Spawn(ReadOnlyArgv(name, value));
    r := StatusResult(s, READ_ONLY_FAILED);
  }
}
