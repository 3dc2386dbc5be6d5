# nspawn, modelled in Dafny

`nspawn` is a command-line front end to systemd's `machinectl`. It manages
local container images and running machines, and imports images from a
remote hub. This project models its core and proves properties of it:

- the dispatcher (`handle_arguments`, `manage_images`, `manage_machines`);
- the argument vectors it hands to `machinectl`, and how exit statuses map to
  results;
- the three tables it prints;
- the in-place timestamp conversion of an image;
- the option-to-placeholder helper.

The outside world is the class `Process.Machinectl`. Each command the tool
starts is appended to its `trace` (one argument vector per command). Each URL
fetched is appended to `fetched`. What `machinectl` answers comes from fixed
oracles:

- the exit status of the n-th command;
- the decoded image and machine listings;
- the decoded network configuration of each machine;
- whether an HTTP GET succeeds.

Every dispatcher branch is specified by a function giving its whole `Effect`.
An effect is the argument vectors issued, in order, the `Result` returned,
and the `Report`s shown to the user. A report is a usage message, "no action
specified", a table, or the outcome of one item. The methods `ManageImages`,
`ManageMachines` and `HandleArguments` are proved to have exactly that
effect. The rules of the dispatcher are lemmas about the effect functions
(module `HandlerRules`).

The bulk commands are `start`, `remove`, `stop`, `kill`, `exec`,
`terminate`, `reboot` and `network`. They share one loop (`Bulk.RunEach`),
which attempts every selected item exactly once, in listing order. Tables are
built by methods that fill a mutable `Tables.Table` (header, optional width,
rows). Each method is proved to produce the view given by a function, and
lemmas state the shape of that view. `ImageStructs.Image` is a class whose
`created` and `modified` fields the timestamp methods divide in place, with
Rust's truncating division written out. The argument vectors have a decoder
(`Invocations.Decode`) with round-trip lemmas, so every builder is checked
against an independent reading of what it sends.

Two points of the code that a reader might expect otherwise:

- Bulk commands choose an explicit name, then `--all`, then `--pattern`
  (src/modules/manager/handler.rs:62-90), and nothing rejects giving more
  than one of them.
- `handle_arguments` matches the subcommand as an `Option` and does nothing
  on `None` (src/modules/manager/handler.rs:25-28), while
  src/modules/args/arguments.rs:11 declares the field without `Option`. The
  model follows handler.rs, so `Args.Arguments.cmd` is an `Option`.

## Model

| member | source | states |
|---|---|---|
| Handler.HandleArguments | src/modules/manager/handler.rs:24-32 | no subcommand issues nothing, fetches nothing and returns Ok; an images or machines subcommand has exactly the effect of `ImagesEffect`/`MachinesEffect` and only extends the trace |
| Handler.ManageImages | src/modules/manager/handler.rs:34-230 | the commands issued, result and reports are exactly `ImagesEffect` (list filters, bulk start/remove, set, clone, rename, remote list/import); only `remote list` fetches, and it fetches the listing URL |
| Handler.ManageRemote | src/modules/manager/handler.rs:178-227 | the `remote list` and `remote import` branches have exactly the effect `ImagesEffect` gives them; only `remote list` fetches, and it fetches the listing URL |
| Handler.ManageMachines | src/modules/manager/handler.rs:232-455 | the commands issued, result and reports are exactly `MachinesEffect` (list, shell, and the bulk stop/kill/exec/terminate/reboot/network) |
| Handler.ImageType | src/modules/manager/handler.rs:200-205 | the image type is a slash-free suffix of the remote name that is either the whole name or preceded by `/`, i.e. the text after the last `/` |
| Handler.LocalName | src/modules/manager/handler.rs:192-196 | `--local-name` when given; otherwise the remote name, same length, with each `/` replaced by `-` and every other character kept, and no `/` left |
| HandlerRules.SelectionPrecedence | src/modules/manager/handler.rs:61-91 | an explicit name wins over `--all`, `--all` wins over `--pattern`; with none of them the only effect is the usage message, with no command issued |
| HandlerRules.NamedActsOnce | src/modules/manager/handler.rs:237-240 | with an explicit name exactly one command is issued and one item reported; the result is an error iff that item failed and the operation propagates its failure |
| HandlerRules.ListingFailureStops | src/modules/manager/handler.rs:240-242 | when the listing of a bulk command fails, only the listing command is issued, nothing is reported and its error is returned |
| HandlerRules.ListedEffect | src/modules/manager/handler.rs:240-264 | a bulk command over a successful listing issues the listing, then one command per target in order, returns Ok, and reports one item per target |
| HandlerRules.LoopItems | src/modules/manager/handler.rs:242-249 | the k-th command issued by a loop is the operation on the k-th target, and the k-th report is that target with the outcome of the command run at that position |
| HandlerRules.IssuedIgnoresItemStatuses | src/modules/manager/handler.rs:364-371 | the commands a bulk command issues, and its result with `--all`/`--pattern`, do not depend on how the per-item commands end: one failure does not stop the loop |
| HandlerRules.RemovalArgvs | src/modules/manager/handler.rs:100-123 | bulk removal removes only images that are listed and not read-only, and removes every listed writable image (matching the pattern in pattern mode) |
| HandlerRules.RemovalTargets | src/modules/manager/handler.rs:100-123 | the same for the commands actually issued by the bulk remove effect after its listing |
| HandlerRules.BulkRemovalSkipsReadOnly | src/modules/manager/handler.rs:92-127 | `images remove --all`/`--pattern` never issues `remove` for a read-only image and issues it for every writable image selected |
| HandlerRules.NamedImageResults | src/modules/manager/handler.rs:92-99 | explicit-name remove issues exactly `remove <name>` with no read-only check, and returns Ok whatever happens; explicit-name start returns the spawn result |
| HandlerRules.SetRules | src/modules/manager/handler.rs:128-146 | `--ro` beats `--rw` (read-only true), `--rw` alone gives false, with neither no command is issued and "no action" is reported; set always returns Ok |
| HandlerRules.RemoteListIgnoresPattern | src/modules/manager/handler.rs:180-190 | remote list has the same effect and fetches the same URL, `server + "/storage/list.txt"`, whatever the pattern |
| HandlerRules.ImageTypeOfPath | src/modules/manager/handler.rs:199-205 | the image type of `dir/type` is `type` |
| HandlerRules.ImportUrlOfPath | src/modules/manager/handler.rs:207-213 | the import URL of `dir/type` is `server/storage/dir/type/image.type.xz` |
| HandlerRules.LocalNameOfPath | src/modules/manager/handler.rs:192-196 | without `--local-name`, the local name of `dir/type` is the local name of `dir`, then `-`, then `type` |
| HandlerRules.ImportFromHub | src/modules/manager/handler.rs:191-224 | importing `dir/raw` or `dir/tar` from the default server without `--local-name` issues exactly `[pull-<type>, https://hub.nspawn.org/storage/dir/<type>/image.<type>.xz, <dir with - for />-<type>]` |
| HandlerRules.DefaultUserIsRoot | src/modules/manager/handler.rs:307-312 | shell logs in as `root@<machine>` when no user is given, and exec without a user behaves exactly as with user `root` |
| HandlerRules.KillDefaultSignal | src/modules/args/machines_args.rs:58 | `kill <name>` without `--signal` issues exactly `kill <name> --signal SIGTERM` |
| HandlerRules.ExecWithoutCommandPanics | src/modules/machines/machines_ops.rs:56-58 | exec with a command of only white space panics on an explicit name before issuing anything, and in a bulk run panics after the listing iff some machine was selected |
| HandlerRules.ShellRules | src/modules/manager/handler.rs:350-358 | shell without a machine only prints the usage message; with one, the result is the spawn result |
| Bulk.BulkRun | src/modules/manager/handler.rs:61-91 | one bulk-capable branch has exactly the effect `BulkEffect`: usage message, named attempt, or listing followed by the loop |
| Bulk.BulkListed | src/modules/manager/handler.rs:100-123 | the listing branch: a failed listing stops with its error; otherwise every target gets its command in order and the result is Ok |
| Bulk.RunEach | src/modules/manager/handler.rs:66-72 | the loop issues one command per chosen candidate in listing order and one report per chosen candidate, failures included |
| Bulk.EachStep | src/modules/manager/handler.rs:113-122 | one turn of the loop: a chosen candidate gets exactly one attempt and one report, a skipped one (read-only, or not matching) nothing |
| Bulk.Perform | src/modules/manager/handler.rs:417-422 | applying an operation by name issues exactly its argument vector; its outcome follows that operation's status mapping, and `network` yields the decoded interfaces whose table is `NetworkView` |
| Bulk.ListCandidates | src/modules/manager/handler.rs:240-242 | the listing step issues the listing command and yields the listed images or machines as candidates, or the listing's error |
| Bulk.Listing | src/modules/manager/handler.rs:240-242 | the candidate listing succeeds exactly when the underlying listing does |
| Selection.Select | src/modules/manager/handler.rs:61-91 | the branch chosen by name, `--all`, `--pattern`, in that order; nothing is selected iff none is given |
| Selection.Filter | src/modules/manager/handler.rs:40-57 | a filter keeps only elements satisfying its predicate and never grows the list |
| Selection.FilterCount | src/modules/manager/handler.rs:40-57 | a filter keeps every occurrence of an element it accepts and none of one it rejects |
| Selection.FilterAppend | src/modules/manager/handler.rs:40-57 | filtering preserves order: filtering a concatenation is the concatenation of the filtered parts |
| Selection.FilterKeepsAll | src/modules/manager/handler.rs:55-56 | a filter that accepts everything returns its input unchanged |
| Selection.ListedImagesSpec | src/modules/manager/handler.rs:40-57 | image listing keeps exactly the images `--ro`, else `--type`, else `--pattern` accepts, each as often as listed, in listing order; `--ro` ignores type and pattern, `--type` ignores pattern |
| Selection.ListedMachines | src/modules/manager/handler.rs:291-303 | machine listing without a pattern is the whole listing; with one it keeps exactly the machines whose name (or `-`) matches, as often as listed |
| Selection.TargetNamesMembers | src/modules/manager/handler.rs:73-87 | a name is targeted iff some listed candidate with that name is chosen (matching the pattern, not skipped as read-only) |
| Selection.EverythingTargetsAll | src/modules/manager/handler.rs:64-72 | `--all` targets every listed name, in order |
| Selection.RemovalSkipsReadOnly | src/modules/manager/handler.rs:100-123 | bulk-removal targets are exactly the names of listed writable images (matching the pattern in pattern mode) |
| Selection.MachinePatternTargets | src/modules/manager/handler.rs:250-261 | pattern mode targets exactly the listed machines whose name matches, and an unnamed machine is addressed and matched as `-` |
| Text.Contains | src/modules/manager/handler.rs:53 | substring test: true iff the needle occurs at some position |
| Text.Lower | src/modules/manager/handler.rs:53 | lower-casing keeps the length |
| Text.LowerAt | src/modules/manager/handler.rs:53 | lower-casing maps each character on its own |
| Text.LowerIdempotent | src/modules/manager/handler.rs:53 | lower-casing twice is lower-casing once |
| Text.LowerHasNoCapitals | src/modules/manager/handler.rs:53 | no capital survives lower-casing, and other characters are kept |
| Text.MatchesIgnoresCase | src/modules/manager/handler.rs:53 | pattern matching is insensitive to the case of the name and of the pattern |
| Text.MatchesTrivially | src/modules/manager/handler.rs:53 | every name matches the empty pattern and itself |
| Text.MatchesInfix | src/modules/manager/handler.rs:53 | a name holding the pattern anywhere matches it |
| Text.ReplaceChar | src/modules/manager/handler.rs:195 | replacement keeps the length and changes exactly the occurrences of the replaced character |
| Text.ReplaceCharRemovesAll | src/modules/manager/handler.rs:195 | after replacing `/` by `-` no `/` remains, and a name without `/` is unchanged |
| Text.LastSegment | src/modules/manager/handler.rs:199-205 | the last segment is a separator-free suffix, preceded by the separator unless it is the whole string |
| Text.LastSegmentWhole | src/modules/manager/handler.rs:199-205 | a string without separator is its own last segment |
| Text.LastSegmentAfter | src/modules/manager/handler.rs:199-205 | the last segment of `prefix/tail`, with no separator in `tail`, is `tail` |
| Text.Word | src/modules/machines/machines_ops.rs:56 | a word is the longest white-space-free prefix: it ends at the end of the string or at a white-space character |
| Text.SplitWhitespace | src/modules/machines/machines_ops.rs:56 | the split yields non-empty words free of white space that together hold exactly the non-white-space characters, in order |
| Text.SplitWhitespaceLayout | src/modules/machines/machines_ops.rs:56 | a command written as words with white space before, between (at least one character) and after them splits into exactly those words: the tokens are the maximal white-space-free runs |
| Text.SplitWhitespaceNonEmpty | src/modules/machines/machines_ops.rs:56-58 | the split has a first word iff the command holds a non-white-space character |
| Text.IntTextRoundTrip | src/modules/data_format/tables.rs:104 | the decimal rendering of an integer reads back as that integer |
| ImagesOps.PullCommand | src/modules/images/images_ops.rs:85-94 | `raw` maps to `pull-raw`, `tar` to `pull-tar`, and no other type has a pull command |
| ImagesOps.ImportArgv | src/modules/images/images_ops.rs:85-96 | the import argv is `[pull-<type>, url, name]` for raw and tar; any other type is the "Invalid image type" error |
| ImagesOps.ListLocalImages | src/modules/images/images_ops.rs:7-18 | issues `list-images` with the output arguments and returns the decoded listing once spawned |
| ImagesOps.StartImage | src/modules/images/images_ops.rs:20-23 | issues `start <name>` and returns Ok whatever the exit status once spawned |
| ImagesOps.ListRemoteImages | src/modules/images/images_ops.rs:25-37 | fetches the given URL, Ok iff the request succeeds |
| ImagesOps.RemoveImage | src/modules/images/images_ops.rs:39-49 | issues `remove <name>`; Ok iff the exit status is success, otherwise "Failed to remove image" |
| ImagesOps.RenameImage | src/modules/images/images_ops.rs:51-63 | issues `rename <old> <new>`; Ok iff success, otherwise "Failed to rename image" |
| ImagesOps.CloneImage | src/modules/images/images_ops.rs:65-77 | issues `clone <old> <new>`; Ok iff success, otherwise "Failed to clone image" |
| ImagesOps.ImportRemoteImage | src/modules/images/images_ops.rs:79-106 | an invalid type is an error with no command issued; otherwise issues the import argv, Ok iff success, otherwise "Failed to import image" |
| ImagesOps.SetReadOnly | src/modules/images/images_ops.rs:108-121 | issues `read-only <name> true/false`; Ok iff success, otherwise "Failed to set read-only" |
| MachinesOps.ExecArgv | src/modules/machines/machines_ops.rs:56-64 | the exec argv is `--quiet shell user@name`, then the binary path joined to the first word, then the remaining words |
| MachinesOps.ExecArgvText | src/modules/machines/machines_ops.rs:56-64 | the words after the login spell the binary path followed by the command's non-white-space characters |
| MachinesOps.ExecArgvWords | src/modules/machines/machines_ops.rs:56-64 | the argv is the shell login prefix followed by exactly the command's words, the first prefixed by the binary path |
| MachinesOps.ExecArgvLayout | src/modules/machines/machines_ops.rs:56-64 | a command written as words separated by white space runs the binary path joined to its first word, with exactly the other words as arguments |
| MachinesOps.ListActiveMachines | src/modules/machines/machines_ops.rs:9-17 | issues the output arguments and returns the decoded machine listing once spawned |
| MachinesOps.StopMachine | src/modules/machines/machines_ops.rs:19-22 | issues `stop <name>`; Ok whatever the exit status once spawned |
| MachinesOps.TerminateMachine | src/modules/machines/machines_ops.rs:24-29 | issues `terminate <name>`; Ok whatever the exit status once spawned |
| MachinesOps.KillMachine | src/modules/machines/machines_ops.rs:31-36 | issues `kill <name> --signal <signal>`; Ok whatever the exit status once spawned |
| MachinesOps.RebootMachine | src/modules/machines/machines_ops.rs:38-41 | issues `reboot <name>`; Ok whatever the exit status once spawned |
| MachinesOps.MachineShell | src/modules/machines/machines_ops.rs:43-49 | issues `--quiet shell user@name`; Ok whatever the exit status once spawned |
| MachinesOps.ExecMachine | src/modules/machines/machines_ops.rs:51-66 | issues the exec argv; Ok whatever the exit status once spawned |
| MachinesOps.GetNetworkConfig | src/modules/machines/machines_ops.rs:68-79 | issues `--quiet shell <name> /usr/bin/ip -j a` (no `user@`) and returns the decoded configuration once spawned |
| Process.Machinectl.Spawn | src/modules/images/images_ops.rs:21 | running a command appends exactly its argv to the trace; its status is the oracle's for that position |
| Process.Machinectl.Fetch | src/modules/images/images_ops.rs:27-31 | a GET appends exactly its URL to the fetched list and fails iff the oracle says so |
| Process.SpawnResult | src/modules/images/images_ops.rs:20-23 | Ok iff the command could be started, whatever its exit status |
| Process.StatusResult | src/modules/images/images_ops.rs:39-49 | Ok iff the exit status is success; a failed status gives the operation's message, a failed spawn the spawn error |
| Process.OutputResult | src/modules/images/images_ops.rs:7-18 | once started, the result is the decoded output whatever the exit status; otherwise the spawn error |
| Tables.Table.SetHeader | src/modules/data_format/tables.rs:14-21 | the header becomes the given cells |
| Tables.Table.SetWidth | src/modules/data_format/tables.rs:24-26 | the width becomes the given width |
| Tables.Table.AddRow | src/modules/data_format/tables.rs:29-36 | appends one row at the end |
| Tables.CreateImagesTable | src/modules/data_format/tables.rs:9-40 | the built table is `ImagesView`: the images header, the caller's width if any, one row per image in order |
| Tables.ImageRows | src/modules/data_format/tables.rs:28-37 | one row per image, the i-th being the row of the i-th image |
| Tables.ImagesViewShape | src/modules/data_format/tables.rs:14-37 | six header cells; one six-cell row per image: name, type, `true`/`false`, usage, and the two stamps, each `-` iff the time is under one second |
| Tables.CreateMachinesTable | src/modules/data_format/tables.rs:43-74 | the built table is `MachinesView`: the machines header, the caller's width if any, one row per machine in order |
| Tables.MachineRows | src/modules/data_format/tables.rs:62-71 | one row per machine, in order |
| Tables.MachinesViewShape | src/modules/data_format/tables.rs:62-71 | six header cells; one six-cell row per machine, each cell the field's value or `-` when absent |
| Tables.CreateNetworkConfigsTable | src/modules/data_format/tables.rs:77-113 | the built table is `NetworkView`: the nine-cell header, no width, the rows of every address of every interface |
| Tables.InterfaceRows | src/modules/data_format/tables.rs:97-108 | one row per address of an interface, in order |
| Tables.NetworkRowsCount | src/modules/data_format/tables.rs:96-110 | there are as many rows as addresses over all interfaces, so an interface without addresses adds none |
| Tables.NetworkRowsAppend | src/modules/data_format/tables.rs:96-110 | rows are interface-major: the rows of a concatenation are the rows of each part in order |
| Tables.NetworkRowsSplit | src/modules/data_format/tables.rs:96-110 | the rows of interface i come right after those of the interfaces before it, which number as many as their addresses |
| Tables.NetworkRowsPrefix | src/modules/data_format/tables.rs:96-110 | one more interface adds exactly its rows at the end |
| Tables.NetworkRowsShape | src/modules/data_format/tables.rs:84-108 | nine header cells and nine cells per row, the first being the machine name given; the table has no width |
| Tables.NetworkRowsOrigin | src/modules/data_format/tables.rs:96-108 | every row is the row of one address of one interface, and an absent broadcast is `""`, not `-` |
| ImageStructs.TruncDiv | src/modules/images/structs.rs:26 | Rust division: the quotient rounds toward zero, keeps the sign, and its magnitude is the largest multiple below the dividend's |
| ImageStructs.Seconds | src/modules/images/structs.rs:26 | microseconds divided by 10^6 never grow in magnitude |
| ImageStructs.SecondsZeroIff | src/modules/images/structs.rs:26-29 | the converted value is 0 iff the stored microseconds lie strictly between -10^6 and 10^6 |
| ImageStructs.StampDashIff | src/modules/images/structs.rs:26-33 | the stamp is `-` iff the time is under one second in magnitude (otherwise it is the formatted date) |
| ImageStructs.SecondsTwice | src/modules/images/structs.rs:26 | converting twice divides by 10^12 |
| ImageStructs.SecondsNotIdempotent | src/modules/images/structs.rs:26 | a second conversion changes any nonzero converted value |
| ImageStructs.Image.CreatedToTimestamp | src/modules/images/structs.rs:23-34 | `created` is divided in place, nothing else changes, and the stamp is `-` for 0 or the formatted date |
| ImageStructs.Image.ModifiedToTimestamp | src/modules/images/structs.rs:36-47 | the same for `modified` alone |
| Utils.OptStringEval | src/modules/utilities/utils.rs:3-9 | `Some(v)` gives `v` unchanged, `None` gives `-` |
| Utils.OptStringEvalCollides | src/modules/utilities/utils.rs:3-9 | the mapping is not injective: `Some("-")` and `None` both give `-` |
| Utils.OptStringEvalRecovers | src/modules/utilities/utils.rs:3-9 | any result other than `-` came from `Some` of exactly that text |
| Args.UserOrDefault | src/modules/manager/handler.rs:308 | the given user, or `root` when none is given |
| Invocations.DecodeEncode | src/modules/images/images_ops.rs:20-111 | every well-formed request decodes back from its argv |
| Invocations.EncodeDecode | src/modules/images/images_ops.rs:20-111 | every argv that decodes is exactly the encoding of what it decodes to |
| Invocations.ImageArgvDecode | src/modules/images/images_ops.rs:20-111 | the start, remove, rename, clone, read-only and import argvs decode to the requests they were built for, arguments in order |
| Invocations.MachineArgvDecode | src/modules/machines/machines_ops.rs:19-71 | the stop, terminate, reboot, kill, shell and network argvs decode to their requests; network runs `/usr/bin/ip -j a` as the machine name, with no `user@` |
| Invocations.ExecArgvDecode | src/modules/machines/machines_ops.rs:56-64 | the exec argv decodes to running the binary path plus the first word, as `user@name`, with the remaining words as arguments |
| Invocations.ShellRunDecode | src/modules/machines/machines_ops.rs:61-63 | a shell argv with a program decodes to running that program with its arguments |

## Left out

- Process spawning, the output decoding and the exit codes are not computed: `Process.Machinectl` takes them from oracles. `MACHINECTL`, `OUTPUT_ARGUMENTS` and `BIN_PATH` are defined in src/modules/utilities/mod.rs, which is not part of this model, so the last two are fields of `Machinectl`.
- JSON decoding with serde: listings and network configurations arrive already decoded, and a decoding failure is the oracle's `DecodeFailed`.
- The HTTP GET of `list_remote_images` and the printing of its body: only the URL fetched and whether the request succeeded are modelled.
- Terminal output (`println!`, `success_msg!`, `warn_msg!`, `error_msg!`): its text is not modelled. The dispatcher returns abstract `Report`s instead: one per item attempted, the usage message, "no action specified", or a printed table. Warnings printed before a loop and when skipping a read-only image are not reported.
- Bulk.Perform: the network table of a machine is reported as the decoded interfaces (`Shown`). Its rendering is `Tables.CreateNetworkConfigsTable`/`NetworkView`, proved separately.
- comfy_table rendering (preset, bold header, dynamic arrangement, wrapping to the width): a table is its header, optional width and rows.
- chrono date formatting and `get_usage_in_gb` are function parameters (`formatDate`, `usageInGb`).
- Unicode `to_lowercase` is modelled on ASCII letters only (`Text.Lower`). White space for `split_whitespace` is the Unicode White_Space set.
- clap parsing: subcommands are the datatypes of module `Args`, and the defaults the parser fills in (`SIGTERM`, `https://hub.nspawn.org`) are the default values of the constructors' fields. `images remote list|import` is flattened into `ImageCommand.RemoteList`/`RemoteImport`.
- Panics are results: `server.unwrap()` on an absent server, and `command_vec[0]` on a command with no word, are `Err(Panic)` in the dispatcher.
- MachinesOps.ExecMachine: requires a command with at least one non-white-space token, because the source indexes the first word. The dispatcher never calls it otherwise (see `HandlerRules.ExecWithoutCommandPanics`).
- `i64` overflow is not modelled: values are integers in the `i64` range and the only arithmetic is a division, which cannot overflow.
- src/main.rs (exit-code plumbing) is not part of this model.
