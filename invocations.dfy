/** What a machinectl argument vector asks for.  `Decode` reads an argument
    vector back into the request it encodes, and `Encode` writes a request
    out; the two are inverse on every vector `Decode` accepts, and every
    argument-vector builder of the operations decodes to the request it is
    meant to make.  This is the reference the builders are checked against. */
module Invocations {
  import opened Base
  import opened Text
  import opened ImagesOps
  import opened MachinesOps

  datatype Invocation =
    | Start(name: string)
    | Remove(name: string)
    | Rename(oldName: string, newName: string)
    | Clone(oldName: string, newName: string)
    | Pull(imageType: string, url: string, localName: string)
    | ReadOnly(name: string, value: bool)
    | Stop(name: string)
    | Terminate(name: string)
    | Reboot(name: string)
    | Kill(name: string, signal: string)
    | Shell(login: string)
    | ShellRun(login: string, program: string, args: seq<string>)

  /** A request `Encode` can write: pulls exist only for the two types. */
  predicate WellFormed(inv: Invocation) {
    inv.Pull? ==> inv.imageType == "raw" || inv.imageType == "tar"
  }

  function Encode(inv: Invocation): seq<string> {
    match inv
    case Start(n) => ["start", n]
    case Remove(n) => ["remove", n]
    case Rename(o, n) => ["rename", o, n]
    case Clone(o, n) => ["clone", o, n]
    case Pull(t, url, n) => ["pull-" + t, url, n]
    case ReadOnly(n, v) => ["read-only", n, BoolText(v)]
    case Stop(n) => ["stop", n]
    case Terminate(n) => ["terminate", n]
    case Reboot(n) => ["reboot", n]
    case Kill(n, s) => ["kill", n, "--signal", s]
    case Shell(login) => ["--quiet", "shell", login]
    case ShellRun(login, program, args) => ["--quiet", "shell", login, program] + args
  }

  /** The request an argument vector makes, or `None` for a vector none of
      the operations builds. */
  function Decode(argv: seq<string>): (r: Option<Invocation>)
    ensures r.Some? ==> WellFormed(r.value)
  {
    if |argv| == 2 && argv[0] == "start" then Some(Start(argv[1]))
    else if |argv| == 2 && argv[0] == "remove" then Some(Remove(argv[1]))
    else if |argv| == 3 && argv[0] == "rename" then Some(Rename(argv[1], argv[2]))
    else if |argv| == 3 && argv[0] == "clone" then Some(Clone(argv[1], argv[2]))
    else if |argv| == 3 && argv[0] == "pull-raw" then Some(Pull("raw", argv[1], argv[2]))
    else if |argv| == 3 && argv[0] == "pull-tar" then Some(Pull("tar", argv[1], argv[2]))
    else if |argv| == 3 && argv[0] == "read-only" && argv[2] == "true" then Some(ReadOnly(argv[1], true))
    else if |argv| == 3 && argv[0] == "read-only" && argv[2] == "false" then Some(ReadOnly(argv[1], false))
    else if |argv| == 2 && argv[0] == "stop" then Some(Stop(argv[1]))
    else if |argv| == 2 && argv[0] == "terminate" then Some(Terminate(argv[1]))
    else if |argv| == 2 && argv[0] == "reboot" then Some(Reboot(argv[1]))
    else if |argv| == 4 && argv[0] == "kill" && argv[2] == "--signal" then Some(Kill(argv[1], argv[3]))
    else if |argv| == 3 && argv[0] == "--quiet" && argv[1] == "shell" then Some(Shell(argv[2]))
    else if |argv| >= 4 && argv[0] == "--quiet" && argv[1] == "shell" then Some(ShellRun(argv[2], argv[3], argv[4..]))
    else None
  }

  /** Reading back what was written gives the request again. */
  lemma DecodeEncode(inv: Invocation)
    requires WellFormed(inv)
    ensures Decode(Encode(inv)) == Some(inv)
  {
    match inv
    case Pull(t, url, n) =>
      if t == "raw" {
        assert "pull-" + t == "pull-raw";
      } else {
        assert "pull-" + t == "pull-tar";
      }
    case ShellRun(login, program, args) =>
      var argv := Encode(inv);
      assert argv[..4] == ["--quiet", "shell", login, program] && argv[4..] == args;
    case _ =>
  }

  /** Writing out what was read gives the vector again: a vector decodes to
      at most one request, and distinct requests are distinct vectors. */
  lemma EncodeDecode(argv: seq<string>)
    requires Decode(argv).Some?
    ensures Encode(Decode(argv).value) == argv
  {
    var inv := Decode(argv).value;
    match inv
    case Pull(t, url, n) =>
      assert argv[0] == "pull-" + t;
    case ReadOnly(n, v) =>
      assert argv[2] == BoolText(v);
    case ShellRun(login, program, args) =>
      assert argv == argv[..4] + argv[4..];
    case _ =>
  }

  /** Each builder of the image operations makes the request it is named
      after. */
  lemma ImageArgvDecode(name: string, newName: string, value: bool, url: string, imageType: string)
    ensures Decode(StartArgv(name)) == Some(Start(name))
    ensures Decode(RemoveArgv(name)) == Some(Remove(name))
    ensures Decode(RenameArgv(name, newName)) == Some(Rename(name, newName))
    ensures Decode(CloneArgv(name, newName)) == Some(Clone(name, newName))
    ensures Decode(ReadOnlyArgv(name, value)) == Some(ReadOnly(name, value))
    ensures ImportArgv(url, imageType, name).Ok? ==>
      Decode(ImportArgv(url, imageType, name).value) == Some(Pull(imageType, url, name))
  {
    DecodeEncode(ReadOnly(name, value));
    if ImportArgv(url, imageType, name).Ok? {
      DecodeEncode(Pull(imageType, url, name));
    }
  }

  /** Each builder of the machine operations makes the request it is named
      after; the network query runs `ip -j a` through a shell logged in as
      the bare machine name. */
  lemma MachineArgvDecode(name: string, user: string, signal: string)
    ensures Decode(StopArgv(name)) == Some(Stop(name))
    ensures Decode(TerminateArgv(name)) == Some(Terminate(name))
    ensures Decode(RebootArgv(name)) == Some(Reboot(name))
    ensures Decode(KillArgv(name, signal)) == Some(Kill(name, signal))
    ensures Decode(ShellArgv(name, user)) == Some(Shell(user + "@" + name))
    ensures Decode(NetworkArgv(name)) == Some(ShellRun(name, "/usr/bin/ip", ["-j", "a"]))
  {
    DecodeEncode(ShellRun(name, "/usr/bin/ip", ["-j", "a"]));
  }

  /** `exec` runs, through a shell logged in as `user@name`, the first word
      of the command prefixed with the installation path, with the other
      words as arguments. */
  lemma ExecArgvDecode(name: string, user: string, command: string, binPath: string)
    requires HasToken(command)
    ensures var words := SplitWhitespace(command);
      words != [] &&
      Decode(ExecArgv(name, user, command, binPath)) == Some(ShellRun(user + "@" + name, binPath + words[0], words[1..]))
  {
    var words := SplitWhitespace(command);
    SplitWhitespaceNonEmpty(command);
    ShellRunDecode(Login(user, name), binPath + words[0], words[1..]);
  }

  /** Any program run through a shell decodes to that program run. */
  lemma ShellRunDecode(login: string, program: string, args: seq<string>)
    ensures Decode(["--quiet", "shell", login] + ([program] + args)) == Some(ShellRun(login, program, args))
  {
    assert ["--quiet", "shell", login] + ([program] + args) == Encode(ShellRun(login, program, args));
    DecodeEncode(ShellRun(login, program, args));
  }
}
