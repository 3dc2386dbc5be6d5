/** The machine operations: each builds one machinectl argument vector and
    starts machinectl with it.  Only a failure to start machinectl is an
    error; the exit status is not looked at. */
module MachinesOps {
  import opened Base
  import opened Records
  import opened Text
  import opened Process

  const IP_PROGRAM: string := "/usr/bin/ip"

  function ListMachinesArgv(outputArgs: seq<string>): seq<string> {
    outputArgs
  }

  function StopArgv(name: string): seq<string> {
    ["stop", name]
  }

  function TerminateArgv(name: string): seq<string> {
    ["terminate", name]
  }

  function RebootArgv(name: string): seq<string> {
    ["reboot", name]
  }

  function KillArgv(name: string, signal: string): seq<string> {
    ["kill", name, "--signal", signal]
  }

  /** `format!("{user}@{name}")`. */
  function Login(user: string, name: string): string {
    user + "@" + name
  }

  function ShellArgv(name: string, user: string): seq<string> {
    ["--quiet", "shell", Login(user, name)]
  }

  /** The exec command: log in as `user@name` and run the first word of the
      command, prefixed with the installation path, with the remaining words
      as its arguments.  The source indexes the first word unconditionally,
      so a command of only white space is excluded. */
  function ExecArgv(name: string, user: string, command: string, binPath: string): (argv: seq<string>)
    requires HasToken(command)
    ensures var words := SplitWhitespace(command);
      words != [] && argv == ShellArgv(name, user) + ([binPath + words[0]] + words[1..])
  {
    SplitWhitespaceNonEmpty(command);
    var words := SplitWhitespace(command);
    ShellArgv(name, user) + ([binPath + words[0]] + words[1..])
  }

  /** The network query runs `ip -j a` as the machine's name itself, with no
      `user@` part. */
  function NetworkArgv(name: string): seq<string> {
    ["--quiet", "shell", name, IP_PROGRAM, "-j", "a"]
  }

  /** Prefixing the first word of a word list prefixes its concatenation. */
  lemma ConcatPrefixFirst(prefix: string, words: seq<string>)
    requires words != []
    ensures Concat([prefix + words[0]] + words[1..]) == prefix + Concat(words)
  {
    var ws := [prefix + words[0]] + words[1..];
    var rest := Concat(words[1..]);
    assert ws[0] == prefix + words[0] && ws[1..] == words[1..];
    calc {
      Concat(ws);
      ws[0] + Concat(ws[1..]);
      (prefix + words[0]) + rest;
      { AppendAssoc(prefix, words[0], rest); }
      prefix + (words[0] + rest);
      prefix + Concat(words);
    }
  }

  /** `exec` logs in exactly as `shell` does, and what it sends after the
      login is the installation path followed by exactly the command's
      non-white-space characters. */
  lemma ExecArgvText(name: string, user: string, command: string, binPath: string)
    requires HasToken(command)
    ensures var argv := ExecArgv(name, user, command, binPath);
      |argv| >= 4 && argv[..3] == ShellArgv(name, user)
      && Concat(argv[3..]) == binPath + NonWhitespace(command)
  {
    var words := SplitWhitespace(command);
    var tail := [binPath + words[0]] + words[1..];
    SliceJoin(ShellArgv(name, user), tail);
    ConcatPrefixFirst(binPath, words);
  }

  lemma SliceJoin<T>(head: seq<T>, tail: seq<T>)
    ensures (head + tail)[..|head|] == head && (head + tail)[|head|..] == tail
  {
  }

  /** Every argument after the program is a word free of white space, so an
      argument containing a space cannot be passed through `exec`. */
  lemma ExecArgvWords(name: string, user: string, command: string, binPath: string)
    requires HasToken(command)
    ensures var argv := ExecArgv(name, user, command, binPath);
      |argv| >= 4 && forall k :: 4 <= k < |argv| ==> IsWord(argv[k])
  {
    var argv := ExecArgv(name, user, command, binPath);
    var words := SplitWhitespace(command);
    forall k | 4 <= k < |argv| ensures IsWord(argv[k]) {
      assert argv[k] == words[k - 3];
    }
  }

  /** A command written as words separated by white space runs its first
      word, under the installation path, with exactly the other words as
      arguments. */
  lemma ExecArgvLayout(name: string, user: string, words: seq<string>, gaps: seq<string>, trail: string,
                       binPath: string)
    requires WellSpaced(words, gaps, trail) && words != []
    ensures HasToken(Layout(words, gaps, trail))
    ensures ExecArgv(name, user, Layout(words, gaps, trail), binPath)
      == ShellArgv(name, user) + ([binPath + words[0]] + words[1..])
  {
    var command := Layout(words, gaps, trail);
    SplitWhitespaceLayout(words, gaps, trail);
    SplitWhitespaceNonEmpty(command);
  }

  /** `list_active_machines`. */
  method ListActiveMachines(mc: Machinectl) returns (r: Result<seq<Machine>>)
    modifies mc`trace
    ensures mc.trace == old(mc.trace) + [ListMachinesArgv(mc.outputArgs)]
    ensures r == OutputResult(mc.statusOf(|old(mc.trace)|), mc.machineListing)
  {
    var s := mc.Spawn(ListMachinesArgv(mc.outputArgs));
    r := OutputResult(s, mc.machineListing);
  }

  /** `stop_machine`. */
  method StopMachine(mc: Machinectl, name: string) returns (r: Result<Unit>)
    modifies mc`trace
    ensures mc.trace == old(mc.trace) + [StopArgv(name)]
    ensures r == SpawnResult(mc.statusOf(|old(mc.trace)|))
  {
    var s := mc.Spawn(StopArgv(name));
    r := SpawnResult(s);
  }

  /** `terminate_machine`. */
  method TerminateMachine(mc: Machinectl, name: string) returns (r: Result<Unit>)
    modifies mc`trace
    ensures mc.trace == old(mc.trace) + [TerminateArgv(name)]
    ensures r == SpawnResult(mc.statusOf(|old(mc.trace)|))
  {
    var s := mc.Spawn(TerminateArgv(name));
    r := SpawnResult(s);
  }

  /** `kill_machine`. */
  method KillMachine(mc: Machinectl, name: string, signal: string) returns (r: Result<Unit>)
    modifies mc`trace
    ensures mc.trace == old(mc.trace) + [KillArgv(name, signal)]
    ensures r == SpawnResult(mc.statusOf(|old(mc.trace)|))
  {
    var s := mc.Spawn(KillArgv(name, signal));
    r := SpawnResult(s);
  }

  /** `reboot_machine`. */
  method RebootMachine(mc: Machinectl, name: string) returns (r: Result<Unit>)
    modifies mc`trace
    ensures mc.trace == old(mc.trace) + [RebootArgv(name)]
    ensures r == SpawnResult(mc.statusOf(|old(mc.trace)|))
  {
    var s := mc.Spawn(RebootArgv(name));
    r := SpawnResult(s);
  }

  /** `machine_shell`. */
  method MachineShell(mc: Machinectl, name: string, user: string) returns (r: Result<Unit>)
    modifies mc`trace
    ensures mc.trace == old(mc.trace) + [ShellArgv(name, user)]
    ensures r == SpawnResult(mc.statusOf(|old(mc.trace)|))
  {
    var s := mc.Spawn(ShellArgv(name, user));
    r := SpawnResult(s);
  }

  /** `exec_machine`. */
  method ExecMachine(mc: Machinectl, name: string, user: string, command: string) returns (r: Result<Unit>)
    requires HasToken(command)
    modifies mc`trace
    ensures mc.trace == old(mc.trace) + [ExecArgv(name, user, command, mc.binPath)]
    ensures r == SpawnResult(mc.statusOf(|old(mc.trace)|))
  {
    var s := mc.Spawn(ExecArgv(name, user, command, mc.binPath));
    r := SpawnResult(s);
  }

  /** `get_network_config`. */
  method GetNetworkConfig(mc: Machinectl, name: string) returns (r: Result<seq<InterfaceConfig>>)
    modifies mc`trace
    ensures mc.trace == old(mc.trace) + [NetworkArgv(name)]
    ensures r == OutputResult(mc.statusOf(|old(mc.trace)|), mc.networkOf(name))
  {
    var s := mc.Spawn(NetworkArgv(name));
    r := OutputResult(s, mc.networkOf(name));
  }
}
