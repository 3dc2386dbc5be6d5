/** The dispatcher's per-item machinery: the operations a command can apply
    to a named image or machine, the loop that applies one to every selected
    item of a listing, and what one such command does as a whole (its
    issued argument vectors, its result and what it reports). */
module Bulk {
  import opened Base
  import opened Text
  import opened Records
  import opened Utils
  import opened Process
  import opened ImagesOps
  import opened MachinesOps
  import opened Tables
  import opened Selection

  /** An operation applied to one image or machine by name. */
  datatype Op =
    | StartOp
    | RemoveOp
    | StopOp
    | TerminateOp
    | RebootOp
    | KillOp(signal: string)
    | ExecOp(user: string, command: string)
    | NetworkOp

  /** `exec` with a command of only white space panics before anything is
      started; every other operation can run. */
  predicate Runnable(op: Op) {
    op.ExecOp? ==> HasToken(op.command)
  }

  /** With an explicit name, a failure of `remove` is only reported; every
      other operation hands its failure up with `?`. */
  predicate NamedPropagates(op: Op) {
    !op.RemoveOp?
  }

  function OpArgv(op: Op, name: string, binPath: string): seq<string>
    requires Runnable(op)
  {
    match op
    case StartOp => StartArgv(name)
    case RemoveOp => RemoveArgv(name)
    case StopOp => StopArgv(name)
    case TerminateOp => TerminateArgv(name)
    case RebootOp => RebootArgv(name)
    case KillOp(signal) => KillArgv(name, signal)
    case ExecOp(user, command) => ExecArgv(name, user, command, binPath)
    case NetworkOp => NetworkArgv(name)
  }

  /** How one applied operation ended: done, a failure, or the decoded
      network configuration of the machine, which is printed as the table
      `NetworkView(target, interfaces)` (see `Perform`). */
  datatype Outcome = Done | Shown(interfaces: seq<InterfaceConfig>) | Failed(error: Error)

  function ResultOutcome(r: Result<Unit>): (o: Outcome)
    ensures o == Done <==> r.Ok?
    ensures r.Err? ==> o == Failed(r.error)
  {
    match r
    case Ok(_) => Done
    case Err(e) => Failed(e)
  }

  function OutcomeResult(o: Outcome): (r: Result<Unit>)
    ensures r.Err? <==> o.Failed?
    ensures o.Failed? ==> r.error == o.error
  {
    match o
    case Failed(e) => Err(e)
    case _ => Ok(())
  }

  /** The outcome of applying `op` to `name` when machinectl ends with `s`. */
  function OpOutcome(op: Op, s: Status, name: string, mc: Machinectl): Outcome {
    match op
    case RemoveOp => ResultOutcome(StatusResult(s, REMOVE_FAILED))
    case NetworkOp =>
      (match OutputResult(s, mc.networkOf(name))
       case Ok(ifaces) => Shown(ifaces)
       case Err(e) => Failed(e))
    case _ => ResultOutcome(SpawnResult(s))
  }

  /** What the dispatcher tells the user: the usage message, that `set` was
      given no action, a table, or how the operation on one item ended. */
  datatype Report =
    | Usage(message: UsageMessage)
    | NoActionSpecified
    | Table(view: TableView)
    | Item(target: string, outcome: Outcome)

  /** Apply `op` to one item by name; for `network`, the decoded
      configuration is laid out by `CreateNetworkConfigsTable`, whose view is
      `NetworkView(name, interfaces)`. */
  method Perform(mc: Machinectl, op: Op, name: string) returns (o: Outcome)
    requires Runnable(op)
    modifies mc`trace
    ensures mc.trace == old(mc.trace) + [OpArgv(op, name, mc.binPath)]
    ensures o == OpOutcome(op, mc.statusOf(|old(mc.trace)|), name, mc)
  {
    var r: Result<Unit>;
    match op {
      case StartOp => r := StartImage(mc, name);
      case RemoveOp => r := RemoveImage(mc, name);
      case StopOp => r := StopMachine(mc, name);
      case TerminateOp => r := TerminateMachine(mc, name);
      case RebootOp => r := RebootMachine(mc, name);
      case KillOp(signal) => r := KillMachine(mc, name, signal);
      case ExecOp(user, command) => r := ExecMachine(mc, name, user, command);
      case NetworkOp =>
        var ifaces := GetNetworkConfig(mc, name);
        if ifaces.Ok? {
          var t := CreateNetworkConfigsTable(name, ifaces.value);
          o := Shown(ifaces.value);
        } else {
          o := Failed(ifaces.error);
        }
        return;
    }
    o := ResultOutcome(r);
  }

  /** The argument vectors of applying `op` to each name in turn. */
  function Argvs(op: Op, names: seq<string>, binPath: string): (argvs: seq<seq<string>>)
    requires Runnable(op)
    ensures |argvs| == |names|
  {
    seq(|names|, j requires 0 <= j < |names| => OpArgv(op, names[j], binPath))
  }

  /** One report per name, the j-th for the command started `start + j`-th. */
  function ItemReports(op: Op, names: seq<string>, mc: Machinectl, start: nat): (reports: seq<Report>)
    ensures |reports| == |names|
  {
    seq(|names|, j requires 0 <= j < |names| => Item(names[j], OpOutcome(op, mc.statusOf(start + j), names[j], mc)))
  }

  lemma ArgvsSnoc(op: Op, names: seq<string>, name: string, binPath: string)
    requires Runnable(op)
    ensures Argvs(op, names + [name], binPath) == Argvs(op, names, binPath) + [OpArgv(op, name, binPath)]
  {
    var longer, shorter := Argvs(op, names + [name], binPath), Argvs(op, names, binPath);
    forall j | 0 <= j < |names| ensures longer[j] == shorter[j] {
      assert (names + [name])[j] == names[j];
    }
  }

  lemma ItemReportsSnoc(op: Op, names: seq<string>, name: string, mc: Machinectl, start: nat)
    ensures ItemReports(op, names + [name], mc, start)
      == ItemReports(op, names, mc, start) + [Item(name, OpOutcome(op, mc.statusOf(start + |names|), name, mc))]
  {
  }

  /** One more attempt extends both the trace and the reports by one. */
  lemma StepSnoc(op: Op, done: seq<string>, name: string, mc: Machinectl, before: seq<seq<string>>, o: Outcome)
    requires Runnable(op)
    requires o == OpOutcome(op, mc.statusOf(|before| + |done|), name, mc)
    ensures (before + Argvs(op, done, mc.binPath)) + [OpArgv(op, name, mc.binPath)]
      == before + Argvs(op, done + [name], mc.binPath)
    ensures ItemReports(op, done, mc, |before|) + [Item(name, o)] == ItemReports(op, done + [name], mc, |before|)
  {
    ArgvsSnoc(op, done, name, mc.binPath);
    AppendAssoc(before, Argvs(op, done, mc.binPath), [OpArgv(op, name, mc.binPath)]);
    ItemReportsSnoc(op, done, name, mc, |before|);
  }

  /** One turn of a bulk loop: a chosen candidate gets one attempt and one
      report, any other candidate nothing. */
  method EachStep(mc: Machinectl, op: Op, c: Candidate, pattern: Option<string>, skipReadOnly: bool,
                  ghost before: seq<seq<string>>, ghost done: seq<string>, reports: seq<Report>)
    returns (reports': seq<Report>)
    requires Runnable(op)
    requires mc.trace == before + Argvs(op, done, mc.binPath)
    requires reports == ItemReports(op, done, mc, |before|)
    modifies mc`trace
    ensures var done' := done + (if Chosen(c, pattern, skipReadOnly) then [c.name] else []);
      mc.trace == before + Argvs(op, done', mc.binPath) && reports' == ItemReports(op, done', mc, |before|)
  {
    if Chosen(c, pattern, skipReadOnly) {
      assert |mc.trace| == |before| + |done|;
      var o := Perform(mc, op, c.name);
      reports' := reports + [Item(c.name, o)];
      StepSnoc(op, done, c.name, mc, before, o);
    } else {
      assert done + [] == done;
      reports' := reports;
    }
  }

  /** The `for_each` loop of a bulk command: every chosen candidate, in
      listing order, gets exactly one attempt, and a failure is reported
      without ending the loop. */
  method RunEach(mc: Machinectl, op: Op, cs: seq<Candidate>, pattern: Option<string>, skipReadOnly: bool)
    returns (reports: seq<Report>)
    requires Runnable(op)
    modifies mc`trace
    ensures mc.trace == old(mc.trace) + Argvs(op, TargetNames(cs, pattern, skipReadOnly), mc.binPath)
    ensures reports == ItemReports(op, TargetNames(cs, pattern, skipReadOnly), mc, |old(mc.trace)|)
  {
    reports := [];
    ghost var before := mc.trace;
    for i := 0 to |cs|
      invariant mc.trace == before + Argvs(op, TargetNames(cs[..i], pattern, skipReadOnly), mc.binPath)
      invariant reports == ItemReports(op, TargetNames(cs[..i], pattern, skipReadOnly), mc, |before|)
    {
      assert cs[..i + 1] == cs[..i] + [cs[i]];
      TargetNamesSnoc(cs[..i], cs[i], pattern, skipReadOnly);
      reports := EachStep(mc, op, cs[i], pattern, skipReadOnly, before, TargetNames(cs[..i], pattern, skipReadOnly), reports);
    }
    assert cs[..|cs|] == cs;
  }

  /** Where a bulk command takes its candidates from. */
  datatype Source = LocalImages | ActiveMachines

  function ListArgv(src: Source, outputArgs: seq<string>): seq<string> {
    match src
    case LocalImages => ListImagesArgv(outputArgs)
    case ActiveMachines => ListMachinesArgv(outputArgs)
  }

  /** The candidates a listing yields when machinectl ends with `s`:
      images by name and read-only flag, machines by name or `"-"`. */
  function Listing(src: Source, mc: Machinectl, s: Status): (r: Result<seq<Candidate>>)
    ensures src.LocalImages? ==> r.Ok? == OutputResult(s, mc.imageListing).Ok?
    ensures src.ActiveMachines? ==> r.Ok? == OutputResult(s, mc.machineListing).Ok?
  {
    match src
    case LocalImages =>
      (match OutputResult(s, mc.imageListing)
       case Ok(images) => Ok(ImageCandidates(images))
       case Err(e) => Err(e))
    case ActiveMachines =>
      (match OutputResult(s, mc.machineListing)
       case Ok(machines) => Ok(MachineCandidates(machines))
       case Err(e) => Err(e))
  }

  method ListCandidates(mc: Machinectl, src: Source) returns (r: Result<seq<Candidate>>)
    modifies mc`trace
    ensures mc.trace == old(mc.trace) + [ListArgv(src, mc.outputArgs)]
    ensures r == Listing(src, mc, mc.statusOf(|old(mc.trace)|))
  {
    match src {
      case LocalImages =>
        var images := ListLocalImages(mc);
        r := if images.Ok? then Ok(ImageCandidates(images.value)) else Err(images.error);
      case ActiveMachines =>
        var machines := ListActiveMachines(mc);
        r := if machines.Ok? then Ok(MachineCandidates(machines.value)) else Err(machines.error);
    }
  }

  /** What one command does: the argument vectors it hands to machinectl in
      order, its result, and what it reports. */
  datatype Effect = Effect(issued: seq<seq<string>>, result: Result<Unit>, reports: seq<Report>)

  /** A command that applies `op` by name, to everything listed, or to the
      listed items matching a pattern (read-only images skipped when
      `skipReadOnly`), or that prints `usage` when nothing was selected;
      `base` is the position in the trace of its first command. */
  function BulkEffect(mc: Machinectl, base: nat, op: Op, sel: Selection, src: Source, skipReadOnly: bool, usage: UsageMessage): Effect {
    match sel
    case Unspecified => Effect([], Ok(()), [Usage(usage)])
    case Named(n) =>
      if !Runnable(op) then Effect([], Err(Panic), [])
      else
        var o := OpOutcome(op, mc.statusOf(base), n, mc);
        Effect([OpArgv(op, n, mc.binPath)], if NamedPropagates(op) then OutcomeResult(o) else Ok(()), [Item(n, o)])
    case _ =>
      var listArgv := ListArgv(src, mc.outputArgs);
      match Listing(src, mc, mc.statusOf(base))
      case Err(e) => Effect([listArgv], Err(e), [])
      case Ok(cs) =>
        var targets := BulkTargets(cs, sel, skipReadOnly);
        if !Runnable(op) then Effect([listArgv], if targets == [] then Ok(()) else Err(Panic), [])
        else Effect([listArgv] + Argvs(op, targets, mc.binPath), Ok(()), ItemReports(op, targets, mc, base + 1))
  }

  /** The branch of a bulk command that lists candidates first. */
  method BulkListed(mc: Machinectl, op: Op, sel: Selection, src: Source, skipReadOnly: bool)
    returns (r: Result<Unit>, reports: seq<Report>)
    requires sel.Everything? || sel.Matching?
    modifies mc`trace
    ensures var listArgv := ListArgv(src, mc.outputArgs);
      match Listing(src, mc, mc.statusOf(|old(mc.trace)|))
      case Err(e) => mc.trace == old(mc.trace) + [listArgv] && r == Err(e) && reports == []
      case Ok(cs) =>
        var targets := BulkTargets(cs, sel, skipReadOnly);
        if !Runnable(op) then
          mc.trace == old(mc.trace) + [listArgv] && r == (if targets == [] then Ok(()) else Err(Panic)) && reports == []
        else
          mc.trace == old(mc.trace) + ([listArgv] + Argvs(op, targets, mc.binPath))
          && r == Ok(()) && reports == ItemReports(op, targets, mc, |old(mc.trace)| + 1)
  {
    ghost var before := mc.trace;
    var listing := ListCandidates(mc, src);
    if listing.Err? {
      return Err(listing.error), [];
    }
    var pattern := if sel.Matching? then Some(sel.pattern) else None;
    ghost var targets := TargetNames(listing.value, pattern, skipReadOnly);
    assert targets == BulkTargets(listing.value, sel, skipReadOnly);
    if !Runnable(op) {
      r := if TargetNames(listing.value, pattern, skipReadOnly) == [] then Ok(()) else Err(Panic);
      return r, [];
    }
    reports := RunEach(mc, op, listing.value, pattern, skipReadOnly);
    AppendAssoc(before, [ListArgv(src, mc.outputArgs)], Argvs(op, targets, mc.binPath));
    r := Ok(());
  }

  /** One bulk-capable branch of the dispatcher. */
  method BulkRun(mc: Machinectl, op: Op, sel: Selection, src: Source, skipReadOnly: bool, usage: UsageMessage)
    returns (r: Result<Unit>, reports: seq<Report>)
    modifies mc`trace
    ensures var e := BulkEffect(mc, |old(mc.trace)|, op, sel, src, skipReadOnly, usage);
      mc.trace == old(mc.trace) + e.issued && r == e.result && reports == e.reports
  {
    if sel.Unspecified? {
      return Ok(()), [Usage(usage)];
    }
    if sel.Named? {
      if !Runnable(op) {
        return Err(Panic), [];
      }
      var o := Perform(mc, op, sel.name);
      r := if NamedPropagates(op) then OutcomeResult(o) else Ok(());
      reports := [Item(sel.name, o)];
      return;
    }
    r, reports := BulkListed(mc, op, sel, src, skipReadOnly);
  }
}
