/** The dispatcher's rules, stated about the functions that give each
    command's whole effect: which selection wins, what a command does with
    nothing selected, which items a bulk command acts on, and what one
    failing item changes. */
module HandlerRules {
  import opened Base
  import opened Text
  import opened Records
  import opened Utils
  import opened Process
  import opened ImagesOps
  import opened MachinesOps
  import opened Selection
  import opened Args
  import opened Bulk
  import opened Handler

  // ---------------------------------------------------------------------------
  // Selection

  /** A name wins over `--all`, and `--all` over `--pattern`; with none of
      them the command only prints its usage message. */
  lemma SelectionPrecedence(mc: Machinectl, base: nat, op: Op, src: Source, skipReadOnly: bool, usage: UsageMessage,
                            name: Option<string>, all: bool, pattern: Option<string>)
    ensures name.Some? ==>
      BulkEffect(mc, base, op, Select(name, all, pattern), src, skipReadOnly, usage)
        == BulkEffect(mc, base, op, Named(name.value), src, skipReadOnly, usage)
    ensures name.None? && all ==>
      BulkEffect(mc, base, op, Select(name, all, pattern), src, skipReadOnly, usage)
        == BulkEffect(mc, base, op, Everything, src, skipReadOnly, usage)
    ensures name.None? && !all && pattern.None? ==>
      BulkEffect(mc, base, op, Select(name, all, pattern), src, skipReadOnly, usage) == Effect([], Ok(()), [Usage(usage)])
  {
  }

  /** With a name, exactly one command is issued, for that name, whatever
      the listing would hold (so a read-only image named explicitly is
      removed); its failure is the command's result unless it is a removal. */
  lemma NamedActsOnce(mc: Machinectl, base: nat, op: Op, src: Source, skipReadOnly: bool, usage: UsageMessage, name: string)
    requires Runnable(op)
    ensures var e := BulkEffect(mc, base, op, Named(name), src, skipReadOnly, usage);
      e.issued == [OpArgv(op, name, mc.binPath)]
      && |e.reports| == 1 && e.reports[0].Item? && e.reports[0].target == name
      && (e.result.Err? <==> NamedPropagates(op) && e.reports[0].outcome.Failed?)
  {
  }

  /** When the listing fails, its error is the command's result and nothing
      else is issued. */
  lemma ListingFailureStops(mc: Machinectl, base: nat, op: Op, sel: Selection, src: Source, skipReadOnly: bool, usage: UsageMessage)
    requires sel.Everything? || sel.Matching?
    requires Listing(src, mc, mc.statusOf(base)).Err?
    ensures var e := BulkEffect(mc, base, op, sel, src, skipReadOnly, usage);
      e.issued == [ListArgv(src, mc.outputArgs)] && e.result == Err(Listing(src, mc, mc.statusOf(base)).error)
      && e.reports == []
  {
  }

  /** After a listing that succeeds, the command issues the listing and then
      the operation for each target in listing order, and reports each
      target; a failing item is only reported and the loop goes on, so the
      command itself succeeds. */
  lemma ListedEffect(mc: Machinectl, base: nat, op: Op, sel: Selection, src: Source, skipReadOnly: bool, usage: UsageMessage)
    requires sel.Everything? || sel.Matching?
    requires Runnable(op)
    requires Listing(src, mc, mc.statusOf(base)).Ok?
    ensures var targets := BulkTargets(Listing(src, mc, mc.statusOf(base)).value, sel, skipReadOnly);
      BulkEffect(mc, base, op, sel, src, skipReadOnly, usage)
        == Effect([ListArgv(src, mc.outputArgs)] + Argvs(op, targets, mc.binPath), Ok(()), ItemReports(op, targets, mc, base + 1))
  {
  }

  /** The argument vectors and the reports of a loop over `names`, one by
      one: the k-th vector is the operation on the k-th name, the k-th
      report its outcome, from the command started `start + k`-th. */
  lemma LoopItems(op: Op, names: seq<string>, mc: Machinectl, start: nat)
    requires Runnable(op)
    ensures var argvs := Argvs(op, names, mc.binPath);
      |argvs| == |names| && forall k :: 0 <= k < |names| ==> argvs[k] == OpArgv(op, names[k], mc.binPath)
    ensures var reports := ItemReports(op, names, mc, start);
      |reports| == |names|
      && forall k :: 0 <= k < |names| ==> reports[k] == Item(names[k], OpOutcome(op, mc.statusOf(start + k), names[k], mc))
  {
  }

  /** What is issued never depends on how the individual commands end: two
      worlds that agree on the listing issue the same commands, and outside
      the named case end with the same result. */
  lemma IssuedIgnoresItemStatuses(mc: Machinectl, mc': Machinectl, base: nat, op: Op, sel: Selection, src: Source,
                                  skipReadOnly: bool, usage: UsageMessage)
    requires mc.outputArgs == mc'.outputArgs && mc.binPath == mc'.binPath
    requires mc.imageListing == mc'.imageListing && mc.machineListing == mc'.machineListing
    requires mc.statusOf(base) == mc'.statusOf(base)
    ensures BulkEffect(mc, base, op, sel, src, skipReadOnly, usage).issued
      == BulkEffect(mc', base, op, sel, src, skipReadOnly, usage).issued
    ensures !sel.Named? ==>
      BulkEffect(mc, base, op, sel, src, skipReadOnly, usage).result
        == BulkEffect(mc', base, op, sel, src, skipReadOnly, usage).result
  {
    if sel.Everything? || sel.Matching? {
      assert Listing(src, mc, mc.statusOf(base)) == Listing(src, mc', mc'.statusOf(base));
    }
  }

  // ---------------------------------------------------------------------------
  // Images

  /** Removal among listed images: every removal is of a listed image that
      is not read-only, and every such image the selection takes is
      removed. */
  lemma RemovalArgvs(images: seq<ImageData>, sel: Selection, binPath: string)
    requires sel.Everything? || sel.Matching?
    ensures var argvs := Argvs(RemoveOp, BulkTargets(ImageCandidates(images), sel, true), binPath);
      (forall k :: 0 <= k < |argvs| ==> exists d :: d in images && !d.ro && argvs[k] == RemoveArgv(d.name))
      && forall d :: d in images && !d.ro && (sel.Matching? ==> Matches(d.name, sel.pattern)) ==> RemoveArgv(d.name) in argvs
  {
    var targets := BulkTargets(ImageCandidates(images), sel, true);
    var argvs := Argvs(RemoveOp, targets, binPath);
    RemovalSkipsReadOnly(images, sel);
    forall k | 0 <= k < |argvs| ensures exists d :: d in images && !d.ro && argvs[k] == RemoveArgv(d.name) {
      assert targets[k] in targets;
      var d :| d in images && !d.ro && d.name == targets[k] && (sel.Matching? ==> Matches(d.name, sel.pattern));
      assert argvs[k] == RemoveArgv(d.name);
    }
    assert forall k :: 0 <= k < |argvs| ==> exists d :: d in images && !d.ro && argvs[k] == RemoveArgv(d.name);
    forall d | d in images && !d.ro && (sel.Matching? ==> Matches(d.name, sel.pattern)) ensures RemoveArgv(d.name) in argvs {
      assert d.name in targets;
      var k :| 0 <= k < |targets| && targets[k] == d.name;
      assert argvs[k] == RemoveArgv(d.name);
    }
  }

  /** The same about the whole removal command: after the listing, only
      images that are not read-only are removed, and all selected ones. */
  lemma RemovalTargets(mc: Machinectl, base: nat, sel: Selection)
    requires sel.Everything? || sel.Matching?
    requires mc.statusOf(base).Exited? && mc.imageListing.Ok?
    ensures var e := BulkEffect(mc, base, RemoveOp, sel, LocalImages, true, InvalidImage);
      var images := mc.imageListing.value;
      (forall k :: 1 <= k < |e.issued| ==> exists d :: d in images && !d.ro && e.issued[k] == RemoveArgv(d.name))
      && forall d :: d in images && !d.ro && (sel.Matching? ==> Matches(d.name, sel.pattern)) ==> RemoveArgv(d.name) in e.issued
  {
    var images := mc.imageListing.value;
    assert Listing(LocalImages, mc, mc.statusOf(base)) == Ok(ImageCandidates(images));
    ListedEffect(mc, base, RemoveOp, sel, LocalImages, true, InvalidImage);
    var argvs := Argvs(RemoveOp, BulkTargets(ImageCandidates(images), sel, true), mc.binPath);
    RemovalArgvs(images, sel, mc.binPath);
    var issued := [ListImagesArgv(mc.outputArgs)] + argvs;
    assert forall k :: 1 <= k < |issued| ==> issued[k] == argvs[k - 1];
    assert forall a :: a in argvs ==> a in issued;
  }

  /** `remove --all` or `remove --pattern`, after a successful listing,
      never removes a read-only image, and removes every other image it
      selects. */
  lemma BulkRemovalSkipsReadOnly(mc: Machinectl, base: nat, all: bool, pattern: Option<string>, width: Option<u16>,
                                 usageInGb: ImageData -> string, formatDate: int -> string)
    requires all || pattern.Some?
    requires mc.statusOf(base).Exited? && mc.imageListing.Ok?
    ensures var e := ImagesEffect(mc, base, RemoveImages(all, pattern, None), width, usageInGb, formatDate);
      var images := mc.imageListing.value;
      (forall k :: 1 <= k < |e.issued| ==> exists d :: d in images && !d.ro && e.issued[k] == RemoveArgv(d.name))
      && forall d :: d in images && !d.ro && (!all ==> Matches(d.name, pattern.value)) ==> RemoveArgv(d.name) in e.issued
  {
    var sel := Select(None, all, pattern);
    assert ImagesEffect(mc, base, RemoveImages(all, pattern, None), width, usageInGb, formatDate)
      == BulkEffect(mc, base, RemoveOp, sel, LocalImages, true, InvalidImage);
    assert !all ==> sel == Matching(pattern.value);
    RemovalTargets(mc, base, sel);
  }

  /** A named start fails exactly when machinectl cannot be started; a named
      removal only reports its failure. */
  lemma NamedImageResults(mc: Machinectl, base: nat, all: bool, pattern: Option<string>, name: string,
                          width: Option<u16>, usageInGb: ImageData -> string, formatDate: int -> string)
    ensures ImagesEffect(mc, base, StartImages(all, pattern, Some(name)), width, usageInGb, formatDate).result
      == SpawnResult(mc.statusOf(base))
    ensures var e := ImagesEffect(mc, base, RemoveImages(all, pattern, Some(name)), width, usageInGb, formatDate);
      e.result == Ok(()) && e.issued == [RemoveArgv(name)]
      && e.reports == [Item(name, ResultOutcome(StatusResult(mc.statusOf(base), REMOVE_FAILED)))]
  {
  }

  /** `set`: `--ro` wins over `--rw`, with neither nothing is issued, and a
      failure is only reported. */
  lemma SetRules(mc: Machinectl, base: nat, readOnly: bool, readWrite: bool, name: string,
                 width: Option<u16>, usageInGb: ImageData -> string, formatDate: int -> string)
    ensures var e := ImagesEffect(mc, base, SetImage(readOnly, readWrite, name), width, usageInGb, formatDate);
      e.result == Ok(())
      && (readOnly ==> e.issued == [ReadOnlyArgv(name, true)])
      && (!readOnly && readWrite ==> e.issued == [ReadOnlyArgv(name, false)])
      && (!readOnly && !readWrite ==> e.issued == [] && e.reports == [NoActionSpecified])
  {
  }

  /** The remote listing is fetched from one fixed place on the server, so
      the pattern changes nothing. */
  lemma RemoteListIgnoresPattern(mc: Machinectl, base: nat, pattern: Option<string>, pattern': Option<string>, server: Option<string>,
                                 width: Option<u16>, usageInGb: ImageData -> string, formatDate: int -> string)
    ensures ImagesEffect(mc, base, RemoteList(pattern, server), width, usageInGb, formatDate)
      == ImagesEffect(mc, base, RemoteList(pattern', server), width, usageInGb, formatDate)
    ensures ImagesFetched(RemoteList(pattern, server)) == ImagesFetched(RemoteList(pattern', server))
    ensures server.Some? ==> ImagesFetched(RemoteList(pattern, server)) == [server.value + "/storage/list.txt"]
  {
  }

  /** The image type is the last path segment of the remote name. */
  lemma ImageTypeOfPath(dir: string, imageType: string)
    requires '/' !in imageType
    ensures ImageType(dir + "/" + imageType) == imageType
  {
    LastSegmentAfter(dir, '/', imageType);
  }

  /** An image is downloaded from the directory of its remote name, as the
      file named after its last path segment: `foo/bar` from
      `<server>/storage/foo/bar/image.bar.xz`. */
  lemma ImportUrlOfPath(server: string, dir: string, imageType: string)
    requires '/' !in imageType
    ensures ImportUrl(server, dir + "/" + imageType)
      == server + "/storage/" + dir + "/" + imageType + "/image." + imageType + ".xz"
  {
    ImageTypeOfPath(dir, imageType);
  }

  /** Without `--local-name`, every `/` of the remote name becomes `-`: the
      local name of `dir/type` is that of `dir`, a `-`, and `type`. */
  lemma LocalNameOfPath(dir: string, imageType: string)
    requires '/' !in imageType
    ensures LocalName(dir + "/" + imageType, None) == LocalName(dir, None) + "-" + imageType
  {
    var remote := dir + "/" + imageType;
    var n, d := LocalName(remote, None), LocalName(dir, None);
    var expected := d + "-" + imageType;
    assert |n| == |expected|;
    forall i | 0 <= i < |n| ensures n[i] == expected[i] {
      if i < |dir| {
        assert remote[i] == dir[i];
      } else if i > |dir| {
        assert remote[i] == imageType[i - |dir| - 1];
      }
    }
  }

  /** Importing `dir/raw` or `dir/tar` from the default hub, without
      `--local-name`: one pull command, from the hub's storage directory of
      the remote name, into the remote name with `/` turned into `-`. */
  lemma ImportFromHub(mc: Machinectl, base: nat, dir: string, imageType: string, width: Option<u16>,
                      usageInGb: ImageData -> string, formatDate: int -> string)
    requires imageType == "raw" || imageType == "tar"
    ensures ImagesEffect(mc, base, RemoteImport(dir + "/" + imageType, None), width, usageInGb, formatDate).issued
      == [["pull-" + imageType,
           "https://hub.nspawn.org/storage/" + dir + "/" + imageType + "/image." + imageType + ".xz",
           LocalName(dir, None) + "-" + imageType]]
  {
    var remote := dir + "/" + imageType;
    assert '/' !in imageType;
    ImageTypeOfPath(dir, imageType);
    ImportUrlOfPath(DEFAULT_SERVER, dir, imageType);
    LocalNameOfPath(dir, imageType);
    assert DEFAULT_SERVER + "/storage/" == "https://hub.nspawn.org/storage/";
    var url := ImportUrl(DEFAULT_SERVER, remote);
    assert url == "https://hub.nspawn.org/storage/" + dir + "/" + imageType + "/image." + imageType + ".xz";
    assert ImportArgv(url, ImageType(remote), LocalName(remote, None)).value
      == ["pull-" + imageType, url, LocalName(dir, None) + "-" + imageType];
  }

  // ---------------------------------------------------------------------------
  // Machines

  /** Without `--signal`, `kill` sends `SIGTERM`. */
  lemma KillDefaultSignal(mc: Machinectl, base: nat, name: string, width: Option<u16>)
    ensures MachinesEffect(mc, base, KillMachines(Some(name), false, None), width).issued
      == [["kill", name, "--signal", "SIGTERM"]]
  {
  }

  /** Without `--user`, `shell` and `exec` log in as `root`. */
  lemma DefaultUserIsRoot(mc: Machinectl, base: nat, machine: Option<string>, command: string, all: bool,
                          pattern: Option<string>, width: Option<u16>)
    ensures machine.Some? ==>
      MachinesEffect(mc, base, ShellMachine(machine, None), width).issued == [ShellArgv(machine.value, "root")]
    ensures MachinesEffect(mc, base, ExecMachines(machine, command, all, pattern, None), width)
      == MachinesEffect(mc, base, ExecMachines(machine, command, all, pattern, Some("root")), width)
  {
  }

  /** `exec` with a command of only white space panics as soon as it would
      run it: at once for a name, after the listing when some machine is
      selected; nothing but the listing is ever issued. */
  lemma ExecWithoutCommandPanics(mc: Machinectl, base: nat, machine: Option<string>, command: string, all: bool,
                                 pattern: Option<string>, user: Option<string>, width: Option<u16>)
    requires !HasToken(command)
    ensures var e := MachinesEffect(mc, base, ExecMachines(machine, command, all, pattern, user), width);
      var sel := Select(machine, all, pattern);
      (sel.Named? ==> e == Effect([], Err(Panic), []))
      && ((sel.Everything? || sel.Matching?) && Listing(ActiveMachines, mc, mc.statusOf(base)).Ok? ==>
            e.issued == [ListMachinesArgv(mc.outputArgs)] && e.reports == []
            && (e.result == Err(Panic) <==> BulkTargets(Listing(ActiveMachines, mc, mc.statusOf(base)).value, sel, false) != [])
            && (e.result.Ok? <==> BulkTargets(Listing(ActiveMachines, mc, mc.statusOf(base)).value, sel, false) == []))
  {
  }

  /** `shell` without a machine prints the usage message; otherwise its one
      command's failure to start is the result. */
  lemma ShellRules(mc: Machinectl, base: nat, machine: Option<string>, user: Option<string>, width: Option<u16>)
    ensures var e := MachinesEffect(mc, base, ShellMachine(machine, user), width);
      (machine.None? ==> e == Effect([], Ok(()), [Usage(InvalidMachine)]))
      && (machine.Some? ==> e.result == SpawnResult(mc.statusOf(base)))
  {
  }
}
