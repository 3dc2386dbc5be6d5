/** How the dispatcher chooses what to act on: which of a name, `--all` and
    `--pattern` wins, which listed items a pattern or a listing filter keeps,
    and which names a bulk command is issued for. */
module Selection {
  import opened Base
  import opened Text
  import opened Records
  import opened Utils

  /** What a bulk command acts on. */
  datatype Selection = Named(name: string) | Everything | Matching(pattern: string) | Unspecified

  /** The branch order of every bulk command: an explicit name first, then
      `--all`, then `--pattern`; with none of them nothing is selected. */
  function Select(name: Option<string>, all: bool, pattern: Option<string>): (s: Selection)
    ensures name.Some? ==> s == Named(name.value)
    ensures name.None? && all ==> s == Everything
    ensures name.None? && !all && pattern.Some? ==> s == Matching(pattern.value)
    ensures s == Unspecified <==> name.None? && !all && pattern.None?
  {
    if name.Some? then Named(name.value)
    else if all then Everything
    else if pattern.Some? then Matching(pattern.value)
    else Unspecified
  }

  /** `into_iter().filter(keep).collect()`: the items `keep` accepts, in their
      order. */
  function Filter<T(!new)>(xs: seq<T>, keep: T -> bool): (ys: seq<T>)
    ensures |ys| <= |xs|
    ensures forall y :: y in ys ==> keep(y)
  {
    if xs == [] then []
    else Filter(xs[..|xs| - 1], keep) + (if keep(xs[|xs| - 1]) then [xs[|xs| - 1]] else [])
  }

  /** The filter keeps each accepted item exactly as often as it occurs,
      and drops every other item. */
  lemma {:induction false} FilterCount<T(!new)>(xs: seq<T>, keep: T -> bool)
    ensures forall x :: multiset(Filter(xs, keep))[x] == if keep(x) then multiset(xs)[x] else 0
  {
    if xs != [] {
      var init, last := xs[..|xs| - 1], xs[|xs| - 1];
      assert xs == init + [last];
      FilterCount(init, keep);
      assert multiset(xs) == multiset(init) + multiset{last};
    }
  }

  /** Filtering a concatenation filters each part in turn, so the items
      kept keep their relative order. */
  lemma {:induction false} FilterAppend<T(!new)>(xs: seq<T>, zs: seq<T>, keep: T -> bool)
    ensures Filter(xs + zs, keep) == Filter(xs, keep) + Filter(zs, keep)
    decreases |zs|
  {
    if zs == [] {
      assert xs + zs == xs;
    } else {
      var init, last := zs[..|zs| - 1], zs[|zs| - 1];
      var all := xs + zs;
      assert all[..|all| - 1] == xs + init && all[|all| - 1] == last;
      FilterAppend(xs, init, keep);
      var tail := if keep(last) then [last] else [];
      calc {
        Filter(all, keep);
        Filter(xs + init, keep) + tail;
        (Filter(xs, keep) + Filter(init, keep)) + tail;
        Filter(xs, keep) + (Filter(init, keep) + tail);
      }
    }
  }

  /** A filter that keeps everything leaves the listing as it is. */
  lemma {:induction false} FilterKeepsAll<T(!new)>(xs: seq<T>, keep: T -> bool)
    requires forall x :: x in xs ==> keep(x)
    ensures Filter(xs, keep) == xs
  {
    if xs != [] {
      var init := xs[..|xs| - 1];
      assert xs == init + [xs[|xs| - 1]];
      assert forall x :: x in init ==> x in xs;
      FilterKeepsAll(init, keep);
    }
  }

  /** The name a listed machine is addressed and matched by: its name, or
      `"-"` when it has none. */
  function MachineName(m: Machine): string {
    OptStringEval(m.machine)
  }

  /** One item a bulk loop visits: the name it is addressed by, and whether
      it is a read-only image. */
  datatype Candidate = Candidate(name: string, readOnly: bool)

  function ImageCandidate(d: ImageData): Candidate {
    Candidate(d.name, d.ro)
  }

  function MachineCandidate(m: Machine): Candidate {
    Candidate(MachineName(m), false)
  }

  function ImageCandidates(images: seq<ImageData>): (cs: seq<Candidate>)
    ensures |cs| == |images|
    ensures forall i :: 0 <= i < |images| ==> cs[i] == ImageCandidate(images[i])
  {
    seq(|images|, i requires 0 <= i < |images| => ImageCandidate(images[i]))
  }

  function MachineCandidates(machines: seq<Machine>): (cs: seq<Candidate>)
    ensures |cs| == |machines|
    ensures forall i :: 0 <= i < |machines| ==> cs[i] == MachineCandidate(machines[i])
  {
    seq(|machines|, i requires 0 <= i < |machines| => MachineCandidate(machines[i]))
  }

  function Names(cs: seq<Candidate>): (ns: seq<string>)
    ensures |ns| == |cs|
    ensures forall i :: 0 <= i < |cs| ==> ns[i] == cs[i].name
  {
    seq(|cs|, i requires 0 <= i < |cs| => cs[i].name)
  }

  /** Whether a bulk loop acts on a candidate: read-only images are skipped
      first when `skipReadOnly` is set, then a pattern, if any, must match. */
  predicate Chosen(c: Candidate, pattern: Option<string>, skipReadOnly: bool) {
    !(skipReadOnly && c.readOnly) && (pattern.None? || Matches(c.name, pattern.value))
  }

  function ChosenBy(pattern: Option<string>, skipReadOnly: bool): Candidate -> bool {
    c => Chosen(c, pattern, skipReadOnly)
  }

  /** The names a bulk loop issues its operation for, in listing order. */
  function TargetNames(cs: seq<Candidate>, pattern: Option<string>, skipReadOnly: bool): seq<string> {
    Names(Filter(cs, ChosenBy(pattern, skipReadOnly)))
  }

  /** The targets of a non-empty selection made among listed candidates. */
  function BulkTargets(cs: seq<Candidate>, sel: Selection, skipReadOnly: bool): seq<string>
    requires sel.Everything? || sel.Matching?
  {
    TargetNames(cs, if sel.Matching? then Some(sel.pattern) else None, skipReadOnly)
  }

  /** Visiting one more candidate adds its name to the targets exactly when
      it is chosen. */
  lemma TargetNamesSnoc(cs: seq<Candidate>, c: Candidate, pattern: Option<string>, skipReadOnly: bool)
    ensures TargetNames(cs + [c], pattern, skipReadOnly)
      == TargetNames(cs, pattern, skipReadOnly) + (if Chosen(c, pattern, skipReadOnly) then [c.name] else [])
  {
    var keep := ChosenBy(pattern, skipReadOnly);
    assert (cs + [c])[..|cs + [c]| - 1] == cs;
    var kept := Filter(cs, keep) + (if keep(c) then [c] else []);
    assert Filter(cs + [c], keep) == kept;
    assert Names(kept) == Names(Filter(cs, keep)) + (if keep(c) then [c.name] else []);
  }

  /** A target name belongs to a listed candidate that was chosen, and every
      chosen candidate's name is a target: in pattern mode, exactly the
      items whose lowercased name contains the lowercased pattern. */
  lemma TargetNamesMembers(cs: seq<Candidate>, pattern: Option<string>, skipReadOnly: bool)
    ensures forall n :: n in TargetNames(cs, pattern, skipReadOnly) <==>
      exists c :: c in cs && Chosen(c, pattern, skipReadOnly) && c.name == n
  {
    var keep := ChosenBy(pattern, skipReadOnly);
    var kept := Filter(cs, keep);
    FilterCount(cs, keep);
    forall n
      ensures n in TargetNames(cs, pattern, skipReadOnly) <==>
        exists c :: c in cs && Chosen(c, pattern, skipReadOnly) && c.name == n
    {
      if n in TargetNames(cs, pattern, skipReadOnly) {
        var k :| 0 <= k < |kept| && Names(kept)[k] == n;
        var c := kept[k];
        assert multiset(kept)[c] > 0;
        assert c in cs && keep(c);
      }
      if c :| c in cs && Chosen(c, pattern, skipReadOnly) && c.name == n {
        assert keep(c) && multiset(cs)[c] > 0;
        assert c in kept;
        var k :| 0 <= k < |kept| && kept[k] == c;
        assert Names(kept)[k] == n;
      }
    }
  }

  /** With `--all`, the targets are every listed name, in order. */
  lemma EverythingTargetsAll(cs: seq<Candidate>)
    ensures TargetNames(cs, None, false) == Names(cs)
  {
    FilterKeepsAll(cs, ChosenBy(None, false));
  }

  /** Bulk removal never targets a read-only image: every name it removes
      is the name of a listed image that is not read-only, and every such
      image selected by the pattern is removed. */
  lemma RemovalSkipsReadOnly(images: seq<ImageData>, sel: Selection)
    requires sel.Everything? || sel.Matching?
    ensures forall n :: n in BulkTargets(ImageCandidates(images), sel, true) <==>
      exists d :: d in images && !d.ro && d.name == n && (sel.Matching? ==> Matches(d.name, sel.pattern))
  {
    var cs := ImageCandidates(images);
    var pattern := if sel.Matching? then Some(sel.pattern) else None;
    TargetNamesMembers(cs, pattern, true);
    forall n
      ensures n in BulkTargets(cs, sel, true) <==>
        exists d :: d in images && !d.ro && d.name == n && (sel.Matching? ==> Matches(d.name, sel.pattern))
    {
      if n in BulkTargets(cs, sel, true) {
        var c :| c in cs && Chosen(c, pattern, true) && c.name == n;
        var i :| 0 <= i < |cs| && cs[i] == c;
        assert images[i] in images && !images[i].ro && images[i].name == n;
      }
      if d :| d in images && !d.ro && d.name == n && (sel.Matching? ==> Matches(d.name, sel.pattern)) {
        var i :| 0 <= i < |images| && images[i] == d;
        assert cs[i] in cs && Chosen(cs[i], pattern, true);
      }
    }
  }

  /** A machine command with `--pattern` acts exactly on the listed machines
      whose name matches, each addressed by that name; a machine without a
      name is addressed and matched as `"-"`. */
  lemma MachinePatternTargets(machines: seq<Machine>, pattern: string)
    ensures forall n :: n in TargetNames(MachineCandidates(machines), Some(pattern), false) <==>
      exists m :: m in machines && MachineName(m) == n && Matches(n, pattern)
    ensures forall m :: m in machines && m.machine.None? ==> MachineName(m) == "-"
  {
    var cs := MachineCandidates(machines);
    TargetNamesMembers(cs, Some(pattern), false);
    forall n
      ensures n in TargetNames(cs, Some(pattern), false) <==>
        exists m :: m in machines && MachineName(m) == n && Matches(n, pattern)
    {
      if n in TargetNames(cs, Some(pattern), false) {
        var c :| c in cs && Chosen(c, Some(pattern), false) && c.name == n;
        var i :| 0 <= i < |cs| && cs[i] == c;
        assert machines[i] in machines && MachineName(machines[i]) == n;
      }
      if m :| m in machines && MachineName(m) == n && Matches(n, pattern) {
        var i :| 0 <= i < |machines| && machines[i] == m;
        assert cs[i] in cs && Chosen(cs[i], Some(pattern), false);
      }
    }
  }

  /** Whether `list` keeps an image: read-only first, then type, then
      pattern; with no filter every image is kept. */
  predicate Listed(ro: bool, typeField: Option<string>, pattern: Option<string>, d: ImageData) {
    if ro then d.ro
    else if typeField.Some? then d.typeField == typeField.value
    else if pattern.Some? then Matches(d.name, pattern.value)
    else true
  }

  function ListedBy(ro: bool, typeField: Option<string>, pattern: Option<string>): ImageData -> bool {
    d => Listed(ro, typeField, pattern, d)
  }

  /** The images `list` shows. */
  function ListedImages(images: seq<ImageData>, ro: bool, typeField: Option<string>, pattern: Option<string>): seq<ImageData> {
    if ro || typeField.Some? || pattern.Some? then Filter(images, ListedBy(ro, typeField, pattern))
    else images
  }

  /** Every branch of `list` yields the listing's images of its own filter,
      each as often as listed and in listing order; a read-only request
      ignores type and pattern, and a type request ignores the pattern. */
  lemma ListedImagesSpec(images: seq<ImageData>, ro: bool, typeField: Option<string>, pattern: Option<string>)
    ensures var r := ListedImages(images, ro, typeField, pattern);
      forall d :: multiset(r)[d] == if Listed(ro, typeField, pattern, d) then multiset(images)[d] else 0
    ensures ro ==> ListedImages(images, ro, typeField, pattern) == ListedImages(images, true, None, None)
    ensures !ro && typeField.Some? ==> ListedImages(images, ro, typeField, pattern) == ListedImages(images, false, typeField, None)
    ensures forall more: seq<ImageData> ::
      ListedImages(images + more, ro, typeField, pattern)
        == ListedImages(images, ro, typeField, pattern) + ListedImages(more, ro, typeField, pattern)
  {
    var keep := ListedBy(ro, typeField, pattern);
    if ro || typeField.Some? || pattern.Some? {
      FilterCount(images, keep);
    }
    forall more: seq<ImageData>
      ensures ListedImages(images + more, ro, typeField, pattern)
        == ListedImages(images, ro, typeField, pattern) + ListedImages(more, ro, typeField, pattern)
    {
      FilterAppend(images, more, keep);
    }
    if ro {
      assert forall d :: keep(d) == ListedBy(true, None, None)(d);
      FilterSameKeep(images, keep, ListedBy(true, None, None));
    } else if typeField.Some? {
      FilterSameKeep(images, keep, ListedBy(false, typeField, None));
    }
  }

  /** Two filters that agree on every item keep the same items. */
  lemma {:induction false} FilterSameKeep<T(!new)>(xs: seq<T>, keep: T -> bool, keep': T -> bool)
    requires forall x :: keep(x) == keep'(x)
    ensures Filter(xs, keep) == Filter(xs, keep')
  {
    if xs != [] {
      FilterSameKeep(xs[..|xs| - 1], keep, keep');
    }
  }

  function MatchingBy(pattern: string): Machine -> bool {
    m => Matches(MachineName(m), pattern)
  }

  /** The machines `list` shows: those whose name (or `"-"`) matches the
      pattern, or all of them. */
  function ListedMachines(machines: seq<Machine>, pattern: Option<string>): (r: seq<Machine>)
    ensures pattern.None? ==> r == machines
    ensures pattern.Some? ==> forall m ::
      multiset(r)[m] == if Matches(MachineName(m), pattern.value) then multiset(machines)[m] else 0
  {
    if pattern.Some? then
      FilterCount(machines, MatchingBy(pattern.value));
      Filter(machines, MatchingBy(pattern.value))
    else machines
  }
}
