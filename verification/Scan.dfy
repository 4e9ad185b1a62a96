/** Finding run directories: a walk of a directory tree, and which directories it reports. */
module Scan {
  import opened Text

  datatype Node =
    | File                                              // a regular file
    | Other                                             // a symbolic link, a socket, ...
    | Dir(readable: bool, entries: seq<Entry>)

  datatype Entry = Entry(name: string, node: Node)

  const MARKER_NAMES: seq<string> := [
    "run.json", "state.json", "local-run.json", "events.ndjson", "certificate.json", "transcript.md",
    "digest.md", "aar-stdout.log", "aar-stderr.log"
  ]

  const MAX_SCAN_DEPTH := 16

  /** A hidden directory, or a Pi agent home such as pi-C1. */
  predicate SkipDir(name: string) {
    || "." <= name
    || ("pi-C" <= name && |name| > 4 && AllDigits(name[4..]))
  }

  /** A directory with a marker file is a run directory. */
  predicate Marked(entries: seq<Entry>) {
    exists k :: 0 <= k < |entries| && entries[k].node.File? && entries[k].name in MARKER_NAMES
  }

  /** Paths are lists of names below the root. */
  type Path = seq<string>

  datatype Finding = Run(path: Path) | Unreadable(path: Path) | TooDeep(path: Path)

  /** What the scan reports about a directory that it enters, unless it goes on below. */
  function Verdict(node: Node, path: Path, depth: nat): Option<Finding> {
    match node
    case Dir(readable, entries) =>
      if !readable then Some(Unreadable(path))
      else if Marked(entries) then Some(Run(path))
      else if depth >= MAX_SCAN_DEPTH then Some(TooDeep(path))
      else None
    case _ => Some(Unreadable(path))
  }

  // ----- the walk -----

  function Scanned(node: Node, path: Path, depth: nat): seq<Finding>
    decreases node, 0
  {
    match Verdict(node, path, depth)
    case Some(finding) => [finding]
    case None => EntriesScanned(node.entries, path, depth)
  }

  predicate Enters(entry: Entry) {
    entry.node.Dir? && !SkipDir(entry.name)
  }

  function EntriesScanned(entries: seq<Entry>, path: Path, depth: nat): seq<Finding>
    decreases entries, |entries|
  {
    if entries == [] then []
    else
      EntryScanned(entries[0], path, depth) + EntriesScanned(entries[1..], path, depth)
  }

  function EntryScanned(entry: Entry, path: Path, depth: nat): seq<Finding>
    decreases entry, 0
  {
    if Enters(entry) then Scanned(entry.node, path + [entry.name], depth + 1) else []
  }

  // ----- the reference -----

  /** The node that a path leads to. */
  function Find(entries: seq<Entry>, name: string): Option<Node>
  {
    if entries == [] then None
    else if entries[0].name == name then Some(entries[0].node)
    else Find(entries[1..], name)
  }

  function At(node: Node, path: Path): Option<Node>
    decreases |path|
  {
    if path == [] then Some(node)
    else if !node.Dir? then None
    else
      match Find(node.entries, path[0])
      case None => None
      case Some(child) => At(child, path[1..])
  }

  /** The names in every directory differ. */
  ghost predicate WellNamed(node: Node)
    decreases node, 0
  {
    node.Dir? ==>
      && (forall i, j :: 0 <= i < j < |node.entries| ==> node.entries[i].name != node.entries[j].name)
      && forall i :: 0 <= i < |node.entries| ==> WellNamed(node.entries[i].node)
  }

  /**
   * The path leads from the root to a directory, no name on it is skipped, and every directory in front of
   * its end is readable, has no marker, and lies above the depth limit.
   */
  ghost predicate Reached(root: Node, path: Path, depth: nat) {
    && At(root, path).Some? && At(root, path).value.Dir?
    && forall k :: 0 <= k < |path| ==> Passable(root, path, depth, k)
  }

  ghost predicate Passable(root: Node, path: Path, depth: nat, k: nat)
    requires k < |path|
  {
    && !SkipDir(path[k]) && depth + k < MAX_SCAN_DEPTH
    && At(root, path[..k]).Some? && At(root, path[..k]).value.Dir?
    && At(root, path[..k]).value.readable && !Marked(At(root, path[..k]).value.entries)
  }

  lemma AtPrefix(node: Node, path: Path, k: nat)
    requires node.Dir? && 0 < k <= |path| && Find(node.entries, path[0]).Some?
    ensures At(node, path[..k]) == At(Find(node.entries, path[0]).value, path[1..][..k - 1])
  {
    assert path[..k][0] == path[0] && path[..k][1..] == path[1..][..k - 1];
  }

  lemma PassableStep(node: Node, path: Path, depth: nat, k: nat)
    requires node.Dir? && 0 < k < |path| && Find(node.entries, path[0]).Some?
    ensures
      Passable(node, path, depth, k)
      <==> Passable(Find(node.entries, path[0]).value, path[1..], depth + 1, k - 1)
  {
    AtPrefix(node, path, k);
    assert path[k] == path[1..][k - 1];
  }

  lemma ReachedStep(node: Node, path: Path, depth: nat)
    requires node.Dir? && path != []
    ensures
      Reached(node, path, depth)
      <==> && node.readable && !Marked(node.entries) && depth < MAX_SCAN_DEPTH && !SkipDir(path[0])
           && Find(node.entries, path[0]).Some?
           && Reached(Find(node.entries, path[0]).value, path[1..], depth + 1)
  {
    assert path[..0] == [];
    if Find(node.entries, path[0]).Some? {
      var child, rest, deeper := Find(node.entries, path[0]).value, path[1..], depth + 1;
      assert Passable(node, path, depth, 0)
        <==> node.readable && !Marked(node.entries) && depth < MAX_SCAN_DEPTH && !SkipDir(path[0]);
      forall k | 0 < k < |path| ensures Passable(node, path, depth, k) <==> Passable(child, rest, deeper, k - 1) {
        PassableStep(node, path, depth, k);
      }
      if Reached(node, path, depth) {
        forall k | 0 <= k < |rest| ensures Passable(child, rest, deeper, k) {
          assert Passable(node, path, depth, k + 1);
        }
      }
    }
  }

  lemma {:induction false} FindAt(entries: seq<Entry>, i: nat)
    requires i < |entries| && forall j :: 0 <= j < i ==> entries[j].name != entries[i].name
    ensures Find(entries, entries[i].name) == Some(entries[i].node)
  {
    if i > 0 {
      FindAt(entries[1..], i - 1);
    }
  }

  lemma {:induction false} FindIn(entries: seq<Entry>, name: string)
    requires Find(entries, name).Some?
    ensures exists i :: 0 <= i < |entries| && entries[i].name == name && entries[i].node == Find(entries, name).value
  {
    if entries[0].name != name {
      FindIn(entries[1..], name);
      var i :|
        0 <= i < |entries| - 1 && entries[1..][i].name == name && entries[1..][i].node == Find(entries, name).value;
      assert entries[i + 1].name == name;
    }
  }

  /** The finding came from this entry. */
  ghost predicate From(entry: Entry, path: Path, depth: nat, f: Finding) {
    Enters(entry) && f in Scanned(entry.node, path + [entry.name], depth + 1)
  }

  lemma {:induction false} EntriesFrom(entries: seq<Entry>, path: Path, depth: nat, f: Finding)
    ensures
      f in EntriesScanned(entries, path, depth)
      <==> exists i :: 0 <= i < |entries| && From(entries[i], path, depth, f)
  {
    if entries != [] {
      EntriesFrom(entries[1..], path, depth, f);
      if i :| 0 <= i < |entries| && From(entries[i], path, depth, f) {
        assert i > 0 ==> From(entries[1..][i - 1], path, depth, f);
      }
      if i :| 0 <= i < |entries| - 1 && From(entries[1..][i], path, depth, f) {
        assert From(entries[i + 1], path, depth, f);
      }
      assert From(entries[0], path, depth, f) || !From(entries[0], path, depth, f);
    }
  }

  /** Directly below a directory that is walked: the entry the finding came from is the first step of its path. */
  lemma BelowFrom(node: Node, i: nat, path: Path, depth: nat, f: Finding)
    requires node.Dir? && WellNamed(node) && Verdict(node, path, depth) == None && i < |node.entries|
    requires From(node.entries[i], path, depth, f)
    requires FoundAt(node.entries[i].node, path + [node.entries[i].name], depth + 1, f)
    ensures FoundAt(node, path, depth, f)
  {
    var entry := node.entries[i];
    var tail := f.path[|path| + 1..];
    assert f.path[|path|..] == [entry.name] + tail;
    FindAt(node.entries, i);
    ReachedStep(node, [entry.name] + tail, depth);
  }

  /** The finding is about a directory that is reached from this one, and says what its verdict says. */
  ghost predicate FoundAt(node: Node, path: Path, depth: nat, f: Finding) {
    && path <= f.path
    && Reached(node, f.path[|path|..], depth)
    && Verdict(At(node, f.path[|path|..]).value, f.path, depth + |f.path| - |path|) == Some(f)
  }

  lemma FromBelow(node: Node, path: Path, depth: nat, f: Finding) returns (i: nat)
    requires node.Dir? && WellNamed(node) && FoundAt(node, path, depth, f) && f.path != path
    ensures Verdict(node, path, depth) == None
    ensures i < |node.entries| && Enters(node.entries[i])
    ensures FoundAt(node.entries[i].node, path + [node.entries[i].name], depth + 1, f)
  {
    var below := f.path[|path|..];
    ReachedStep(node, below, depth);
    FindIn(node.entries, below[0]);
    i :|
      && 0 <= i < |node.entries| && node.entries[i].name == below[0]
      && node.entries[i].node == Find(node.entries, below[0]).value;
    assert f.path[|path| + 1..] == below[1..];
    assert path + [below[0]] <= f.path;
    ChildIsDir(node.entries[i].node, below[1..], depth + 1);
  }

  lemma ChildIsDir(node: Node, path: Path, depth: nat)
    requires Reached(node, path, depth)
    ensures node.Dir?
  {
  }

  lemma FoundHere(node: Node, path: Path, depth: nat, f: Finding)
    requires node.Dir? && f.path == path
    ensures FoundAt(node, path, depth, f) <==> Verdict(node, path, depth) == Some(f)
  {
    assert f.path[|path|..] == [];
  }

  /** Where the walk stops nothing below is found. */
  lemma StopsHere(node: Node, path: Path, depth: nat, f: Finding)
    requires node.Dir? && WellNamed(node) && Verdict(node, path, depth).Some?
    ensures FoundAt(node, path, depth, f) <==> Verdict(node, path, depth) == Some(f)
  {
    if f.path == path {
      FoundHere(node, path, depth, f);
    } else if path <= f.path {
      var below := f.path[|path|..];
      assert below != [];
      ReachedStep(node, below, depth);
    }
  }

  /** The walk from a directory on reports what the reference says, about every directory and nothing else. */
  lemma {:induction false} ScannedIff(node: Node, path: Path, depth: nat, f: Finding)
    requires WellNamed(node) && node.Dir?
    ensures f in Scanned(node, path, depth) <==> FoundAt(node, path, depth, f)
    decreases node
  {
    if Verdict(node, path, depth).Some? {
      StopsHere(node, path, depth, f);
    } else {
      EntriesFrom(node.entries, path, depth, f);
      if f in Scanned(node, path, depth) {
        var i :| 0 <= i < |node.entries| && From(node.entries[i], path, depth, f);
        ScannedIff(node.entries[i].node, path + [node.entries[i].name], depth + 1, f);
        BelowFrom(node, i, path, depth, f);
      }
      if f.path == path {
        FoundHere(node, path, depth, f);
      } else if FoundAt(node, path, depth, f) {
        var i := FromBelow(node, path, depth, f);
        ScannedIff(node.entries[i].node, path + [node.entries[i].name], depth + 1, f);
        assert From(node.entries[i], path, depth, f);
      }
    }
  }

  // ----- what the scan of a root reports -----

  /**
   * A run is reported if and only if its directory has a marker, can be read, is no deeper than the limit,
   * has no marked or unreadable directory above it, and no skipped name on its path.
   */
  lemma RunsExactly(root: Node, path: Path)
    requires WellNamed(root) && root.Dir?
    ensures
      Run(path) in Scanned(root, [], 0)
      <==> Reached(root, path, 0) && At(root, path).value.readable && Marked(At(root, path).value.entries)
  {
    ScannedIff(root, [], 0, Run(path));
    assert path[0..] == path;
  }

  /** One problem for each directory that cannot be read, and for each that the depth limit cuts off. */
  lemma ProblemsExactly(root: Node, path: Path)
    requires WellNamed(root) && root.Dir?
    ensures Unreadable(path) in Scanned(root, [], 0) <==> Reached(root, path, 0) && !At(root, path).value.readable
    ensures
      TooDeep(path) in Scanned(root, [], 0)
      <==> && Reached(root, path, 0) && At(root, path).value.readable && !Marked(At(root, path).value.entries)
           && |path| >= MAX_SCAN_DEPTH
  {
    ScannedIff(root, [], 0, Unreadable(path));
    ScannedIff(root, [], 0, TooDeep(path));
    assert path[0..] == path;
  }

  /** No reported run lies inside another. */
  lemma RunsApart(root: Node, outer: Path, inner: Path)
    requires WellNamed(root) && root.Dir?
    requires Run(outer) in Scanned(root, [], 0) && Run(inner) in Scanned(root, [], 0)
    ensures !(outer < inner)
  {
    RunsExactly(root, outer);
    RunsExactly(root, inner);
    AboveIsUnmarked(root, outer, inner);
  }

  lemma AboveIsUnmarked(root: Node, outer: Path, inner: Path)
    requires Reached(root, inner, 0) && Reached(root, outer, 0)
    ensures outer < inner ==> !Marked(At(root, outer).value.entries)
  {
    if outer < inner {
      assert inner[..|outer|] == outer;
      assert Passable(root, inner, 0, |outer|);
    }
  }

  // ----- each once -----

  ghost predicate PathsDiffer(findings: seq<Finding>) {
    forall i, j :: 0 <= i < j < |findings| ==> findings[i].path != findings[j].path
  }

  ghost predicate AllBelow(findings: seq<Finding>, path: Path) {
    forall i :: 0 <= i < |findings| ==> path <= findings[i].path
  }

  lemma ScannedBelow(node: Node, path: Path, depth: nat)
    requires WellNamed(node) && node.Dir?
    ensures AllBelow(Scanned(node, path, depth), path)
  {
    var all := Scanned(node, path, depth);
    forall i | 0 <= i < |all| ensures path <= all[i].path {
      ScannedIff(node, path, depth, all[i]);
    }
  }

  /** Every directory is reported at most once. */
  lemma {:induction false} EachOnce(node: Node, path: Path, depth: nat)
    requires WellNamed(node) && node.Dir?
    ensures PathsDiffer(Scanned(node, path, depth))
    decreases node, 0
  {
    if Verdict(node, path, depth) == None {
      EntriesOnce(node.entries, path, depth);
    }
  }

  ghost predicate Named(entries: seq<Entry>) {
    && (forall i, j :: 0 <= i < j < |entries| ==> entries[i].name != entries[j].name)
    && forall i :: 0 <= i < |entries| ==> WellNamed(entries[i].node)
  }

  lemma {:induction false} EntriesOnce(entries: seq<Entry>, path: Path, depth: nat)
    requires Named(entries)
    ensures PathsDiffer(EntriesScanned(entries, path, depth))
    decreases entries, |entries|
  {
    if entries != [] {
      var first, rest := entries[0], EntriesScanned(entries[1..], path, depth);
      EntriesOnce(entries[1..], path, depth);
      if Enters(first) {
        var front := Scanned(first.node, path + [first.name], depth + 1);
        EachOnce(first.node, path + [first.name], depth + 1);
        ScannedBelow(first.node, path + [first.name], depth + 1);
        forall j | 0 <= j < |rest| ensures !(path + [first.name] <= rest[j].path) {
          OtherName(entries, path, depth, rest[j]);
        }
        assert EntriesScanned(entries, path, depth) == front + rest;
      }
    }
  }

  lemma OtherName(entries: seq<Entry>, path: Path, depth: nat, f: Finding)
    requires Named(entries) && entries != [] && f in EntriesScanned(entries[1..], path, depth)
    ensures !(path + [entries[0].name] <= f.path)
  {
    var rest := entries[1..];
    EntriesFrom(rest, path, depth, f);
    var i :| 0 <= i < |rest| && From(rest[i], path, depth, f);
    assert rest[i] == entries[i + 1];
    ScannedIff(rest[i].node, path + [rest[i].name], depth + 1, f);
    assert (path + [rest[i].name])[|path|] == rest[i].name;
    assert (path + [entries[0].name])[|path|] == entries[0].name;
  }

  // ----- the scanner -----

  function Runs(findings: seq<Finding>): seq<Path> {
    if findings == [] then []
    else
      var last := findings[|findings| - 1];
      Runs(findings[..|findings| - 1]) + (if last.Run? then [last.path] else [])
  }

  function Problems(findings: seq<Finding>): seq<Finding> {
    if findings == [] then []
    else
      var last := findings[|findings| - 1];
      Problems(findings[..|findings| - 1]) + (if last.Run? then [] else [last])
  }

  lemma {:induction false} ReportAppend(a: seq<Finding>, b: seq<Finding>)
    ensures Runs(a + b) == Runs(a) + Runs(b) && Problems(a + b) == Problems(a) + Problems(b)
  {
    if b == [] {
      assert a + b == a;
    } else {
      assert (a + b)[..|a + b| - 1] == a + b[..|b| - 1];
      ReportAppend(a, b[..|b| - 1]);
    }
  }

  lemma {:induction false} InReport(findings: seq<Finding>, f: Finding)
    ensures f.Run? ==> (f.path in Runs(findings) <==> f in findings)
    ensures !f.Run? ==> (f in Problems(findings) <==> f in findings)
  {
    if findings != [] {
      assert findings == findings[..|findings| - 1] + [findings[|findings| - 1]];
      InReport(findings[..|findings| - 1], f);
    }
  }

  /** The two lists that the walk appends to. */
  class Report {
    var runs: seq<Path>
    var problems: seq<Finding>

    constructor ()
      ensures runs == [] && problems == []
    {
      runs, problems := [], [];
    }

    /** The lists grew by what the findings say. */
    twostate predicate GrewBy(findings: seq<Finding>)
      reads this
    {
      runs == old(runs) + Runs(findings) && problems == old(problems) + Problems(findings)
    }
  }

  method HasMarker(entries: seq<Entry>) returns (marked: bool)
    ensures marked == Marked(entries)
  {
    var files: set<string> := {};
    for i := 0 to |entries|
      invariant forall name :: name in files <==>
        exists k :: 0 <= k < i && entries[k].node.File? && entries[k].name == name
    {
      if entries[i].node.File? {
        files := files + {entries[i].name};
      }
    }
    for m := 0 to |MARKER_NAMES|
      invariant forall k :: 0 <= k < m ==> MARKER_NAMES[k] !in files
    {
      if MARKER_NAMES[m] in files {
        return true;
      }
    }
    marked := false;
  }

  method ScanDir(node: Node, path: Path, depth: nat, report: Report)
    modifies report
    ensures report.GrewBy(Scanned(node, path, depth))
    decreases node, 0
  {
    if !node.Dir? || !node.readable {
      report.problems := report.problems + [Unreadable(path)];
      return;
    }
    var marked := HasMarker(node.entries);
    if marked {
      report.runs := report.runs + [path];
      return;
    }
    if depth >= MAX_SCAN_DEPTH {
      report.problems := report.problems + [TooDeep(path)];
      return;
    }
    ScanEntries(node.entries, path, depth, report);
  }

  lemma {:induction false} EntriesAppend(entries: seq<Entry>, entry: Entry, path: Path, depth: nat)
    ensures
      EntriesScanned(entries + [entry], path, depth)
      == EntriesScanned(entries, path, depth) + EntryScanned(entry, path, depth)
  {
    if entries == [] {
      assert [entry][1..] == [] && [] + [entry] == [entry];
    } else {
      assert (entries + [entry])[0] == entries[0] && (entries + [entry])[1..] == entries[1..] + [entry];
      EntriesAppend(entries[1..], entry, path, depth);
      Assoc(
        EntryScanned(entries[0], path, depth), EntriesScanned(entries[1..], path, depth),
        EntryScanned(entry, path, depth));
    }
  }

  method ScanEntry(entry: Entry, path: Path, depth: nat, report: Report)
    modifies report
    ensures report.GrewBy(EntryScanned(entry, path, depth))
    decreases entry.node, 1
  {
    if entry.node.Dir? && !SkipDir(entry.name) {
      ScanDir(entry.node, path + [entry.name], depth + 1, report);
    }
  }

  method ScanEntries(entries: seq<Entry>, path: Path, depth: nat, report: Report)
    modifies report
    ensures report.GrewBy(EntriesScanned(entries, path, depth))
    decreases entries, |entries| + 1
  {
    for i := 0 to |entries|
      invariant report.GrewBy(EntriesScanned(entries[..i], path, depth))
    {
      ghost var before, here := EntriesScanned(entries[..i], path, depth), EntryScanned(entries[i], path, depth);
      assert entries[..i + 1] == entries[..i] + [entries[i]];
      EntriesAppend(entries[..i], entries[i], path, depth);
      ReportAppend(before, here);
      Assoc(old(report.runs), Runs(before), Runs(here));
      Assoc(old(report.problems), Problems(before), Problems(here));
      ScanEntry(entries[i], path, depth, report);
    }
    assert entries[..|entries|] == entries;
  }
}
