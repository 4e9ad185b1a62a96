/**
 * Publishing a packet and its manifest: both are written to temporary files and renamed into place, and
 * whatever step fails, the temporary files are removed on the way out.
 */
module Publish {
  import opened Text

  datatype Content = Empty | Partial | Whole(text: string)

  type Files = map<string, Content>

  function Lookup(files: Files, path: string): Option<Content> {
    if path in files then Some(files[path]) else None
  }

  /**
   * The disk, as far as files have contents, all the states it went through, and the files
   * whose removal failed.  Every operation can fail.
   */
  class Disk {
    var files: Files
    ghost var history: seq<Files>
    ghost var stuck: set<string>

    constructor (files: Files)
      ensures this.files == files && history == [files] && stuck == {}
    {
      this.files, history, stuck := files, [files], {};
    }

    /** os.CreateTemp: a new name, not one of the outputs. */
    method Create(taken: set<string>) returns (path: Option<string>)
      modifies this
      ensures path.None? ==> files == old(files)
      ensures path.Some? ==> path.value != "" && path.value !in old(files) && path.value !in taken
      ensures path.Some? ==> files == old(files)[path.value := Empty]
      ensures history == old(history) + [files] && stuck == old(stuck)
    {
      var ok: bool := *;
      path := None;
      if ok {
        var name := NewName(files.Keys + taken);
        files := files[name := Empty];
        path := Some(name);
      }
      history := history + [files];
    }

    /** os.WriteFile, and writing the archive: a failure may leave part of the content. */
    method Write(path: string, text: string) returns (ok: bool)
      modifies this
      ensures path in files && files == old(files)[path := files[path]] && (ok ==> files[path] == Whole(text))
      ensures history == old(history) + [files] && stuck == old(stuck)
    {
      ok := *;
      var part: bool := *;
      files := files[path := if ok then Whole(text) else if part then Partial else Empty];
      history := history + [files];
    }

    method Rename(from: string, to: string) returns (ok: bool)
      requires from in files
      modifies this
      ensures files == if ok then (old(files) - {from})[to := old(files)[from]] else old(files)
      ensures history == old(history) + [files] && stuck == old(stuck)
    {
      ok := *;
      if ok {
        files := (files - {from})[to := files[from]];
      }
      history := history + [files];
    }

    /** os.Remove; a file that is gone already counts as removed. */
    method Remove(path: string) returns (ok: bool)
      modifies this
      ensures files == if ok then old(files) - {path} else old(files)
      ensures history == old(history) + [files] && stuck == if ok then old(stuck) else old(stuck) + {path}
    {
      ok := *;
      if ok {
        files := files - {path};
      } else {
        stuck := stuck + {path};
      }
      history := history + [files];
    }
  }

  /** A name longer than all that are taken. */
  method NewName(taken: set<string>) returns (name: string)
    ensures name !in taken && name != ""
  {
    name := "t";
    var rest := taken;
    while rest != {}
      invariant name != "" && rest <= taken
      invariant forall other :: other in taken - rest ==> |other| < |name|
      decreases rest
    {
      var other :| other in rest;
      rest := rest - {other};
      if |other| >= |name| {
        name := seq(|other| + 1, _ => 't');
      }
    }
  }

  /** What is to be published, and where. */
  datatype Outputs = Outputs(packetPath: string, manifestPath: string, packet: string, manifest: string) {
    predicate Sound() {
      packetPath != manifestPath && packetPath != "" && manifestPath != ""
    }

    function Paths(): set<string> {
      {packetPath, manifestPath}
    }

    /** What a path holds once the packet, and the manifest, are published. */
    function Wanted(before: Files, packetNew: bool, manifestNew: bool, path: string): Option<Content> {
      if packetNew && path == packetPath then Some(Whole(packet))
      else if manifestNew && path == manifestPath then Some(Whole(manifest))
      else Lookup(before, path)
    }
  }

  /** The disk is as it was, with the published outputs new, and with just these temporary files besides. */
  ghost predicate Holds(
    before: Files, now: Files, out: Outputs, packetNew: bool, manifestNew: bool, temps: set<string>)
  {
    && (forall path :: path !in temps ==> Lookup(now, path) == out.Wanted(before, packetNew, manifestNew, path))
    && temps <= now.Keys && temps !! before.Keys && temps !! out.Paths()
  }

  /** At no moment since the first n states is the manifest changed while the packet is not the new one. */
  ghost predicate NeverAhead(history: seq<Files>, n: nat, before: Files, out: Outputs) {
    && n <= |history|
    && forall k :: n <= k < |history| ==>
         || Lookup(history[k], out.manifestPath) == Lookup(before, out.manifestPath)
         || Lookup(history[k], out.packetPath) == Some(Whole(out.packet))
  }

  lemma HoldsIsSafe(before: Files, now: Files, out: Outputs, packetNew: bool, manifestNew: bool, temps: set<string>)
    requires Holds(before, now, out, packetNew, manifestNew, temps) && (manifestNew ==> packetNew) && out.Sound()
    ensures
      || Lookup(now, out.manifestPath) == Lookup(before, out.manifestPath)
      || Lookup(now, out.packetPath) == Some(Whole(out.packet))
  {
  }

  lemma Rewritten(before: Files, now: Files, out: Outputs, temps: set<string>, path: string, content: Content)
    requires Holds(before, now, out, false, false, temps) && path in temps
    ensures Holds(before, now[path := content], out, false, false, temps)
  {
  }

  lemma PacketMoved(before: Files, now: Files, out: Outputs, temps: set<string>, path: string)
    requires Holds(before, now, out, false, false, temps) && out.Sound()
    requires path in temps && path in now && now[path] == Whole(out.packet)
    ensures Holds(before, (now - {path})[out.packetPath := now[path]], out, true, false, temps - {path})
  {
  }

  lemma ManifestMoved(before: Files, now: Files, out: Outputs, temps: set<string>, path: string)
    requires Holds(before, now, out, true, false, temps) && out.Sound()
    requires path in temps && path in now && now[path] == Whole(out.manifest)
    ensures Holds(before, (now - {path})[out.manifestPath := now[path]], out, true, true, temps - {path})
  {
  }

  /**
   * createTempPath: the new file is closed at once; if that fails it is removed again.  The temporary files
   * are those that somebody will still remove and those whose removal failed.
   */
  method CreateTempPath(
    disk: Disk, out: Outputs, ghost before: Files, ghost n: nat, ghost temps: set<string>, ghost mine: set<string>)
    returns (path: Option<string>, ghost now: set<string>)
    requires Holds(before, disk.files, out, false, false, temps) && NeverAhead(disk.history, n, before, out)
    requires out.Sound() && temps <= mine + disk.stuck
    modifies disk
    ensures Holds(before, disk.files, out, false, false, now) && NeverAhead(disk.history, n, before, out)
    ensures temps <= now <= mine + disk.stuck + if path.Some? then {path.value} else {}
    ensures path.Some? ==>
      path.value != "" && path.value !in temps && path.value in now && disk.stuck == old(disk.stuck)
  {
    now := temps;
    path := disk.Create(out.Paths());
    if path.Some? {
      now := temps + {path.value};
      var closed: bool := *;
      if !closed {
        var ok := disk.Remove(path.value);
        if ok {
          now := temps;
        }
        path := None;
      }
    }
  }

  /** removeTemp: an empty path means that the file was renamed. */
  method RemoveTemp(
    disk: Disk, path: string, failed: bool, out: Outputs, ghost before: Files, ghost n: nat, ghost packetNew: bool,
    ghost manifestNew: bool, ghost temps: set<string>, ghost mine: set<string>)
    returns (err: bool, ghost now: set<string>)
    requires Holds(before, disk.files, out, packetNew, manifestNew, temps) && NeverAhead(disk.history, n, before, out)
    requires (path == "" || path in temps) && (manifestNew ==> packetNew) && out.Sound()
    requires temps <= mine + disk.stuck + if path == "" then {} else {path}
    modifies disk
    ensures Holds(before, disk.files, out, packetNew, manifestNew, now) && NeverAhead(disk.history, n, before, out)
    ensures now <= temps && now <= mine + disk.stuck && temps - {path} <= now
    ensures path == "" ==> err == failed
    ensures failed ==> err
  {
    err, now := failed, temps;
    if path != "" {
      var ok := disk.Remove(path);
      if ok {
        now := temps - {path};
      } else {
        err := true;
      }
      HoldsIsSafe(before, disk.files, out, packetNew, manifestNew, now);
    }
  }

  /** The steps between the temporary files and the deferred removals; a renamed file leaves an empty name. */
  method PublishSteps(
    disk: Disk, manifestPath: string, packetPath: string, out: Outputs, ghost before: Files, ghost n: nat,
    ghost temps: set<string>)
    returns (failed: bool, manifestTemp: string, packetTemp: string, ghost packetNew: bool, ghost now: set<string>)
    requires out.Sound() && manifestPath in temps && packetPath in temps && manifestPath != packetPath
    requires manifestPath != "" && packetPath != ""
    requires Holds(before, disk.files, out, false, false, temps) && NeverAhead(disk.history, n, before, out)
    modifies disk
    ensures Holds(before, disk.files, out, packetNew, !failed, now) && NeverAhead(disk.history, n, before, out)
    ensures !failed ==> packetNew
    ensures manifestTemp == if failed then manifestPath else ""
    ensures packetTemp == if packetNew then "" else packetPath
    ensures now == temps - (if packetNew then {packetPath} else {}) - (if failed then {} else {manifestPath})
    ensures disk.stuck == old(disk.stuck)
  {
    failed, manifestTemp, packetTemp, packetNew, now := true, manifestPath, packetPath, false, temps;
    var ok := WriteTemp(disk, manifestPath, out.manifest, out, before, n, temps);
    if !ok {
      return;
    }
    ok := WriteTemp(disk, packetPath, out.packet, out, before, n, temps);
    if !ok {
      return;
    }
    ok := RenamePacket(disk, packetPath, out, before, n, temps);
    if !ok {
      return;
    }
    packetTemp, packetNew, now := "", true, temps - {packetPath};
    ok := RenameManifest(disk, manifestPath, out, before, n, now);
    if !ok {
      return;
    }
    failed, manifestTemp, now := false, "", now - {manifestPath};
  }

  method RenamePacket(
    disk: Disk, path: string, out: Outputs, ghost before: Files, ghost n: nat, ghost temps: set<string>)
    returns (ok: bool)
    requires out.Sound() && path in temps && path in disk.files && disk.files[path] == Whole(out.packet)
    requires Holds(before, disk.files, out, false, false, temps) && NeverAhead(disk.history, n, before, out)
    modifies disk
    ensures Holds(before, disk.files, out, ok, false, if ok then temps - {path} else temps)
    ensures NeverAhead(disk.history, n, before, out) && disk.stuck == old(disk.stuck)
    ensures forall other :: other in temps - {path} ==> Lookup(disk.files, other) == Lookup(old(disk.files), other)
  {
    PacketMoved(before, disk.files, out, temps, path);
    ok := disk.Rename(path, out.packetPath);
    HoldsIsSafe(before, disk.files, out, ok, false, if ok then temps - {path} else temps);
  }

  method RenameManifest(
    disk: Disk, path: string, out: Outputs, ghost before: Files, ghost n: nat, ghost temps: set<string>)
    returns (ok: bool)
    requires out.Sound() && path in temps && path in disk.files && disk.files[path] == Whole(out.manifest)
    requires Holds(before, disk.files, out, true, false, temps) && NeverAhead(disk.history, n, before, out)
    modifies disk
    ensures Holds(before, disk.files, out, true, ok, if ok then temps - {path} else temps)
    ensures NeverAhead(disk.history, n, before, out) && disk.stuck == old(disk.stuck)
  {
    ManifestMoved(before, disk.files, out, temps, path);
    ok := disk.Rename(path, out.manifestPath);
    HoldsIsSafe(before, disk.files, out, true, ok, if ok then temps - {path} else temps);
  }

  method WriteTemp(
    disk: Disk, path: string, text: string, out: Outputs, ghost before: Files, ghost n: nat, ghost temps: set<string>)
    returns (ok: bool)
    requires out.Sound() && path in temps
    requires Holds(before, disk.files, out, false, false, temps) && NeverAhead(disk.history, n, before, out)
    modifies disk
    ensures Holds(before, disk.files, out, false, false, temps) && NeverAhead(disk.history, n, before, out)
    ensures path in disk.files && disk.files == old(disk.files)[path := disk.files[path]]
    ensures (ok ==> disk.files[path] == Whole(text)) && disk.stuck == old(disk.stuck)
  {
    ghost var files := disk.files;
    ok := disk.Write(path, text);
    Rewritten(before, files, out, temps, path, disk.files[path]);
    HoldsIsSafe(before, disk.files, out, false, false, temps);
  }

  /**
   * Under every pattern of failures: success means that both outputs are new and nothing else changed;
   * failure leaves the manifest as it was, and of the temporary files at most those whose removal failed;
   * and at every moment in between a changed manifest comes with the new packet.
   */
  method WriteOutputs(disk: Disk, out: Outputs) returns (err: bool, ghost packetNew: bool, ghost left: set<string>)
    requires out.Sound() && disk.stuck == {}
    modifies disk
    ensures Holds(old(disk.files), disk.files, out, packetNew, !err, left)
    ensures !err ==> packetNew && left == {}
    ensures left <= disk.stuck
    ensures NeverAhead(disk.history, |old(disk.history)|, old(disk.files), out)
  {
    ghost var before, n := disk.files, |disk.history|;
    left, packetNew := {}, false;
    var manifestTemp, packetTemp;
    manifestTemp, left := CreateTempPath(disk, out, before, n, {}, {});
    if manifestTemp.None? {
      return true, false, left;
    }
    ghost var mine := {manifestTemp.value};
    packetTemp, left := CreateTempPath(disk, out, before, n, left, mine);
    if packetTemp.None? {
      err, left := RemoveTemp(disk, manifestTemp.value, true, out, before, n, false, false, left, {});
      return;
    }
    var failed, manifestLeft, packetLeft;
    failed, manifestLeft, packetLeft, packetNew, left :=
      PublishSteps(disk, manifestTemp.value, packetTemp.value, out, before, n, left);
    mine := if failed then mine else {};
    err, left := RemoveTemp(disk, packetLeft, failed, out, before, n, packetNew, !failed, left, mine);
    err, left := RemoveTemp(disk, manifestLeft, err, out, before, n, packetNew, !failed, left, {});
  }
}
