/**
 The BACKUP and RESTORE tasks of the agent (apps/agent/internal/tasks/runner.go), between the
 docker commands that produce and consume the dumps: which file holds what.
 */
module Backups {
  import opened Wrappers
  import opened Archive

  datatype Failure =
    | BadVolume(name: string) | BadDatabase(id: string)
    | DumpFailed(id: string) | VolumeFailed(name: string)
    | Missing(path: Path) | ReplayFailed(path: Path)

  /** What manifest.json lists: id and file of every database, name of every volume. */
  datatype Manifest = Manifest(databases: seq<(string, string)>, volumes: seq<string>)

  /** What docker answers to a dump; None when the command fails. */
  type Dump = Option<seq<byte>>

  ghost predicate AllDumpable(dbs: seq<DatabaseSpec>) {
    forall i :: 0 <= i < |dbs| ==> Dumpable(dbs[i])
  }

  ghost predicate AllNamed(volumes: seq<string>) {
    forall i :: 0 <= i < |volumes| ==> DockerName(volumes[i])
  }

  ghost predicate AllGiven(dumps: seq<Dump>) {
    forall i :: 0 <= i < |dumps| ==> dumps[i].Some?
  }

  function FileNames(dbs: seq<DatabaseSpec>): (names: seq<string>)
    requires forall i :: 0 <= i < |dbs| ==> Extension(dbs[i].kind).Some?
    ensures |names| == |dbs|
  {
    seq(|dbs|, i requires 0 <= i < |dbs| => FileName(dbs[i]))
  }

  function TarNames(volumes: seq<string>): (names: seq<string>)
    ensures |names| == |volumes|
  {
    seq(|volumes|, i requires 0 <= i < |volumes| => volumes[i] + ".tar.gz")
  }

  /** No later dump takes the file over. */
  ghost predicate LastUse(names: seq<string>, i: nat)
    requires i < |names|
  {
    forall j :: i < j < |names| ==> names[j] != names[i]
  }

  ghost predicate HoldsFile(staging: Disk, folder: string, name: string, dump: Dump) {
    dump.Some? && [folder, name] in staging && staging[[folder, name]] == File(dump.value)
  }

  /** Each dump is in its file, unless a later dump took the file over. */
  ghost predicate Holds(staging: Disk, folder: string, names: seq<string>, dumps: seq<Dump>) {
    && |names| == |dumps|
    && forall i {:trigger LastUse(names, i)} {:trigger HoldsFile(staging, folder, names[i], dumps[i])} ::
         0 <= i < |names| && LastUse(names, i) ==> HoldsFile(staging, folder, names[i], dumps[i])
  }

  ghost predicate FlatAt(staging: Disk, p: Path) {
    && Ordinary(p) && |p| <= 2
    && (|p| == 2 ==> p in staging && staging[p].File? && [p[0]] in staging && staging[[p[0]]] == Dir)
  }

  /** A staging directory: folders at the top, files in them. */
  ghost predicate Flat(staging: Disk) {
    forall p {:trigger FlatAt(staging, p)} :: p in staging ==> FlatAt(staging, p)
  }

  /** Nothing but these folders and what is below them. */
  ghost predicate Only(staging: Disk, folders: set<string>) {
    forall p :: p in staging ==> p != [] && p[0] in folders
  }

  ghost predicate PlainName(c: string) {
    Paths.ProperName(c) && '/' !in c
  }

  lemma FlatIsTidy(staging: Disk)
    requires Flat(staging)
    ensures Tidy(staging)
  {
    forall p | p in staging ensures Ordinary(p) && HasParent(staging, p) {
      assert FlatAt(staging, p);
      assert |p| == 2 ==> Parent(p) == [p[0]];
    }
  }

  lemma TarNameIsPlain(volume: string)
    requires DockerName(volume)
    ensures PlainName(volume + ".tar.gz")
  {
    assert NameChar(0, volume[0]) && (volume + ".tar.gz")[0] == volume[0];
    forall i | 0 <= i < |volume| ensures volume[i] != '/' { assert NameChar(i, volume[i]); }
  }

  lemma PutFolder(staging: Disk, folder: string)
    requires Flat(staging) && PlainName(folder) && [folder] !in staging
    ensures Flat(staging[[folder] := Dir])
  {
    var after := staging[[folder] := Dir];
    forall p | p in after ensures FlatAt(after, p) { assert p in staging ==> FlatAt(staging, p); }
  }

  lemma PutFlat(staging: Disk, folder: string, name: string, data: seq<byte>)
    requires Flat(staging) && [folder] in staging && staging[[folder]] == Dir && PlainName(folder) && PlainName(name)
    ensures Flat(staging[[folder, name] := File(data)])
  {
    var after := staging[[folder, name] := File(data)];
    assert |[folder]| != |[folder, name]|;
    forall p | p in after ensures FlatAt(after, p) {
      if p == [folder, name] {
        assert p[0] == folder;
      } else {
        assert FlatAt(staging, p);
        assert |[p[0]]| != |[folder, name]|;
      }
    }
  }

  lemma PutHolds(staging: Disk, folder: string, names: seq<string>, dumps: seq<Dump>, name: string, data: seq<byte>)
    requires Holds(staging, folder, names, dumps)
    ensures Holds(staging[[folder, name] := File(data)], folder, names + [name], dumps + [Some(data)])
  {
    var after, more, given := staging[[folder, name] := File(data)], names + [name], dumps + [Some(data)];
    forall i | 0 <= i < |more| && LastUse(more, i) ensures HoldsFile(after, folder, more[i], given[i]) {
      if i < |names| {
        assert more[|names|] != more[i];
        forall j | i < j < |names| ensures names[j] != names[i] { assert more[j] != more[i]; }
        assert LastUse(names, i) && HoldsFile(staging, folder, names[i], dumps[i]);
        assert [folder, more[i]][1] != [folder, name][1];
      }
    }
  }

  /** manifest.json goes next to the folders and disturbs nothing. */
  lemma PutManifest(staging: Disk, json: seq<byte>)
    requires Flat(staging) && ["manifest.json"] !in staging
    ensures var after := staging[["manifest.json"] := File(json)];
            Flat(after) && forall p :: p in staging ==> after[p] == staging[p]
  {
    var after := staging[["manifest.json"] := File(json)];
    forall p | p in after ensures FlatAt(after, p) { assert p in staging ==> FlatAt(staging, p); }
  }

  lemma HoldsInMore(less: Disk, more: Disk, folder: string, names: seq<string>, dumps: seq<Dump>)
    requires Holds(less, folder, names, dumps) && forall p :: p in less ==> p in more && more[p] == less[p]
    ensures Holds(more, folder, names, dumps)
  {
    forall i | 0 <= i < |names| && LastUse(names, i) ensures HoldsFile(more, folder, names[i], dumps[i]) {
      assert HoldsFile(less, folder, names[i], dumps[i]);
    }
  }

  /** The database half of Backup: staging/databases and the manifest entries. */
  method StageDatabases(dbs: seq<DatabaseSpec>, dumps: seq<Dump>) returns (r: Result<(Disk, seq<(string, string)>), Failure>)
    requires |dbs| == |dumps|
    ensures r.Ok? <==> AllDumpable(dbs) && AllGiven(dumps)
    ensures r.Ok? ==>
      && Flat(r.value.0) && Holds(r.value.0, "databases", FileNames(dbs), dumps)
      && Only(r.value.0, {"databases"})
      && |r.value.1| == |dbs|
      && (forall i :: 0 <= i < |dbs| ==> r.value.1[i] == (dbs[i].id, "databases/" + FileName(dbs[i])))
  {
    var staging: Disk := map[];
    var entries: seq<(string, string)> := [];
    if dbs == [] { return Ok((staging, entries)); }
    PutFolder(staging, "databases");
    staging := staging[["databases"] := Dir];
    for k := 0 to |dbs|
      invariant AllDumpable(dbs[..k]) && AllGiven(dumps[..k])
      invariant Flat(staging) && ["databases"] in staging && staging[["databases"]] == Dir
      invariant Only(staging, {"databases"})
      invariant Holds(staging, "databases", FileNames(dbs[..k]), dumps[..k])
      invariant |entries| == k
      invariant forall i :: 0 <= i < k ==> Dumpable(dbs[i]) && entries[i] == (dbs[i].id, "databases/" + FileName(dbs[i]))
    {
      var name := DumpFileName(dbs[k]);
      if name.None? { return Err(BadDatabase(dbs[k].id)); }
      if dumps[k].None? { return Err(DumpFailed(dbs[k].id)); }
      FileNameIsOrdinary(dbs[k]);
      PutFlat(staging, "databases", name.value, dumps[k].value);
      PutHolds(staging, "databases", FileNames(dbs[..k]), dumps[..k], name.value, dumps[k].value);
      staging := staging[["databases", name.value] := File(dumps[k].value)];
      entries := entries + [(dbs[k].id, "databases/" + name.value)];
      assert dbs[..k + 1] == dbs[..k] + [dbs[k]] && dumps[..k + 1] == dumps[..k] + [dumps[k]];
      assert FileNames(dbs[..k + 1]) == FileNames(dbs[..k]) + [name.value];
    }
    assert dbs[..|dbs|] == dbs && dumps[..|dumps|] == dumps;
    return Ok((staging, entries));
  }

  /** The volume half: staging/volumes, next to what is there. */
  method StageVolumes(before: Disk, volumes: seq<string>, tars: seq<Dump>) returns (r: Result<Disk, Failure>)
    requires |volumes| == |tars| && AllNamed(volumes)
    requires Flat(before) && Only(before, {"databases"})
    ensures r.Ok? <==> AllGiven(tars)
    ensures r.Ok? ==>
      && Flat(r.value) && Holds(r.value, "volumes", TarNames(volumes), tars)
      && (forall p :: p in before ==> p in r.value && r.value[p] == before[p])
      && ["manifest.json"] !in r.value
  {
    var staging := before;
    if volumes == [] { return Ok(staging); }
    PutFolder(staging, "volumes");
    staging := staging[["volumes"] := Dir];
    for k := 0 to |volumes|
      invariant AllGiven(tars[..k])
      invariant Flat(staging) && ["volumes"] in staging && staging[["volumes"]] == Dir
      invariant Only(staging, {"databases", "volumes"})
      invariant forall p :: p in before ==> p in staging && staging[p] == before[p]
      invariant Holds(staging, "volumes", TarNames(volumes[..k]), tars[..k])
    {
      if tars[k].None? { return Err(VolumeFailed(volumes[k])); }
      TarNameIsPlain(volumes[k]);
      PutFlat(staging, "volumes", volumes[k] + ".tar.gz", tars[k].value);
      PutHolds(staging, "volumes", TarNames(volumes[..k]), tars[..k], volumes[k] + ".tar.gz", tars[k].value);
      staging := staging[["volumes", volumes[k] + ".tar.gz"] := File(tars[k].value)];
      assert volumes[..k + 1] == volumes[..k] + [volumes[k]] && tars[..k + 1] == tars[..k] + [tars[k]];
      assert TarNames(volumes[..k + 1]) == TarNames(volumes[..k]) + [volumes[k] + ".tar.gz"];
    }
    assert volumes[..|volumes|] == volumes && tars[..|tars|] == tars;
    return Ok(staging);
  }

  /** Backup up to the packing; `json` is the encoded manifest. */
  method Backup(dbs: seq<DatabaseSpec>, dumps: seq<Dump>, volumes: seq<string>, tars: seq<Dump>, json: seq<byte>)
    returns (r: Result<(Disk, Manifest), Failure>)
    requires |dbs| == |dumps| && |volumes| == |tars|
    ensures r.Ok? <==> AllNamed(volumes) && AllDumpable(dbs) && AllGiven(dumps) && AllGiven(tars)
    ensures r.Ok? ==>
      && Staged(r.value.0, dbs, dumps, volumes, tars)
      && ["manifest.json"] in r.value.0 && r.value.0[["manifest.json"]] == File(json)
      && r.value.1.volumes == volumes && |r.value.1.databases| == |dbs|
      && (forall i :: 0 <= i < |dbs| ==> r.value.1.databases[i] == (dbs[i].id, "databases/" + FileName(dbs[i])))
  {
    for k := 0 to |volumes|
      invariant AllNamed(volumes[..k])
    {
      var ok := ValidDockerName(volumes[k]);
      if !ok { return Err(BadVolume(volumes[k])); }
    }
    assert volumes[..|volumes|] == volumes;
    var staged := StageDatabases(dbs, dumps);
    if staged.Err? { return Err(staged.error); }
    var both := StageVolumes(staged.value.0, volumes, tars);
    if both.Err? { return Err(both.error); }
    var staging := both.value[["manifest.json"] := File(json)];
    PutManifest(both.value, json);
    HoldsInMore(staged.value.0, staging, "databases", FileNames(dbs), dumps);
    HoldsInMore(both.value, staging, "volumes", TarNames(volumes), tars);
    return Ok((staging, Manifest(staged.value.1, volumes)));
  }

  /** What Backup leaves in the staging directory. */
  ghost predicate Staged(staging: Disk, dbs: seq<DatabaseSpec>, dumps: seq<Dump>, volumes: seq<string>, tars: seq<Dump>) {
    && AllDumpable(dbs) && AllNamed(volumes) && Flat(staging)
    && Holds(staging, "databases", FileNames(dbs), dumps)
    && Holds(staging, "volumes", TarNames(volumes), tars)
  }

  // ── restore ─────────────────────────────────────────────────────────

  /** Restore after the extraction: feed every dump and every volume to docker, in order; `works`
      says which replays succeed. The result is what was fed. */
  method Restore(disk: Disk, dbs: seq<DatabaseSpec>, volumes: seq<string>, works: (Path) -> bool)
    returns (r: Result<(seq<Node>, seq<Node>), Failure>)
    ensures r.Ok? ==>
      && AllNamed(volumes) && AllDumpable(dbs) && |r.value.0| == |dbs| && |r.value.1| == |volumes|
      && (forall i :: 0 <= i < |dbs| ==>
            var p := ["databases", FileName(dbs[i])]; p in disk && works(p) && r.value.0[i] == disk[p])
      && (forall i :: 0 <= i < |volumes| ==>
            var p := ["volumes", volumes[i] + ".tar.gz"]; p in disk && works(p) && r.value.1[i] == disk[p])
    ensures r.Err? && r.error.Missing? ==> r.error.path !in disk
    ensures AllNamed(volumes) && AllDumpable(dbs)
      && (forall i :: 0 <= i < |dbs| ==> var p := ["databases", FileName(dbs[i])]; p in disk && works(p))
      && (forall i :: 0 <= i < |volumes| ==> var p := ["volumes", volumes[i] + ".tar.gz"]; p in disk && works(p))
      ==> r.Ok?
  {
    for k := 0 to |volumes|
      invariant AllNamed(volumes[..k])
    {
      var ok := ValidDockerName(volumes[k]);
      if !ok {
        assert !DockerName(volumes[k]);
        return Err(BadVolume(volumes[k]));
      }
    }
    assert volumes[..|volumes|] == volumes;
    var databases: seq<Node> := [];
    for k := 0 to |dbs|
      invariant |databases| == k
      invariant forall i :: 0 <= i < k ==>
        && Dumpable(dbs[i])
        && var p := ["databases", FileName(dbs[i])]; p in disk && works(p) && databases[i] == disk[p]
    {
      var name := DumpFileName(dbs[k]);
      if name.None? { return Err(BadDatabase(dbs[k].id)); }
      var p := ["databases", name.value];
      if p !in disk { return Err(Missing(p)); }
      if !works(p) { return Err(ReplayFailed(p)); }
      databases := databases + [disk[p]];
    }
    var restored: seq<Node> := [];
    for k := 0 to |volumes|
      invariant |restored| == k
      invariant forall i :: 0 <= i < k ==>
        var p := ["volumes", volumes[i] + ".tar.gz"]; p in disk && works(p) && restored[i] == disk[p]
    {
      var p := ["volumes", volumes[k] + ".tar.gz"];
      if p !in disk { return Err(Missing(p)); }
      if !works(p) { return Err(ReplayFailed(p)); }
      restored := restored + [disk[p]];
    }
    return Ok((databases, restored));
  }

  // ── the two together ────────────────────────────────────────────────

  ghost predicate DistinctIds(dbs: seq<DatabaseSpec>) {
    forall i, j :: 0 <= i < j < |dbs| ==> dbs[i].id != dbs[j].id
  }

  ghost predicate DistinctNames(names: seq<string>) {
    forall i, j :: 0 <= i < j < |names| ==> names[i] != names[j]
  }

  /** Under `folder`, every name holds its dump. */
  ghost predicate HoldsAll(disk: Disk, folder: string, names: seq<string>, dumps: seq<Dump>) {
    |names| == |dumps| && forall i :: 0 <= i < |names| ==> HoldsFile(disk, folder, names[i], dumps[i])
  }

  lemma IdsGiveNames(dbs: seq<DatabaseSpec>)
    requires AllDumpable(dbs) && DistinctIds(dbs)
    ensures DistinctNames(FileNames(dbs))
  {
    forall i, j | 0 <= i < j < |dbs| ensures FileNames(dbs)[i] != FileNames(dbs)[j] {
      FileNameIsInjective(dbs[i], dbs[j]);
    }
  }

  lemma VolumesGiveNames(volumes: seq<string>)
    requires DistinctNames(volumes)
    ensures DistinctNames(TarNames(volumes))
  {
    forall i, j | 0 <= i < j < |volumes| ensures TarNames(volumes)[i] != TarNames(volumes)[j] {
      assert volumes[i] == TarNames(volumes)[i][..|TarNames(volumes)[i]| - 7];
      assert volumes[j] == TarNames(volumes)[j][..|TarNames(volumes)[j]| - 7];
    }
  }

  lemma DistinctHoldsAll(staging: Disk, folder: string, names: seq<string>, dumps: seq<Dump>)
    requires Holds(staging, folder, names, dumps) && DistinctNames(names)
    ensures HoldsAll(staging, folder, names, dumps)
  {
    forall i | 0 <= i < |names|
      ensures HoldsFile(staging, folder, names[i], dumps[i])
    {
      assert LastUse(names, i);
    }
  }

  /** MAIN RESULT. Whatever was backed up under distinct ids and volume names is what Restore finds and
      feeds back, through packing, transfer and unpacking, in whatever order the walk went, as
      long as the archive fits the restore budget. */
  lemma RestoreFindsWhatBackupWrote(dir: Path, staging: Disk, order: seq<Path>, dbs: seq<DatabaseSpec>, dumps: seq<Dump>,
                                    volumes: seq<string>, tars: seq<Dump>)
    requires dir != [] && Paths.Proper(dir) && Staged(staging, dbs, dumps, volumes, tars) && Lists(staging, order)
    requires DistinctIds(dbs) && DistinctNames(volumes) && Fits(0, Packed(staging, order))
    ensures var s := Untar(dir, Packed(staging, order), START);
            && s.error.None?
            && HoldsAll(s.disk, "databases", FileNames(dbs), dumps)
            && HoldsAll(s.disk, "volumes", TarNames(volumes), tars)
  {
    FlatIsTidy(staging);
    RebuildsExactlyWhenFits(dir, staging, order);
    IdsGiveNames(dbs);
    VolumesGiveNames(volumes);
    DistinctHoldsAll(staging, "databases", FileNames(dbs), dumps);
    DistinctHoldsAll(staging, "volumes", TarNames(volumes), tars);
  }
}
