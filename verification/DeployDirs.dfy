/**
 The application directory across deploys (apps/agent/internal/poller/poller.go):
 a git deploy moves the directory aside, fills a new one, and moves the old one back
 when the build or the health check fails.

 A deploy is described by what the operating system and docker answer; `Trace` lists
 every state the two directories pass through, so that a crash is a prefix of it.
 */
module DeployDirs {
  import opened Wrappers

  /** The files of a directory, by relative path. */
  datatype Tree = Tree(files: map<string, string>)

  const EMPTY := Tree(map[])

  datatype Disk = Disk(dir: Option<Tree>, prev: Option<Tree>)

  /** os.RemoveAll of an existing directory: the contents it passes through, and what it leaves. */
  datatype Removal = Removal(partials: seq<Tree>, rest: Option<Tree>)

  /** The answers a deploy meets, in the order it meets them. */
  datatype Deploy = Deploy(
    git: bool,
    stale: Removal,          // of an old snapshot
    movesAside: bool,        // rename(dir, dir.prev)
    wipe: Removal,           // of dir, when the rename was refused
    writes: seq<Tree>,       // successive contents of dir while cloning and writing files
    built: bool,             // up to and including compose up
    healthy: bool,
    broken: Removal,         // of the failed version
    movesBack: bool,         // rename(dir.prev, dir)
    spent: Removal)          // of the snapshot, after success

  /** A state on disk, and whether the new version had passed its checks by then. */
  datatype Moment = Moment(disk: Disk, passed: bool)

  // ── file system calls ───────────────────────────────────────────────

  function MkdirAll(tree: Option<Tree>): Option<Tree> {
    if tree.Some? then tree else Some(EMPTY)
  }

  function RemoveAll(tree: Option<Tree>, r: Removal): Option<Tree> {
    if tree.None? then None else r.rest
  }

  /** os.Rename of a directory, which refuses any directory as its target. */
  predicate Renames(source: Option<Tree>, target: Option<Tree>, allowed: bool) {
    source.Some? && allowed && target.None?
  }

  function InDir(disk: Disk, contents: seq<Tree>, passed: bool): seq<Moment> {
    seq(|contents|, i requires 0 <= i < |contents| => Moment(disk.(dir := Some(contents[i])), passed))
  }

  function InPrev(disk: Disk, contents: seq<Tree>, passed: bool): seq<Moment> {
    seq(|contents|, i requires 0 <= i < |contents| => Moment(disk.(prev := Some(contents[i])), passed))
  }

  /** The states RemoveAll(dir.prev) goes through, and those of RemoveAll(dir). */
  function RemovingPrev(disk: Disk, r: Removal, passed: bool): seq<Moment> {
    if disk.prev.None? then [] else InPrev(disk, r.partials, passed) + [Moment(disk.(prev := r.rest), passed)]
  }

  function RemovingDir(disk: Disk, r: Removal, passed: bool): seq<Moment> {
    if disk.dir.None? then [] else InDir(disk, r.partials, passed) + [Moment(disk.(dir := r.rest), passed)]
  }

  function End(disk: Disk, moments: seq<Moment>): Disk {
    if moments == [] then disk else moments[|moments| - 1].disk
  }

  // ── the phases of a deploy ──────────────────────────────────────────

  /** snapshotAppDir, on a directory that exists. */
  function Snapshot(disk: Disk, d: Deploy): seq<Moment> {
    var cleared := disk.(prev := RemoveAll(disk.prev, d.stale));
    RemovingPrev(disk, d.stale, false)
    + if Snapped(disk, d) then [Moment(Disk(None, disk.dir), false)] else RemovingDir(cleared, d.wipe, false)
  }

  predicate Snapped(disk: Disk, d: Deploy) {
    d.git && Renames(disk.dir, RemoveAll(disk.prev, d.stale), d.movesAside)
  }

  function Preparing(disk: Disk, d: Deploy): seq<Moment> {
    var made := disk.(dir := MkdirAll(disk.dir));
    var aside := if d.git then Snapshot(made, d) else [];
    var empty := End(made, aside);
    [Moment(made, false)] + aside + [Moment(empty.(dir := MkdirAll(empty.dir)), false)]
  }

  /** Everything up to `compose up`. */
  function Building(disk: Disk, d: Deploy): seq<Moment> {
    var preparing := Preparing(disk, d);
    preparing + InDir(End(disk, preparing), d.writes, false)
  }

  /** The health check only guards a deploy that has something to go back to. */
  predicate Succeeds(disk: Disk, d: Deploy) {
    d.built && (Snapped(disk.(dir := MkdirAll(disk.dir)), d) ==> d.healthy)
  }

  /** swapBackSnapshot. */
  function SwapBack(disk: Disk, d: Deploy): seq<Moment> {
    var cleared := disk.(dir := RemoveAll(disk.dir, d.broken));
    RemovingDir(disk, d.broken, false)
    + if Renames(cleared.prev, cleared.dir, d.movesBack) then [Moment(Disk(cleared.prev, None), false)] else []
  }

  function Closing(built: Disk, snapped: bool, succeeds: bool, d: Deploy): seq<Moment> {
    if !snapped then []
    else if succeeds then RemovingPrev(built, d.spent, true)
    else SwapBack(built, d)
  }

  /** Every state of the disk during the deploy, in order; never empty. */
  function Trace(disk: Disk, d: Deploy): (moments: seq<Moment>)
    ensures moments != []
  {
    var building := Building(disk, d);
    building + Closing(End(disk, building), Snapped(disk.(dir := MkdirAll(disk.dir)), d), Succeeds(disk, d), d)
  }

  function After(disk: Disk, d: Deploy): Disk {
    End(disk, Trace(disk, d))
  }

  function AfterAll(disk: Disk, deploys: seq<Deploy>): Disk
    decreases |deploys|
  {
    if deploys == [] then disk else AfterAll(After(disk, deploys[0]), deploys[1..])
  }

  // ── what a deploy leaves behind ─────────────────────────────────────

  /** The operating system refuses nothing. */
  predicate Smooth(d: Deploy) {
    && d.movesAside && d.movesBack
    && d.stale.rest.None? && d.wipe.rest.None? && d.broken.rest.None? && d.spent.rest.None?
  }

  /** The tree the deploy puts in place. */
  function Deployed(d: Deploy, before: Tree): Tree {
    if d.writes != [] then d.writes[|d.writes| - 1] else if d.git then EMPTY else before
  }

  function Content(disk: Disk): Tree {
    if disk.dir.Some? then disk.dir.value else EMPTY
  }

  /** The tree of the latest successful git deploy, over whatever in-place deploys wrote. */
  function Latest(tree: Tree, deploys: seq<Deploy>): Tree
    decreases |deploys|
  {
    if deploys == [] then tree
    else
      var d := deploys[0];
      Latest(if d.git && !(d.built && d.healthy) then tree else Deployed(d, tree), deploys[1..])
  }

  lemma EndOf(disk: Disk, a: seq<Moment>, b: seq<Moment>)
    ensures End(disk, a + b) == if b == [] then End(disk, a) else b[|b| - 1].disk
  {
  }

  lemma BuildingEnds(disk: Disk, d: Deploy)
    requires Smooth(d)
    ensures End(disk, Building(disk, d)) ==
              Disk(Some(Deployed(d, Content(disk))), if d.git then Some(Content(disk)) else disk.prev)
  {
    var made := disk.(dir := MkdirAll(disk.dir));
    var aside := if d.git then Snapshot(made, d) else [];
    var empty := End(made, aside);
    var ready := empty.(dir := MkdirAll(empty.dir));
    assert d.git ==> empty == Disk(None, made.dir);
    EndOf(disk, [Moment(made, false)] + aside + [Moment(ready, false)], InDir(ready, d.writes, false));
  }

  lemma ClosingEnds(disk: Disk, built: Disk, d: Deploy, succeeds: bool)
    requires Smooth(d) && built.dir.Some? && built.prev.Some?
    ensures Closing(built, true, succeeds, d) != []
    ensures End(disk, Closing(built, true, succeeds, d)) == Disk(if succeeds then built.dir else built.prev, None)
  {
  }

  lemma SmoothDeploy(disk: Disk, d: Deploy)
    requires Smooth(d)
    ensures var failed := d.git && !(d.built && d.healthy);
            After(disk, d) == Disk(Some(if failed then Content(disk) else Deployed(d, Content(disk))),
                                   if d.git then None else disk.prev)
  {
    var building := Building(disk, d);
    var built := End(disk, building);
    BuildingEnds(disk, d);
    if d.git {
      ClosingEnds(disk, built, d, Succeeds(disk, d));
      EndOf(disk, building, Closing(built, true, Succeeds(disk, d), d));
    } else {
      assert building + [] == building;
    }
  }

  /** MAIN RESULT. Over any sequence of completed deploys that the operating system lets through, the
      directory holds the tree of the latest successful one, and one git deploy is enough for
      no .prev to remain. */
  lemma {:induction false} LatestDeployIsInPlace(disk: Disk, deploys: seq<Deploy>)
    requires forall d :: d in deploys ==> Smooth(d)
    requires deploys != []
    ensures AfterAll(disk, deploys) == Disk(Some(Latest(Content(disk), deploys)),
              if exists d :: d in deploys && d.git then None else disk.prev)
    decreases |deploys|
  {
    var d, rest := deploys[0], deploys[1..];
    SmoothDeploy(disk, d);
    assert forall e :: e in deploys <==> e == d || e in rest;
    if rest != [] { LatestDeployIsInPlace(After(disk, d), rest); }
  }

  // ── at every moment ─────────────────────────────────────────────────

  predicate Keeps(disk: Disk, tree: Tree) {
    disk.dir == Some(tree) || disk.prev == Some(tree)
  }

  /** The tree is in dir or in dir.prev until the new version has passed its checks. */
  ghost predicate IntactUntilPassed(moments: seq<Moment>, tree: Tree) {
    forall m :: m in moments ==> m.passed || Keeps(m.disk, tree)
  }

  lemma BuildingKeeps(disk: Disk, d: Deploy)
    requires Snapped(disk.(dir := MkdirAll(disk.dir)), d)
    ensures IntactUntilPassed(Building(disk, d), Content(disk))
    ensures End(disk, Building(disk, d)).prev == Some(Content(disk))
  {
    var made := disk.(dir := MkdirAll(disk.dir));
    var aside := Snapshot(made, d);
    var ready := Disk(Some(EMPTY), made.dir);
    assert End(made, aside) == Disk(None, made.dir);
    assert Building(disk, d) == [Moment(made, false)] + aside + [Moment(ready, false)] + InDir(ready, d.writes, false);
    EndOf(disk, [Moment(made, false)] + aside + [Moment(ready, false)], InDir(ready, d.writes, false));
    assert IntactUntilPassed(aside, Content(disk));
    assert IntactUntilPassed(InDir(ready, d.writes, false), Content(disk));
  }

  lemma ClosingKeeps(built: Disk, tree: Tree, d: Deploy, succeeds: bool)
    requires built.prev == Some(tree)
    ensures IntactUntilPassed(Closing(built, true, succeeds, d), tree)
  {
  }

  /** MAIN RESULT. When the snapshot was taken, the previous tree is whole at every moment until the new
      version passes, whatever fails afterwards, the way back included. */
  lemma PreviousTreeIsIntact(disk: Disk, d: Deploy)
    requires Snapped(disk.(dir := MkdirAll(disk.dir)), d)
    ensures IntactUntilPassed(Trace(disk, d), Content(disk))
  {
    BuildingKeeps(disk, d);
    ClosingKeeps(End(disk, Building(disk, d)), Content(disk), d, Succeeds(disk, d));
  }

  /** MAIN RESULT. With every removal complete, that protection holds exactly when the first
      rename is let through: the fallback wipes the only copy. */
  lemma IntactExactlyWhenMovedAside(disk: Disk, d: Deploy)
    requires d.git && d.stale.rest.None? && d.wipe.rest.None? && Content(disk) != EMPTY
    ensures IntactUntilPassed(Trace(disk, d), Content(disk)) <==> d.movesAside
  {
    var made := disk.(dir := MkdirAll(disk.dir));
    if d.movesAside {
      PreviousTreeIsIntact(disk, d);
    } else {
      var aside := Snapshot(made, d);
      var wiped := RemovingDir(made.(prev := None), d.wipe, false);
      assert aside == RemovingPrev(made, d.stale, false) + wiped;
      assert wiped[|wiped| - 1].disk == Disk(None, None);
      var lost := Moment(Disk(Some(EMPTY), None), false);
      var building := Building(disk, d);
      assert building[|aside| + 1] == lost;
      assert Trace(disk, d)[|aside| + 1] == lost;
    }
  }

  /** A git deploy always has something to go back to: the directory is created before the
      snapshot looks for it, so the "first deploy" the code speaks of is never seen. */
  lemma FirstDeployHasSnapshot(d: Deploy)
    requires d.git && d.movesAside
    ensures Snapped(Disk(None, None).(dir := MkdirAll(None)), d)
    ensures Smooth(d) && d.built && !d.healthy ==> After(Disk(None, None), d) == Disk(Some(EMPTY), None)
  {
    if Smooth(d) { SmoothDeploy(Disk(None, None), d); }
  }

  // ── crashes ─────────────────────────────────────────────────────────

  /** The moment of the first rename: after the directory is made and an old snapshot removed. */
  function MovedAsideAt(disk: Disk, d: Deploy): nat {
    1 + if disk.prev.None? then 0 else |d.stale.partials| + 1
  }

  /** The moment of the rename back, if there is one: after the clone, the writes and the removal of the
      failed version. */
  function MovedBackAt(disk: Disk, d: Deploy): Option<nat> {
    if !Succeeds(disk, d) && Renames(Some(Content(disk)), d.broken.rest, d.movesBack)
    then Some(MovedAsideAt(disk, d) + 2 + |d.writes| + |d.broken.partials| + 1)
    else None
  }

  /** What the deploy itself has put in dir `i` moments after the first rename. */
  function OwnContent(disk: Disk, d: Deploy, i: nat): Option<Tree> {
    if i == 0 then None
    else if i == 1 then Some(EMPTY)
    else if i - 2 < |d.writes| then Some(d.writes[i - 2])
    else if Succeeds(disk, d) then Some(Deployed(d, EMPTY))
    else if i - 2 - |d.writes| < |d.broken.partials| then Some(d.broken.partials[i - 2 - |d.writes|])
    else d.broken.rest
  }

  lemma BuildingOf(disk: Disk, d: Deploy)
    requires Snapped(disk.(dir := MkdirAll(disk.dir)), d)
    ensures var made := disk.(dir := MkdirAll(disk.dir));
            var ready := Disk(Some(EMPTY), made.dir);
            && Building(disk, d) == [Moment(made, false)] + RemovingPrev(made, d.stale, false)
                 + [Moment(Disk(None, made.dir), false)] + [Moment(ready, false)] + InDir(ready, d.writes, false)
            && End(disk, Building(disk, d)) == Disk(Some(Deployed(d, EMPTY)), Some(Content(disk)))
  {
    var made := disk.(dir := MkdirAll(disk.dir));
    var ready := Disk(Some(EMPTY), made.dir);
    var removing := RemovingPrev(made, d.stale, false);
    assert Snapshot(made, d) == removing + [Moment(Disk(None, made.dir), false)];
    assert End(made, Snapshot(made, d)) == Disk(None, made.dir);
    Regroup([Moment(made, false)], removing, [Moment(Disk(None, made.dir), false)], [Moment(ready, false)]);
    assert End(disk, Preparing(disk, d)) == ready;
    EndOf(disk, Preparing(disk, d), InDir(ready, d.writes, false));
  }

  lemma DirWhileBuilding(disk: Disk, d: Deploy, k: nat)
    requires Snapped(disk.(dir := MkdirAll(disk.dir)), d) && k < |Building(disk, d)|
    ensures |Building(disk, d)| == MovedAsideAt(disk, d) + 2 + |d.writes|
    ensures Building(disk, d)[k].disk.dir ==
              if k < MovedAsideAt(disk, d) then Some(Content(disk)) else OwnContent(disk, d, k - MovedAsideAt(disk, d))
  {
    BuildingOf(disk, d);
    var made := disk.(dir := MkdirAll(disk.dir));
    var at := MovedAsideAt(disk, d);
    var removing := RemovingPrev(made, d.stale, false);
    assert |removing| == at - 1;
    if k == 0 {
    } else if k < at {
      assert Building(disk, d)[k] == removing[k - 1];
    } else if k >= at + 2 {
      assert Building(disk, d)[k] == InDir(Disk(Some(EMPTY), made.dir), d.writes, false)[k - at - 2];
    }
  }

  lemma DirWhileClosing(disk: Disk, d: Deploy, j: nat)
    requires Snapped(disk.(dir := MkdirAll(disk.dir)), d)
    requires j < |Closing(End(disk, Building(disk, d)), true, Succeeds(disk, d), d)|
    ensures Closing(End(disk, Building(disk, d)), true, Succeeds(disk, d), d)[j].disk.dir ==
              if Succeeds(disk, d) then Some(Deployed(d, EMPTY))
              else if j < |d.broken.partials| then Some(d.broken.partials[j])
              else if j == |d.broken.partials| then d.broken.rest
              else Some(Content(disk))
    ensures !Succeeds(disk, d) ==> j <= |d.broken.partials| + 1
    ensures !Succeeds(disk, d) && j == |d.broken.partials| + 1 ==> MovedBackAt(disk, d).Some?
  {
    BuildingOf(disk, d);
  }

  /** Where the old tree is at every moment of a deploy that snapshotted it: in dir before the first rename
      and after the rename back; in between dir holds the deploy's own content. */
  lemma DirAtMoment(disk: Disk, d: Deploy, k: nat)
    requires Snapped(disk.(dir := MkdirAll(disk.dir)), d) && k < |Trace(disk, d)|
    ensures Trace(disk, d)[k].disk.dir ==
              if k < MovedAsideAt(disk, d) || MovedBackAt(disk, d) == Some(k) then Some(Content(disk))
              else OwnContent(disk, d, k - MovedAsideAt(disk, d))
  {
    var building := Building(disk, d);
    DirWhileBuilding(disk, d, 0);
    if k < |building| {
      DirWhileBuilding(disk, d, k);
    } else {
      DirWhileClosing(disk, d, k - |building|);
    }
  }

  /** What dir.prev holds while the old tree is aside: that tree, until a success removes it bit by bit or the rename back
      takes it away. Before, an old snapshot is removed bit by bit. */
  lemma PrevWhileBuilding(disk: Disk, d: Deploy, k: nat)
    requires Snapped(disk.(dir := MkdirAll(disk.dir)), d) && k < |Building(disk, d)|
    ensures Building(disk, d)[k].disk.prev ==
              if k >= MovedAsideAt(disk, d) then Some(Content(disk))
              else if k == 0 then disk.prev
              else if k - 1 < |d.stale.partials| then Some(d.stale.partials[k - 1])
              else None
  {
    BuildingOf(disk, d);
    var made := disk.(dir := MkdirAll(disk.dir));
    var at := MovedAsideAt(disk, d);
    var removing := RemovingPrev(made, d.stale, false);
    assert |removing| == at - 1;
    if k == 0 {
    } else if k < at {
      assert Building(disk, d)[k] == removing[k - 1];
    } else if k >= at + 2 {
      assert Building(disk, d)[k] == InDir(Disk(Some(EMPTY), made.dir), d.writes, false)[k - at - 2];
    }
  }

  lemma PrevWhileClosing(disk: Disk, d: Deploy, j: nat)
    requires Snapped(disk.(dir := MkdirAll(disk.dir)), d)
    requires j < |Closing(End(disk, Building(disk, d)), true, Succeeds(disk, d), d)|
    ensures Closing(End(disk, Building(disk, d)), true, Succeeds(disk, d), d)[j].disk.prev ==
              if Succeeds(disk, d) then (if j < |d.spent.partials| then Some(d.spent.partials[j]) else d.spent.rest)
              else if j <= |d.broken.partials| then Some(Content(disk))
              else None
    ensures Succeeds(disk, d) ==> j <= |d.spent.partials|
  {
    BuildingOf(disk, d);
  }

  /** MAIN RESULT. Where the snapshot is at every moment: in dir.prev from the first rename to the rename back, and after a
      success until its removal, which goes through the contents the operating system leaves. */
  lemma PrevAtMoment(disk: Disk, d: Deploy, k: nat)
    requires Snapped(disk.(dir := MkdirAll(disk.dir)), d) && k < |Trace(disk, d)|
    ensures var built := MovedAsideAt(disk, d) + 2 + |d.writes|;
            Trace(disk, d)[k].disk.prev ==
              if k < MovedAsideAt(disk, d) then
                (if k == 0 then disk.prev else if k - 1 < |d.stale.partials| then Some(d.stale.partials[k - 1]) else None)
              else if k < built then Some(Content(disk))
              else if Succeeds(disk, d) then
                (if k - built < |d.spent.partials| then Some(d.spent.partials[k - built]) else d.spent.rest)
              else if MovedBackAt(disk, d) == Some(k) then None
              else Some(Content(disk))
  {
    var building := Building(disk, d);
    DirWhileBuilding(disk, d, 0);
    if k < |building| {
      PrevWhileBuilding(disk, d, k);
    } else {
      PrevWhileClosing(disk, d, k - |building|);
      DirWhileClosing(disk, d, k - |building|);
    }
  }

  /** MAIN RESULT. The agent dies at moment `k` of a deploy that took its snapshot, and the next deploy fails
      and rolls back. The old tree survives if and only if `k` lies before the first rename or at the rename
      back, or the deploy itself had put that very tree in dir by then: in between the second deploy's snapshot
      throws away the first one's. */
  lemma SurvivesCrashExactlyWhen(disk: Disk, first: Deploy, k: nat, second: Deploy)
    requires Snapped(disk.(dir := MkdirAll(disk.dir)), first) && k < |Trace(disk, first)| && Content(disk) != EMPTY
    requires Smooth(second) && second.git && !(second.built && second.healthy)
    ensures After(Trace(disk, first)[k].disk, second).dir == Some(Content(disk)) <==>
              || k < MovedAsideAt(disk, first)
              || MovedBackAt(disk, first) == Some(k)
              || OwnContent(disk, first, k - MovedAsideAt(disk, first)) == Some(Content(disk))
  {
    DirAtMoment(disk, first, k);
    SmoothDeploy(Trace(disk, first)[k].disk, second);
  }

  /** For a deploy that never has the old tree as its own content, the rename back is the last moment: so the
      tree is lost by a crash at any moment from the first rename to just before the end. */
  lemma LostBetweenTheRenames(disk: Disk, first: Deploy, k: nat, second: Deploy)
    requires Snapped(disk.(dir := MkdirAll(disk.dir)), first) && Content(disk) != EMPTY
    requires Content(disk) !in first.writes && Content(disk) !in first.broken.partials && first.broken.rest.None?
    requires Smooth(second) && second.git && !(second.built && second.healthy)
    requires MovedAsideAt(disk, first) <= k < |Trace(disk, first)| - 1
    ensures After(Trace(disk, first)[k].disk, second).dir != Some(Content(disk))
  {
    SurvivesCrashExactlyWhen(disk, first, k, second);
    BuildingOf(disk, first);
    DirWhileBuilding(disk, first, 0);
  }

  /** A rollback whose rename is refused leaves the good tree in dir.prev, and the next
      deploy, even a failing one, deletes it. */
  lemma RefusedRestoreIsLostByTheNextDeploy(disk: Disk, first: Deploy, second: Deploy)
    requires first.git && first.movesAside && first.stale.rest.None? && first.broken.rest.None? && !first.movesBack
    requires !(first.built && first.healthy) && Content(disk) != EMPTY
    requires Smooth(second) && second.git && !(second.built && second.healthy)
    ensures After(disk, first) == Disk(None, Some(Content(disk)))
    ensures After(After(disk, first), second) == Disk(Some(EMPTY), None)
  {
    var building := Building(disk, first);
    BuildingKeeps(disk, first);
    var built := End(disk, building);
    BuiltHasDir(disk, first);
    EndOf(disk, building, SwapBack(built, first));
    SmoothDeploy(After(disk, first), second);
  }

  lemma BuiltHasDir(disk: Disk, d: Deploy)
    ensures End(disk, Building(disk, d)).dir.Some?
  {
    var made := disk.(dir := MkdirAll(disk.dir));
    var aside := if d.git then Snapshot(made, d) else [];
    var empty := End(made, aside);
    var ready := empty.(dir := MkdirAll(empty.dir));
    EndOf(disk, [Moment(made, false)] + aside + [Moment(ready, false)], InDir(ready, d.writes, false));
  }

  // ── the agent's procedures ──────────────────────────────────────────

  class AppDir {
    var dir: Option<Tree>
    var prev: Option<Tree>
    ghost var seen: seq<Moment>

    ghost function Now(): Disk
      reads this
    {
      Disk(dir, prev)
    }

    constructor (tree: Option<Tree>, stale: Option<Tree>)
      ensures Now() == Disk(tree, stale) && seen == []
    {
      dir, prev, seen := tree, stale, [];
    }

    /** snapshotAppDir. */
    method SnapshotAppDir(d: Deploy) returns (snapped: bool, failed: bool)
      modifies this
      ensures snapped == Renames(old(dir), RemoveAll(old(prev), d.stale), d.movesAside)
      ensures failed <==> old(dir).Some? && !snapped
      ensures snapped ==> Now() == Disk(None, old(dir))
      ensures failed ==> dir == old(dir) && prev == RemoveAll(old(prev), d.stale)
      ensures old(dir).None? ==> Now() == old(Now()) && seen == old(seen)
      ensures old(dir).Some? ==>
        seen == old(seen) + RemovingPrev(old(Now()), d.stale, false) + if snapped then [Moment(Now(), false)] else []
    {
      snapped, failed := false, false;
      if dir.None? { return; }
      seen := seen + RemovingPrev(Now(), d.stale, false);
      if prev.Some? { prev := d.stale.rest; }
      if d.movesAside && prev.None? {
        dir, prev := None, dir;
        seen := seen + [Moment(Now(), false)];
        snapped := true;
      } else {
        failed := true;
      }
    }

    /** swapBackSnapshot. */
    method SwapBackSnapshot(d: Deploy) returns (restored: bool)
      modifies this
      ensures restored == Renames(old(prev), RemoveAll(old(dir), d.broken), d.movesBack)
      ensures Now() == (if restored then Disk(old(prev), None) else Disk(RemoveAll(old(dir), d.broken), old(prev)))
      ensures seen == old(seen) + SwapBack(old(Now()), d)
    {
      seen := seen + RemovingDir(Now(), d.broken, false);
      if dir.Some? { dir := d.broken.rest; }
      restored := prev.Some? && d.movesBack && dir.None?;
      if restored {
        dir, prev := prev, None;
        seen := seen + [Moment(Now(), false)];
      }
    }

    /** The snapshot, or the historical wipe when the rename is refused. */
    method SetAside(d: Deploy) returns (snapped: bool)
      requires dir.Some? && d.git
      modifies this
      ensures snapped == Snapped(old(Now()), d)
      ensures seen == old(seen) + Snapshot(old(Now()), d) && Now() == End(old(Now()), Snapshot(old(Now()), d))
    {
      ghost var start, stale := Now(), RemovingPrev(Now(), d.stale, false);
      var failed;
      snapped, failed := SnapshotAppDir(d);
      if failed {
        ghost var wiping := RemovingDir(Now(), d.wipe, false);
        dir := d.wipe.rest;
        seen := seen + wiping;
        assert Now() == wiping[|wiping| - 1].disk;
        EndOf(start, stale, wiping);
      } else {
        EndOf(start, stale, [Moment(Now(), false)]);
      }
    }

    /** An empty directory to clone into, the previous one aside; in place for other deploys. */
    method Prepare(d: Deploy) returns (snapped: bool)
      modifies this
      ensures snapped == Snapped(old(Now()).(dir := MkdirAll(old(dir))), d)
      ensures seen == old(seen) + Preparing(old(Now()), d) && Now() == End(old(Now()), Preparing(old(Now()), d))
    {
      snapped := false;
      ghost var start, before := Now(), seen;
      if dir.None? { dir := Some(EMPTY); }
      ghost var made := Now();
      seen := seen + [Moment(made, false)];
      ghost var aside: seq<Moment> := [];
      if d.git {
        aside := Snapshot(made, d);
        snapped := SetAside(d);
      }
      if dir.None? { dir := Some(EMPTY); }
      seen := seen + [Moment(Now(), false)];
      PreparingIs(start, d, made, aside, Now());
      Regroup(before, [Moment(made, false)], aside, [Moment(Now(), false)]);
    }

    /** The clone and every file written after it. */
    method WriteFiles(d: Deploy)
      requires dir.Some?
      modifies this
      ensures seen == old(seen) + InDir(old(Now()), d.writes, false)
      ensures Now() == End(old(Now()), InDir(old(Now()), d.writes, false))
    {
      ghost var ready := Now();
      var i := 0;
      while i < |d.writes|
        invariant 0 <= i <= |d.writes|
        invariant seen == old(seen) + InDir(ready, d.writes, false)[..i]
        invariant Now() == ready.(dir := if i == 0 then ready.dir else Some(d.writes[i - 1]))
      {
        dir := Some(d.writes[i]);
        seen := seen + [Moment(Now(), false)];
        i := i + 1;
      }
    }

    /** Roll back, or drop the snapshot. */
    method Close(d: Deploy, snapped: bool, deployed: bool)
      modifies this
      ensures seen == old(seen) + Closing(old(Now()), snapped, deployed, d)
      ensures Now() == End(old(Now()), Closing(old(Now()), snapped, deployed, d))
    {
      if snapped {
        if deployed {
          seen := seen + RemovingPrev(Now(), d.spent, true);
          if prev.Some? { prev := d.spent.rest; }
        } else {
          var restored := SwapBackSnapshot(d);
        }
      }
    }

    /** runDeploy, as far as the directory goes. */
    method RunDeploy(d: Deploy) returns (deployed: bool)
      modifies this
      ensures deployed == Succeeds(old(Now()), d)
      ensures seen == old(seen) + Trace(old(Now()), d) && Now() == After(old(Now()), d)
    {
      ghost var start, before := Now(), seen;
      var snapped := Prepare(d);
      ghost var preparing, writing := Preparing(start, d), InDir(Now(), d.writes, false);
      WriteFiles(d);
      EndOf(start, preparing, writing);
      deployed := d.built;
      if deployed && snapped { deployed := d.healthy; }
      ghost var closing := Closing(Now(), snapped, deployed, d);
      Close(d, snapped, deployed);
      EndOf(start, preparing + writing, closing);
      Regroup(before, preparing, writing, closing);
    }
  }

  lemma PreparingIs(disk: Disk, d: Deploy, made: Disk, aside: seq<Moment>, ready: Disk)
    requires made == disk.(dir := MkdirAll(disk.dir)) && aside == (if d.git then Snapshot(made, d) else [])
    requires ready == End(made, aside).(dir := MkdirAll(End(made, aside).dir))
    ensures Preparing(disk, d) == [Moment(made, false)] + aside + [Moment(ready, false)]
    ensures End(disk, Preparing(disk, d)) == ready
  {
  }

  lemma Regroup<T>(a: seq<T>, b: seq<T>, c: seq<T>, d: seq<T>)
    ensures a + b + c + d == a + (b + c + d)
  {
  }

  // ── the health check ────────────────────────────────────────────────

  datatype ComposeState = ComposeState(state: string, health: string)

  /** strings.ToLower on ASCII: each capital letter becomes the small letter of the same place in the alphabet. */
  function Lower(s: string): (lower: string)
    ensures |lower| == |s|
    ensures forall i :: 0 <= i < |s| && 'A' <= s[i] <= 'Z' ==> lower[i] as int - 'a' as int == s[i] as int - 'A' as int
    ensures forall i :: 0 <= i < |s| && !('A' <= s[i] <= 'Z') ==> lower[i] == s[i]
  {
    seq(|s|, i requires 0 <= i < |s| => if 'A' <= s[i] <= 'Z' then (s[i] as int + 32) as char else s[i])
  }

  predicate Up(s: ComposeState) {
    Lower(s.state) == "running" && Lower(s.health) != "starting" && Lower(s.health) != "unhealthy"
  }

  predicate Dead(s: ComposeState) {
    Lower(s.state) in {"exited", "dead", "oomkilled"}
  }

  /** evalComposeHealth: both verdicts in one pass, and never both at once. */
  method EvalComposeHealth(states: seq<ComposeState>) returns (allUp: bool, anyDead: bool)
    ensures allUp <==> states != [] && forall i :: 0 <= i < |states| ==> Up(states[i])
    ensures anyDead <==> exists i :: 0 <= i < |states| && Dead(states[i])
    ensures !(allUp && anyDead)
  {
    if states == [] { return false, false; }
    allUp, anyDead := true, false;
    for k := 0 to |states|
      invariant allUp <==> forall i :: 0 <= i < k ==> Up(states[i])
      invariant anyDead <==> exists i :: 0 <= i < k && Dead(states[i])
    {
      var st, h := Lower(states[k].state), Lower(states[k].health);
      if h == "starting" || h == "unhealthy" || st != "running" { allUp := false; }
      if st == "exited" || st == "dead" || st == "oomkilled" { anyDead := true; }
    }
    assert forall i :: 0 <= i < |states| && Up(states[i]) ==> !Dead(states[i]);
  }

  /** What one `docker compose ps` gave before the deadline; None when it failed. */
  type Observation = Option<seq<ComposeState>>

  predicate Healthy(o: Observation) {
    o.Some? && o.value != [] && forall i :: 0 <= i < |o.value| ==> Up(o.value[i])
  }

  predicate Decides(o: Observation) {
    Healthy(o) || (o.Some? && exists i :: 0 <= i < |o.value| && Dead(o.value[i]))
  }

  /** waitForComposeHealthy: the first observation that decides, decides; none is a failure. */
  method WaitForComposeHealthy(observations: seq<Observation>) returns (ok: bool)
    ensures ok <==> exists k :: 0 <= k < |observations| && Healthy(observations[k])
                      && forall j :: 0 <= j < k ==> !Decides(observations[j])
  {
    for k := 0 to |observations|
      invariant forall j :: 0 <= j < k ==> !Decides(observations[j])
    {
      if observations[k].Some? {
        var allUp, anyDead := EvalComposeHealth(observations[k].value);
        if allUp { return true; }
        if anyDead { return false; }
      }
    }
    return false;
  }
}
