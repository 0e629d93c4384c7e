/**
 Backup archives: packing a staging directory, unpacking it under a byte budget
 (apps/agent/internal/tasks/runner.go), and the file names both sides agree on
 (apps/agent/internal/tasks/plans.go).

 An archive is the list of its entries; directories are maps from relative paths.
 */
module Archive {
  import opened Wrappers
  import opened Text
  import Paths = SftpResolve

  newtype byte = x: int | 0 <= x < 256

  type Path = seq<string>

  datatype Node = Dir | File(data: seq<byte>) | Special

  type Disk = map<Path, Node>

  datatype Kind = TypeDir | TypeReg | TypeOther

  /** A torn entry is one inside of which the stream breaks off; `data` is what came before that. */
  datatype Entry = Entry(name: string, kind: Kind, data: seq<byte>, torn: bool)

  const MAX_RESTORE_BYTES: nat := 2 * 1024 * 1024 * 1024

  // ── packing ─────────────────────────────────────────────────────────

  function EntryOf(p: Path, node: Node): Entry {
    match node
    case Dir => Entry(Join(p, '/') + "/", TypeDir, [], false)
    case File(data) => Entry(Join(p, '/'), TypeReg, data, false)
    case Special => Entry(Join(p, '/'), TypeOther, [], false)
  }

  function Parent(p: Path): Path {
    if p == [] then [] else p[..|p| - 1]
  }

  ghost predicate AfterParent(order: seq<Path>, i: nat)
    requires i < |order|
  {
    |order[i]| > 1 ==> Parent(order[i]) in order[..i]
  }

  /** The paths below the directory as filepath.Walk visits them: each once, after its parent. */
  ghost predicate Lists(disk: Disk, order: seq<Path>) {
    && (forall i, j :: 0 <= i < j < |order| ==> order[i] != order[j])
    && (forall p :: p in order <==> p in disk)
    && (forall i {:trigger AfterParent(order, i)} :: 0 <= i < |order| ==> AfterParent(order, i))
  }

  ghost predicate Ordinary(p: Path) {
    p != [] && forall c :: c in p ==> Paths.ProperName(c) && '/' !in c
  }

  ghost predicate HasParent(disk: Disk, p: Path) {
    |p| > 1 ==> Parent(p) in disk && disk[Parent(p)] == Dir
  }

  /** A directory of ordinary names: parents are directories. */
  ghost predicate Tidy(disk: Disk) {
    forall p {:trigger HasParent(disk, p)} :: p in disk ==> Ordinary(p) && HasParent(disk, p)
  }

  function Packed(disk: Disk, order: seq<Path>): seq<Entry>
    requires forall p :: p in order ==> p in disk
  {
    seq(|order|, i requires 0 <= i < |order| => EntryOf(order[i], disk[order[i]]))
  }

  /** tarGzDir: the walk visits the directory itself first, as ".", and skips it. */
  method TarGzDir(disk: Disk, visits: seq<Path>) returns (entries: seq<Entry>)
    requires visits != [] && visits[0] == [] && [] !in disk && Lists(disk, visits[1..])
    ensures entries == Packed(disk, visits[1..])
  {
    entries := [];
    for i := 0 to |visits|
      invariant entries == if i == 0 then [] else Packed(disk, visits[1..])[..i - 1]
    {
      var rel := visits[i];
      if rel != [] {
        assert rel == visits[1..][i - 1] && rel in visits[1..];
        var name := Join(rel, '/');
        match disk[rel] {
          case Dir => entries := entries + [Entry(name + "/", TypeDir, [], false)];
          case File(data) => entries := entries + [Entry(name, TypeReg, data, false)];
          case Special => entries := entries + [Entry(name, TypeOther, [], false)];
        }
      } else {
        assert forall p :: p in visits[1..] ==> p != [];
      }
    }
  }

  // ── where an entry goes ─────────────────────────────────────────────

  /** filepath.Clean of a relative path: leading ".." stay. */
  function CleanRelative(acc: Path, p: seq<string>): Path
    decreases |p|
  {
    if p == [] then acc
    else if p[0] == "" || p[0] == "." then CleanRelative(acc, p[1..])
    else if p[0] == ".." && acc != [] && acc[|acc| - 1] != ".." then CleanRelative(acc[..|acc| - 1], p[1..])
    else CleanRelative(acc + [p[0]], p[1..])
  }

  /** The whole archive is refused, the entry is passed over, or it goes to `rel` below the directory. */
  datatype Placement = Escapes | Skipped | At(rel: Path)

  predicate Rooted(name: string) {
    name != "" && name[0] == '/'
  }

  /** filepath.Clean(name), as components: a rooted name cannot climb. */
  function EntryParts(name: string): Path {
    if Rooted(name) then Paths.Clean(Split(name, '/')) else CleanRelative([], Split(name, '/'))
  }

  function Place(dir: Path, name: string): Placement {
    var target := Paths.Clean(dir + EntryParts(name));
    if !Rooted(name) && EntryParts(name) == [] then Skipped
    else if target == dir then At([])
    else if dir != [] && dir <= target then At(target[|dir|..])
    else Escapes
  }

  /** MAIN RESULT. Whatever an archive names its entries, an entry that is written goes where its own
      cleaned components lead from the directory, and that is below it, by proper components only;
      an entry is refused exactly when they lead outside. */
  lemma PlacedInside(dir: Path, name: string)
    requires Paths.Proper(dir)
    ensures var place, target := Place(dir, name), Paths.Clean(dir + EntryParts(name));
            && (place.At? ==> Paths.Proper(place.rel) && target == dir + place.rel)
            && (dir != [] ==> (place == Escapes <==> !(dir <= target)))
  {
    var parts := EntryParts(name);
    Paths.CleanIsProper([], dir + parts);
    Paths.CleanAppend([], [], dir);
    assert [] + dir == dir && dir + [] == dir;
    if Place(dir, name).At? {
      var rel := Place(dir, name).rel;
      forall c | c in rel ensures Paths.ProperName(c) { assert c in dir + rel; }
    }
  }

  /** The text of an absolute path. */
  function PathText(p: Path): string {
    "/" + Join(p, '/')
  }

  /** strings.HasPrefix */
  predicate HasPrefix(s: string, prefix: string) {
    prefix <= s
  }

  lemma {:induction false} JoinConcat(p: Path, q: Path)
    requires p != [] && q != []
    ensures Join(p + q, '/') == Join(p, '/') + "/" + Join(q, '/')
    decreases |p|
  {
    if |p| == 1 {
      assert (p + q)[1..] == q;
    } else {
      JoinConcat(p[1..], q);
      assert (p + q)[1..] == p[1..] + q;
    }
  }

  lemma {:induction false} JoinPrefix(dir: Path, target: Path)
    requires dir != [] && target != [] && NoSlashes(dir) && NoSlashes(target)
    requires Join(dir, '/') + "/" <= Join(target, '/')
    ensures dir < target
    decreases |dir|
  {
    var d, t := dir[0], target[0];
    var text := Join(dir, '/') + "/";
    assert d in dir && t in target;
    assert text[|d|] == '/' && text[..|d|] == d;
    var whole := Join(target, '/');
    assert forall k :: 0 <= k < |t| ==> t[k] != '/';
    assert whole[|d|] == text[|d|] == '/';
    assert |target| > 1;
    assert whole[|t|] == '/' && whole[..|t|] == t;
    FirstSlash(whole, d, t);
    if |dir| > 1 {
      assert text[|d| + 1..] == Join(dir[1..], '/') + "/" && whole[|t| + 1..] == Join(target[1..], '/');
      forall c | c in dir[1..] ensures '/' !in c { assert c in dir; }
      forall c | c in target[1..] ensures '/' !in c { assert c in target; }
      JoinPrefix(dir[1..], target[1..]);
    }
  }

  ghost predicate NoSlashes(p: Path) {
    forall c :: c in p ==> '/' !in c
  }

  /** Text up to its first slash. */
  lemma FirstSlash(s: string, a: string, b: string)
    requires '/' !in a && '/' !in b && |a| < |s| && |b| < |s|
    requires s[..|a|] == a && s[|a|] == '/' && s[..|b|] == b && s[|b|] == '/'
    ensures a == b
  {
    assert forall k :: 0 <= k < |a| ==> s[k] == a[k] && s[k] != '/';
    assert forall k :: 0 <= k < |b| ==> s[k] == b[k] && s[k] != '/';
  }

  /** The test of the source is on texts: equal, or the directory with a slash as a prefix. On clean paths
      that is the component prefix `Place` uses. */
  lemma TextTestIsPathPrefix(dir: Path, target: Path)
    requires dir != [] && NoSlashes(dir) && NoSlashes(target)
    ensures target == dir || HasPrefix(PathText(target), PathText(dir) + "/") <==> dir <= target
  {
    if dir < target {
      JoinConcat(dir, target[|dir|..]);
      assert dir + target[|dir|..] == target;
    }
    if HasPrefix(PathText(target), PathText(dir) + "/") {
      var text, whole := Join(dir, '/') + "/", Join(target, '/');
      assert (PathText(dir) + "/")[1..] == text && PathText(target)[1..] == whole;
      if target != [] { JoinPrefix(dir, target); }
    }
  }

  // ── unpacking ───────────────────────────────────────────────────────

  datatype Error = EntryEscapes(name: string) | OverBudget | Blocked(rel: Path) | BrokenOff

  datatype Progress = Progress(disk: Disk, total: nat, error: Option<Error>)

  const START := Progress(map[], 0, None)

  /** os.MkdirAll below the directory; None when a file is in the way. */
  function MkdirAll(disk: Disk, p: Path): Option<Disk>
    decreases |p|
  {
    if p == [] then Some(disk)
    else match MkdirAll(disk, Parent(p))
      case None => None
      case Some(made) => if p in made && made[p] != Dir then None else Some(made[p := Dir])
  }

  /** Going on to the next entry fails when the stream broke off inside this one. */
  function GoOn(s: Progress, e: Entry): Progress {
    if e.torn then s.(error := Some(BrokenOff)) else s
  }

  function Extract(dir: Path, s: Progress, e: Entry): Progress {
    match Place(dir, e.name)
    case Skipped => GoOn(s, e)
    case Escapes => s.(error := Some(EntryEscapes(e.name)))
    case At(rel) => ExtractAt(s, rel, e)
  }

  function ExtractAt(s: Progress, rel: Path, e: Entry): Progress {
    match e.kind
    case TypeOther => GoOn(s, e)
    case TypeDir =>
      (match MkdirAll(s.disk, rel)
       case None => s.(error := Some(Blocked(rel)))
       case Some(disk) => GoOn(s.(disk := disk), e))
    case TypeReg => ExtractFile(s, rel, e)
  }

  /** A file over the budget is removed; one that the stream breaks off inside of is kept and not counted. */
  function ExtractFile(s: Progress, rel: Path, e: Entry): Progress {
    match MkdirAll(s.disk, Parent(rel))
    case None => s.(error := Some(Blocked(rel)))
    case Some(disk) =>
      if s.total >= MAX_RESTORE_BYTES then Progress(disk, s.total, Some(OverBudget))
      else if rel == [] || (rel in disk && disk[rel] == Dir) then Progress(disk, s.total, Some(Blocked(rel)))
      else if |e.data| > MAX_RESTORE_BYTES - s.total then Progress(disk - {rel}, s.total, Some(OverBudget))
      else if e.torn then Progress(disk[rel := File(e.data)], s.total, Some(BrokenOff))
      else Progress(disk[rel := File(e.data)], s.total + |e.data|, None)
  }

  /** untarGz: entry after entry until one fails. */
  function Untar(dir: Path, entries: seq<Entry>, s: Progress): Progress
    decreases |entries|
  {
    if entries == [] || s.error.Some? then s else Untar(dir, entries[1..], Extract(dir, s, entries[0]))
  }

  method UntarGz(dir: Path, entries: seq<Entry>) returns (s: Progress)
    ensures s == Untar(dir, entries, START)
  {
    s := START;
    for i := 0 to |entries|
      invariant s.error.None?
      invariant Untar(dir, entries[i..], s) == Untar(dir, entries, START)
    {
      var e := entries[i];
      ghost var next := Extract(dir, s, e);
      assert entries[i..][0] == e && entries[i..][1..] == entries[i + 1..];
      assert Untar(dir, entries[i..], s) == Untar(dir, entries[i + 1..], next);
      var place := Place(dir, e.name);
      if place.Escapes? { return s.(error := Some(EntryEscapes(e.name))); }
      if place.At? {
        if e.kind == TypeDir {
          var made := MkdirAll(s.disk, place.rel);
          if made.None? { return s.(error := Some(Blocked(place.rel))); }
          s := s.(disk := made.value);
        } else if e.kind == TypeReg {
          var made := MkdirAll(s.disk, Parent(place.rel));
          if made.None? { return s.(error := Some(Blocked(place.rel))); }
          var remaining := MAX_RESTORE_BYTES - s.total;
          if remaining <= 0 { return Progress(made.value, s.total, Some(OverBudget)); }
          if place.rel == [] || (place.rel in made.value && made.value[place.rel] == Dir) {
            return Progress(made.value, s.total, Some(Blocked(place.rel)));
          }
          var n := if |e.data| <= remaining + 1 then |e.data| else remaining + 1;   // io.LimitReader
          if n > remaining { return Progress(made.value - {place.rel}, s.total, Some(OverBudget)); }
          assert e.data[..n] == e.data;
          if n == |e.data| && e.torn {   // io.Copy fails
            return Progress(made.value[place.rel := File(e.data[..n])], s.total, Some(BrokenOff));
          }
          s := Progress(made.value[place.rel := File(e.data[..n])], s.total + n, None);
        }
      }
      if e.torn { return s.(error := Some(BrokenOff)); }   // tr.Next fails
    }
    assert entries[|entries|..] == [];
  }

  // ── the budget ──────────────────────────────────────────────────────

  function SizeOf(n: Node): nat {
    if n.File? then |n.data| else 0
  }

  /** The bytes of all files on the disk. */
  ghost function Bytes(disk: Disk): nat
    decreases |disk|
  {
    if disk == map[] then 0 else var p :| p in disk; SizeOf(disk[p]) + Bytes(disk - {p})
  }

  lemma {:induction false} BytesWithout(disk: Disk, p: Path)
    requires p in disk
    ensures Bytes(disk) == SizeOf(disk[p]) + Bytes(disk - {p})
    decreases |disk|
  {
    var q :| q in disk && Bytes(disk) == SizeOf(disk[q]) + Bytes(disk - {q});
    if q != p {
      BytesWithout(disk - {q}, p);
      BytesWithout(disk - {p}, q);
      assert disk - {q} - {p} == disk - {p} - {q};
    }
  }

  lemma BytesOfPut(disk: Disk, p: Path, n: Node)
    ensures Bytes(disk[p := n]) <= Bytes(disk) + SizeOf(n)
  {
    BytesWithout(disk[p := n], p);
    assert disk[p := n] - {p} == disk - {p};
    BytesOfRemoval(disk, p);
  }

  lemma BytesOfRemoval(disk: Disk, p: Path)
    ensures Bytes(disk - {p}) <= Bytes(disk)
  {
    if p in disk { BytesWithout(disk, p); } else { assert disk - {p} == disk; }
  }

  lemma {:induction false} BytesOfMkdirAll(disk: Disk, p: Path)
    ensures MkdirAll(disk, p).Some? ==> Bytes(MkdirAll(disk, p).value) <= Bytes(disk)
    decreases |p|
  {
    if p != [] {
      BytesOfMkdirAll(disk, Parent(p));
      if MkdirAll(disk, Parent(p)).Some? { BytesOfPut(MkdirAll(disk, Parent(p)).value, p, Dir); }
    }
  }

  /** Nothing is on the disk that was not counted, but for the last file of a stream that broke off. */
  ghost predicate WithinBudget(s: Progress) {
    && s.total <= MAX_RESTORE_BYTES && Bytes(s.disk) <= MAX_RESTORE_BYTES
    && (s.error != Some(BrokenOff) ==> Bytes(s.disk) <= s.total)
  }

  lemma ExtractFileInBudget(s: Progress, rel: Path, e: Entry)
    requires WithinBudget(s) && s.error.None?
    ensures WithinBudget(ExtractFile(s, rel, e))
  {
    BytesOfMkdirAll(s.disk, Parent(rel));
    if MkdirAll(s.disk, Parent(rel)).Some? {
      var disk := MkdirAll(s.disk, Parent(rel)).value;
      BytesOfRemoval(disk, rel);
      BytesOfPut(disk, rel, File(e.data));
    }
  }

  lemma {:induction false} UntarInBudget(dir: Path, entries: seq<Entry>, s: Progress)
    requires WithinBudget(s)
    ensures WithinBudget(Untar(dir, entries, s))
    decreases |entries|
  {
    if entries != [] && s.error.None? {
      var e := entries[0];
      if Place(dir, e.name).At? {
        BytesOfMkdirAll(s.disk, Place(dir, e.name).rel);
        ExtractFileInBudget(s, Place(dir, e.name).rel, e);
      }
      UntarInBudget(dir, entries[1..], Extract(dir, s, e));
    }
  }

  /** MAIN RESULT. On any archive whatever, at whatever entry it stops, and inside whatever file the stream breaks
      off, the bytes kept on disk never exceed the budget, and unless it broke off nothing is kept uncounted. */
  lemma NeverOverBudget(dir: Path, entries: seq<Entry>)
    ensures var s := Untar(dir, entries, START);
            && Bytes(s.disk) <= MAX_RESTORE_BYTES && s.total <= MAX_RESTORE_BYTES
            && (s.error != Some(BrokenOff) ==> Bytes(s.disk) <= s.total)
  {
    UntarInBudget(dir, entries, START);
  }

  // ── the round trip ──────────────────────────────────────────────────

  lemma {:induction false} SplitWithTail(s: string, sep: char)
    ensures Split(s + [sep], sep) == Split(s, sep) + [""]
  {
    if s == "" {
      assert [sep][1..] == "";
    } else {
      assert (s + [sep])[1..] == s[1..] + [sep];
      SplitWithTail(s[1..], sep);
    }
  }

  lemma {:induction false} CleanRelativeProper(acc: Path, p: Path, tail: seq<string>)
    requires Paths.Proper(p) && (tail == [] || tail == [""])
    ensures CleanRelative(acc, p + tail) == acc + p
    decreases |p|
  {
    if p == [] {
      assert p + tail == tail;
      assert tail != [] ==> tail[1..] == [];
    } else {
      assert p[0] in p && (p + tail)[1..] == p[1..] + tail;
      CleanRelativeProper(acc + [p[0]], p[1..], tail);
      assert acc + [p[0]] + p[1..] == acc + p;
    }
  }

  lemma JoinedName(p: Path)
    requires Ordinary(p)
    ensures Join(p, '/') != "" && Join(p, '/')[0] != '/'
    ensures Split(Join(p, '/'), '/') == p && Split(Join(p, '/') + "/", '/') == p + [""]
  {
    assert p[0] in p && p[0][0] in p[0];
    SplitJoin(p, '/');
    SplitWithTail(Join(p, '/'), '/');
  }

  /** The name of an entry leads back to its path, the final slash of a directory included. */
  lemma NameComesBack(dir: Path, p: Path, node: Node)
    requires dir != [] && Paths.Proper(dir) && Ordinary(p)
    ensures Place(dir, EntryOf(p, node).name) == At(p)
  {
    JoinedName(p);
    assert Paths.Proper(p);
    CleanRelativeProper([], p, []);
    CleanRelativeProper([], p, [""]);
    assert [] + p == p && p + [] == p;
    Paths.CleanAppend([], dir, p);
    Paths.CleanAppend([], [], dir);
    assert [] + dir == dir;
    assert (dir + p)[|dir|..] == p;
  }

  /** What unpacking the first `n` entries must leave: links and devices are dropped. */
  function Restored(disk: Disk, order: seq<Path>, n: nat): Disk
    requires n <= |order| && forall p :: p in order ==> p in disk
  {
    map p: Path | p in order[..n] && !disk[p].Special? :: disk[p]
  }

  /** The directory and all its ancestors are there. */
  ghost predicate HasDirs(disk: Disk, p: Path)
    decreases |p|
  {
    p == [] || (p in disk && disk[p] == Dir && HasDirs(disk, Parent(p)))
  }

  lemma {:induction false} HasDirsInMore(less: Disk, more: Disk, p: Path)
    requires HasDirs(less, p) && forall q :: q in less ==> q in more && more[q] == less[q]
    ensures HasDirs(more, p)
    decreases |p|
  {
    if p != [] { HasDirsInMore(less, more, Parent(p)); }
  }

  lemma {:induction false} NothingToMake(disk: Disk, p: Path)
    requires HasDirs(disk, p)
    ensures MkdirAll(disk, p) == Some(disk)
    decreases |p|
  {
    if p != [] {
      NothingToMake(disk, Parent(p));
      assert disk[p := Dir] == disk;
    }
  }

  lemma {:induction false} AncestorsRestored(disk: Disk, order: seq<Path>, i: nat)
    requires Tidy(disk) && Lists(disk, order) && i < |order|
    ensures HasDirs(Restored(disk, order, i), Parent(order[i]))
    decreases |order[i]|
  {
    var p := order[i];
    assert p in order && HasParent(disk, p) && AfterParent(order, i);
    if |p| > 1 {
      var j :| 0 <= j < i && order[j] == Parent(p);
      AncestorsRestored(disk, order, j);
      var less, more := Restored(disk, order, j), Restored(disk, order, i);
      forall q | q in less ensures q in more && more[q] == less[q] {
        var k :| 0 <= k < j && order[k] == q;
        assert order[..i][k] == q;
      }
      HasDirsInMore(less, more, Parent(order[j]));
      assert order[..i][j] == Parent(p);
    }
  }

  lemma RestoredNext(disk: Disk, order: seq<Path>, i: nat)
    requires Lists(disk, order) && i < |order|
    ensures var p, before := order[i], Restored(disk, order, i);
            && p in disk && p !in before
            && Restored(disk, order, i + 1) == if disk[p].Special? then before else before[p := disk[p]]
  {
    assert order[i] in order;
    assert order[..i + 1] == order[..i] + [order[i]] && order[i] !in order[..i];
  }

  ghost predicate TakesFile(total: nat, node: Node) {
    node.File? ==> total < MAX_RESTORE_BYTES && total + |node.data| <= MAX_RESTORE_BYTES
  }

  lemma ExtractFresh(before: Disk, p: Path, node: Node, total: nat)
    requires p != [] && p !in before && MkdirAll(before, Parent(p)) == Some(before)
    ensures var s := ExtractAt(Progress(before, total, None), p, EntryOf(p, node));
            if TakesFile(total, node)
            then s == Progress(if node.Special? then before else before[p := node], total + SizeOf(node), None)
            else s.error == Some(OverBudget)
  {
  }

  /** One entry of a packed directory, unpacked in its turn. */
  lemma ExtractOne(dir: Path, disk: Disk, order: seq<Path>, i: nat, total: nat)
    requires dir != [] && Paths.Proper(dir) && Tidy(disk) && Lists(disk, order) && i < |order| && order[i] in disk
    ensures var node := disk[order[i]];
            var s := Extract(dir, Progress(Restored(disk, order, i), total, None), EntryOf(order[i], node));
            if TakesFile(total, node) then s == Progress(Restored(disk, order, i + 1), total + SizeOf(node), None)
            else s.error == Some(OverBudget)
  {
    var p, before := order[i], Restored(disk, order, i);
    assert HasParent(disk, p);
    NameComesBack(dir, p, disk[p]);
    AncestorsRestored(disk, order, i);
    NothingToMake(before, Parent(p));
    RestoredNext(disk, order, i);
    ExtractFresh(before, p, disk[p], total);
  }

  /** Every regular file starts below the budget and ends within it. */
  predicate Fits(total: nat, entries: seq<Entry>)
    decreases |entries|
  {
    entries == []
    || (if entries[0].kind == TypeReg then
          total < MAX_RESTORE_BYTES && total + |entries[0].data| <= MAX_RESTORE_BYTES
          && Fits(total + |entries[0].data|, entries[1..])
        else Fits(total, entries[1..]))
  }

  lemma UntarStep(dir: Path, entries: seq<Entry>, s: Progress, next: Progress)
    requires entries != [] && s.error.None? && Extract(dir, s, entries[0]) == next
    ensures Untar(dir, entries, s) == Untar(dir, entries[1..], next)
    ensures next.error.Some? ==> Untar(dir, entries, s) == next
  {
  }

  lemma PackedAt(disk: Disk, order: seq<Path>, i: nat)
    requires i < |order| && forall p :: p in order ==> p in disk
    ensures order[i] in disk
    ensures var rest := Packed(disk, order)[i..];
            rest != [] && rest[0] == EntryOf(order[i], disk[order[i]]) && rest[1..] == Packed(disk, order)[i + 1..]
  {
    assert order[i] in order;
  }

  lemma UnpackOne(dir: Path, disk: Disk, order: seq<Path>, i: nat, total: nat)
    requires dir != [] && Paths.Proper(dir) && Tidy(disk) && Lists(disk, order) && i < |order| && order[i] in disk
    ensures var node := disk[order[i]];
            var s := Untar(dir, Packed(disk, order)[i..], Progress(Restored(disk, order, i), total, None));
            if TakesFile(total, node)
            then s == Untar(dir, Packed(disk, order)[i + 1..], Progress(Restored(disk, order, i + 1), total + SizeOf(node), None))
            else s.error == Some(OverBudget)
  {
    var entries, before := Packed(disk, order), Progress(Restored(disk, order, i), total, None);
    PackedAt(disk, order, i);
    ExtractOne(dir, disk, order, i, total);
    UntarStep(dir, entries[i..], before, Extract(dir, before, entries[i]));
  }

  lemma FitsOne(total: nat, p: Path, node: Node, entries: seq<Entry>)
    requires entries != [] && entries[0] == EntryOf(p, node)
    ensures Fits(total, entries) <==> TakesFile(total, node) && Fits(total + SizeOf(node), entries[1..])
  {
  }

  lemma {:induction false} Unpacks(dir: Path, disk: Disk, order: seq<Path>, i: nat, total: nat)
    requires dir != [] && Paths.Proper(dir) && Tidy(disk) && Lists(disk, order) && i <= |order|
    ensures var s := Untar(dir, Packed(disk, order)[i..], Progress(Restored(disk, order, i), total, None));
            if Fits(total, Packed(disk, order)[i..]) then s.error.None? && s.disk == Restored(disk, order, |order|)
            else s.error == Some(OverBudget)
    decreases |order| - i
  {
    if i < |order| {
      PackedAt(disk, order, i);
      UnpackOne(dir, disk, order, i, total);
      FitsOne(total, order[i], disk[order[i]], Packed(disk, order)[i..]);
      Unpacks(dir, disk, order, i + 1, total + SizeOf(disk[order[i]]));
    }
  }

  /** MAIN RESULT. Unpacking what was packed rebuilds every directory and regular file, whatever order
      the walk took, exactly when the files fit the budget; otherwise it says so. */
  lemma RebuildsExactlyWhenFits(dir: Path, disk: Disk, order: seq<Path>)
    requires dir != [] && Paths.Proper(dir) && Tidy(disk) && Lists(disk, order)
    ensures var s := Untar(dir, Packed(disk, order), START);
            && (s.error.None? <==> Fits(0, Packed(disk, order)))
            && (s.error.None? ==> s.disk == map p: Path | p in disk && !disk[p].Special? :: disk[p])
            && (s.error.Some? ==> s.error == Some(OverBudget))
  {
    assert Restored(disk, order, 0) == map[];
    assert Packed(disk, order)[0..] == Packed(disk, order);
    assert order[..|order|] == order;
    Unpacks(dir, disk, order, 0, 0);
  }

  function Sum(entries: seq<Entry>): nat
    decreases |entries|
  {
    if entries == [] then 0 else (if entries[0].kind == TypeReg then |entries[0].data| else 0) + Sum(entries[1..])
  }

  /** A file whose start finds the budget used up is refused even when it is empty. */
  predicate EndsInEmptyFile(entries: seq<Entry>)
    decreases |entries|
  {
    entries != [] && var last := entries[|entries| - 1];
    if last.kind == TypeReg then last.data == [] else EndsInEmptyFile(entries[..|entries| - 1])
  }

  lemma {:induction false} SumOfInit(entries: seq<Entry>)
    requires entries != []
    ensures var last := entries[|entries| - 1];
            Sum(entries) == Sum(entries[..|entries| - 1]) + if last.kind == TypeReg then |last.data| else 0
    decreases |entries|
  {
    if |entries| > 1 {
      SumOfInit(entries[1..]);
      assert entries[1..][..|entries| - 2] == entries[..|entries| - 1][1..];
    }
  }

  lemma {:induction false} FitsOfInit(total: nat, entries: seq<Entry>)
    requires entries != []
    ensures var init, last := entries[..|entries| - 1], entries[|entries| - 1];
            Fits(total, entries) <==> Fits(total, init) && (last.kind == TypeReg ==>
              total + Sum(init) < MAX_RESTORE_BYTES && total + Sum(init) + |last.data| <= MAX_RESTORE_BYTES)
    decreases |entries|
  {
    if |entries| > 1 {
      var size := if entries[0].kind == TypeReg then |entries[0].data| else 0;
      FitsOfInit(total + size, entries[1..]);
      assert entries[1..][..|entries| - 2] == entries[..|entries| - 1][1..];
    } else {
      assert entries[1..] == [] && entries[..0] == [];
    }
  }

  /** The budget in closed form: 2 GiB in all, and when it is met to the byte, no empty file at the end. */
  lemma {:induction false} FitsExactlyWhen(entries: seq<Entry>)
    ensures Fits(0, entries) <==>
              Sum(entries) < MAX_RESTORE_BYTES || (Sum(entries) == MAX_RESTORE_BYTES && !EndsInEmptyFile(entries))
    decreases |entries|
  {
    if entries != [] {
      SumOfInit(entries);
      FitsOfInit(0, entries);
      FitsExactlyWhen(entries[..|entries| - 1]);
    }
  }

  // ── file names of dumps ─────────────────────────────────────────────

  datatype DatabaseSpec = DatabaseSpec(id: string, kind: string)

  predicate AlphaNumeric(c: char) {
    'a' <= c <= 'z' || 'A' <= c <= 'Z' || '0' <= c <= '9'
  }

  predicate NameChar(i: nat, c: char) {
    AlphaNumeric(c) || (i > 0 && (c == '_' || c == '.' || c == '-'))
  }

  ghost predicate DockerName(s: string) {
    1 <= |s| <= 255 && forall i :: 0 <= i < |s| ==> NameChar(i, s[i])
  }

  /** validDockerName: the loop of the source. */
  method ValidDockerName(s: string) returns (ok: bool)
    ensures ok <==> DockerName(s)
  {
    if s == "" || |s| > 255 { return false; }
    for i := 0 to |s|
      invariant forall k :: 0 <= k < i ==> NameChar(k, s[k])
    {
      var c := s[i];
      if !AlphaNumeric(c) && !(i > 0 && (c == '_' || c == '.' || c == '-')) { return false; }
    }
    return true;
  }

  function Extension(kind: string): Option<string> {
    if kind == "POSTGRESQL" || kind == "MYSQL" || kind == "MARIADB" then Some(".sql")
    else if kind == "MONGODB" then Some(".archive")
    else if kind == "REDIS" || kind == "KEYDB" || kind == "DRAGONFLY" then Some(".rdb")
    else None
  }

  ghost predicate Dumpable(db: DatabaseSpec) {
    DockerName(db.id) && Extension(db.kind).Some?
  }

  function FileName(db: DatabaseSpec): string
    requires Extension(db.kind).Some?
  {
    db.id + Extension(db.kind).value
  }

  /** dumpFileName. */
  method DumpFileName(db: DatabaseSpec) returns (r: Option<string>)
    ensures r.Some? <==> Dumpable(db)
    ensures r.Some? ==> r.value == FileName(db)
  {
    var ok := ValidDockerName(db.id);
    if !ok || Extension(db.kind).None? { return None; }
    return Some(FileName(db));
  }

  lemma ExtensionsDiffer(a: string, b: string)
    requires Extension(a).Some? && Extension(b).Some?
    ensures var x, y := Extension(a).value, Extension(b).value; x != [] && y != [] && (x[|x| - 1] == y[|y| - 1] ==> x == y)
  {
  }

  /** MAIN RESULT. Two databases share a dump file exactly when they share id and dump format. */
  lemma FileNameIsInjective(a: DatabaseSpec, b: DatabaseSpec)
    requires Dumpable(a) && Dumpable(b)
    ensures FileName(a) == FileName(b) <==> a.id == b.id && Extension(a.kind) == Extension(b.kind)
  {
    var x, y := Extension(a.kind).value, Extension(b.kind).value;
    ExtensionsDiffer(a.kind, b.kind);
    if FileName(a) == FileName(b) {
      assert FileName(a)[|FileName(a)| - 1] == x[|x| - 1] && FileName(b)[|FileName(b)| - 1] == y[|y| - 1];
      assert x == y;
      assert a.id == FileName(a)[..|FileName(a)| - |x|] && b.id == FileName(b)[..|FileName(b)| - |y|];
    }
  }

  /** A dump file is one ordinary component. */
  lemma FileNameIsOrdinary(db: DatabaseSpec)
    requires Dumpable(db)
    ensures Paths.ProperName(FileName(db)) && '/' !in FileName(db)
  {
    assert NameChar(0, db.id[0]) && FileName(db)[0] == db.id[0];
    forall i | 0 <= i < |db.id| ensures db.id[i] != '/' { assert NameChar(i, db.id[i]); }
    if '/' in Extension(db.kind).value { assert false; }
  }
}
