/**
 The agent's SFTP server maps a virtual path onto a real one and refuses every
 path a symbolic link could carry out of its root
 (apps/agent/internal/sftpserver/sftpserver.go).

 Real paths are absolute and modelled by their components. The operating system
 is `Follow`: it dereferences every link it meets, with a budget of links.
 */
module SftpResolve {
  import opened Wrappers
  import opened Text

  type Path = seq<string>

  datatype Node = Dir | File | Link(absolute: bool, target: seq<string>)

  type FileSystem = map<Path, Node>

  /** Every entry below the root directory sits in a directory. */
  ghost predicate WellFormed(fs: FileSystem) {
    forall d: Path, name: string {:trigger d + [name]} :: d + [name] in fs ==> d == [] || (d in fs && fs[d] == Dir)
  }

  /** Where a system call ends up. `Absent(p, rest)`: `p` is the first component
      that does not exist and `rest` is what was still to be walked below it. */
  datatype Outcome = Reached(path: Path) | Absent(path: Path, rest: seq<string>) | TooManyLinks | NotADirectory

  /** Path resolution as the kernel does it, all links dereferenced. */
  function Follow(fs: FileSystem, links: nat, cur: Path, todo: seq<string>): Outcome
    decreases links, |todo|
  {
    if todo == [] then Reached(cur)
    else if todo[0] == "" || todo[0] == "." then Follow(fs, links, cur, todo[1..])
    else if todo[0] == ".." then Follow(fs, links, if cur == [] then [] else cur[..|cur| - 1], todo[1..])
    else
      var p := cur + [todo[0]];
      if p !in fs then Absent(p, todo[1..])
      else match fs[p]
        case Dir => Follow(fs, links, p, todo[1..])
        case File => if todo[1..] == [] then Reached(p) else NotADirectory
        case Link(absolute, target) =>
          if links == 0 then TooManyLinks
          else Follow(fs, links - 1, if absolute then [] else cur, target + todo[1..])
  }

  /** Lstat: links on the way are followed, the last component is not. */
  function Lstat(fs: FileSystem, links: nat, p: Path): Option<Node> {
    if p == [] then Some(Dir)
    else match Follow(fs, links, [], p[..|p| - 1])
      case Reached(d) => if d + [p[|p| - 1]] in fs then Some(fs[d + [p[|p| - 1]]]) else None
      case _ => None
  }

  /** filepath.EvalSymlinks gives up after this many links. */
  const EVAL_LINKS: nat := 255

  function EvalSymlinks(fs: FileSystem, p: Path): Option<Path> {
    match Follow(fs, EVAL_LINKS, [], p)
    case Reached(r) => Some(r)
    case _ => None
  }

  /** filepath.Clean on the components of an absolute path. */
  function Clean(p: Path): Path {
    CleanFrom([], p)
  }

  function CleanFrom(acc: Path, p: seq<string>): Path
    decreases |p|
  {
    if p == [] then acc
    else if p[0] == "" || p[0] == "." then CleanFrom(acc, p[1..])
    else if p[0] == ".." then CleanFrom(if acc == [] then [] else acc[..|acc| - 1], p[1..])
    else CleanFrom(acc + [p[0]], p[1..])
  }

  predicate ProperName(c: string) {
    c != "" && c != "." && c != ".."
  }

  ghost predicate Proper(p: seq<string>) {
    forall c :: c in p ==> ProperName(c)
  }

  function CommonPrefix(a: Path, b: Path): (n: nat)
    ensures n <= |a| && n <= |b| && a[..n] == b[..n]
    ensures n < |a| && n < |b| ==> a[n] != b[n]
  {
    if a == [] || b == [] || a[0] != b[0] then 0 else 1 + CommonPrefix(a[1..], b[1..])
  }

  /** filepath.Rel of two absolute paths: so many ".." and then the segments. */
  datatype Relative = Relative(ups: nat, segments: seq<string>)

  function Rel(base: Path, target: Path): Relative {
    var a, b := Clean(base), Clean(target);
    var n := CommonPrefix(a, b);
    Relative(|a| - n, b[n..])
  }

  function LexContained(root: Path, full: Path): bool {
    Rel(root, full).ups == 0
  }

  /** The relative path checkRealContained walks, and none when both attempts climb. */
  function WalkSegments(realRoot: Path, root: Path, full: Path): Option<seq<string>> {
    if Rel(realRoot, full).ups == 0 then Some(Rel(realRoot, full).segments)
    else if Rel(root, full).ups == 0 then Some(Rel(root, full).segments)
    else None
  }

  /** No component the walk can see below `from` is a symbolic link. */
  ghost predicate NoLinkSeen(fs: FileSystem, links: nat, from: Path, segments: seq<string>) {
    forall k {:trigger segments[..k]} :: 1 <= k <= |segments| ==>
      (var n := Lstat(fs, links, from + segments[..k]); n.Some? ==> !n.value.Link?)
  }

  ghost predicate RealContained(fs: FileSystem, links: nat, root: Path, full: Path) {
    var rr := EvalSymlinks(fs, root);
    && rr.Some?
    && var segments := WalkSegments(rr.value, root, full);
    && segments.Some?
    && NoLinkSeen(fs, links, rr.value, segments.value)
  }

  datatype Refusal = Denied | NotFound

  method CheckRealContained(fs: FileSystem, links: nat, root: Path, full: Path) returns (ok: bool)
    requires WellFormed(fs)
    ensures ok <==> RealContained(fs, links, root, full)
  {
    var rr := EvalSymlinks(fs, root);
    if rr.None? { return false; }
    var rel := Rel(rr.value, full);
    if rel.ups > 0 {
      rel := Rel(root, full);
      if rel.ups > 0 { return false; }
    }
    SegmentsAreProper(rr.value, root, full);
    EvaluatedIsGrounded(fs, EVAL_LINKS, [], root);
    ok := WalkRefusingLinks(fs, links, rr.value, rel.segments);
  }

  /** The loop of checkRealContained: Lstat every component below the resolved
      root; a link refuses, the first missing component ends the walk. */
  method WalkRefusingLinks(fs: FileSystem, links: nat, realRoot: Path, segments: seq<string>) returns (ok: bool)
    requires WellFormed(fs) && Grounded(fs, realRoot) && Proper(segments)
    ensures ok <==> NoLinkSeen(fs, links, realRoot, segments)
  {
    var cur, i := realRoot, 0;
    while i < |segments|
      invariant 0 <= i <= |segments|
      invariant cur == realRoot + segments[..i]
      invariant Grounded(fs, cur)
      invariant NoLinkSeen(fs, links, realRoot, segments[..i])
    {
      ghost var parent := cur;
      cur := cur + [segments[i]];
      LstatBelow(fs, links, parent, segments[i]);
      StepSeen(fs, links, realRoot, segments, i);
      var info := Lstat(fs, links, cur);
      if info.None? {
        MissingEndsWalk(fs, links, realRoot, segments, i);
        return true;
      }
      if info.value.Link? { return false; }
      i := i + 1;
      assert cur == realRoot + segments[..i];
    }
    assert segments[..i] == segments;
    return true;
  }

  lemma StepSeen(fs: FileSystem, links: nat, from: Path, segments: seq<string>, i: nat)
    requires i < |segments| && NoLinkSeen(fs, links, from, segments[..i])
    ensures var n := Lstat(fs, links, from + segments[..i] + [segments[i]]);
            && (n.Some? && n.value.Link? ==> !NoLinkSeen(fs, links, from, segments))
            && (n.None? || !n.value.Link? ==> NoLinkSeen(fs, links, from, segments[..i + 1]))
  {
    assert from + segments[..i] + [segments[i]] == from + segments[..i + 1];
    forall k {:trigger segments[..i + 1][..k]} | 1 <= k <= i + 1
      ensures segments[..i + 1][..k] == if k <= i then segments[..i][..k] else segments[..i + 1]
    {
    }
  }

  lemma MissingEndsWalk(fs: FileSystem, links: nat, from: Path, segments: seq<string>, i: nat)
    requires WellFormed(fs) && Proper(segments)
    requires i < |segments| && Grounded(fs, from + segments[..i]) && NoLinkSeen(fs, links, from, segments[..i])
    requires from + segments[..i] + [segments[i]] !in fs
    ensures NoLinkSeen(fs, links, from, segments)
  {
    var parent := from + segments[..i];
    assert parent + segments[i..][..1] == parent + [segments[i]];
    NothingBelow(fs, links, parent, segments[i..]);
    forall k {:trigger segments[..k]} | 1 <= k <= |segments|
      ensures var n := Lstat(fs, links, from + segments[..k]); n.Some? ==> !n.value.Link?
    {
      if k <= i {
        assert segments[..i][..k] == segments[..k];
      } else {
        assert from + segments[..k] == parent + segments[i..][..k - i];
      }
    }
  }

  // ── what the kernel does with a path ────────────────────────────────

  /** An existing path none of whose components is a link. */
  ghost predicate Grounded(fs: FileSystem, p: Path) {
    Proper(p) && (p == [] || (p in fs && !fs[p].Link?))
  }

  lemma {:induction false} CleanIsProper(acc: Path, p: seq<string>)
    requires Proper(acc)
    ensures Proper(CleanFrom(acc, p))
    decreases |p|
  {
    if p != [] {
      if p[0] == "" || p[0] == "." {
        CleanIsProper(acc, p[1..]);
      } else if p[0] == ".." {
        CleanIsProper(if acc == [] then [] else acc[..|acc| - 1], p[1..]);
      } else {
        CleanIsProper(acc + [p[0]], p[1..]);
      }
    }
  }

  /** The walk of checkRealContained never meets an empty, "." or ".." segment. */
  lemma SegmentsAreProper(realRoot: Path, root: Path, full: Path)
    ensures Proper(Rel(realRoot, full).segments) && Proper(Rel(root, full).segments)
  {
    CleanIsProper([], full);
  }

  lemma {:induction false} AncestorsAreDirs(fs: FileSystem, p: Path, k: nat)
    requires WellFormed(fs) && p in fs && 1 <= k < |p|
    ensures p[..k] in fs && fs[p[..k]] == Dir
  {
    assert p == p[..|p| - 1] + [p[|p| - 1]];
    if k < |p| - 1 {
      AncestorsAreDirs(fs, p[..|p| - 1], k);
      assert p[..|p| - 1][..k] == p[..k];
    }
  }

  lemma GroundedPrefix(fs: FileSystem, p: Path, k: nat)
    requires WellFormed(fs) && Grounded(fs, p) && k <= |p|
    ensures Grounded(fs, p[..k])
  {
    if 1 <= k < |p| { AncestorsAreDirs(fs, p, k); }
    assert p[..|p|] == p;
  }

  /** Whatever links are followed, the place reached has none on its path. */
  lemma {:induction false} EvaluatedIsGrounded(fs: FileSystem, links: nat, cur: Path, todo: seq<string>)
    requires WellFormed(fs) && Grounded(fs, cur)
    ensures Follow(fs, links, cur, todo).Reached? ==> Grounded(fs, Follow(fs, links, cur, todo).path)
    decreases links, |todo|
  {
    if todo == [] {
    } else if todo[0] == "" || todo[0] == "." {
      EvaluatedIsGrounded(fs, links, cur, todo[1..]);
    } else if todo[0] == ".." {
      if cur != [] { GroundedPrefix(fs, cur, |cur| - 1); }
      EvaluatedIsGrounded(fs, links, if cur == [] then [] else cur[..|cur| - 1], todo[1..]);
    } else if cur + [todo[0]] in fs {
      match fs[cur + [todo[0]]]
      case Dir => EvaluatedIsGrounded(fs, links, cur + [todo[0]], todo[1..]);
      case File =>
      case Link(absolute, target) =>
        if links > 0 {
          EvaluatedIsGrounded(fs, links - 1, if absolute then [] else cur, target + todo[1..]);
        }
    }
  }

  /** A path without links is read literally, up to its first missing component. */
  lemma {:induction false} FollowLiteral(fs: FileSystem, links: nat, cur: Path, names: seq<string>)
    requires WellFormed(fs) && Grounded(fs, cur) && Proper(names)
    requires forall k {:trigger names[..k]} :: 1 <= k <= |names| && cur + names[..k] in fs ==> !fs[cur + names[..k]].Link?
    ensures Literal(fs, cur, names, Follow(fs, links, cur, names))
    decreases |names|
  {
    if names == [] {
      assert cur + names == cur;
    } else {
      var p := cur + [names[0]];
      assert names[0] in names;
      assert p == cur + names[..1];
      if p !in fs {
        assert Follow(fs, links, cur, names) == Absent(p, names[1..]);
      } else if fs[p].Dir? {
        forall k {:trigger names[1..][..k]} | 1 <= k <= |names[1..]| && p + names[1..][..k] in fs
          ensures !fs[p + names[1..][..k]].Link?
        {
          assert p + names[1..][..k] == cur + names[..k + 1];
        }
        FollowLiteral(fs, links, p, names[1..]);
        LiteralFromChild(fs, cur, names, Follow(fs, links, p, names[1..]));
      } else {
        assert |names| == 1 ==> p == cur + names;
      }
    }
  }

  ghost predicate Literal(fs: FileSystem, cur: Path, names: seq<string>, o: Outcome) {
    || o == NotADirectory
    || (o == Reached(cur + names) && (names == [] || cur + names in fs))
    || (o.Absent? && 1 <= |o.path| - |cur| <= |names|
        && o.path == cur + names[..|o.path| - |cur|] && o.rest == names[|o.path| - |cur|..])
  }

  lemma LiteralFromChild(fs: FileSystem, cur: Path, names: seq<string>, o: Outcome)
    requires names != [] && cur + [names[0]] in fs && Literal(fs, cur + [names[0]], names[1..], o)
    ensures Literal(fs, cur, names, o)
  {
    var p := cur + [names[0]];
    assert p + names[1..] == cur + names;
    assert names[1..] == [] ==> cur + names == p;
    if o.Absent? {
      var k := |o.path| - |p|;
      assert p + names[1..][..k] == cur + names[..k + 1];
      assert names[1..][k..] == names[k + 1..];
    }
  }

  lemma {:induction false} FollowGrounded(fs: FileSystem, links: nat, cur: Path, names: seq<string>)
    requires WellFormed(fs) && Grounded(fs, cur + names)
    ensures Follow(fs, links, cur, names) == Reached(cur + names)
    decreases |names|
  {
    if names == [] {
      assert cur + names == cur;
    } else {
      var p := cur + [names[0]];
      assert p == (cur + names)[..|cur| + 1];
      assert names[0] in cur + names;
      if |names| > 1 {
        AncestorsAreDirs(fs, cur + names, |cur| + 1);
        assert p + names[1..] == cur + names;
        FollowGrounded(fs, links, p, names[1..]);
      } else {
        assert p == cur + names;
      }
    }
  }

  lemma LstatBelow(fs: FileSystem, links: nat, parent: Path, name: string)
    requires WellFormed(fs) && Grounded(fs, parent) && ProperName(name)
    ensures Lstat(fs, links, parent + [name]) ==
            if parent + [name] in fs then Some(fs[parent + [name]]) else None
  {
    assert (parent + [name])[..|parent|] == parent;
    assert [] + parent == parent;
    FollowGrounded(fs, links, [], parent);
  }

  lemma AncestorExists(fs: FileSystem, p: Path, k: nat)
    requires WellFormed(fs) && 1 <= k <= |p|
    ensures p in fs ==> p[..k] in fs
  {
    if p in fs && k < |p| { AncestorsAreDirs(fs, p, k); }
    assert p[..|p|] == p;
  }

  /** Under a component that does not exist nothing does. */
  lemma NothingBelow(fs: FileSystem, links: nat, parent: Path, names: seq<string>)
    requires WellFormed(fs) && Grounded(fs, parent) && Proper(names) && |names| > 0
    requires parent + names[..1] !in fs
    ensures forall k {:trigger names[..k]} :: 1 <= k <= |names| ==> Lstat(fs, links, parent + names[..k]).None?
  {
    forall k {:trigger names[..k]} | 1 <= k <= |names|
      ensures Lstat(fs, links, parent + names[..k]).None?
    {
      NothingAt(fs, links, parent, names, k);
    }
  }

  lemma NothingAt(fs: FileSystem, links: nat, parent: Path, names: seq<string>, k: nat)
    requires WellFormed(fs) && Grounded(fs, parent) && Proper(names) && 1 <= k <= |names|
    requires parent + names[..1] !in fs
    ensures Lstat(fs, links, parent + names[..k]).None?
  {
    var p := parent + names[..k];
    AncestorExists(fs, p, |parent| + 1);
    assert p[..|parent| + 1] == parent + names[..1];
    var q := p[..|p| - 1];
    assert q == parent + names[..k - 1];
    forall j {:trigger q[..j]} | |parent| < j <= |q|
      ensures q[..j] !in fs
    {
      AncestorExists(fs, q[..j], |parent| + 1);
      assert q[..j][..|parent| + 1] == parent + names[..1];
    }
    forall j {:trigger q[..j]} | 1 <= j <= |q| && [] + q[..j] in fs
      ensures !fs[[] + q[..j]].Link?
    {
      assert [] + q[..j] == q[..j];
      assert j <= |parent|;
      assert q[..j] == parent[..j];
      GroundedPrefix(fs, parent, j);
    }
    FollowLiteral(fs, links, [], q);
    assert [] + q == q;
    assert q + [p[|p| - 1]] == p;
  }

  // ── resolve ─────────────────────────────────────────────────────────

  /** filepath.Clean("/" + vpath), as components. */
  function VirtualPath(vpath: string): Path {
    Clean(Split(vpath, '/'))
  }

  ghost predicate LinkFree(fs: FileSystem) {
    forall p :: p in fs ==> !fs[p].Link?
  }

  /** What a virtual path means: where the kernel gets with that text in some file system without links. */
  ghost predicate Means(vpath: string, v: Path) {
    exists tree: FileSystem :: WellFormed(tree) && LinkFree(tree) && Follow(tree, 0, [], Split(vpath, '/')) == Reached(v)
  }

  lemma {:induction false} FollowCleans(fs: FileSystem, links: nat, cur: Path, todo: seq<string>)
    requires LinkFree(fs) && Follow(fs, links, cur, todo).Reached?
    ensures Follow(fs, links, cur, todo) == Reached(CleanFrom(cur, todo))
    decreases |todo|
  {
    if todo != [] {
      if todo[0] == "" || todo[0] == "." {
        FollowCleans(fs, links, cur, todo[1..]);
      } else if todo[0] == ".." {
        FollowCleans(fs, links, if cur == [] then [] else cur[..|cur| - 1], todo[1..]);
      } else if fs[cur + [todo[0]]].Dir? {
        FollowCleans(fs, links, cur + [todo[0]], todo[1..]);
      }
    }
  }

  /** A tree in which every name on the way is a directory. */
  function Grown(tree: FileSystem, cur: Path, todo: seq<string>): FileSystem
    decreases |todo|
  {
    if todo == [] then tree
    else if todo[0] == "" || todo[0] == "." then Grown(tree, cur, todo[1..])
    else if todo[0] == ".." then Grown(tree, if cur == [] then [] else cur[..|cur| - 1], todo[1..])
    else Grown(tree[cur + [todo[0]] := Dir], cur + [todo[0]], todo[1..])
  }

  ghost predicate AllDirs(tree: FileSystem, cur: Path) {
    && WellFormed(tree) && (forall p :: p in tree ==> tree[p] == Dir) && (cur == [] || cur in tree)
  }

  lemma ParentIsDir(tree: FileSystem, cur: Path)
    requires AllDirs(tree, cur)
    ensures AllDirs(tree, if cur == [] then [] else cur[..|cur| - 1])
  {
    if cur != [] { assert cur == cur[..|cur| - 1] + [cur[|cur| - 1]]; }
  }

  lemma {:induction false} GrownIsWalkable(tree: FileSystem, cur: Path, todo: seq<string>)
    requires AllDirs(tree, cur)
    ensures var grown := Grown(tree, cur, todo);
            && AllDirs(grown, cur) && tree.Keys <= grown.Keys && Follow(grown, 0, cur, todo) == Reached(CleanFrom(cur, todo))
    decreases |todo|
  {
    if todo != [] {
      if todo[0] == "" || todo[0] == "." {
        GrownIsWalkable(tree, cur, todo[1..]);
      } else if todo[0] == ".." {
        ParentIsDir(tree, cur);
        GrownIsWalkable(tree, if cur == [] then [] else cur[..|cur| - 1], todo[1..]);
      } else {
        var p := cur + [todo[0]];
        forall d: Path, name: string | d + [name] in tree[p := Dir] ensures d == [] || d in tree[p := Dir] {
          if d + [name] == p { assert d == (d + [name])[..|d|] && cur == p[..|cur|]; }
        }
        GrownIsWalkable(tree[p := Dir], p, todo[1..]);
      }
    }
  }

  /** MAIN RESULT. Cleaning agrees with the kernel: a virtual path is read as the one place that its text leads to wherever
      no link is met, for every text whatever. */
  lemma VirtualPathMeans(vpath: string, v: Path)
    ensures Means(vpath, v) <==> v == VirtualPath(vpath)
  {
    var todo := Split(vpath, '/');
    forall tree: FileSystem | LinkFree(tree) && Follow(tree, 0, [], todo) == Reached(v) ensures v == VirtualPath(vpath) {
      FollowCleans(tree, 0, [], todo);
    }
    GrownIsWalkable(map[], [], todo);
    assert LinkFree(Grown(map[], [], todo));
  }

  /** The text of names is read as those names. */
  lemma NamesMeanThemselves(v: Path)
    requires Proper(v) && forall c :: c in v ==> '/' !in c
    ensures Means("/" + Join(v, '/'), v)
  {
    var text := "/" + Join(v, '/');
    SplitFirst("", '/', Join(v, '/'));
    assert "" + ['/'] + Join(v, '/') == text;
    if v == [] {
      assert Split(text, '/') == ["", ""] && ["", ""][1..] == [""] && [""][1..] == [];
    } else {
      SplitJoin(v, '/');
      assert Split(text, '/')[1..] == v;
    }
    CleanOfProper([], v);
    VirtualPathMeans(text, v);
  }

  lemma {:induction false} CleanOfProper(acc: Path, v: Path)
    requires Proper(v)
    ensures CleanFrom(acc, v) == acc + v
    decreases |v|
  {
    if v != [] {
      assert v[0] in v;
      CleanOfProper(acc + [v[0]], v[1..]);
      assert acc + [v[0]] + v[1..] == acc + v;
    }
  }

  /** The path resolve builds: the root itself, or filepath.Join(root, rest). */
  function Target(roots: map<string, Path>, v: Path): Path
    requires v != [] && v[0] in roots
  {
    Joined(roots[v[0]], v[1..])
  }

  function Joined(root: Path, rest: Path): Path {
    if rest == [] then root else Clean(root + rest)
  }

  method Resolve(fs: FileSystem, links: nat, roots: map<string, Path>, vpath: string) returns (r: Result<Path, Refusal>)
    requires WellFormed(fs)
    ensures var v := VirtualPath(vpath);
            && (r == Err(NotFound) <==> v != [] && v[0] !in roots)
            && (r.Ok? <==> v != [] && v[0] in roots && RealContained(fs, links, roots[v[0]], Target(roots, v)))
            && (r.Ok? ==> r.value == Target(roots, v))
    ensures forall v: Path :: Means(vpath, v) ==>
              && (r == Err(NotFound) <==> v != [] && v[0] !in roots)
              && (r.Ok? ==> v != [] && v[0] in roots && r.value == if |v| == 1 then roots[v[0]] else Clean(roots[v[0]] + v[1..]))
              && (r.Ok? && Proper(roots[v[0]]) ==> r.value == roots[v[0]] + v[1..])
  {
    var v := VirtualPath(vpath);
    forall u: Path | Means(vpath, u) ensures u == v { VirtualPathMeans(vpath, u); }
    if v != [] && v[0] in roots && Proper(roots[v[0]]) {
      CleanIsProper([], Split(vpath, '/'));
      CleanOfProper([], roots[v[0]] + v[1..]);
    }
    if v == [] { return Err(Denied); }
    if v[0] !in roots { return Err(NotFound); }
    var full := Target(roots, v);
    CleanIsProper([], Split(vpath, '/'));
    NeverLexicallyDenied(roots[v[0]], v);
    if !LexContained(roots[v[0]], full) { return Err(Denied); }
    var ok := CheckRealContained(fs, links, roots[v[0]], full);
    return if ok then Ok(full) else Err(Denied);
  }

  lemma {:induction false} CleanAppend(acc: Path, p: seq<string>, q: seq<string>)
    requires Proper(q)
    ensures CleanFrom(acc, p + q) == CleanFrom(acc, p) + q
    decreases |p|, |q|
  {
    if p != [] {
      assert (p + q)[1..] == p[1..] + q;
      if p[0] == "" || p[0] == "." {
        CleanAppend(acc, p[1..], q);
      } else if p[0] == ".." {
        CleanAppend(if acc == [] then [] else acc[..|acc| - 1], p[1..], q);
      } else {
        CleanAppend(acc + [p[0]], p[1..], q);
      }
    } else if q != [] {
      assert p + q == q && q[0] in q;
      assert [] + q[1..] == q[1..];
      CleanAppend(acc + [q[0]], [], q[1..]);
      assert acc + [q[0]] + q[1..] == acc + q;
    }
  }

  lemma CleanTarget(roots: map<string, Path>, v: Path)
    requires Proper(v) && v != [] && v[0] in roots
    ensures Clean(Target(roots, v)) == Clean(roots[v[0]]) + v[1..]
  {
    CleanAppend([], roots[v[0]], v[1..]);
    if |v| > 1 {
      CleanIsProper([], roots[v[0]]);
      var t := Clean(roots[v[0]]) + v[1..];
      CleanAppend([], [], t);
      assert [] + t == t;
    }
  }

  /** The lexical check can never fail: cleaning already confined the path. */
  lemma NeverLexicallyDenied(root: Path, v: Path)
    requires v != [] && Proper(v)
    ensures LexContained(root, Target(map[v[0] := root], v))
  {
    CleanTarget(map[v[0] := root], v);
  }

  // ── containment ─────────────────────────────────────────────────────

  /** Empty and "." components mean nothing to the kernel either. */
  function DropDots(p: seq<string>): seq<string> {
    if p == [] then []
    else if p[0] == "" || p[0] == "." then DropDots(p[1..])
    else [p[0]] + DropDots(p[1..])
  }

  lemma {:induction false} CleanIsDropDots(acc: Path, p: seq<string>)
    requires ".." !in p
    ensures CleanFrom(acc, p) == acc + DropDots(p)
    decreases |p|
  {
    if p != [] {
      assert p[0] in p;
      if p[0] == "" || p[0] == "." {
        CleanIsDropDots(acc, p[1..]);
      } else {
        CleanIsDropDots(acc + [p[0]], p[1..]);
      }
    }
  }

  /** Dropping dots after a prefix z never moves a place that can be reached. */
  lemma {:induction false} FollowDropDots(fs: FileSystem, links: nat, cur: Path, z: seq<string>, p: seq<string>)
    ensures Follow(fs, links, cur, z + p).Reached? ==>
              Follow(fs, links, cur, z + DropDots(p)) == Follow(fs, links, cur, z + p)
    decreases links, |z| + |p|, |p|
  {
    var d := DropDots(p);
    if z == [] {
      assert z + p == p && z + d == d;
      if p == [] {
      } else if p[0] == "" || p[0] == "." {
        FollowDropDots(fs, links, cur, [], p[1..]);
        assert [] + p[1..] == p[1..];
      } else {
        FollowDropDots(fs, links, cur, [p[0]], p[1..]);
        assert [p[0]] + p[1..] == p;
      }
    } else {
      assert (z + p)[1..] == z[1..] + p && (z + d)[1..] == z[1..] + d;
      if z[0] == "" || z[0] == "." {
        FollowDropDots(fs, links, cur, z[1..], p);
      } else if z[0] == ".." {
        FollowDropDots(fs, links, if cur == [] then [] else cur[..|cur| - 1], z[1..], p);
      } else if cur + [z[0]] in fs {
        match fs[cur + [z[0]]]
        case Dir => FollowDropDots(fs, links, cur + [z[0]], z[1..], p);
        case File =>
        case Link(absolute, target) =>
          if links > 0 {
            FollowDropDots(fs, links - 1, if absolute then [] else cur, target + z[1..], p);
            assert target + (z[1..] + p) == target + z[1..] + p;
            assert target + (z[1..] + d) == target + z[1..] + d;
          }
      }
    }
  }

  ghost predicate IsDirAt(fs: FileSystem, p: Path) {
    p == [] || (p in fs && fs[p] == Dir)
  }

  /** Walking x and then y: y starts where x ended, with the links that are left. */
  lemma {:induction false} FollowSplit(fs: FileSystem, links: nat, cur: Path, x: seq<string>, y: seq<string>) returns (left: nat)
    requires WellFormed(fs) && IsDirAt(fs, cur)
    ensures var o, both := Follow(fs, links, cur, x), Follow(fs, links, cur, x + y);
            match o
            case Reached(p) => both == if y == [] || IsDirAt(fs, p) then Follow(fs, left, p, y) else NotADirectory
            case Absent(p, rest) => both == Absent(p, rest + y) && p != [] && p !in fs
            case _ => both == o
    decreases links, |x|
  {
    left := links;
    var z := x + y;
    if x == [] {
      assert z == y;
    } else {
      assert z[0] == x[0] && z[1..] == x[1..] + y;
      var p := cur + [x[0]];
      if x[0] == "" || x[0] == "." {
        left := FollowSplit(fs, links, cur, x[1..], y);
      } else if x[0] == ".." {
        assert cur != [] ==> cur == cur[..|cur| - 1] + [cur[|cur| - 1]];
        left := FollowSplit(fs, links, if cur == [] then [] else cur[..|cur| - 1], x[1..], y);
      } else if p in fs && fs[p].Dir? {
        left := FollowSplit(fs, links, p, x[1..], y);
      } else if p in fs && fs[p].Link? && links > 0 {
        var (start, target) := (if fs[p].absolute then [] else cur, fs[p].target);
        assert target + (x[1..] + y) == target + x[1..] + y;
        left := FollowSplit(fs, links - 1, start, target + x[1..], y);
      } else if x[1..] == [] && y == [] {
        assert z == x;
      }
    }
  }

  /** The link budget never changes where a path leads, only whether it gets there. */
  lemma {:induction false} BudgetIrrelevant(fs: FileSystem, a: nat, b: nat, cur: Path, todo: seq<string>)
    ensures Follow(fs, a, cur, todo) == Follow(fs, b, cur, todo)
            || Follow(fs, a, cur, todo) == TooManyLinks || Follow(fs, b, cur, todo) == TooManyLinks
    decreases a, |todo|
  {
    if todo == [] {
    } else if todo[0] == "" || todo[0] == "." {
      BudgetIrrelevant(fs, a, b, cur, todo[1..]);
    } else if todo[0] == ".." {
      BudgetIrrelevant(fs, a, b, if cur == [] then [] else cur[..|cur| - 1], todo[1..]);
    } else if cur + [todo[0]] in fs {
      match fs[cur + [todo[0]]]
      case Dir => BudgetIrrelevant(fs, a, b, cur + [todo[0]], todo[1..]);
      case File =>
      case Link(absolute, target) =>
        if a > 0 && b > 0 {
          BudgetIrrelevant(fs, a - 1, b - 1, if absolute then [] else cur, target + todo[1..]);
        }
    }
  }

  ghost predicate NoLinkBelow(fs: FileSystem, from: Path, names: seq<string>) {
    forall k {:trigger names[..k]} :: 1 <= k <= |names| && from + names[..k] in fs ==> !fs[from + names[..k]].Link?
  }

  /** A path below one without links: Lstat sees what is there. */
  lemma SeenAt(fs: FileSystem, links: nat, from: Path, init: seq<string>, name: string)
    requires WellFormed(fs) && Grounded(fs, from) && Proper(init) && ProperName(name) && NoLinkBelow(fs, from, init)
    ensures var p := from + init + [name]; Lstat(fs, links, p) == if p in fs then Some(fs[p]) else None
  {
    if Grounded(fs, from + init) {
      LstatBelow(fs, links, from + init, name);
    } else {
      UngroundedParent(fs, links, from, init, name);
    }
  }

  ghost predicate SeesLink(fs: FileSystem, links: nat, p: Path) {
    Lstat(fs, links, p).Some? && Lstat(fs, links, p).value.Link?
  }

  lemma NoLinkSeenLast(fs: FileSystem, links: nat, from: Path, names: seq<string>)
    requires names != []
    ensures NoLinkSeen(fs, links, from, names) <==>
              NoLinkSeen(fs, links, from, names[..|names| - 1]) && !SeesLink(fs, links, from + names)
  {
    var init := names[..|names| - 1];
    assert names[..|names|] == names;
    assert forall k {:trigger names[..k]} {:trigger init[..k]} :: 1 <= k < |names| ==> names[..k] == init[..k];
  }

  lemma NoLinkBelowLast(fs: FileSystem, from: Path, names: seq<string>)
    requires names != []
    ensures NoLinkBelow(fs, from, names) <==>
              NoLinkBelow(fs, from, names[..|names| - 1]) && (from + names in fs ==> !fs[from + names].Link?)
  {
    var init := names[..|names| - 1];
    assert names[..|names|] == names;
    assert forall k {:trigger names[..k]} {:trigger init[..k]} :: 1 <= k < |names| ==> names[..k] == init[..k];
  }

  /** What Lstat sees on the walk is all there is to see. */
  lemma {:induction false} SeenIsAll(fs: FileSystem, links: nat, from: Path, names: seq<string>)
    requires WellFormed(fs) && Grounded(fs, from) && Proper(names)
    ensures NoLinkSeen(fs, links, from, names) <==> NoLinkBelow(fs, from, names)
    decreases |names|
  {
    if names != [] {
      var init, name := names[..|names| - 1], names[|names| - 1];
      SeenIsAll(fs, links, from, init);
      NoLinkSeenLast(fs, links, from, names);
      NoLinkBelowLast(fs, from, names);
      assert init + [name] == names && from + init + [name] == from + names;
      if NoLinkBelow(fs, from, init) { SeenAt(fs, links, from, init, name); }
    }
  }

  lemma UngroundedParent(fs: FileSystem, links: nat, from: Path, init: seq<string>, name: string)
    requires WellFormed(fs) && Grounded(fs, from) && Proper(init) && ProperName(name)
    requires NoLinkBelow(fs, from, init) && !Grounded(fs, from + init)
    ensures from + init + [name] !in fs && Lstat(fs, links, from + init + [name]).None?
  {
    var q := from + init;
    assert (q + [name])[..|q|] == q;
    forall j {:trigger q[..j]} | 1 <= j <= |q| && [] + q[..j] in fs
      ensures !fs[[] + q[..j]].Link?
    {
      assert [] + q[..j] == q[..j];
      if j <= |from| {
        assert q[..j] == from[..j];
        GroundedPrefix(fs, from, j);
      } else {
        assert q[..j] == from + init[..j - |from|];
      }
    }
    FollowLiteral(fs, links, [], q);
    assert [] + q == q;
    if init != [] { assert init[..|init|] == init; }
  }

  /** The place a system call that gets anywhere works on, missing tail included. */
  function Location(o: Outcome): Path
    requires o.Reached? || o.Absent?
  {
    match o
    case Reached(p) => p
    case Absent(p, rest) => p + rest
  }

  lemma LiteralLocation(fs: FileSystem, links: nat, from: Path, names: seq<string>)
    requires WellFormed(fs) && Grounded(fs, from) && Proper(names) && NoLinkBelow(fs, from, names)
    ensures var o := Follow(fs, links, from, names);
            o == NotADirectory || ((o.Reached? || o.Absent?) && Location(o) == from + names)
  {
    FollowLiteral(fs, links, from, names);
    var o := Follow(fs, links, from, names);
    if o.Absent? {
      var k := |o.path| - |from|;
      assert from + names[..k] + names[k..] == from + names;
    }
  }

  ghost predicate LeadsTo(fs: FileSystem, p: Path, place: Path) {
    exists links: nat :: Follow(fs, links, [], p) == Reached(place)
  }

  /** Cleaning the text of the root does not move it: it leads to the same place as the root itself. */
  ghost predicate CleansInPlace(fs: FileSystem, root: Path) {
    EvalSymlinks(fs, root).Some? ==> LeadsTo(fs, Clean(root), EvalSymlinks(fs, root).value)
  }

  /** Without ".." cleaning only drops empty and dot components. */
  lemma PlainRootCleansInPlace(fs: FileSystem, root: Path)
    requires ".." !in root
    ensures CleansInPlace(fs, root)
  {
    CleanIsDropDots([], root);
    FollowDropDots(fs, EVAL_LINKS, [], [], root);
    assert [] + root == root && [] + DropDots(root) == Clean(root);
  }

  /** A root whose own ancestor is what it resolves to is no link at all, if the walk from there passes. */
  lemma AncestorRootIsItself(fs: FileSystem, root: Path, rest: seq<string>, rr: Path)
    requires WellFormed(fs) && CleansInPlace(fs, root) && Proper(rest)
    requires EvalSymlinks(fs, root) == Some(rr)
    requires rr <= Clean(root) + rest
    requires |rr| < |Clean(root)| ==> NoLinkBelow(fs, rr, (Clean(root) + rest)[|rr|..])
    ensures Clean(root) == rr
  {
    var c := Clean(root);
    CleanIsProper([], root);
    EvaluatedIsGrounded(fs, EVAL_LINKS, [], root);
    var links: nat :| Follow(fs, links, [], c) == Reached(rr);
    assert [] + c == c;
    if |c| <= |rr| {
      assert c == rr[..|c|];
      GroundedPrefix(fs, rr, |c|);
      FollowGrounded(fs, links, [], c);
    } else {
      assert rr == c[..|rr|];
      forall j {:trigger c[..j]} | 1 <= j <= |c| && c[..j] in fs
        ensures !fs[c[..j]].Link?
      {
        if j <= |rr| {
          assert c[..j] == rr[..j];
          GroundedPrefix(fs, rr, j);
        } else {
          assert c[..j] == rr + (c + rest)[|rr|..][..j - |rr|];
        }
      }
      forall j {:trigger c[..j]} | 1 <= j <= |c| ensures [] + c[..j] == c[..j] {}
      LiteralLocation(fs, links, [], c);
    }
  }

  /** A root that cleaning does not move: what is accepted is the resolved root plus the virtual path. */
  lemma SteadyRootActs(fs: FileSystem, links: nat, osLinks: nat, roots: map<string, Path>, v: Path)
    requires WellFormed(fs) && Proper(v) && v != [] && v[0] in roots && CleansInPlace(fs, roots[v[0]])
    requires RealContained(fs, links, roots[v[0]], Target(roots, v))
    ensures var rr := EvalSymlinks(fs, roots[v[0]]).value;
            var o := Follow(fs, osLinks, [], Target(roots, v));
            o == TooManyLinks || o == NotADirectory || ((o.Reached? || o.Absent?) && Location(o) == rr + v[1..] && rr <= Location(o))
  {
    var root, rest, full := roots[v[0]], v[1..], Target(roots, v);
    var rr := EvalSymlinks(fs, root).value;
    WalkIsBelowRoot(fs, links, roots, v);
    EvaluatedIsGrounded(fs, EVAL_LINKS, [], root);
    if |v| == 1 {
      BudgetIrrelevant(fs, EVAL_LINKS, osLinks, [], root);
      assert rr + rest == rr;
    } else {
      var c := Clean(root);
      var links': nat :| Follow(fs, links', [], c) == Reached(rr);
      BudgetIrrelevant(fs, links', osLinks, [], c);
      CleanTarget(roots, v);
      CleanAppend([], root, rest);
      var left := FollowSplit(fs, osLinks, [], c, rest);
      LiteralLocation(fs, left, rr, rest);
    }
  }

  /** On either way of computing the relative path, the walk covers rr + rest. */
  lemma WalkIsBelowRoot(fs: FileSystem, links: nat, roots: map<string, Path>, v: Path)
    requires WellFormed(fs) && Proper(v) && v != [] && v[0] in roots && CleansInPlace(fs, roots[v[0]])
    requires RealContained(fs, links, roots[v[0]], Target(roots, v))
    ensures var rr := EvalSymlinks(fs, roots[v[0]]).value;
            && NoLinkBelow(fs, rr, v[1..])
            && (rr <= Clean(roots[v[0]]) ==> rr == Clean(roots[v[0]]))
  {
    var root, rest, full := roots[v[0]], v[1..], Target(roots, v);
    var rr, c := EvalSymlinks(fs, root).value, Clean(root);
    EvaluatedIsGrounded(fs, EVAL_LINKS, [], root);
    SegmentsAreProper(rr, root, full);
    SeenIsAll(fs, links, rr, WalkSegments(rr, root, full).value);
    CleanTarget(roots, v);
    CleanIsProper([], root);
    CleanAppend([], [], rr);
    assert [] + rr == rr;
    var n := CommonPrefix(rr, c + rest);
    if n == |rr| {
      assert rr == (c + rest)[..n];
      AncestorRootIsItself(fs, root, rest, rr);
      assert (c + rest)[n..] == rest;
    } else {
      assert CommonPrefix(c, c + rest) == |c|;
      assert (c + rest)[|c|..] == rest;
      assert n < |c| ==> (c + rest)[n] == c[n];
    }
  }

  // ── which roots are sound ───────────────────────────────────────────

  /** Whatever is accepted, a system call on it fails or works on the resolved root plus the virtual path. */
  ghost predicate ActsUnderRoot(fs: FileSystem, root: Path) {
    forall links: nat, osLinks: nat, rest: Path
      {:trigger RealContained(fs, links, root, Joined(root, rest)), Follow(fs, osLinks, [], Joined(root, rest))} ::
      Proper(rest) && RealContained(fs, links, root, Joined(root, rest)) ==>
        var o := Follow(fs, osLinks, [], Joined(root, rest));
        (o.Reached? || o.Absent?) ==> Location(o) == EvalSymlinks(fs, root).value + rest
  }

  /** A place that can hold files: a directory, or nothing yet. */
  ghost predicate Usable(fs: FileSystem, o: Outcome) {
    o.Absent? || (o.Reached? && IsDirAt(fs, o.path))
  }

  /** Every path below the root is refused: its own text meets a link below what it resolves to. */
  ghost predicate RefusesAll(fs: FileSystem, root: Path, rr: Path) {
    rr <= Clean(root) && !NoLinkBelow(fs, rr, Clean(root)[|rr|..])
  }

  /** The cleaned root, where it leads to anything that can hold files, leads to the resolved root. */
  ghost predicate SoundRoot(fs: FileSystem, root: Path) {
    EvalSymlinks(fs, root).Some? ==>
      var rr := EvalSymlinks(fs, root).value;
      RefusesAll(fs, root, rr)
      || forall osLinks: nat :: Usable(fs, Follow(fs, osLinks, [], Clean(root))) ==> Follow(fs, osLinks, [], Clean(root)) == Reached(rr)
  }

  lemma MaxComponent(p: Path) returns (k: nat)
    ensures forall c :: c in p ==> |c| < k
  {
    k := 0;
    for i := 0 to |p|
      invariant forall j :: 0 <= j < i ==> |p[j]| < k
    {
      if |p[i]| >= k { k := |p[i]| + 1; }
    }
  }

  lemma {:induction false} MaxName(paths: set<Path>) returns (k: nat)
    ensures forall p, c {:trigger c in p, p in paths} :: p in paths && c in p ==> |c| < k
    decreases |paths|
  {
    k := 0;
    if paths != {} {
      var p :| p in paths;
      var others := MaxName(paths - {p});
      var own := MaxComponent(p);
      k := if others < own then own else others;
      forall q, c | q in paths && c in q ensures |c| < k { assert q == p || q in paths - {p}; }
    }
  }

  /** A name no path of the file system has in it. */
  ghost predicate Unused(fs: FileSystem, n: string) {
    ProperName(n) && forall p :: p in fs ==> n !in p
  }

  lemma SomeNameIsUnused(fs: FileSystem) returns (n: string)
    ensures Unused(fs, n)
  {
    var k := MaxName(fs.Keys);
    n := seq(k + 3, _ => 'x');
    forall p | p in fs ensures n !in p { assert p in fs.Keys; }
  }

  lemma UnusedIsNowhere(fs: FileSystem, n: string, p: Path)
    requires Unused(fs, n)
    ensures p + [n] !in fs
  {
    assert (p + [n])[|p|] == n;
  }

  lemma CleanJoined(root: Path, rest: Path)
    requires Proper(rest)
    ensures Clean(root + rest) == Clean(root) + rest && Clean(Clean(root) + rest) == Clean(root) + rest
  {
    var c := Clean(root);
    CleanAppend([], root, rest);
    CleanIsProper([], root);
    CleanAppend([], [], c + rest);
    assert [] + (c + rest) == c + rest;
  }

  /** The walk starts from the resolved root when the path lies below it. */
  lemma WalkFromResolved(rr: Path, root: Path, full: Path)
    requires Clean(rr) == rr && Clean(full) == full && rr <= full
    ensures WalkSegments(rr, root, full) == Some(full[|rr|..])
  {
    assert CommonPrefix(rr, full) == |rr|;
  }

  /** Otherwise it covers what was joined to the root. */
  lemma WalkFromRoot(rr: Path, root: Path, rest: Path)
    requires Clean(rr) == rr && Clean(Clean(root) + rest) == Clean(root) + rest && !(rr <= Clean(root) + rest)
    ensures WalkSegments(rr, root, Clean(root) + rest) == Some(rest)
  {
    var c := Clean(root);
    var full := c + rest;
    var n := CommonPrefix(rr, full);
    assert rr[..n] == full[..n] && rr[..|rr|] == rr;
    assert CommonPrefix(c, full) == |c| && full[|c|..] == rest;
  }

  lemma ResolvedIsClean(fs: FileSystem, root: Path, rr: Path)
    requires WellFormed(fs) && EvalSymlinks(fs, root) == Some(rr)
    ensures Grounded(fs, rr) && Clean(rr) == rr
  {
    EvaluatedIsGrounded(fs, EVAL_LINKS, [], root);
    CleanAppend([], [], rr);
    assert [] + rr == rr;
  }

  lemma NoLinkWithUnused(fs: FileSystem, from: Path, names: seq<string>, n: string)
    requires NoLinkBelow(fs, from, names) && Unused(fs, n)
    ensures NoLinkBelow(fs, from, names + [n])
  {
    assert (names + [n])[..|names|] == names && from + (names + [n]) == from + names + [n];
    UnusedIsNowhere(fs, n, from + names);
    NoLinkBelowLast(fs, from, names + [n]);
  }

  /** The components the walk looks at, for any root. */
  function Walked(rr: Path, c: Path, rest: Path): Path {
    if rr <= c + rest then (c + rest)[|rr|..] else rest
  }

  /** MAIN RESULT. For any root whatever, resolve accepts a path exactly when the root resolves and no
      link lies on the walk: from the resolved root down to the path when the path's text lies below it,
      else along the virtual path alone. */
  lemma AcceptedExactlyWhenNoLinkOnWalk(fs: FileSystem, links: nat, root: Path, rest: Path)
    requires WellFormed(fs) && Proper(rest)
    ensures RealContained(fs, links, root, Joined(root, rest)) <==>
              var rr := EvalSymlinks(fs, root);
              rr.Some? && NoLinkBelow(fs, rr.value, Walked(rr.value, Clean(root), rest))
  {
    if EvalSymlinks(fs, root).Some? {
      var rr, c := EvalSymlinks(fs, root).value, Clean(root);
      ResolvedIsClean(fs, root, rr);
      CleanIsProper([], root);
      CleanJoined(root, rest);
      assert c + [] == c && root + [] == root;
      if rr <= c + rest { WalkFromResolved(rr, root, c + rest); } else { WalkFromRoot(rr, root, rest); }
      assert WalkSegments(rr, root, Joined(root, rest)) == WalkSegments(rr, root, c + rest);
      SeenIsAll(fs, links, rr, Walked(rr, c, rest));
    }
  }

  /** A root that links to its own ancestor is refused altogether; any other plain root
      accepts exactly the paths without links below what it resolves to. */
  lemma PlainRootAcceptsExactlyWhen(fs: FileSystem, links: nat, root: Path, rest: Path, rr: Path)
    requires WellFormed(fs) && Proper(rest) && ".." !in root && EvalSymlinks(fs, root) == Some(rr)
    ensures RealContained(fs, links, root, Joined(root, rest)) <==>
              NoLinkBelow(fs, rr, rest) && (rr <= Clean(root) ==> rr == Clean(root))
  {
    var c := Clean(root);
    PlainRootCleansInPlace(fs, root);
    AcceptedExactlyWhenNoLinkOnWalk(fs, links, root, rest);
    if rr <= c + rest {
      CleanIsProper([], root);
      if NoLinkBelow(fs, rr, Walked(rr, c, rest)) || (rr <= c ==> rr == c) {
        AncestorRootIsItself(fs, root, rest, rr);
        assert (c + rest)[|c|..] == rest;
      }
    }
  }

  /** A new name directly below the root is accepted, unless all are refused. */
  lemma AcceptsUnused(fs: FileSystem, links: nat, root: Path, rr: Path, n: string)
    requires WellFormed(fs) && EvalSymlinks(fs, root) == Some(rr) && !RefusesAll(fs, root, rr) && Unused(fs, n)
    ensures RealContained(fs, links, root, Clean(root) + [n])
  {
    var c := Clean(root);
    ResolvedIsClean(fs, root, rr);
    CleanJoined(root, [n]);
    CleanIsProper([], root);
    if rr <= c {
      assert (c + [n])[|rr|..] == c[|rr|..] + [n] && rr <= c + [n];
      WalkFromResolved(rr, root, c + [n]);
      NoLinkWithUnused(fs, rr, c[|rr|..], n);
      SeenIsAll(fs, links, rr, c[|rr|..] + [n]);
    } else {
      ResolvedHasNoUnused(fs, rr, c, n);
      WalkFromRoot(rr, root, [n]);
      NoLinkWithUnused(fs, rr, [], n);
      assert [] + [n] == [n];
      SeenIsAll(fs, links, rr, [n]);
    }
  }

  lemma ResolvedHasNoUnused(fs: FileSystem, rr: Path, c: Path, n: string)
    requires Grounded(fs, rr) && Unused(fs, n)
    ensures rr <= c + [n] ==> rr <= c
  {
    assert n !in rr;
    assert (c + [n])[|c|] == n;
    if rr <= c + [n] { assert rr == (c + [n])[..|rr|] == c[..|rr|]; }
  }

  lemma ActsElsewhere(fs: FileSystem, osLinks: nat, root: Path, rr: Path, n: string)
    requires WellFormed(fs) && EvalSymlinks(fs, root) == Some(rr) && Unused(fs, n)
    requires Usable(fs, Follow(fs, osLinks, [], Clean(root)))
    ensures var o := Follow(fs, osLinks, [], Clean(root) + [n]);
            o.Absent? && (Location(o) == rr + [n] ==> Follow(fs, osLinks, [], Clean(root)) == Reached(rr))
  {
    var base := Follow(fs, osLinks, [], Clean(root));
    EvaluatedIsGrounded(fs, EVAL_LINKS, [], root);
    var left := FollowSplit(fs, osLinks, [], Clean(root), [n]);
    var o := Follow(fs, osLinks, [], Clean(root) + [n]);
    if base.Reached? {
      UnusedIsNowhere(fs, n, base.path);
      assert o == Absent(base.path + [n], []);
      assert Location(o) == base.path + [n];
      assert (base.path + [n])[..|base.path|] == base.path && (rr + [n])[..|rr|] == rr;
    } else {
      var p := base.path;
      assert Location(o) == p + base.rest + [n] by { assert p + (base.rest + [n]) == p + base.rest + [n]; }
      if Location(o) == rr + [n] {
        assert rr == (rr + [n])[..|rr|] == p + base.rest;
        assert rr[..|p|] == p;
        GroundedPrefix(fs, rr, |p|);
      }
    }
  }

  lemma SoundRootsAct(fs: FileSystem, links: nat, osLinks: nat, root: Path, rest: Path)
    requires WellFormed(fs) && SoundRoot(fs, root) && Proper(rest) && RealContained(fs, links, root, Joined(root, rest))
    ensures var o := Follow(fs, osLinks, [], Joined(root, rest));
            (o.Reached? || o.Absent?) ==> Location(o) == EvalSymlinks(fs, root).value + rest
  {
    var rr, c := EvalSymlinks(fs, root).value, Clean(root);
    if rest == [] {
      BudgetIrrelevant(fs, EVAL_LINKS, osLinks, [], root);
      assert rr + rest == rr;
    } else {
      CleanJoined(root, rest);
      var base := Follow(fs, osLinks, [], c);
      var left := FollowSplit(fs, osLinks, [], c, rest);
      if base == Reached(rr) {
        var roots, v := map["app" := root], ["app"] + rest;
        assert v[1..] == rest && Target(roots, v) == Joined(root, rest);
        SteadyRootActs(fs, links, osLinks, roots, v);
      } else if Usable(fs, base) {
        RefusedIsNotAccepted(fs, links, root, rr, rest);
      }
    }
  }

  lemma RefusedIsNotAccepted(fs: FileSystem, links: nat, root: Path, rr: Path, rest: Path)
    requires WellFormed(fs) && EvalSymlinks(fs, root) == Some(rr) && RefusesAll(fs, root, rr) && Proper(rest)
    ensures !RealContained(fs, links, root, Clean(root) + rest)
  {
    var c := Clean(root);
    ResolvedIsClean(fs, root, rr);
    CleanIsProper([], root);
    CleanJoined(root, rest);
    var segments := (c + rest)[|rr|..];
    WalkFromResolved(rr, root, c + rest);
    SeenIsAll(fs, links, rr, segments);
    var k :| 1 <= k <= |c| - |rr| && rr + c[|rr|..][..k] in fs && fs[rr + c[|rr|..][..k]].Link?;
    assert segments[..k] == c[|rr|..][..k];
  }

  /** MAIN RESULT. On any file system and for any root, dot-dot and links included: everything resolve accepts
      below the root acts on exactly the resolved root plus the virtual path if and only if the cleaned
      root leads where the root leads, wherever it leads to anything that can hold files, or the
      service refuses every path below the root. */
  lemma ActsUnderRootExactlyWhen(fs: FileSystem, root: Path)
    requires WellFormed(fs)
    ensures ActsUnderRoot(fs, root) <==> SoundRoot(fs, root)
  {
    if SoundRoot(fs, root) {
      forall links: nat, osLinks: nat, rest: Path | Proper(rest) && RealContained(fs, links, root, Joined(root, rest))
        ensures var o := Follow(fs, osLinks, [], Joined(root, rest));
                (o.Reached? || o.Absent?) ==> Location(o) == EvalSymlinks(fs, root).value + rest
      {
        SoundRootsAct(fs, links, osLinks, root, rest);
      }
    } else {
      var rr := EvalSymlinks(fs, root).value;
      var osLinks: nat :| Usable(fs, Follow(fs, osLinks, [], Clean(root))) && Follow(fs, osLinks, [], Clean(root)) != Reached(rr);
      var n := SomeNameIsUnused(fs);
      CleanJoined(root, [n]);
      assert Joined(root, [n]) == Clean(root) + [n];
      AcceptsUnused(fs, 0, root, rr, n);
      ActsElsewhere(fs, osLinks, root, rr, n);
    }
  }

  /** MAIN RESULT. For the roots of the theorem above, no others, a system call on a path that resolve returned
      fails or works inside the resolved root, all links dereferenced and missing tails allowed. */
  lemma ResolvedPathStaysInside(fs: FileSystem, links: nat, osLinks: nat, roots: map<string, Path>, v: Path)
    requires WellFormed(fs) && Proper(v) && v != [] && v[0] in roots && SoundRoot(fs, roots[v[0]])
    requires RealContained(fs, links, roots[v[0]], Target(roots, v))
    ensures var rr := EvalSymlinks(fs, roots[v[0]]).value;
            var o := Follow(fs, osLinks, [], Target(roots, v));
            o == TooManyLinks || o == NotADirectory || ((o.Reached? || o.Absent?) && Location(o) == rr + v[1..] && rr <= Location(o))
  {
    SoundRootsAct(fs, links, osLinks, roots[v[0]], v[1..]);
  }

  /** Every root without "..", such as those the API sends, is sound. */
  lemma PlainRootIsSound(fs: FileSystem, root: Path)
    requires WellFormed(fs) && ".." !in root
    ensures SoundRoot(fs, root)
  {
    if EvalSymlinks(fs, root).Some? {
      PlainRootCleansInPlace(fs, root);
      var rr := EvalSymlinks(fs, root).value;
      var links: nat :| Follow(fs, links, [], Clean(root)) == Reached(rr);
      forall osLinks: nat | Usable(fs, Follow(fs, osLinks, [], Clean(root)))
        ensures Follow(fs, osLinks, [], Clean(root)) == Reached(rr)
      {
        BudgetIrrelevant(fs, links, osLinks, [], Clean(root));
      }
    }
  }

  /** /a/l links to /t/u, and both /a and /t have a directory b. */
  const DOT_DOT_FS: FileSystem :=
    map[["a"] := Dir, ["a", "b"] := Dir, ["a", "l"] := Link(true, ["t", "u"]),
        ["t"] := Dir, ["t", "u"] := Dir, ["t", "b"] := Dir]

  const DOT_DOT_ROOT: Path := ["a", "l", "..", "b"]

  lemma DotDotFsWellFormed()
    ensures WellFormed(DOT_DOT_FS)
  {
    forall d: Path, name: string {:trigger d + [name]} | d + [name] in DOT_DOT_FS
      ensures d == [] || (d in DOT_DOT_FS && DOT_DOT_FS[d] == Dir)
    {
      assert |d + [name]| <= 2;
      if |d| == 1 { assert d == [(d + [name])[0]]; }
    }
  }

  lemma DotDotTarget()
    ensures Target(map["app" := DOT_DOT_ROOT], ["app", "x"]) == ["a", "b", "x"]
  {
    assert DOT_DOT_ROOT + ["app", "x"][1..] == ["a", "l", "..", "b", "x"];
    assert CleanFrom([], ["a", "l", "..", "b", "x"]) == CleanFrom(["a"], ["l", "..", "b", "x"]);
    assert CleanFrom(["a"], ["l", "..", "b", "x"]) == CleanFrom(["a", "l"], ["..", "b", "x"]);
    assert CleanFrom(["a", "l"], ["..", "b", "x"]) == CleanFrom(["a"], ["b", "x"]);
    assert CleanFrom(["a"], ["b", "x"]) == CleanFrom(["a", "b"], ["x"]);
  }

  lemma DotDotEvaluates()
    ensures EvalSymlinks(DOT_DOT_FS, DOT_DOT_ROOT) == Some(["t", "b"])
  {
    var fs := DOT_DOT_FS;
    assert [] + ["a"] == ["a"] && ["a"] + ["l"] == ["a", "l"];
    assert Follow(fs, 255, [], DOT_DOT_ROOT) == Follow(fs, 255, ["a"], ["l", "..", "b"]);
    assert ["t", "u"] + ["..", "b"] == ["t", "u", "..", "b"];
    assert ["t", "u", "..", "b"][1..] == ["u", "..", "b"] && ["u", "..", "b"][1..] == ["..", "b"] && ["..", "b"][1..] == ["b"];
    assert [] + ["t"] == ["t"] && ["t"] + ["u"] == ["t", "u"] && ["t", "u"][..1] == ["t"] && ["t"] + ["b"] == ["t", "b"];
    assert Follow(fs, 255, ["a"], ["l", "..", "b"]) == Follow(fs, 254, [], ["t", "u", "..", "b"]);
    assert Follow(fs, 254, [], ["t", "u", "..", "b"]) == Follow(fs, 254, ["t"], ["u", "..", "b"]);
    assert Follow(fs, 254, ["t"], ["u", "..", "b"]) == Follow(fs, 254, ["t", "u"], ["..", "b"]);
    assert Follow(fs, 254, ["t", "u"], ["..", "b"]) == Follow(fs, 254, ["t"], ["b"]);
  }

  lemma DotDotOpens(osLinks: nat)
    ensures Follow(DOT_DOT_FS, osLinks, [], ["a", "b", "x"]) == Absent(["a", "b", "x"], [])
  {
    assert [] + ["a"] == ["a"] && ["a"] + ["b"] == ["a", "b"] && ["a", "b"] + ["x"] == ["a", "b", "x"];
    assert ["a", "b", "x"][1..] == ["b", "x"] && ["b", "x"][1..] == ["x"];
    assert Follow(DOT_DOT_FS, osLinks, [], ["a", "b", "x"]) == Follow(DOT_DOT_FS, osLinks, ["a"], ["b", "x"]);
    assert Follow(DOT_DOT_FS, osLinks, ["a"], ["b", "x"]) == Follow(DOT_DOT_FS, osLinks, ["a", "b"], ["x"]);
  }

  lemma DotDotContained(links: nat)
    ensures RealContained(DOT_DOT_FS, links, DOT_DOT_ROOT, ["a", "b", "x"])
  {
    DotDotFsWellFormed();
    DotDotEvaluates();
    DotDotWalk();
    SeenAt(DOT_DOT_FS, links, ["t", "b"], [], "x");
    assert ["t", "b"] + [] + ["x"] == ["t", "b", "x"] == ["t", "b"] + ["x"];
    NoLinkSeenLast(DOT_DOT_FS, links, ["t", "b"], ["x"]);
    assert ["x"][..0] == [];
  }

  /** A root written with ".." is read in two ways: EvalSymlinks leaves the link
      before it climbs, Clean climbs over the name of the link. The path resolve
      accepts is then outside the resolved root. */
  lemma DotDotRootEscapes(links: nat, osLinks: nat)
    ensures var full := Target(map["app" := DOT_DOT_ROOT], ["app", "x"]);
            && WellFormed(DOT_DOT_FS)
            && RealContained(DOT_DOT_FS, links, DOT_DOT_ROOT, full)
            && var o := Follow(DOT_DOT_FS, osLinks, [], full);
            && o.Absent? && !(EvalSymlinks(DOT_DOT_FS, DOT_DOT_ROOT).value <= Location(o))
    ensures !SoundRoot(DOT_DOT_FS, DOT_DOT_ROOT)
  {
    DotDotFsWellFormed();
    DotDotTarget();
    DotDotEvaluates();
    DotDotOpens(osLinks);
    DotDotContained(links);
    assert ["t", "b"][0] != ["a", "b", "x"][0];
    assert ["app", "x"][1..] == ["x"];
    if SoundRoot(DOT_DOT_FS, DOT_DOT_ROOT) { SoundRootsAct(DOT_DOT_FS, links, osLinks, DOT_DOT_ROOT, ["x"]); }
  }

  lemma DotDotWalk()
    ensures WalkSegments(["t", "b"], DOT_DOT_ROOT, ["a", "b", "x"]) == Some(["x"])
  {
    var rr, full := ["t", "b"], ["a", "b", "x"];
    assert CleanFrom([], DOT_DOT_ROOT) == CleanFrom(["a"], ["l", "..", "b"]);
    assert CleanFrom(["a"], ["l", "..", "b"]) == CleanFrom(["a", "l"], ["..", "b"]);
    assert CleanFrom(["a", "l"], ["..", "b"]) == CleanFrom(["a"], ["b"]) == ["a", "b"];
    CleanAppend([], [], full);
    CleanAppend([], [], rr);
    assert [] + full == full && [] + rr == rr;
    assert CommonPrefix(["a", "b"], full) == 2;
    assert full[2..] == ["x"];
  }
}
