/**
 * The file system the installer works on: a map from absolute paths (sequences
 * of names) to nodes, with the Node `fs`/`path` calls the installer makes
 * modelled as functions on that map and as methods of a `FileSystem` object
 * that applies them in place.
 *
 * Symbolic links are leaves: a link is followed (one hop) when a path ends in
 * it, never when it stands in the middle of a path.
 */
module FileTree {
  import opened Outcomes
  import opened Text

  type Path = seq<string>

  datatype Node = File(data: string) | Dir | Link(target: Path)

  type Tree = map<Path, Node>

  datatype FsError =
    | MkdirBlocked(path: Path)         // a file or link sits on the way of `mkdir -p`
    | NotADirectory(path: Path)        // `readdirSync` of something that is not a directory
    | GlobUnmatched(path: Path)        // `cp -r src/* dst/` where `src/*` matches nothing
    | TargetNotADirectory(path: Path)  // `cp ... dst/` where dst is not a directory

  predicate IsPrefix(p: Path, q: Path) {
    |p| <= |q| && q[..|p|] == p
  }

  /** Two prefixes of one path: one of them is a prefix of the other. */
  lemma PrefixesOfOne(a: Path, b: Path, q: Path)
    requires IsPrefix(a, q) && IsPrefix(b, q)
    ensures IsPrefix(a, b) || IsPrefix(b, a)
  {
    if |a| <= |b| {
      assert b[..|a|] == q[..|a|];
    } else {
      assert a[..|b|] == q[..|b|];
    }
  }

  lemma PrefixTransitive(a: Path, b: Path, c: Path)
    requires IsPrefix(a, b) && IsPrefix(b, c)
    ensures IsPrefix(a, c)
  {
    assert c[..|a|] == b[..|a|];
  }

  /** A prefix of `b + [n]` is `b + [n]` itself or a prefix of `b`. */
  lemma PrefixOfChild(a: Path, b: Path, n: string)
    ensures IsPrefix(a, b + [n]) ==> a == b + [n] || IsPrefix(a, b)
    ensures IsPrefix(b + [n], a) ==> IsPrefix(b, a)
  {
    if IsPrefix(a, b + [n]) && |a| <= |b| {
      assert b[..|a|] == (b + [n])[..|a|];
    }
    if IsPrefix(b + [n], a) {
      assert a[..|b|] == (b + [n])[..|b|];
    }
  }

  /** `existsSync(p)`: true for a file or a directory, and for a link whose target is one. */
  predicate Exists(t: Tree, p: Path) {
    p in t && (t[p].Link? ==> t[p].target in t && !t[t[p].target].Link?)
  }

  /** `Dirent.isDirectory()`: the entry itself is a directory (links are not followed). */
  predicate IsDirNode(t: Tree, p: Path) {
    p in t && t[p].Dir?
  }

  /** The names of the entries directly inside `p`. */
  function Children(t: Tree, p: Path): set<string> {
    set q | q in t && |q| == |p| + 1 && q[..|p|] == p :: q[|p|]
  }

  lemma ChildrenMembership(t: Tree, p: Path, n: string)
    ensures n in Children(t, p) <==> p + [n] in t
  {
    if n in Children(t, p) {
      var q :| q in t && |q| == |p| + 1 && q[..|p|] == p && q[|p|] == n;
      assert q == p + [n];
    }
    if p + [n] in t {
      assert (p + [n])[..|p|] == p;
    }
  }

  // ---------------------------------------------------------------------------
  // path.join

  /** Appends one piece of a path, normalising "" and "." away and ".." to the parent. */
  function JoinSegment(p: Path, seg: string): Path {
    if seg == "" || seg == "." then p
    else if seg == ".." then (if p == [] then p else p[..|p| - 1])
    else p + [seg]
  }

  function JoinSegments(p: Path, segs: seq<string>): Path
    decreases |segs|
  {
    if segs == [] then p else JoinSegments(JoinSegment(p, segs[0]), segs[1..])
  }

  /** `path.join(p, s)`, where `s` may itself contain '/'. */
  function Join(p: Path, s: string): Path {
    JoinSegments(p, Split(s, '/'))
  }

  /** A name that `path.join` appends as it is. */
  predicate PlainName(s: string) {
    s != "" && s != "." && s != ".." && '/' !in s
  }

  lemma JoinPlain(p: Path, s: string)
    requires PlainName(s)
    ensures Join(p, s) == p + [s]
  {
    SplitNoSep(s, '/');
    assert Split(s, '/') == [s];
    assert JoinSegments(p, [s]) == JoinSegments(p + [s], []);
  }

  // ---------------------------------------------------------------------------
  // mkdirSync(p, { recursive: true })

  /** Some prefix of `p` (p included) is a file or a link. */
  predicate Blocked(t: Tree, p: Path) {
    exists k :: 1 <= k <= |p| && p[..k] in t && !t[p[..k]].Dir?
  }

  function MakeDirs(t: Tree, p: Path): (r: Result<Tree, FsError>)
    ensures r.Ok? <==> !Blocked(t, p)
    ensures r.Err? ==> r.error == MkdirBlocked(p)
    ensures r.Ok? ==> forall q :: q in t ==> q in r.value && r.value[q] == t[q]
    ensures r.Ok? ==> forall q :: q in r.value && q !in t ==> 1 <= |q| && IsPrefix(q, p) && r.value[q] == Dir
    ensures r.Ok? ==> forall k :: 1 <= k <= |p| ==> IsDirNode(r.value, p[..k])
  {
    if Blocked(t, p) then Err(MkdirBlocked(p))
    else
      var prefixes := set k | 1 <= k <= |p| :: p[..k];
      Ok(map q | q in t.Keys + prefixes :: if q in t then t[q] else Dir)
  }

  // ---------------------------------------------------------------------------
  // rmSync(p, { recursive: true, force: true })

  function RemoveTree(t: Tree, p: Path): (r: Tree)
    ensures forall q :: q in r <==> q in t && !IsPrefix(p, q)
    ensures forall q :: q in r ==> r[q] == t[q]
  {
    map q | q in t && !IsPrefix(p, q) :: t[q]
  }

  // ---------------------------------------------------------------------------
  // cp -r "src"/* "dst/"

  /** Names the shell glob `*` matches: those not starting with a dot. */
  predicate Visible(name: string) {
    !StartsWith(name, ".")
  }

  predicate HasVisibleChild(t: Tree, p: Path) {
    exists q :: q in t && |q| == |p| + 1 && q[..|p|] == p && Visible(q[|p|])
  }

  /** `p` lies below `dst` in a visible top entry that `src` also has. */
  predicate Incoming(t: Tree, src: Path, dst: Path, p: Path) {
    |p| > |dst| && p[..|dst|] == dst && Visible(p[|dst|]) && src + p[|dst|..] in t
  }

  /**
   * The tree after copying every visible entry of `src`, recursively, into
   * `dst`: what `src` has overwrites, and everything else survives.
   */
  function Merge(t: Tree, src: Path, dst: Path): (r: Tree)
    ensures forall p :: p in t ==> p in r
    ensures forall p :: p in r && Incoming(t, src, dst, p) ==> r[p] == t[src + p[|dst|..]]
    ensures forall p :: p in r && !Incoming(t, src, dst, p) ==> p in t && r[p] == t[p]
  {
    var incoming := set q | q in t && |q| > |src| && q[..|src|] == src && Visible(q[|src|]) :: dst + q[|src|..];
    assert forall p :: p in incoming ==> Incoming(t, src, dst, p) by {
      forall p | p in incoming
        ensures Incoming(t, src, dst, p)
      {
        var q :| q in t && |q| > |src| && q[..|src|] == src && Visible(q[|src|]) && p == dst + q[|src|..];
        assert p[..|dst|] == dst && p[|dst|..] == q[|src|..];
        assert src + q[|src|..] == q;
      }
    }
    map p | p in t.Keys + incoming :: if Incoming(t, src, dst, p) then t[src + p[|dst|..]] else t[p]
  }

  /** Every visible entry of `src` gets a copy at the same place below `dst`. */
  lemma MergeCopies(t: Tree, src: Path, dst: Path, rel: Path)
    requires |rel| > 0 && Visible(rel[0]) && src + rel in t
    ensures dst + rel in Merge(t, src, dst) && Merge(t, src, dst)[dst + rel] == t[src + rel]
  {
    var q := src + rel;
    assert q[..|src|] == src && q[|src|..] == rel;
    assert (dst + rel)[..|dst|] == dst && (dst + rel)[|dst|..] == rel;
    assert Incoming(t, src, dst, dst + rel);
  }

  function Copy(t: Tree, src: Path, dst: Path): (r: Result<Tree, FsError>)
    ensures r.Ok? <==> IsDirNode(t, src) && HasVisibleChild(t, src) && IsDirNode(t, dst)
    ensures r.Ok? ==> r.value == Merge(t, src, dst)
    ensures r.Err? ==> r.error == if IsDirNode(t, src) && HasVisibleChild(t, src) then TargetNotADirectory(dst) else GlobUnmatched(src)
  {
    if !IsDirNode(t, src) || !HasVisibleChild(t, src) then Err(GlobUnmatched(src))
    else if !IsDirNode(t, dst) then Err(TargetNotADirectory(dst))
    else Ok(Merge(t, src, dst))
  }

  // ---------------------------------------------------------------------------
  // symlinkSync(target, p) and git clone into a new directory

  /** A new entry can be made at `p`: nothing at all (not even a dangling link) is there, and its parent is a directory. */
  predicate Creatable(t: Tree, p: Path) {
    |p| > 0 && p !in t && IsDirNode(t, p[..|p| - 1])
  }

  /** What `git clone` does: it fails, or it produces the repository tree `repo` (paths relative to its root). */
  datatype CloneOutcome = CloneFails | Cloned(repo: Tree)

  /** The tree with a directory at `at` holding `repo`, and nothing else below `at`. */
  function Graft(t: Tree, at: Path, repo: Tree): (r: Tree)
    ensures at in r && r[at] == Dir
    ensures forall p :: p in r && !IsPrefix(at, p) ==> p in t && r[p] == t[p]
    ensures forall p :: p in t && !IsPrefix(at, p) ==> p in r
    ensures forall p :: p in r && IsPrefix(at, p) && p != at ==> p[|at|..] in repo && r[p] == repo[p[|at|..]]
    ensures forall rel :: rel in repo && rel != [] ==> at + rel in r && r[at + rel] == repo[rel]
  {
    var placed := set rel | rel in repo :: at + rel;
    assert forall p :: p in placed ==> IsPrefix(at, p) && p[|at|..] in repo by {
      forall p | p in placed
        ensures IsPrefix(at, p) && p[|at|..] in repo
      {
        var rel :| rel in repo && p == at + rel;
        assert p[..|at|] == at && p[|at|..] == rel;
      }
    }
    var r := map p | p in RemoveTree(t, at).Keys + placed + {at} ::
      if p == at then Dir
      else if IsPrefix(at, p) && p[|at|..] in repo then repo[p[|at|..]]
      else t[p];
    assert forall rel :: rel in repo && rel != [] ==> at + rel in r && r[at + rel] == repo[rel] by {
      forall rel | rel in repo && rel != []
        ensures at + rel in r && r[at + rel] == repo[rel]
      {
        assert at + rel in placed;
        assert (at + rel)[..|at|] == at && (at + rel)[|at|..] == rel;
      }
    }
    r
  }

  // ---------------------------------------------------------------------------
  // readdirSync(p, { withFileTypes: true })

  /** A directory entry: its name, and whether the entry itself is a directory. */
  datatype Entry = Entry(name: string, isDirectory: bool)

  function Names(es: seq<Entry>): (ns: seq<string>)
    ensures |ns| == |es| && forall k :: 0 <= k < |es| ==> ns[k] == es[k].name
  {
    seq(|es|, k requires 0 <= k < |es| => es[k].name)
  }

  /** `es` lists the entries of the directory `p` of `t`, each once, with their types, in some order. */
  ghost predicate Lists(t: Tree, p: Path, es: seq<Entry>) {
    IsListing(Names(es), Children(t, p)) &&
    forall k :: 0 <= k < |es| ==> es[k].isDirectory == IsDirNode(t, p + [es[k].name])
  }

  /**
   * The machine's file system, changed in place by the calls below; each call
   * states its effect as one of the functions above.
   */
  class FileSystem {
    var nodes: Tree

    constructor (initial: Tree)
      ensures nodes == initial
    {
      nodes := initial;
    }

    /** `mkdirSync(p, { recursive: true })`: all missing directories on the way are created, or nothing changes. */
    method MakeDirectory(p: Path) returns (r: Result<(), FsError>)
      modifies this
      ensures r.Ok? <==> !Blocked(old(nodes), p)
      ensures r.Err? ==> r.error == MkdirBlocked(p)
      ensures nodes == if r.Ok? then MakeDirs(old(nodes), p).value else old(nodes)
    {
      var made := MakeDirs(nodes, p);
      if made.Ok? {
        nodes := made.value;
        r := Ok(());
      } else {
        r := Err(made.error);
      }
    }

    /** `rmSync(p, { recursive: true, force: true })`: never fails. */
    method Remove(p: Path)
      modifies this
      ensures nodes == RemoveTree(old(nodes), p)
    {
      nodes := RemoveTree(nodes, p);
    }

    // `execSync('cp -r "src"/* "dst/"')`

    method CopyContents(src: Path, dst: Path) returns (r: Result<(), FsError>)
      modifies this
      ensures r.Ok? <==> Copy(old(nodes), src, dst).Ok?
      ensures r.Err? ==> r.error == Copy(old(nodes), src, dst).error
      ensures nodes == if r.Ok? then Merge(old(nodes), src, dst) else old(nodes)
    {
      var copied := Copy(nodes, src, dst);
      if copied.Ok? {
        nodes := copied.value;
        r := Ok(());
      } else {
        r := Err(copied.error);
      }
    }

    /** `symlinkSync(target, p)`: fails when anything is at `p` or its parent is not a directory. */
    method Symlink(target: Path, p: Path) returns (ok: bool)
      modifies this
      ensures ok == Creatable(old(nodes), p)
      ensures nodes == if ok then old(nodes)[p := Link(target)] else old(nodes)
    {
      ok := Creatable(nodes, p);
      if ok {
        nodes := nodes[p := Link(target)];
      }
    }

    /** `readdirSync(p, { withFileTypes: true })`: the entries of a directory, in an order the platform chooses. */
    method ReadDir(p: Path) returns (r: Result<seq<Entry>, FsError>)
      ensures r.Ok? <==> IsDirNode(nodes, p)
      ensures r.Err? ==> r.error == NotADirectory(p)
      ensures r.Ok? ==> Lists(nodes, p, r.value)
    {
      if !IsDirNode(nodes, p) {
        return Err(NotADirectory(p));
      }
      var rest := Children(nodes, p);
      var es := [];
      while rest != {}
        invariant Distinct(Names(es))
        invariant forall n :: n in Names(es) ==> n !in rest
        invariant forall n :: n in Children(nodes, p) <==> n in Names(es) || n in rest
        invariant forall k :: 0 <= k < |es| ==> es[k].isDirectory == IsDirNode(nodes, p + [es[k].name])
        decreases |rest|
      {
        var n :| n in rest;
        assert Names(es + [Entry(n, IsDirNode(nodes, p + [n]))]) == Names(es) + [n];
        es := es + [Entry(n, IsDirNode(nodes, p + [n]))];
        rest := rest - {n};
      }
      r := Ok(es);
    }

    /** `git clone --depth 1 <repository> at`: fails when the clone fails or `at` is taken, and otherwise places the repository there. */
    method Clone(at: Path, outcome: CloneOutcome) returns (ok: bool)
      modifies this
      ensures ok == (outcome.Cloned? && Creatable(old(nodes), at))
      ensures nodes == if ok then Graft(old(nodes), at, outcome.repo) else old(nodes)
    {
      ok := outcome.Cloned? && Creatable(nodes, at);
      if ok {
        nodes := Graft(nodes, at, outcome.repo);
      }
    }
  }
}
