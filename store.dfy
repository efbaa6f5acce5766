/**
 * The canonical skill store under `~/.orchestra`: its fixed paths, the record
 * kept for every installed skill, and the guarded directory creation the
 * installer performs before copying.
 */
module SkillStore {
  import opened Outcomes
  import opened FileTree

  /** `~/.orchestra` */
  function OrchestraDir(home: Path): Path {
    home + [".orchestra"]
  }

  /** `~/.orchestra/skills`, where every downloaded skill is kept. */
  function CanonicalDir(home: Path): Path {
    home + [".orchestra", "skills"]
  }

  /** `~/.orchestra/.temp-clone`, where the repository is cloned for the duration of a download. */
  function TempDir(home: Path): Path {
    home + [".orchestra", ".temp-clone"]
  }

  /** The file whose presence makes a directory a skill. */
  const Marker := "SKILL.md"

  /** A directory holds a skill when `SKILL.md` exists directly in it (`path.join` appends the plain name as it is). */
  predicate HoldsSkill(t: Tree, dir: Path) {
    Exists(t, dir + [Marker])
  }

  /**
   * One downloaded skill. A standalone skill is a whole category (its `skill`
   * is the category id); a nested one is a sub-directory of its category.
   */
  datatype SkillRecord = SkillRecord(category: string, skill: string, standalone: bool)

  /** Why an installation stopped. */
  datatype InstallError =
    | CloneFailed              // `git clone` failed or could not create its directory
    | FsFailed(error: FsError) // a file system call threw
    | LockNotAnObject          // the lock file holds JSON that is not an object

  /** The state of a download part way through: the file system, the records so far, and the error that stopped it. */
  datatype Progress = Progress(tree: Tree, skills: seq<SkillRecord>, failure: Option<InstallError>)

  /** `if (!existsSync(p)) mkdirSync(p, { recursive: true })` */
  function MakeIfMissing(t: Tree, p: Path): (r: Result<Tree, FsError>)
    ensures Exists(t, p) ==> r == Ok(t)
    ensures r.Err? <==> !Exists(t, p) && Blocked(t, p)
    ensures r.Ok? && !Exists(t, p) ==> forall k :: 1 <= k <= |p| ==> IsDirNode(r.value, p[..k])
    ensures r.Ok? ==> forall q :: q in t ==> q in r.value && r.value[q] == t[q]
    ensures r.Ok? ==> forall q :: q in r.value && q !in t ==> IsPrefix(q, p) && r.value[q] == Dir
  {
    if Exists(t, p) then Ok(t) else MakeDirs(t, p)
  }

  /** The guarded creation applied to a download in progress; an error stops it. */
  function MakeIn(pr: Progress, p: Path): Progress {
    if pr.failure.Some? then pr
    else match MakeIfMissing(pr.tree, p)
      case Err(e) => pr.(failure := Some(FsFailed(e)))
      case Ok(t) => pr.(tree := t)
  }

  // `cp -r` of the visible entries of `from` into `to`, applied to a download in progress;
  // when it succeeds, `rec` is recorded.
  function CopyIn(pr: Progress, from: Path, to: Path, rec: SkillRecord): Progress {
    if pr.failure.Some? then pr
    else match Copy(pr.tree, from, to)
      case Err(e) => pr.(failure := Some(FsFailed(e)))
      case Ok(t) => Progress(t, pr.skills + [rec], None)
  }

  /** `ensureCanonicalDir`: `~/.orchestra`, then `~/.orchestra/skills`, each made when missing. */
  function EnsureCanonical(t: Tree, home: Path): (pr: Progress)
    ensures pr.skills == []
    ensures pr.failure.None? ==> Exists(pr.tree, CanonicalDir(home))
    ensures pr.failure.None? ==> forall q :: q in t ==> q in pr.tree && pr.tree[q] == t[q]
    ensures pr.failure.None? ==> forall q :: q in pr.tree && q !in t ==> IsPrefix(q, CanonicalDir(home)) && pr.tree[q] == Dir
    ensures pr.failure.Some? ==> pr.failure.value.FsFailed? && Blocked(t, CanonicalDir(home))
    ensures !Blocked(t, CanonicalDir(home)) ==> pr.failure.None?
    ensures Exists(t, OrchestraDir(home)) && Exists(t, CanonicalDir(home)) ==> pr == Progress(t, [], None)
  {
    var orchestra, canonical := OrchestraDir(home), CanonicalDir(home);
    assert orchestra == canonical[..|home| + 1];
    var pr := MakeIn(MakeIn(Progress(t, [], None), orchestra), canonical);
    assert canonical[..|canonical|] == canonical;
    assert pr.failure.Some? ==> Blocked(t, canonical) by {
      if pr.failure.Some? {
        if !Exists(t, orchestra) && Blocked(t, orchestra) {
          var k :| 1 <= k <= |orchestra| && orchestra[..k] in t && !t[orchestra[..k]].Dir?;
          assert canonical[..k] == orchestra[..k];
        }
      }
    }
    assert !Blocked(t, canonical) ==> pr.failure.None? by {
      if !Blocked(t, canonical) && !Exists(t, orchestra) {
        forall k | 1 <= k <= |orchestra| && orchestra[..k] in t
          ensures t[orchestra[..k]].Dir?
        {
          assert canonical[..k] == orchestra[..k];
        }
      }
    }
    pr
  }

  /** `ensureCanonicalDir` on the machine's file system. */
  method EnsureCanonicalDir(fs: FileSystem, home: Path) returns (failure: Option<InstallError>)
    modifies fs
    ensures Progress(fs.nodes, [], failure) == EnsureCanonical(old(fs.nodes), home)
  {
    failure := None;
    if !Exists(fs.nodes, OrchestraDir(home)) {
      var made := fs.MakeDirectory(OrchestraDir(home));
      if made.Err? {
        return Some(FsFailed(made.error));
      }
    }
    if !Exists(fs.nodes, CanonicalDir(home)) {
      var made := fs.MakeDirectory(CanonicalDir(home));
      if made.Err? {
        return Some(FsFailed(made.error));
      }
    }
  }

  /** `if existsSync(temp) rmSync(temp, { recursive: true, force: true })` */
  function Cleanup(t: Tree, temp: Path): (r: Tree)
    ensures !Exists(r, temp)
    ensures forall p :: p in r ==> p in t && r[p] == t[p]
    ensures forall p :: p in t && !IsPrefix(temp, p) ==> p in r
  {
    if Exists(t, temp) then RemoveTree(t, temp) else t
  }

  /** Two paths of which neither lies inside the other. */
  predicate Apart(a: Path, b: Path) {
    !IsPrefix(a, b) && !IsPrefix(b, a)
  }

  /** What lies apart from a directory lies apart from its entries. */
  lemma ApartChild(a: Path, b: Path, n: string)
    requires Apart(a, b)
    ensures Apart(a, b + [n])
  {
    PrefixOfChild(a, b, n);
    assert IsPrefix(b, b + [n]);
  }

  /** `t` and `u` agree everywhere below `root`. */
  ghost predicate SameBelow(t: Tree, u: Tree, root: Path) {
    forall p :: IsPrefix(root, p) ==> (p in t <==> p in u) && (p in t ==> t[p] == u[p])
  }

  lemma SameBelowTransitive(t: Tree, u: Tree, v: Tree, root: Path)
    requires SameBelow(t, u, root) && SameBelow(u, v, root)
    ensures SameBelow(t, v, root)
  {
  }

  /** Everything in `t` is still in `u`, unchanged unless it lies below `root`. */
  ghost predicate Keeps(t: Tree, u: Tree, root: Path) {
    forall p :: p in t ==> p in u && (!IsPrefix(root, p) ==> u[p] == t[p])
  }

  lemma KeepsTransitive(t: Tree, u: Tree, v: Tree, root: Path)
    requires Keeps(t, u, root) && Keeps(u, v, root)
    ensures Keeps(t, v, root)
  {
  }

  /** What changes only below `b` changes only below any `a` that contains `b`. */
  lemma KeepsWiden(t: Tree, u: Tree, a: Path, b: Path)
    requires Keeps(t, u, b) && IsPrefix(a, b)
    ensures Keeps(t, u, a)
  {
    forall p | p in t && IsPrefix(b, p)
      ensures IsPrefix(a, p)
    {
      PrefixTransitive(a, b, p);
    }
  }

  /** The guarded creation changes no entry that exists. */
  lemma MakeInKeeps(pr: Progress, p: Path, root: Path)
    ensures Keeps(pr.tree, MakeIn(pr, p).tree, root)
  {
  }

  /** A copy into `to` changes entries only below `to`. */
  lemma CopyInKeeps(pr: Progress, from: Path, to: Path, rec: SkillRecord)
    ensures Keeps(pr.tree, CopyIn(pr, from, to, rec).tree, to)
  {
  }

  /** Creating the store changes no entry that exists, whether or not it succeeds. */
  lemma EnsureCanonicalKeeps(t: Tree, home: Path, root: Path)
    ensures Keeps(t, EnsureCanonical(t, home).tree, root)
  {
    var first := MakeIn(Progress(t, [], None), OrchestraDir(home));
    MakeInKeeps(Progress(t, [], None), OrchestraDir(home), root);
    MakeInKeeps(first, CanonicalDir(home), root);
  }

  /** Below `root` there are no links, and every entry has a name `path.join` keeps as it is. */
  ghost predicate Ordinary(t: Tree, root: Path) {
    forall p :: p in t && IsPrefix(root, p) ==> !t[p].Link? && (|p| > |root| ==> PlainName(p[|root|]))
  }

  /** Where nothing changed below a directory without links, whether an entry of it holds a skill is unchanged. */
  lemma HoldsSkillBelow(t: Tree, u: Tree, dir: Path, n: string)
    requires SameBelow(t, u, dir) && Ordinary(t, dir) && PlainName(n)
    ensures HoldsSkill(u, Join(dir, n)) == HoldsSkill(t, Join(dir, n))
  {
    JoinPlain(dir, n);
    var p := dir + [n] + [Marker];
    assert p[..|dir|] == dir;
  }

  /** Creating the missing directories on the way to `p` changes nothing below a root apart from `p`. */
  lemma MakeIfMissingApart(t: Tree, p: Path, root: Path)
    requires Apart(root, p) && MakeIfMissing(t, p).Ok?
    ensures SameBelow(t, MakeIfMissing(t, p).value, root)
  {
    var u := MakeIfMissing(t, p).value;
    forall q | IsPrefix(root, q)
      ensures !IsPrefix(q, p)
    {
      if IsPrefix(q, p) {
        PrefixTransitive(root, q, p);
      }
    }
  }

  /** Copying into `to` changes nothing below a root apart from `to`. */
  lemma CopyApart(t: Tree, from: Path, to: Path, root: Path)
    requires Apart(root, to) && Copy(t, from, to).Ok?
    ensures SameBelow(t, Copy(t, from, to).value, root)
  {
    forall q | IsPrefix(root, q)
      ensures !IsPrefix(to, q)
    {
      if IsPrefix(to, q) {
        PrefixesOfOne(root, to, q);
      }
    }
  }

  /**
   * For plain names, the clone lies apart from a category's place in the
   * store, and so does each category of the clone, from its own place and
   * from its skills' places.
   */
  lemma StoreAndTempApart(home: Path, cat: string, name: string)
    requires PlainName(cat) && PlainName(name)
    ensures Apart(TempDir(home), Join(CanonicalDir(home), cat))
    ensures Apart(Join(TempDir(home), cat), Join(CanonicalDir(home), cat))
    ensures Apart(Join(TempDir(home), cat), Join(Join(CanonicalDir(home), cat), name))
  {
    JoinPlain(TempDir(home), cat);
    JoinPlain(CanonicalDir(home), cat);
    JoinPlain(CanonicalDir(home) + [cat], name);
    var a, b := TempDir(home) + [cat], CanonicalDir(home) + [cat];
    assert TempDir(home)[|home| + 1] == ".temp-clone";
    assert a[|home| + 1] == ".temp-clone" && b[|home| + 1] == "skills";
    assert (b + [name])[|home| + 1] == "skills";
  }

  /** Whether a directory below `root` is ordinary depends only on what lies below `root`. */
  lemma OrdinaryBelow(t: Tree, u: Tree, root: Path, dir: Path)
    requires SameBelow(t, u, root) && IsPrefix(root, dir) && Ordinary(t, dir)
    ensures Ordinary(u, dir)
  {
    forall p | p in u && IsPrefix(dir, p)
      ensures p in t && t[p] == u[p]
    {
      PrefixTransitive(root, dir, p);
    }
  }
}
