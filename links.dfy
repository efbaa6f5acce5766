/**
 * `createSymlinks`: every downloaded skill is linked into an agent's skills
 * directory under its own name, pointing at its place in the canonical
 * store. A link that cannot be made is skipped and not counted.
 */
module Links {
  import opened Outcomes
  import opened Text
  import opened FileTree
  import opened SkillStore
  import opened Agents

  /** `CANONICAL_DIR/category` for a standalone skill, `CANONICAL_DIR/category/skill` otherwise. */
  function LinkSource(canon: Path, s: SkillRecord): Path {
    if s.standalone then Join(canon, s.category) else Join(Join(canon, s.category), s.skill)
  }

  /** The category for a standalone skill, the skill otherwise. */
  function LinkName(s: SkillRecord): string {
    if s.standalone then s.category else s.skill
  }

  /** The tree as the loop goes, and the links made so far. */
  datatype Linking = Linking(tree: Tree, count: nat)

  /**
   * One skill: whatever exists at the link's path is removed, then the link
   * is made when nothing is left there and the directory is a directory.
   * A dangling link does not exist, so it stays and the link is not made.
   */
  function LinkOne(l: Linking, canon: Path, dir: Path, s: SkillRecord): Linking {
    var at := Join(dir, LinkName(s));
    var cleared := if Exists(l.tree, at) then RemoveTree(l.tree, at) else l.tree;
    if Creatable(cleared, at) then Linking(cleared[at := Link(LinkSource(canon, s))], l.count + 1)
    else Linking(cleared, l.count)
  }

  function LinkAll(l: Linking, canon: Path, dir: Path, skills: seq<SkillRecord>): Linking
    decreases |skills|
  {
    if skills == [] then l
    else LinkOne(LinkAll(l, canon, dir, skills[..|skills| - 1]), canon, dir, skills[|skills| - 1])
  }

  /** The whole call: the agent's directory is made when missing, which may throw. */
  function Linked(t: Tree, canon: Path, dir: Path, skills: seq<SkillRecord>): Result<Linking, InstallError> {
    match MakeIfMissing(t, dir)
    case Err(e) => Err(FsFailed(e))
    case Ok(u) => Ok(LinkAll(Linking(u, 0), canon, dir, skills))
  }

  // ---------------------------------------------------------------------------
  // Properties

  /** Each skill adds at most one to the count. */
  lemma {:induction false} LinkAllBound(l: Linking, canon: Path, dir: Path, skills: seq<SkillRecord>)
    ensures l.count <= LinkAll(l, canon, dir, skills).count <= l.count + |skills|
    decreases |skills|
  {
    if skills != [] {
      LinkAllBound(l, canon, dir, skills[..|skills| - 1]);
    }
  }

  /** `0 <= linkedCount <= skills.length`. */
  lemma LinkedBound(t: Tree, canon: Path, dir: Path, skills: seq<SkillRecord>)
    requires Linked(t, canon, dir, skills).Ok?
    ensures Linked(t, canon, dir, skills).value.count <= |skills|
  {
    LinkAllBound(Linking(MakeIfMissing(t, dir).value, 0), canon, dir, skills);
  }

  /** A step with a plain link name leaves the agent's directory a directory. */
  lemma LinkOneKeepsDir(l: Linking, canon: Path, dir: Path, s: SkillRecord)
    requires IsDirNode(l.tree, dir) && PlainName(LinkName(s))
    ensures IsDirNode(LinkOne(l, canon, dir, s).tree, dir)
  {
    JoinPlain(dir, LinkName(s));
  }

  lemma {:induction false} LinkAllKeepsDir(l: Linking, canon: Path, dir: Path, skills: seq<SkillRecord>)
    requires IsDirNode(l.tree, dir)
    requires forall i :: 0 <= i < |skills| ==> PlainName(LinkName(skills[i]))
    ensures IsDirNode(LinkAll(l, canon, dir, skills).tree, dir)
    decreases |skills|
  {
    if skills != [] {
      LinkAllKeepsDir(l, canon, dir, skills[..|skills| - 1]);
      LinkOneKeepsDir(LinkAll(l, canon, dir, skills[..|skills| - 1]), canon, dir, skills[|skills| - 1]);
    }
  }

  /**
   * The agent's directory is a directory afterwards when it was one or was
   * missing, and no link name is `.`, `..` or holds a `/` (a link named `..`
   * would have the directory's parent removed).
   */
  lemma AgentDirAfterwards(t: Tree, canon: Path, dir: Path, skills: seq<SkillRecord>)
    requires |dir| >= 1 && Linked(t, canon, dir, skills).Ok?
    requires IsDirNode(t, dir) || !Exists(t, dir)
    requires forall i :: 0 <= i < |skills| ==> PlainName(LinkName(skills[i]))
    ensures IsDirNode(Linked(t, canon, dir, skills).value.tree, dir)
  {
    assert dir[..|dir|] == dir;
    LinkAllKeepsDir(Linking(MakeIfMissing(t, dir).value, 0), canon, dir, skills);
  }

  /** A step counts exactly when it makes the link, and the link made points at the skill in the store. */
  lemma LinkOneMade(l: Linking, canon: Path, dir: Path, s: SkillRecord)
    ensures LinkOne(l, canon, dir, s).count == l.count + 1 ||
            LinkOne(l, canon, dir, s).count == l.count
    ensures LinkOne(l, canon, dir, s).count == l.count + 1 ==>
              LinkOne(l, canon, dir, s).tree[Join(dir, LinkName(s))] == Link(LinkSource(canon, s))
    ensures LinkOne(l, canon, dir, s).count == l.count ==>
              forall p :: p in LinkOne(l, canon, dir, s).tree ==> p in l.tree
  {
  }

  /** A dangling link at the link's path is left as it is, and nothing is counted. */
  lemma DanglingLinkStays(l: Linking, canon: Path, dir: Path, s: SkillRecord)
    requires Join(dir, LinkName(s)) in l.tree && !Exists(l.tree, Join(dir, LinkName(s)))
    ensures LinkOne(l, canon, dir, s) == l
  {
  }

  /** Whatever exists at the link's path, file, directory or link, is replaced by the link. */
  lemma ExistingEntryReplaced(l: Linking, canon: Path, dir: Path, s: SkillRecord)
    requires IsDirNode(l.tree, dir) && PlainName(LinkName(s))
    requires Exists(l.tree, Join(dir, LinkName(s)))
    ensures LinkOne(l, canon, dir, s).count == l.count + 1
    ensures dir + [LinkName(s)] in LinkOne(l, canon, dir, s).tree
    ensures LinkOne(l, canon, dir, s).tree[dir + [LinkName(s)]] == Link(LinkSource(canon, s))
  {
    JoinPlain(dir, LinkName(s));
    assert !IsPrefix(dir + [LinkName(s)], dir);
  }

  /** The names the links get. */
  function LinkNames(skills: seq<SkillRecord>): (ns: seq<string>)
    ensures |ns| == |skills| && forall i :: 0 <= i < |skills| ==> ns[i] == LinkName(skills[i])
  {
    seq(|skills|, i requires 0 <= i < |skills| => LinkName(skills[i]))
  }

  /** Whatever sits at `p` exists, and when it is a link it points outside `dir`. */
  predicate Replaceable(t: Tree, dir: Path, p: Path) {
    p in t ==> Exists(t, p) && (t[p].Link? ==> !IsPrefix(dir, t[p].target))
  }

  /** A link for `s` can be made in `dir` of `t`: its name is plain and what sits there is replaceable. */
  predicate Linkable(t: Tree, dir: Path, s: SkillRecord) {
    PlainName(LinkName(s)) && Replaceable(t, dir, dir + [LinkName(s)])
  }

  /** `p` lies inside `dir`, in an entry named by one of `names`. */
  predicate Under(dir: Path, names: seq<string>, p: Path) {
    |p| > |dir| && p[..|dir|] == dir && p[|dir|] in names
  }

  /** `t` holds the link of `s` in `dir`, pointing at the skill in the store. */
  predicate HasLink(t: Tree, canon: Path, dir: Path, s: SkillRecord) {
    dir + [LinkName(s)] in t && t[dir + [LinkName(s)]] == Link(LinkSource(canon, s))
  }

  ghost predicate AllLinkable(t: Tree, dir: Path, skills: seq<SkillRecord>) {
    forall i :: 0 <= i < |skills| ==> Linkable(t, dir, skills[i])
  }

  ghost predicate AllLinked(t: Tree, canon: Path, dir: Path, skills: seq<SkillRecord>) {
    forall i :: 0 <= i < |skills| ==> HasLink(t, canon, dir, skills[i])
  }

  /** `t` and `u` agree on every path outside the entries of `dir` named by `names`. */
  ghost predicate SameOutside(t: Tree, u: Tree, dir: Path, names: seq<string>) {
    forall p :: !Under(dir, names, p) ==> (p in u <==> p in t) && (p in t ==> u[p] == t[p])
  }

  /** `t` and `u` agree on every path inside the entries of `dir` named by `names`. */
  ghost predicate SameInside(t: Tree, u: Tree, dir: Path, names: seq<string>) {
    forall p :: Under(dir, names, p) ==> (p in u <==> p in t) && (p in t ==> u[p] == t[p])
  }

  /**
   * In a directory where what sits at a link name exists and, if a link,
   * points outside the directory (so that replacing one link cannot leave
   * another dangling), and where the names are plain and pairwise different,
   * every link is made:
   * the count is the number of skills, each link points at its skill, and
   * nothing outside the links changes.
   */
  lemma {:induction false} LinksAllMade(l: Linking, canon: Path, dir: Path, skills: seq<SkillRecord>)
    requires IsDirNode(l.tree, dir)
    requires AllLinkable(l.tree, dir, skills)
    requires Distinct(LinkNames(skills))
    ensures LinkAll(l, canon, dir, skills).count == l.count + |skills|
    ensures AllLinked(LinkAll(l, canon, dir, skills).tree, canon, dir, skills)
    ensures SameOutside(l.tree, LinkAll(l, canon, dir, skills).tree, dir, LinkNames(skills))
    decreases |skills|
  {
    if skills != [] {
      var n := |skills| - 1;
      var front := skills[..n];
      FrontLinkable(l.tree, dir, skills);
      LinkNamesSnoc(skills);
      LinksAllMade(l, canon, dir, front);
      var mid := LinkAll(l, canon, dir, front);
      LinkLastMade(l, mid, canon, dir, LinkNames(front), skills[n]);
      EarlierLinksKept(mid.tree, LinkOne(mid, canon, dir, skills[n]).tree, canon, dir, skills);
    }
  }

  /** What holds for every skill holds for the front ones and the last. */
  lemma FrontLinkable(t: Tree, dir: Path, skills: seq<SkillRecord>)
    requires skills != [] && AllLinkable(t, dir, skills)
    ensures AllLinkable(t, dir, skills[..|skills| - 1]) && Linkable(t, dir, skills[|skills| - 1])
  {
    var front := skills[..|skills| - 1];
    forall i | 0 <= i < |front|
      ensures Linkable(t, dir, front[i])
    {
      assert front[i] == skills[i];
    }
  }

  /** The names of all skills are those of the front ones and then the last, which is new. */
  lemma LinkNamesSnoc(skills: seq<SkillRecord>)
    requires skills != [] && Distinct(LinkNames(skills))
    ensures LinkNames(skills) == LinkNames(skills[..|skills| - 1]) + [LinkName(skills[|skills| - 1])]
    ensures Distinct(LinkNames(skills[..|skills| - 1]))
    ensures LinkName(skills[|skills| - 1]) !in LinkNames(skills[..|skills| - 1])
  {
    var n := |skills| - 1;
    assert LinkNames(skills[..n]) == LinkNames(skills)[..n];
    forall i | 0 <= i < n
      ensures LinkNames(skills[..n])[i] != LinkName(skills[n])
    {
      assert LinkNames(skills)[i] != LinkNames(skills)[n];
    }
  }

  /** Links already made stay when nothing inside them changes, and with the last one all are there. */
  lemma EarlierLinksKept(t: Tree, u: Tree, canon: Path, dir: Path, skills: seq<SkillRecord>)
    requires skills != []
    requires AllLinked(t, canon, dir, skills[..|skills| - 1])
    requires SameInside(t, u, dir, LinkNames(skills[..|skills| - 1]))
    requires HasLink(u, canon, dir, skills[|skills| - 1])
    ensures AllLinked(u, canon, dir, skills)
  {
    var front := skills[..|skills| - 1];
    forall i | 0 <= i < |skills|
      ensures HasLink(u, canon, dir, skills[i])
    {
      if i < |front| {
        assert front[i] == skills[i];
        assert HasLink(t, canon, dir, front[i]);
        assert (dir + [LinkName(front[i])])[..|dir|] == dir;
        assert LinkNames(front)[i] == LinkName(front[i]);
        assert Under(dir, LinkNames(front), dir + [LinkName(front[i])]);
      }
    }
  }

  /** The last step of `LinksAllMade`: `names` are those of the links made so far. */
  lemma LinkLastMade(l: Linking, mid: Linking, canon: Path, dir: Path, names: seq<string>, s: SkillRecord)
    requires IsDirNode(l.tree, dir) && Linkable(l.tree, dir, s) && LinkName(s) !in names
    requires SameOutside(l.tree, mid.tree, dir, names)
    ensures LinkOne(mid, canon, dir, s).count == mid.count + 1
    ensures HasLink(LinkOne(mid, canon, dir, s).tree, canon, dir, s)
    ensures SameOutside(l.tree, LinkOne(mid, canon, dir, s).tree, dir, names + [LinkName(s)])
    ensures SameInside(mid.tree, LinkOne(mid, canon, dir, s).tree, dir, names)
  {
    var at := dir + [LinkName(s)];
    JoinPlain(dir, LinkName(s));
    assert !Under(dir, names, dir);
    assert at[..|dir|] == dir && !Under(dir, names, at);
    assert at[..|at| - 1] == dir;
    if at in mid.tree && mid.tree[at].Link? {
      var target := mid.tree[at].target;
      assert !IsPrefix(dir, target);
      assert !Under(dir, names, target);
    }
    forall p | IsPrefix(at, p)
      ensures Under(dir, names + [LinkName(s)], p) && !Under(dir, names, p)
    {
      assert p[..|dir|] == at[..|dir|];
    }
  }

  /** A skill the links will carry has its link once all are made. */
  lemma LinkOfSkill(l: Linking, canon: Path, dir: Path, skills: seq<SkillRecord>, i: int)
    requires 0 <= i < |skills| && IsDirNode(l.tree, dir)
    requires forall j :: 0 <= j < |skills| ==> Linkable(l.tree, dir, skills[j])
    requires Distinct(LinkNames(skills))
    ensures Join(dir, LinkName(skills[i])) in LinkAll(l, canon, dir, skills).tree
    ensures LinkAll(l, canon, dir, skills).tree[Join(dir, LinkName(skills[i]))] == Link(LinkSource(canon, skills[i]))
  {
    LinksAllMade(l, canon, dir, skills);
    assert HasLink(LinkAll(l, canon, dir, skills).tree, canon, dir, skills[i]);
    JoinPlain(dir, LinkName(skills[i]));
  }

  // ---------------------------------------------------------------------------
  // The links on the machine's file system

  /** `createSymlinks(agent, skills)`: the number of links made, or the error thrown making the agent's directory. */
  method CreateSymlinks(fs: FileSystem, canon: Path, agent: Agent, skills: seq<SkillRecord>) returns (r: Result<nat, InstallError>)
    modifies fs
    ensures r.Ok? <==> Linked(old(fs.nodes), canon, agent.skillsPath, skills).Ok?
    ensures r.Err? ==> fs.nodes == old(fs.nodes) && r.error == Linked(old(fs.nodes), canon, agent.skillsPath, skills).error
    ensures r.Ok? ==> fs.nodes == Linked(old(fs.nodes), canon, agent.skillsPath, skills).value.tree &&
                      r.value == Linked(old(fs.nodes), canon, agent.skillsPath, skills).value.count
  {
    var dir := agent.skillsPath;
    if !Exists(fs.nodes, dir) {
      var made := fs.MakeDirectory(dir);
      if made.Err? {
        return Err(FsFailed(made.error));
      }
    }
    ghost var start := Linking(fs.nodes, 0);
    var count := 0;
    for i := 0 to |skills|
      invariant LinkAll(start, canon, dir, skills[..i]) == Linking(fs.nodes, count)
    {
      assert skills[..i + 1][..i] == skills[..i];
      var s := skills[i];
      var at := Join(dir, if s.standalone then s.category else s.skill);
      var source := if s.standalone then Join(canon, s.category) else Join(Join(canon, s.category), s.skill);
      if Exists(fs.nodes, at) {
        fs.Remove(at);
      }
      var ok := fs.Symlink(source, at);
      if ok {
        count := count + 1;
      }
    }
    assert skills[..|skills|] == skills;
    r := Ok(count);
  }
}
