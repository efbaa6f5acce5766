/**
 * `listInstalledSkills`: the canonical store is scanned, not the lock file.
 * Every directory in the store is a category, taken in sorted order; a
 * category holding `SKILL.md` itself is one standalone skill, any other
 * contributes its sub-directories that hold `SKILL.md`, in sorted order, and
 * a category contributing nothing is left out. The report is what the
 * function prints: the categories with their skills, and the total.
 */
module Scan {
  import opened Outcomes
  import opened Text
  import opened FileTree
  import opened SkillStore

  /** What the scan finds: nothing to show, or the skills by category and their number. */
  datatype Report =
    | NothingInstalled
    | Installed(byCategory: seq<(string, seq<string>)>, total: nat)

  /** The categories in the order they are printed. */
  function Keys(groups: seq<(string, seq<string>)>): seq<string> {
    seq(|groups|, k requires 0 <= k < |groups| => groups[k].0)
  }

  /** The number of skills listed. */
  function Total(groups: seq<(string, seq<string>)>): nat
    decreases |groups|
  {
    if groups == [] then 0 else Total(groups[..|groups| - 1]) + |groups[|groups| - 1].1|
  }

  // ---------------------------------------------------------------------------
  // What the store holds

  /** The directories directly in the store; links and files are not categories. */
  ghost function CategoryDirs(t: Tree, canon: Path): set<string> {
    set n | n in Children(t, canon) && IsDirNode(t, canon + [n])
  }

  /** The sub-directories of a category that hold `SKILL.md`. */
  ghost function SkillDirs(t: Tree, catPath: Path): set<string> {
    set n | n in Children(t, catPath) && IsDirNode(t, catPath + [n]) && HoldsSkill(t, Join(catPath, n))
  }

  /** A category is shown when it is a standalone skill or holds at least one skill. */
  ghost predicate Shown(t: Tree, canon: Path, c: string) {
    HoldsSkill(t, Join(canon, c)) || SkillDirs(t, Join(canon, c)) != {}
  }

  /** The skills listed for category `c`: itself when standalone, else its skill directories in order. */
  ghost predicate Group(t: Tree, canon: Path, c: string, skills: seq<string>) {
    if HoldsSkill(t, Join(canon, c)) then skills == [c]
    else StrictlySorted(skills) && forall n :: n in skills <==> n in SkillDirs(t, Join(canon, c))
  }

  /**
   * `report` is what the scan of a store that exists and is a directory
   * shows: nothing when it has no category directory; otherwise exactly the
   * shown categories in increasing order, each with its group, and their total.
   */
  ghost predicate Describes(t: Tree, canon: Path, report: Report) {
    if CategoryDirs(t, canon) == {} then report == NothingInstalled
    else
      report.Installed? && StrictlySorted(Keys(report.byCategory)) &&
      (forall c :: c in Keys(report.byCategory) <==> c in CategoryDirs(t, canon) && Shown(t, canon, c)) &&
      (forall k :: 0 <= k < |report.byCategory| ==> Group(t, canon, report.byCategory[k].0, report.byCategory[k].1)) &&
      report.total == Total(report.byCategory)
  }

  // ---------------------------------------------------------------------------
  // Properties of the report

  /** The report is determined by the store, whatever order the directories are listed in. */
  lemma DescribesUnique(t: Tree, canon: Path, r1: Report, r2: Report)
    requires Describes(t, canon, r1) && Describes(t, canon, r2)
    ensures r1 == r2
  {
    if CategoryDirs(t, canon) != {} {
      var g1, g2 := r1.byCategory, r2.byCategory;
      StrictlySortedUnique(Keys(g1), Keys(g2));
      forall k | 0 <= k < |g1|
        ensures g1[k] == g2[k]
      {
        assert Keys(g1)[k] == Keys(g2)[k];
        var c := g1[k].0;
        if !HoldsSkill(t, Join(canon, c)) {
          StrictlySortedUnique(g1[k].1, g2[k].1);
        }
      }
      assert g1 == g2;
    }
  }

  /** A standalone category lists itself once, so it adds one to the total. */
  lemma StandaloneCountsOne(t: Tree, canon: Path, c: string, skills: seq<string>)
    requires HoldsSkill(t, Join(canon, c)) && Group(t, canon, c, skills)
    ensures |skills| == 1 && skills[0] == c
  {
  }

  /** Every group listed is non-empty, so the total is at least the number of categories shown. */
  lemma {:induction false} TotalAtLeastGroups(groups: seq<(string, seq<string>)>)
    requires forall k :: 0 <= k < |groups| ==> groups[k].1 != []
    ensures Total(groups) >= |groups|
    decreases |groups|
  {
    if groups != [] {
      TotalAtLeastGroups(groups[..|groups| - 1]);
    }
  }

  // ---------------------------------------------------------------------------
  // The scan on the machine's file system

  /** `entries.filter(keep).map(d => d.name)` */
  function NamesWhere(es: seq<Entry>, keep: Entry -> bool): (ns: seq<string>)
    ensures forall n :: n in ns ==> exists k :: 0 <= k < |es| && es[k].name == n && keep(es[k])
    ensures forall k :: 0 <= k < |es| && keep(es[k]) ==> es[k].name in ns
    ensures Distinct(Names(es)) ==> Distinct(ns)
    decreases |es|
  {
    if es == [] then []
    else
      var rest := NamesWhere(es[1..], keep);
      assert forall k :: 1 <= k < |es| ==> es[k] == es[1..][k - 1];
      assert Distinct(Names(es)) ==> Distinct(Names(es[1..])) && es[0].name !in rest by {
        if Distinct(Names(es)) {
          assert forall k :: 0 <= k < |es| - 1 ==> Names(es[1..])[k] == Names(es)[k + 1];
        }
      }
      if keep(es[0]) then [es[0].name] + rest else rest
  }

  /**
   * `listInstalledSkills()`: fails when the store exists but is not a
   * directory (`readdirSync` throws); otherwise reports nothing when the
   * store is missing, and what the store holds when it is there.
   */
  method ListInstalledSkills(fs: FileSystem, home: Path) returns (r: Result<Report, FsError>)
    requires forall n :: n in Children(fs.nodes, CanonicalDir(home)) ==> PlainName(n)
    ensures r.Err? <==> Exists(fs.nodes, CanonicalDir(home)) && !IsDirNode(fs.nodes, CanonicalDir(home))
    ensures r.Ok? && !Exists(fs.nodes, CanonicalDir(home)) ==> r.value == NothingInstalled
    ensures r.Ok? && Exists(fs.nodes, CanonicalDir(home)) ==> Describes(fs.nodes, CanonicalDir(home), r.value)
  {
    var canon := CanonicalDir(home);
    if !Exists(fs.nodes, canon) {
      return Ok(NothingInstalled);
    }
    var listed := fs.ReadDir(canon);
    if listed.Err? {
      return Err(listed.error);
    }
    var t := fs.nodes;
    var dirs := NamesWhere(listed.value, (e: Entry) => e.isDirectory);
    var categories := SortStrings(dirs);
    SortedPermutationOfDistinct(dirs, categories);
    DirsAreCategories(t, canon, listed.value, dirs);
    if |categories| == 0 {
      assert forall c :: c !in CategoryDirs(t, canon);
      return Ok(NothingInstalled);
    }
    assert categories[0] in CategoryDirs(t, canon);
    var groups, total := ScanCategories(fs, canon, categories);
    r := Ok(Installed(groups, total));
  }

  /** The loop of the scan: each category in increasing order, keeping those shown. */
  method ScanCategories(fs: FileSystem, canon: Path, categories: seq<string>) returns (groups: seq<(string, seq<string>)>, total: nat)
    requires StrictlySorted(categories)
    requires forall c :: c in categories ==> PlainName(c) && IsDirNode(fs.nodes, canon + [c])
    ensures StrictlySorted(Keys(groups))
    ensures Chosen(fs.nodes, canon, categories, groups)
    ensures total == Total(groups)
  {
    var t := fs.nodes;
    groups := [];
    total := 0;
    for i := 0 to |categories|
      invariant Scanned(t, canon, categories, i, groups)
      invariant total == Total(groups)
    {
      var c := categories[i];
      assert c in categories;
      var skills := ScanCategory(fs, canon, c);
      ScannedStep(t, canon, categories, i, groups, skills);
      if |skills| > 0 {
        TotalSnoc(groups, (c, skills));
        groups := groups + [(c, skills)];
        total := total + |skills|;
      }
    }
    assert categories[..|categories|] == categories;
  }

  /** The invariant of the scan after the first `i` categories. */
  ghost predicate Scanned(t: Tree, canon: Path, categories: seq<string>, i: int, groups: seq<(string, seq<string>)>) {
    0 <= i <= |categories| && StrictlySorted(Keys(groups)) && Chosen(t, canon, categories[..i], groups)
  }

  lemma ScannedStep(t: Tree, canon: Path, categories: seq<string>, i: int, groups: seq<(string, seq<string>)>, skills: seq<string>)
    requires StrictlySorted(categories) && i < |categories| && Scanned(t, canon, categories, i, groups)
    requires skills != [] <==> Shown(t, canon, categories[i])
    requires skills != [] ==> Group(t, canon, categories[i], skills)
    ensures Scanned(t, canon, categories, i + 1, if skills != [] then groups + [(categories[i], skills)] else groups)
  {
    var c := categories[i];
    EarlierLess(categories, i, Keys(groups));
    ChosenStep(t, canon, categories[..i], groups, c, skills);
    if skills != [] {
      AddGroup(groups, (c, skills));
    }
    PrefixSnoc(categories, i);
  }

  lemma PrefixSnoc(cs: seq<string>, i: int)
    requires 0 <= i < |cs|
    ensures cs[..i + 1] == cs[..i] + [cs[i]]
  {
  }

  /** `groups` holds exactly the shown categories among `cs`, each with its group. */
  ghost predicate Chosen(t: Tree, canon: Path, cs: seq<string>, groups: seq<(string, seq<string>)>) {
    KeyedBy(t, canon, cs, groups) && Grouped(t, canon, groups)
  }

  ghost predicate KeyedBy(t: Tree, canon: Path, cs: seq<string>, groups: seq<(string, seq<string>)>) {
    forall c :: c in Keys(groups) <==> c in cs && Shown(t, canon, c)
  }

  ghost predicate Grouped(t: Tree, canon: Path, groups: seq<(string, seq<string>)>) {
    forall k :: 0 <= k < |groups| ==> Group(t, canon, groups[k].0, groups[k].1)
  }

  lemma ChosenStep(t: Tree, canon: Path, cs: seq<string>, groups: seq<(string, seq<string>)>, c: string, skills: seq<string>)
    requires Chosen(t, canon, cs, groups)
    requires skills != [] <==> Shown(t, canon, c)
    requires skills != [] ==> Group(t, canon, c, skills)
    ensures Chosen(t, canon, cs + [c], if skills != [] then groups + [(c, skills)] else groups)
  {
    if skills != [] {
      KeysSnoc(groups, (c, skills));
      KeyedStep(t, canon, cs, groups, c, Keys(groups + [(c, skills)]));
      GroupedStep(t, canon, groups, (c, skills));
    } else {
      KeyedStep(t, canon, cs, groups, c, Keys(groups));
    }
  }

  lemma KeyedStep(t: Tree, canon: Path, cs: seq<string>, groups: seq<(string, seq<string>)>, c: string, ks: seq<string>)
    requires KeyedBy(t, canon, cs, groups)
    requires ks == Keys(groups) + [c] || (ks == Keys(groups) && !Shown(t, canon, c))
    requires ks == Keys(groups) + [c] ==> Shown(t, canon, c)
    ensures forall x :: x in ks <==> x in cs + [c] && Shown(t, canon, x)
  {
  }

  lemma GroupedStep(t: Tree, canon: Path, groups: seq<(string, seq<string>)>, g: (string, seq<string>))
    requires Grouped(t, canon, groups) && Group(t, canon, g.0, g.1)
    ensures Grouped(t, canon, groups + [g])
  {
    var s := groups + [g];
    forall k | 0 <= k < |s|
      ensures Group(t, canon, s[k].0, s[k].1)
    {
      if k < |groups| {
        assert s[k] == groups[k];
      }
    }
  }

  /** The directory entries of the store are its category directories. */
  lemma DirsAreCategories(t: Tree, canon: Path, es: seq<Entry>, dirs: seq<string>)
    requires Lists(t, canon, es)
    requires forall n :: n in dirs ==> exists k :: 0 <= k < |es| && es[k].name == n && es[k].isDirectory
    requires forall k :: 0 <= k < |es| && es[k].isDirectory ==> es[k].name in dirs
    ensures forall n :: n in dirs <==> n in CategoryDirs(t, canon)
  {
    forall n
      ensures n in dirs <==> n in CategoryDirs(t, canon)
    {
      if n in CategoryDirs(t, canon) {
        assert n in Children(t, canon);
        var k :| 0 <= k < |es| && Names(es)[k] == n;
      }
    }
  }

  /** Every category already scanned comes before the next one. */
  lemma EarlierLess(categories: seq<string>, i: int, ks: seq<string>)
    requires StrictlySorted(categories) && 0 <= i < |categories|
    requires forall x :: x in ks ==> x in categories[..i]
    ensures forall x :: x in ks ==> Less(x, categories[i])
  {
    forall x | x in ks
      ensures Less(x, categories[i])
    {
      var j :| 0 <= j < i && categories[..i][j] == x;
      assert categories[j] == x;
    }
  }

  /** Appending a category greater than every one listed keeps the keys increasing and adds to the total. */
  lemma AddGroup(groups: seq<(string, seq<string>)>, g: (string, seq<string>))
    requires StrictlySorted(Keys(groups))
    requires forall x :: x in Keys(groups) ==> Less(x, g.0)
    ensures StrictlySorted(Keys(groups + [g]))
    ensures Keys(groups + [g]) == Keys(groups) + [g.0]
  {
    KeysSnoc(groups, g);
    var prev := Keys(groups);
    assert forall k :: 0 <= k < |prev| ==> prev[k] in prev;
    SortedSnoc(prev, g.0);
  }

  lemma TotalSnoc(groups: seq<(string, seq<string>)>, g: (string, seq<string>))
    ensures Total(groups + [g]) == Total(groups) + |g.1|
  {
    assert (groups + [g])[..|groups|] == groups;
  }

  lemma KeysSnoc(groups: seq<(string, seq<string>)>, g: (string, seq<string>))
    ensures Keys(groups + [g]) == Keys(groups) + [g.0]
  {
    var ks, prev := Keys(groups + [g]), Keys(groups);
    forall k | 0 <= k < |ks|
      ensures ks[k] == (prev + [g.0])[k]
    {
      if k < |groups| {
        assert ks[k] == groups[k].0 == prev[k];
      }
    }
  }

  lemma SortedSnoc(ks: seq<string>, x: string)
    requires StrictlySorted(ks) && forall k :: 0 <= k < |ks| ==> Less(ks[k], x)
    ensures StrictlySorted(ks + [x])
  {
    var s := ks + [x];
    forall a, b | 0 <= a < b < |s|
      ensures Less(s[a], s[b])
    {
      if b < |ks| {
        assert s[a] == ks[a] && s[b] == ks[b];
      } else {
        assert s[a] == ks[a] && s[b] == x;
      }
    }
  }

  /**
   * One category: itself when it holds `SKILL.md`, else its sub-directories
   * holding `SKILL.md`, sorted; an empty result means the category is not shown.
   */
  method ScanCategory(fs: FileSystem, canon: Path, c: string) returns (skills: seq<string>)
    requires PlainName(c) && IsDirNode(fs.nodes, canon + [c])
    ensures skills != [] <==> Shown(fs.nodes, canon, c)
    ensures skills != [] ==> Group(fs.nodes, canon, c, skills)
  {
    var catPath := Join(canon, c);
    JoinPlain(canon, c);
    if HoldsSkill(fs.nodes, catPath) {
      return [c];
    }
    var listed := fs.ReadDir(catPath);
    var es := if listed.Ok? then listed.value else [];
    var t := fs.nodes;
    var names := NamesWhere(es, (e: Entry) => e.isDirectory && HoldsSkill(t, Join(catPath, e.name)));
    skills := SortStrings(names);
    SortedPermutationOfDistinct(names, skills);
    SkillNamesAreSkillDirs(t, catPath, es, names);
    if SkillDirs(t, catPath) != {} {
      var n :| n in SkillDirs(t, catPath);
      assert n in skills;
    }
    if skills != [] {
      assert skills[0] in SkillDirs(t, catPath);
    }
  }

  /** The entries kept by the nested scan are the category's skill directories. */
  lemma SkillNamesAreSkillDirs(t: Tree, catPath: Path, es: seq<Entry>, names: seq<string>)
    requires Lists(t, catPath, es)
    requires forall n :: n in names ==> exists k :: 0 <= k < |es| && es[k].name == n && es[k].isDirectory && HoldsSkill(t, Join(catPath, n))
    requires forall k :: 0 <= k < |es| && es[k].isDirectory && HoldsSkill(t, Join(catPath, es[k].name)) ==> es[k].name in names
    ensures forall n :: n in names <==> n in SkillDirs(t, catPath)
  {
    forall n
      ensures n in names <==> n in SkillDirs(t, catPath)
    {
      if n in SkillDirs(t, catPath) {
        assert n in Children(t, catPath);
        var k :| 0 <= k < |es| && Names(es)[k] == n;
      }
    }
  }
}
