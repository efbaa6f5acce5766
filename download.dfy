/**
 * `downloadSkills`: clone the skills repository into a temporary directory,
 * copy the requested categories into the canonical store, and remove the
 * clone again, whether the copy succeeds or throws.
 *
 * A category of the clone is standalone when `SKILL.md` sits at its root, and
 * is then copied whole; otherwise each immediate sub-directory holding a
 * `SKILL.md` is one skill, copied into a directory of the same name.
 *
 * Directory listings come in an order the platform chooses. The functions
 * below take the listings as parameters; the methods hand back as ghost
 * results the listings they saw, and `DownloadFits` says that each one lists
 * the directory it was read from at the moment it was read.
 */
module Download {
  import opened Outcomes
  import opened Text
  import opened FileTree
  import opened SkillStore

  // ---------------------------------------------------------------------------
  // The download as functions of the tree

  /** One entry of a nested category: a sub-directory holding `SKILL.md` is copied and recorded. */
  function CopySkill(pr: Progress, catPath: Path, target: Path, cat: string, e: Entry): Progress {
    if pr.failure.Some? || !e.isDirectory || !HoldsSkill(pr.tree, Join(catPath, e.name)) then pr
    else
      var to := Join(target, e.name);
      CopyIn(MakeIn(pr, to), Join(catPath, e.name), to, SkillRecord(cat, e.name, false))
  }

  /** The entries of a nested category, in listing order. */
  function CopySkills(pr: Progress, catPath: Path, target: Path, cat: string, es: seq<Entry>): Progress
    decreases |es|
  {
    if es == [] then pr
    else
      var n := |es| - 1;
      CopySkill(CopySkills(pr, catPath, target, cat, es[..n]), catPath, target, cat, es[n])
  }

  /** One requested category; `listing` is what reading its directory returns. */
  function CopyCategory(pr: Progress, temp: Path, canon: Path, cat: string, listing: seq<Entry>): Progress {
    var catPath, target := Join(temp, cat), Join(canon, cat);
    if pr.failure.Some? || !Exists(pr.tree, catPath) then pr
    else
      var made := MakeIn(pr, target);
      if made.failure.Some? then made
      else if HoldsSkill(made.tree, catPath) then CopyIn(made, catPath, target, SkillRecord(cat, cat, true))
      else if !IsDirNode(made.tree, catPath) then made.(failure := Some(FsFailed(NotADirectory(catPath))))
      else CopySkills(made, catPath, target, cat, listing)
  }

  /** When the step for `cat` reads the category's directory, `listing` lists it as it is then. */
  ghost predicate ListingFits(pr: Progress, temp: Path, canon: Path, cat: string, listing: seq<Entry>) {
    var catPath, made := Join(temp, cat), MakeIn(pr, Join(canon, cat));
    (pr.failure.None? && Exists(pr.tree, catPath) && made.failure.None? &&
     !HoldsSkill(made.tree, catPath) && IsDirNode(made.tree, catPath))
    ==> Lists(made.tree, catPath, listing)
  }

  /** The requested categories, in order; `listings[i]` belongs to `cats[i]`. */
  function CopyCategories(pr: Progress, temp: Path, canon: Path, cats: seq<string>, listings: seq<seq<Entry>>): Progress
    requires |listings| == |cats|
    decreases |cats|
  {
    if cats == [] then pr
    else
      var n := |cats| - 1;
      CopyCategory(CopyCategories(pr, temp, canon, cats[..n], listings[..n]), temp, canon, cats[n], listings[n])
  }

  ghost predicate ListingsFit(pr: Progress, temp: Path, canon: Path, cats: seq<string>, listings: seq<seq<Entry>>)
    requires |listings| == |cats|
    decreases |cats|
  {
    cats == [] ||
    var n := |cats| - 1;
    ListingsFit(pr, temp, canon, cats[..n], listings[..n]) &&
    ListingFits(CopyCategories(pr, temp, canon, cats[..n], listings[..n]), temp, canon, cats[n], listings[n])
  }

  /**
   * `ensureCanonicalDir`, then the clone: an old clone is removed first, and a
   * failed clone is cleaned up. An error from `ensureCanonicalDir` is thrown
   * before the clone is touched.
   */
  function Prepared(t: Tree, home: Path, outcome: CloneOutcome): (pr: Progress)
    ensures pr.skills == []
  {
    var ensured, temp := EnsureCanonical(t, home), TempDir(home);
    if ensured.failure.Some? then ensured
    else
      var cleared := Cleanup(ensured.tree, temp);
      if !(outcome.Cloned? && Creatable(cleared, temp)) then Progress(Cleanup(cleared, temp), [], Some(CloneFailed))
      else Progress(Graft(cleared, temp, outcome.repo), [], None)
  }

  /** The end of the download: the clone is removed; after an error only when it exists, and the records are dropped. */
  function Finished(copied: Progress, temp: Path): Progress {
    if copied.failure.None? then Progress(RemoveTree(copied.tree, temp), copied.skills, None)
    else Progress(Cleanup(copied.tree, temp), [], copied.failure)
  }

  /** The whole of `downloadSkills`. */
  function Download(t: Tree, home: Path, cats: seq<string>, outcome: CloneOutcome, listings: seq<seq<Entry>>): Progress
    requires |listings| == |cats|
  {
    var prepared := Prepared(t, home, outcome);
    if prepared.failure.Some? then prepared
    else Finished(CopyCategories(prepared, TempDir(home), CanonicalDir(home), cats, listings), TempDir(home))
  }

  /** The listings a download reads are those of the directories it reads. */
  ghost predicate DownloadFits(t: Tree, home: Path, cats: seq<string>, outcome: CloneOutcome, listings: seq<seq<Entry>>)
    requires |listings| == |cats|
  {
    var prepared := Prepared(t, home, outcome);
    prepared.failure.None? ==> ListingsFit(prepared, TempDir(home), CanonicalDir(home), cats, listings)
  }

  /** What the caller of a download sees: the records, or the error thrown. */
  function Outcome(d: Progress): Result<seq<SkillRecord>, InstallError> {
    if d.failure.None? then Ok(d.skills) else Err(d.failure.value)
  }

  // ---------------------------------------------------------------------------
  // Once an error is raised, the remaining steps do nothing

  lemma {:induction false} CopySkillsAppend(pr: Progress, catPath: Path, target: Path, cat: string, a: seq<Entry>, b: seq<Entry>)
    ensures CopySkills(pr, catPath, target, cat, a + b) == CopySkills(CopySkills(pr, catPath, target, cat, a), catPath, target, cat, b)
    decreases |b|
  {
    if b == [] {
      assert a + b == a;
    } else {
      var n := |b| - 1;
      assert (a + b)[..|a + b| - 1] == a + b[..n];
      CopySkillsAppend(pr, catPath, target, cat, a, b[..n]);
    }
  }

  lemma {:induction false} CopySkillsFailed(pr: Progress, catPath: Path, target: Path, cat: string, es: seq<Entry>)
    requires pr.failure.Some?
    ensures CopySkills(pr, catPath, target, cat, es) == pr
    decreases |es|
  {
    if es != [] {
      CopySkillsFailed(pr, catPath, target, cat, es[..|es| - 1]);
    }
  }

  /** An error at entry `i` is the outcome of the whole loop. */
  lemma CopySkillsFailedAt(pr: Progress, catPath: Path, target: Path, cat: string, es: seq<Entry>, i: int)
    requires 0 <= i < |es| && CopySkills(pr, catPath, target, cat, es[..i + 1]).failure.Some?
    ensures CopySkills(pr, catPath, target, cat, es) == CopySkills(pr, catPath, target, cat, es[..i + 1])
  {
    CopySkillsAppend(pr, catPath, target, cat, es[..i + 1], es[i + 1..]);
    CopySkillsFailed(CopySkills(pr, catPath, target, cat, es[..i + 1]), catPath, target, cat, es[i + 1..]);
    assert es[..i + 1] + es[i + 1..] == es;
  }

  lemma {:induction false} CopyCategoriesAppend(pr: Progress, temp: Path, canon: Path, c1: seq<string>, l1: seq<seq<Entry>>, c2: seq<string>, l2: seq<seq<Entry>>)
    requires |c1| == |l1| && |c2| == |l2|
    ensures CopyCategories(pr, temp, canon, c1 + c2, l1 + l2) ==
            CopyCategories(CopyCategories(pr, temp, canon, c1, l1), temp, canon, c2, l2)
    ensures ListingsFit(pr, temp, canon, c1 + c2, l1 + l2) <==>
            ListingsFit(pr, temp, canon, c1, l1) && ListingsFit(CopyCategories(pr, temp, canon, c1, l1), temp, canon, c2, l2)
    decreases |c2|
  {
    if c2 == [] {
      assert c1 + c2 == c1 && l1 + l2 == l1;
    } else {
      var n := |c2| - 1;
      assert (c1 + c2)[..|c1 + c2| - 1] == c1 + c2[..n];
      assert (l1 + l2)[..|l1 + l2| - 1] == l1 + l2[..n];
      CopyCategoriesAppend(pr, temp, canon, c1, l1, c2[..n], l2[..n]);
    }
  }

  lemma {:induction false} CopyCategoriesFailed(pr: Progress, temp: Path, canon: Path, cats: seq<string>, listings: seq<seq<Entry>>)
    requires |cats| == |listings| && pr.failure.Some?
    ensures CopyCategories(pr, temp, canon, cats, listings) == pr
    ensures ListingsFit(pr, temp, canon, cats, listings)
    decreases |cats|
  {
    if cats != [] {
      CopyCategoriesFailed(pr, temp, canon, cats[..|cats| - 1], listings[..|cats| - 1]);
    }
  }

  /** The listings of the categories a failure skips: nothing is read. */
  function Unread(n: nat): (ls: seq<seq<Entry>>)
    ensures |ls| == n
  {
    seq(n, _ => [])
  }

  /** The loop step of `CopyCategoriesOnDisk`: one more category. */
  lemma CategoriesStep(pr: Progress, temp: Path, canon: Path, cats: seq<string>, i: int, listings: seq<seq<Entry>>, listing: seq<Entry>)
    requires 0 <= i < |cats| && |listings| == i
    ensures CopyCategories(pr, temp, canon, cats[..i + 1], listings + [listing]) ==
            CopyCategory(CopyCategories(pr, temp, canon, cats[..i], listings), temp, canon, cats[i], listing)
    ensures ListingsFit(pr, temp, canon, cats[..i + 1], listings + [listing]) <==>
            ListingsFit(pr, temp, canon, cats[..i], listings) &&
            ListingFits(CopyCategories(pr, temp, canon, cats[..i], listings), temp, canon, cats[i], listing)
  {
    assert cats[..i + 1][..i] == cats[..i] && (listings + [listing])[..i] == listings;
  }

  /** After a failure within the first `i` categories, the others read nothing and change nothing. */
  lemma {:induction false} StopAfter(pr: Progress, temp: Path, canon: Path, cats: seq<string>, i: int, listings: seq<seq<Entry>>)
    requires 0 <= i <= |cats| && |listings| == i
    requires ListingsFit(pr, temp, canon, cats[..i], listings)
    requires CopyCategories(pr, temp, canon, cats[..i], listings).failure.Some?
    ensures ListingsFit(pr, temp, canon, cats, listings + Unread(|cats| - i))
    ensures CopyCategories(pr, temp, canon, cats, listings + Unread(|cats| - i)) == CopyCategories(pr, temp, canon, cats[..i], listings)
    decreases |cats| - i
  {
    if i == |cats| {
      assert cats[..i] == cats && listings + Unread(0) == listings;
    } else {
      CategoriesStep(pr, temp, canon, cats, i, listings, []);
      StopAfter(pr, temp, canon, cats, i + 1, listings + [[]]);
      UnreadCons(listings, |cats| - i);
    }
  }

  lemma UnreadCons(listings: seq<seq<Entry>>, n: nat)
    requires n > 0
    ensures listings + [[]] + Unread(n - 1) == listings + Unread(n)
  {
    assert listings + [[]] + Unread(n - 1) == listings + ([[]] + Unread(n - 1));
    assert [[]] + Unread(n - 1) == Unread(n);
  }

  // ---------------------------------------------------------------------------
  // What a category contributes

  /** The entry is a directory holding `SKILL.md`. */
  predicate Picks(t: Tree, catPath: Path, e: Entry) {
    e.isDirectory && HoldsSkill(t, Join(catPath, e.name))
  }

  /** The nested records of `cat` for the entries `picked` accepts, in listing order. */
  function Nested(cat: string, es: seq<Entry>, picked: Entry -> bool): seq<SkillRecord>
    decreases |es|
  {
    if es == [] then []
    else
      var n := |es| - 1;
      Nested(cat, es[..n], picked) + if picked(es[n]) then [SkillRecord(cat, es[n].name, false)] else []
  }

  /** The nested records a listing yields in `t`: one per sub-directory entry holding `SKILL.md`, in listing order. */
  function SkillEntries(t: Tree, catPath: Path, cat: string, es: seq<Entry>): seq<SkillRecord> {
    Nested(cat, es, e => Picks(t, catPath, e))
  }

  /** Every record is a nested one of `cat`, named after an accepted entry. */
  lemma {:induction false} NestedFrom(cat: string, es: seq<Entry>, picked: Entry -> bool)
    ensures forall k :: 0 <= k < |Nested(cat, es, picked)| ==>
      Nested(cat, es, picked)[k].category == cat && !Nested(cat, es, picked)[k].standalone &&
      exists i :: 0 <= i < |es| && es[i].name == Nested(cat, es, picked)[k].skill && picked(es[i])
    decreases |es|
  {
    if es != [] {
      var n := |es| - 1;
      NestedFrom(cat, es[..n], picked);
      var s0, s := Nested(cat, es[..n], picked), Nested(cat, es, picked);
      forall k | 0 <= k < |s0|
        ensures exists i :: 0 <= i < |es| && es[i].name == s[k].skill && picked(es[i])
      {
        assert s[k] == s0[k];
        var i :| 0 <= i < n && es[..n][i].name == s0[k].skill && picked(es[..n][i]);
        assert es[i] == es[..n][i];
      }
    }
  }

  /** Every accepted entry has a record. */
  lemma NestedComplete(cat: string, es: seq<Entry>, picked: Entry -> bool)
    ensures forall i :: 0 <= i < |es| && picked(es[i]) ==>
      exists k :: 0 <= k < |Nested(cat, es, picked)| && Nested(cat, es, picked)[k].skill == es[i].name
  {
    var rs := Nested(cat, es, picked);
    forall i | 0 <= i < |es| && picked(es[i])
      ensures exists k :: 0 <= k < |rs| && rs[k].skill == es[i].name
    {
      NestedHas(cat, es, picked, i);
    }
  }

  /** The accepted entry at `i` has a record. */
  lemma {:induction false} NestedHas(cat: string, es: seq<Entry>, picked: Entry -> bool, i: int)
    requires 0 <= i < |es| && picked(es[i])
    ensures exists k :: 0 <= k < |Nested(cat, es, picked)| && Nested(cat, es, picked)[k].skill == es[i].name
    decreases |es|
  {
    var n := |es| - 1;
    var s0, s := Nested(cat, es[..n], picked), Nested(cat, es, picked);
    if i < n {
      assert es[..n][i] == es[i];
      NestedHas(cat, es[..n], picked, i);
      var k :| 0 <= k < |s0| && s0[k].skill == es[i].name;
      assert s[k] == s0[k];
    } else {
      assert s == s0 + [SkillRecord(cat, es[n].name, false)];
      assert s[|s0|].skill == es[i].name;
    }
  }

  /** A listing names each entry once, so no skill is recorded twice. */
  lemma {:induction false} NestedDistinct(cat: string, es: seq<Entry>, picked: Entry -> bool)
    requires Distinct(Names(es))
    ensures forall k, l :: 0 <= k < l < |Nested(cat, es, picked)| ==>
      Nested(cat, es, picked)[k].skill != Nested(cat, es, picked)[l].skill
    decreases |es|
  {
    if es != [] {
      var n := |es| - 1;
      assert Names(es[..n]) == Names(es)[..n];
      NestedDistinct(cat, es[..n], picked);
      NestedFrom(cat, es[..n], picked);
      var s0 := Nested(cat, es[..n], picked);
      forall k | 0 <= k < |s0|
        ensures s0[k].skill != es[n].name
      {
        var i :| 0 <= i < n && es[..n][i].name == s0[k].skill && picked(es[..n][i]);
        assert Names(es)[i] == es[..n][i].name;
        assert Names(es)[i] != Names(es)[n];
      }
    }
  }

  /** In a listing of an ordinary directory, an entry with a given name is picked exactly when that sub-directory holds `SKILL.md`. */
  lemma PickedName(t: Tree, catPath: Path, es: seq<Entry>, n: string)
    requires Lists(t, catPath, es) && Ordinary(t, catPath)
    ensures (exists i :: 0 <= i < |es| && es[i].name == n && Picks(t, catPath, es[i])) <==>
            IsDirNode(t, catPath + [n]) && HoldsSkill(t, catPath + [n])
  {
    ChildrenMembership(t, catPath, n);
    if n in Children(t, catPath) {
      assert (catPath + [n])[|catPath|] == n && (catPath + [n])[..|catPath|] == catPath;
      JoinPlain(catPath, n);
      assert n in Names(es);
      var i :| 0 <= i < |es| && Names(es)[i] == n;
      assert es[i].name == n;
    }
    if exists i :: 0 <= i < |es| && es[i].name == n && Picks(t, catPath, es[i]) {
      var i :| 0 <= i < |es| && es[i].name == n && Picks(t, catPath, es[i]);
      assert Names(es)[i] == n;
    }
  }

  /**
   * For a listing of the category's directory, as it was read: the records
   * are nested ones of this category, one for each sub-directory holding
   * `SKILL.md` and for no other name, and no name twice.
   */
  lemma SkillEntriesMeaning(t: Tree, catPath: Path, cat: string, es: seq<Entry>)
    requires Lists(t, catPath, es) && Ordinary(t, catPath)
    ensures var s := SkillEntries(t, catPath, cat, es);
      forall k :: 0 <= k < |s| ==> s[k].category == cat && !s[k].standalone
    ensures var s := SkillEntries(t, catPath, cat, es);
      forall n :: (exists k :: 0 <= k < |s| && s[k].skill == n) <==> IsDirNode(t, catPath + [n]) && HoldsSkill(t, catPath + [n])
    ensures var s := SkillEntries(t, catPath, cat, es);
      forall k, l :: 0 <= k < l < |s| ==> s[k].skill != s[l].skill
  {
    var picked := e => Picks(t, catPath, e);
    NestedFrom(cat, es, picked);
    NestedComplete(cat, es, picked);
    NestedDistinct(cat, es, picked);
    var s := SkillEntries(t, catPath, cat, es);
    forall n
      ensures (exists k :: 0 <= k < |s| && s[k].skill == n) <==> IsDirNode(t, catPath + [n]) && HoldsSkill(t, catPath + [n])
    {
      PickedName(t, catPath, es, n);
    }
  }

  /**
   * Copying the skills of a nested category records exactly `SkillEntries`
   * of the tree the listing was read from, provided that the copies land
   * apart from the category and the clone's category is ordinary.
   */
  lemma {:induction false} CopySkillsRecords(pr: Progress, catPath: Path, target: Path, cat: string, es: seq<Entry>)
    requires Apart(catPath, target) && Ordinary(pr.tree, catPath)
    requires forall k :: 0 <= k < |es| ==> PlainName(es[k].name)
    requires CopySkills(pr, catPath, target, cat, es).failure.None?
    ensures CopySkills(pr, catPath, target, cat, es).skills == pr.skills + SkillEntries(pr.tree, catPath, cat, es)
    ensures SameBelow(pr.tree, CopySkills(pr, catPath, target, cat, es).tree, catPath)
    decreases |es|
  {
    if es != [] {
      var n := |es| - 1;
      var init := es[..n];
      var mid := CopySkills(pr, catPath, target, cat, init);
      assert CopySkills(pr, catPath, target, cat, es) == CopySkill(mid, catPath, target, cat, es[n]);
      assert mid.failure.None?;
      assert forall k :: 0 <= k < |init| ==> init[k] == es[k];
      CopySkillsRecords(pr, catPath, target, cat, init);
      assert init + [es[n]] == es;
      RecordsStep(pr, mid, catPath, target, cat, init, es[n]);
    }
  }

  /** The step of `CopySkillsRecords`: one more entry after `init`. */
  lemma RecordsStep(pr: Progress, mid: Progress, catPath: Path, target: Path, cat: string, init: seq<Entry>, e: Entry)
    requires Apart(catPath, target) && Ordinary(pr.tree, catPath) && PlainName(e.name)
    requires CopySkill(mid, catPath, target, cat, e).failure.None?
    requires mid.skills == pr.skills + SkillEntries(pr.tree, catPath, cat, init)
    requires SameBelow(pr.tree, mid.tree, catPath)
    ensures CopySkill(mid, catPath, target, cat, e).skills == pr.skills + SkillEntries(pr.tree, catPath, cat, init + [e])
    ensures SameBelow(pr.tree, CopySkill(mid, catPath, target, cat, e).tree, catPath)
  {
    CopySkillRecord(mid, catPath, target, cat, e);
    HoldsSkillBelow(pr.tree, mid.tree, catPath, e.name);
    var add := if Picks(pr.tree, catPath, e) then [SkillRecord(cat, e.name, false)] else [];
    RecordsAppend(pr.skills, SkillEntries(pr.tree, catPath, cat, init), add);
    EntriesSnoc(pr.tree, catPath, cat, init, e);
    SameBelowTransitive(pr.tree, mid.tree, CopySkill(mid, catPath, target, cat, e).tree, catPath);
  }

  lemma RecordsAppend(a: seq<SkillRecord>, b: seq<SkillRecord>, c: seq<SkillRecord>)
    ensures a + b + c == a + (b + c)
  {
  }

  lemma EntriesSnoc(t: Tree, catPath: Path, cat: string, init: seq<Entry>, e: Entry)
    ensures SkillEntries(t, catPath, cat, init + [e]) ==
      SkillEntries(t, catPath, cat, init) + if Picks(t, catPath, e) then [SkillRecord(cat, e.name, false)] else []
  {
    assert (init + [e])[..|init|] == init;
  }

  /** One entry: a record exactly when it is a directory holding `SKILL.md`, and nothing changes below the category. */
  lemma CopySkillRecord(pr: Progress, catPath: Path, target: Path, cat: string, e: Entry)
    requires Apart(catPath, target) && PlainName(e.name)
    requires CopySkill(pr, catPath, target, cat, e).failure.None?
    ensures CopySkill(pr, catPath, target, cat, e).skills ==
            pr.skills + if e.isDirectory && HoldsSkill(pr.tree, Join(catPath, e.name)) then [SkillRecord(cat, e.name, false)] else []
    ensures SameBelow(pr.tree, CopySkill(pr, catPath, target, cat, e).tree, catPath)
  {
    CopySkillApart(pr, catPath, target, cat, e, catPath);
  }

  /** One entry is copied to a place apart from `root`, so nothing below `root` changes. */
  lemma CopySkillApart(pr: Progress, catPath: Path, target: Path, cat: string, e: Entry, root: Path)
    requires Apart(root, target) && PlainName(e.name)
    ensures SameBelow(pr.tree, CopySkill(pr, catPath, target, cat, e).tree, root)
  {
    if pr.failure.None? && e.isDirectory && HoldsSkill(pr.tree, Join(catPath, e.name)) {
      var to := Join(target, e.name);
      JoinPlain(target, e.name);
      ApartChild(root, target, e.name);
      var made := MakeIn(pr, to);
      if made.failure.None? {
        MakeIfMissingApart(pr.tree, to, root);
        if Copy(made.tree, Join(catPath, e.name), to).Ok? {
          CopyApart(made.tree, Join(catPath, e.name), to, root);
        }
        SameBelowTransitive(pr.tree, made.tree, CopyIn(made, Join(catPath, e.name), to, SkillRecord(cat, e.name, false)).tree, root);
      }
    }
  }

  lemma {:induction false} CopySkillsApart(pr: Progress, catPath: Path, target: Path, cat: string, es: seq<Entry>, root: Path)
    requires Apart(root, target) && forall k :: 0 <= k < |es| ==> PlainName(es[k].name)
    ensures SameBelow(pr.tree, CopySkills(pr, catPath, target, cat, es).tree, root)
    decreases |es|
  {
    if es != [] {
      var n := |es| - 1;
      var mid := CopySkills(pr, catPath, target, cat, es[..n]);
      assert forall k :: 0 <= k < n ==> es[..n][k] == es[k];
      CopySkillsApart(pr, catPath, target, cat, es[..n], root);
      CopySkillApart(mid, catPath, target, cat, es[n], root);
      SameBelowTransitive(pr.tree, mid.tree, CopySkill(mid, catPath, target, cat, es[n]).tree, root);
    }
  }

  /** Two tests that agree on every entry pick the same records. */
  lemma {:induction false} NestedSame(cat: string, es: seq<Entry>, p1: Entry -> bool, p2: Entry -> bool)
    requires forall k :: 0 <= k < |es| ==> p1(es[k]) == p2(es[k])
    ensures Nested(cat, es, p1) == Nested(cat, es, p2)
    decreases |es|
  {
    if es != [] {
      var n := |es| - 1;
      assert forall k :: 0 <= k < n ==> es[..n][k] == es[k];
      NestedSame(cat, es[..n], p1, p2);
    }
  }

  /** Below a directory without links, whether it holds `SKILL.md` depends only on what lies below it. */
  lemma HoldsSkillHere(t: Tree, u: Tree, dir: Path)
    requires SameBelow(t, u, dir) && Ordinary(t, dir)
    ensures HoldsSkill(u, dir) == HoldsSkill(t, dir)
  {
    assert (dir + [Marker])[..|dir|] == dir;
  }

  /** A listing of a directory stays a listing of it while nothing below it changes. */
  lemma ListsBelow(t: Tree, u: Tree, p: Path, es: seq<Entry>)
    requires SameBelow(t, u, p) && Lists(t, p, es)
    ensures Lists(u, p, es)
  {
    forall n
      ensures n in Children(t, p) <==> n in Children(u, p)
    {
      ChildrenMembership(t, p, n);
      ChildrenMembership(u, p, n);
      assert (p + [n])[..|p|] == p;
    }
    assert Children(t, p) == Children(u, p);
    forall k | 0 <= k < |es|
      ensures IsDirNode(u, p + [es[k].name]) == IsDirNode(t, p + [es[k].name])
    {
      assert (p + [es[k].name])[..|p|] == p;
    }
  }

  /** In an ordinary directory, the names a listing returns are plain. */
  lemma ListedPlain(t: Tree, p: Path, es: seq<Entry>)
    requires Lists(t, p, es) && Ordinary(t, p)
    ensures forall k :: 0 <= k < |es| ==> PlainName(es[k].name)
  {
    forall k | 0 <= k < |es|
      ensures PlainName(es[k].name)
    {
      assert Names(es)[k] == es[k].name;
      ChildrenMembership(t, p, es[k].name);
      assert (p + [es[k].name])[..|p|] == p && (p + [es[k].name])[|p|] == es[k].name;
    }
  }

  /**
   * What one requested category contributes, stated on the tree as the step
   * finds it: nothing when the clone lacks it; exactly the one standalone
   * record when `SKILL.md` sits at its root, whatever sub-directories it has;
   * and otherwise the nested records of the listing read from it. The
   * category's place in the store lies apart from the clone, and the clone's
   * category holds no links.
   */
  lemma CategoryRecords(pr: Progress, temp: Path, canon: Path, cat: string, listing: seq<Entry>)
    requires pr.failure.None? && CopyCategory(pr, temp, canon, cat, listing).failure.None?
    requires ListingFits(pr, temp, canon, cat, listing)
    requires Apart(Join(temp, cat), Join(canon, cat)) && Ordinary(pr.tree, Join(temp, cat))
    ensures !Exists(pr.tree, Join(temp, cat)) ==> CopyCategory(pr, temp, canon, cat, listing) == pr
    ensures Exists(pr.tree, Join(temp, cat)) && HoldsSkill(pr.tree, Join(temp, cat)) ==>
            CopyCategory(pr, temp, canon, cat, listing).skills == pr.skills + [SkillRecord(cat, cat, true)]
    ensures Exists(pr.tree, Join(temp, cat)) && !HoldsSkill(pr.tree, Join(temp, cat)) ==>
            IsDirNode(pr.tree, Join(temp, cat)) && Lists(pr.tree, Join(temp, cat), listing) &&
            CopyCategory(pr, temp, canon, cat, listing).skills == pr.skills + SkillEntries(pr.tree, Join(temp, cat), cat, listing)
  {
    var catPath, target := Join(temp, cat), Join(canon, cat);
    if Exists(pr.tree, catPath) {
      var made := MakeIn(pr, target);
      MakeIfMissingApart(pr.tree, target, catPath);
      HoldsSkillHere(pr.tree, made.tree, catPath);
      if !HoldsSkill(pr.tree, catPath) {
        CategoryNested(pr, made, catPath, target, cat, listing);
      }
    }
  }

  /** The nested case of `CategoryRecords`, after the category's place in the store has been made. */
  lemma CategoryNested(pr: Progress, made: Progress, catPath: Path, target: Path, cat: string, listing: seq<Entry>)
    requires made.failure.None? && made.skills == pr.skills
    requires SameBelow(pr.tree, made.tree, catPath) && Ordinary(pr.tree, catPath) && Apart(catPath, target)
    requires IsDirNode(made.tree, catPath) && Lists(made.tree, catPath, listing)
    requires CopySkills(made, catPath, target, cat, listing).failure.None?
    ensures IsDirNode(pr.tree, catPath) && Lists(pr.tree, catPath, listing)
    ensures CopySkills(made, catPath, target, cat, listing).skills == pr.skills + SkillEntries(pr.tree, catPath, cat, listing)
  {
    assert IsPrefix(catPath, catPath);
    ListedPlain(made.tree, catPath, listing);
    CopySkillsRecords(made, catPath, target, cat, listing);
    forall k | 0 <= k < |listing|
      ensures Picks(made.tree, catPath, listing[k]) == Picks(pr.tree, catPath, listing[k])
    {
      HoldsSkillBelow(pr.tree, made.tree, catPath, listing[k].name);
    }
    NestedSame(cat, listing, e => Picks(made.tree, catPath, e), e => Picks(pr.tree, catPath, e));
    SameBelowSymmetric(pr.tree, made.tree, catPath);
    ListsBelow(made.tree, pr.tree, catPath, listing);
  }

  lemma SameBelowSymmetric(t: Tree, u: Tree, root: Path)
    requires SameBelow(t, u, root)
    ensures SameBelow(u, t, root)
  {
  }

  // ---------------------------------------------------------------------------
  // Properties of the whole download

  /** Every record names one of `ids` as its category, and a standalone record is named after its category. */
  predicate Shaped(s: seq<SkillRecord>, ids: set<string>) {
    forall k :: 0 <= k < |s| ==> s[k].category in ids && (s[k].standalone ==> s[k].skill == s[k].category)
  }

  lemma {:induction false} CopySkillsShaped(pr: Progress, catPath: Path, target: Path, cat: string, es: seq<Entry>, ids: set<string>)
    requires Shaped(pr.skills, ids) && cat in ids
    ensures Shaped(CopySkills(pr, catPath, target, cat, es).skills, ids)
    decreases |es|
  {
    if es != [] {
      var n := |es| - 1;
      CopySkillsShaped(pr, catPath, target, cat, es[..n], ids);
      CopySkillAdds(CopySkills(pr, catPath, target, cat, es[..n]), catPath, target, cat, es[n]);
    }
  }

  /** One entry adds its nested record or nothing. */
  lemma CopySkillAdds(pr: Progress, catPath: Path, target: Path, cat: string, e: Entry)
    ensures CopySkill(pr, catPath, target, cat, e).skills == pr.skills ||
            CopySkill(pr, catPath, target, cat, e).skills == pr.skills + [SkillRecord(cat, e.name, false)]
  {
    if !(pr.failure.Some? || !e.isDirectory || !HoldsSkill(pr.tree, Join(catPath, e.name))) {
      var to := Join(target, e.name);
      MakeInSkills(pr, to);
      CopyInSkills(MakeIn(pr, to), Join(catPath, e.name), to, SkillRecord(cat, e.name, false));
    }
  }

  lemma MakeInSkills(pr: Progress, p: Path)
    ensures MakeIn(pr, p).skills == pr.skills
  {
  }

  lemma CopyInSkills(pr: Progress, from: Path, to: Path, rec: SkillRecord)
    ensures CopyIn(pr, from, to, rec).skills == pr.skills || CopyIn(pr, from, to, rec).skills == pr.skills + [rec]
  {
  }

  lemma CopyCategoryShaped(pr: Progress, temp: Path, canon: Path, cat: string, listing: seq<Entry>, ids: set<string>)
    requires Shaped(pr.skills, ids) && cat in ids
    ensures Shaped(CopyCategory(pr, temp, canon, cat, listing).skills, ids)
  {
    var catPath, target := Join(temp, cat), Join(canon, cat);
    if pr.failure.None? && Exists(pr.tree, catPath) {
      var made := MakeIn(pr, target);
      MakeInSkills(pr, target);
      CopyInSkills(made, catPath, target, SkillRecord(cat, cat, true));
      CopySkillsShaped(made, catPath, target, cat, listing, ids);
    }
  }

  lemma {:induction false} CopyCategoriesShaped(pr: Progress, temp: Path, canon: Path, cats: seq<string>, listings: seq<seq<Entry>>, ids: set<string>)
    requires |listings| == |cats| && Shaped(pr.skills, ids)
    requires forall c :: c in cats ==> c in ids
    ensures Shaped(CopyCategories(pr, temp, canon, cats, listings).skills, ids)
    decreases |cats|
  {
    if cats != [] {
      var n := |cats| - 1;
      assert forall c :: c in cats[..n] ==> c in cats;
      CopyCategoriesShaped(pr, temp, canon, cats[..n], listings[..n], ids);
      CopyCategoryShaped(CopyCategories(pr, temp, canon, cats[..n], listings[..n]), temp, canon, cats[n], listings[n], ids);
    }
  }

  /** A download records only requested categories, and a standalone skill under its category's name. */
  lemma DownloadShaped(t: Tree, home: Path, cats: seq<string>, outcome: CloneOutcome, listings: seq<seq<Entry>>)
    requires |listings| == |cats|
    ensures Shaped(Download(t, home, cats, outcome, listings).skills, set c | c in cats)
  {
    var prepared := Prepared(t, home, outcome);
    if prepared.failure.None? {
      CopyCategoriesShaped(prepared, TempDir(home), CanonicalDir(home), cats, listings, set c | c in cats);
    }
  }

  /**
   * The clone is gone at the end: on success nothing is left below it; after
   * an error it no longer exists, unless the error came from creating the
   * store, before the clone was touched. An error drops the records.
   */
  lemma DownloadRemovesClone(t: Tree, home: Path, cats: seq<string>, outcome: CloneOutcome, listings: seq<seq<Entry>>)
    requires |listings| == |cats|
    ensures Download(t, home, cats, outcome, listings).failure.None? ==>
            forall p :: p in Download(t, home, cats, outcome, listings).tree ==> !IsPrefix(TempDir(home), p)
    ensures Download(t, home, cats, outcome, listings).failure.Some? ==> Download(t, home, cats, outcome, listings).skills == []
    ensures Download(t, home, cats, outcome, listings).failure.Some? && EnsureCanonical(t, home).failure.None? ==>
            !Exists(Download(t, home, cats, outcome, listings).tree, TempDir(home))
  {
  }

  /**
   * When the clone fails, the download reports it and copies nothing: the
   * tree is the one `ensureCanonicalDir` left, less the clone directory.
   */
  lemma CloneFailure(t: Tree, home: Path, cats: seq<string>, listings: seq<seq<Entry>>)
    requires |listings| == |cats| && EnsureCanonical(t, home).failure.None?
    ensures Outcome(Download(t, home, cats, CloneFails, listings)) == Err(CloneFailed)
    ensures forall p :: p in Download(t, home, cats, CloneFails, listings).tree ==>
              p in EnsureCanonical(t, home).tree && Download(t, home, cats, CloneFails, listings).tree[p] == EnsureCanonical(t, home).tree[p]
    ensures forall p :: p in EnsureCanonical(t, home).tree && !IsPrefix(TempDir(home), p) ==>
              p in Download(t, home, cats, CloneFails, listings).tree
  {
  }

  /** Every name in the listings is one a directory can hold. */
  predicate PlainListings(listings: seq<seq<Entry>>) {
    forall i, k :: 0 <= i < |listings| && 0 <= k < |listings[i]| ==> PlainName(listings[i][k].name)
  }

  lemma CopySkillKeeps(pr: Progress, catPath: Path, target: Path, cat: string, e: Entry)
    requires PlainName(e.name)
    ensures Keeps(pr.tree, CopySkill(pr, catPath, target, cat, e).tree, target)
  {
    if !(pr.failure.Some? || !e.isDirectory || !HoldsSkill(pr.tree, Join(catPath, e.name))) {
      var to := Join(target, e.name);
      JoinPlain(target, e.name);
      assert IsPrefix(target, to);
      var made := MakeIn(pr, to);
      MakeInKeeps(pr, to, target);
      CopyInKeeps(made, Join(catPath, e.name), to, SkillRecord(cat, e.name, false));
      KeepsWiden(made.tree, CopyIn(made, Join(catPath, e.name), to, SkillRecord(cat, e.name, false)).tree, target, to);
      KeepsTransitive(pr.tree, made.tree, CopyIn(made, Join(catPath, e.name), to, SkillRecord(cat, e.name, false)).tree, target);
    }
  }

  lemma {:induction false} CopySkillsKeeps(pr: Progress, catPath: Path, target: Path, cat: string, es: seq<Entry>)
    requires forall k :: 0 <= k < |es| ==> PlainName(es[k].name)
    ensures Keeps(pr.tree, CopySkills(pr, catPath, target, cat, es).tree, target)
    decreases |es|
  {
    if es != [] {
      var n := |es| - 1;
      var mid := CopySkills(pr, catPath, target, cat, es[..n]);
      CopySkillsKeeps(pr, catPath, target, cat, es[..n]);
      CopySkillKeeps(mid, catPath, target, cat, es[n]);
      KeepsTransitive(pr.tree, mid.tree, CopySkill(mid, catPath, target, cat, es[n]).tree, target);
    }
  }

  /** A category with a plain id changes entries only below the store. */
  lemma CopyCategoryKeeps(pr: Progress, temp: Path, canon: Path, cat: string, listing: seq<Entry>)
    requires PlainName(cat) && forall k :: 0 <= k < |listing| ==> PlainName(listing[k].name)
    ensures Keeps(pr.tree, CopyCategory(pr, temp, canon, cat, listing).tree, canon)
  {
    var catPath, target := Join(temp, cat), Join(canon, cat);
    if pr.failure.None? && Exists(pr.tree, catPath) {
      JoinPlain(canon, cat);
      assert IsPrefix(canon, target);
      var made := MakeIn(pr, target);
      MakeInKeeps(pr, target, canon);
      CopyInKeeps(made, catPath, target, SkillRecord(cat, cat, true));
      KeepsWiden(made.tree, CopyIn(made, catPath, target, SkillRecord(cat, cat, true)).tree, canon, target);
      KeepsTransitive(pr.tree, made.tree, CopyIn(made, catPath, target, SkillRecord(cat, cat, true)).tree, canon);
      CopySkillsKeeps(made, catPath, target, cat, listing);
      KeepsWiden(made.tree, CopySkills(made, catPath, target, cat, listing).tree, canon, target);
      KeepsTransitive(pr.tree, made.tree, CopySkills(made, catPath, target, cat, listing).tree, canon);
    }
  }

  lemma {:induction false} CopyCategoriesKeeps(pr: Progress, temp: Path, canon: Path, cats: seq<string>, listings: seq<seq<Entry>>)
    requires |listings| == |cats| && PlainListings(listings)
    requires forall k :: 0 <= k < |cats| ==> PlainName(cats[k])
    ensures Keeps(pr.tree, CopyCategories(pr, temp, canon, cats, listings).tree, canon)
    decreases |cats|
  {
    if cats != [] {
      var n := |cats| - 1;
      var mid := CopyCategories(pr, temp, canon, cats[..n], listings[..n]);
      assert forall k :: 0 <= k < n ==> cats[..n][k] == cats[k];
      assert forall i :: 0 <= i < n ==> listings[..n][i] == listings[i];
      CopyCategoriesKeeps(pr, temp, canon, cats[..n], listings[..n]);
      CopyCategoryKeeps(mid, temp, canon, cats[n], listings[n]);
      KeepsTransitive(pr.tree, mid.tree, CopyCategory(mid, temp, canon, cats[n], listings[n]).tree, canon);
    }
  }

  /**
   * With plain category ids and listings of plain names, a download deletes
   * nothing outside the clone directory, changes nothing outside the store
   * and the clone, and overwrites inside the store only what the copies
   * bring: an entry of the store that the clone lacks survives.
   */
  lemma DownloadKeeps(t: Tree, home: Path, cats: seq<string>, outcome: CloneOutcome, listings: seq<seq<Entry>>)
    requires |listings| == |cats| && PlainListings(listings)
    requires forall k :: 0 <= k < |cats| ==> PlainName(cats[k])
    ensures forall p :: p in t && !IsPrefix(TempDir(home), p) ==>
              p in Download(t, home, cats, outcome, listings).tree &&
              (!IsPrefix(CanonicalDir(home), p) ==> Download(t, home, cats, outcome, listings).tree[p] == t[p])
  {
    var temp, canon := TempDir(home), CanonicalDir(home);
    var prepared := Prepared(t, home, outcome);
    PreparedKeeps(t, home, outcome);
    if prepared.failure.None? {
      var copied := CopyCategories(prepared, temp, canon, cats, listings);
      CopyCategoriesKeeps(prepared, temp, canon, cats, listings);
      FinishedKeeps(copied, temp);
    }
  }

  /** Making the store and placing the clone change nothing outside the clone directory. */
  lemma PreparedKeeps(t: Tree, home: Path, outcome: CloneOutcome)
    ensures forall p :: p in t && !IsPrefix(TempDir(home), p) ==>
              p in Prepared(t, home, outcome).tree && Prepared(t, home, outcome).tree[p] == t[p]
  {
    EnsureCanonicalKeeps(t, home, TempDir(home));
  }

  /** Removing the clone at the end deletes nothing outside it. */
  lemma FinishedKeeps(copied: Progress, temp: Path)
    ensures forall p :: p in copied.tree && !IsPrefix(temp, p) ==>
              p in Finished(copied, temp).tree && Finished(copied, temp).tree[p] == copied.tree[p]
  {
  }

  // ---------------------------------------------------------------------------
  // The records of a whole download

  /** When the step for `cat` reads its directory, `listing` lists that directory of `t`. */
  ghost predicate ReadFrom(t: Tree, temp: Path, cat: string, listing: seq<Entry>) {
    Exists(t, Join(temp, cat)) && !HoldsSkill(t, Join(temp, cat)) ==>
      IsDirNode(t, Join(temp, cat)) && Lists(t, Join(temp, cat), listing)
  }

  /** Each listing of `listings` is read, when it is read, from its category of `t`. */
  ghost predicate AllReadFrom(t: Tree, temp: Path, cats: seq<string>, listings: seq<seq<Entry>>)
    requires |listings| == |cats|
    decreases |cats|
  {
    cats == [] ||
    var n := |cats| - 1;
    AllReadFrom(t, temp, cats[..n], listings[..n]) && ReadFrom(t, temp, cats[n], listings[n])
  }

  lemma {:induction false} ReadFromAt(t: Tree, temp: Path, cats: seq<string>, listings: seq<seq<Entry>>, k: int)
    requires |listings| == |cats| && 0 <= k < |cats| && AllReadFrom(t, temp, cats, listings)
    ensures ReadFrom(t, temp, cats[k], listings[k])
    decreases |cats|
  {
    var n := |cats| - 1;
    if k < n {
      var c, l := cats[..n][k], listings[..n][k];
      ReadFromAt(t, temp, cats[..n], listings[..n], k);
      assert c == cats[k] && l == listings[k];
    }
  }

  /** What one requested category adds to the records, read off the tree of the clone. */
  function Contribution(t: Tree, temp: Path, cat: string, listing: seq<Entry>): seq<SkillRecord> {
    var catPath := Join(temp, cat);
    if !Exists(t, catPath) then []
    else if HoldsSkill(t, catPath) then [SkillRecord(cat, cat, true)]
    else SkillEntries(t, catPath, cat, listing)
  }

  function Contributions(t: Tree, temp: Path, cats: seq<string>, listings: seq<seq<Entry>>): seq<SkillRecord>
    requires |listings| == |cats|
    decreases |cats|
  {
    if cats == [] then []
    else
      var n := |cats| - 1;
      Contributions(t, temp, cats[..n], listings[..n]) + Contribution(t, temp, cats[n], listings[n])
  }

  /** Nothing below `inner` changes where nothing below a `root` containing it changes. */
  lemma SameBelowNarrow(t: Tree, u: Tree, root: Path, inner: Path)
    requires SameBelow(t, u, root) && IsPrefix(root, inner)
    ensures SameBelow(t, u, inner)
  {
    forall p | IsPrefix(inner, p)
      ensures IsPrefix(root, p)
    {
      PrefixTransitive(root, inner, p);
    }
  }

  /** A category below `temp` contributes the same wherever the trees agree below `temp`. */
  lemma ContributionBelow(t: Tree, u: Tree, temp: Path, cat: string, listing: seq<Entry>)
    requires PlainName(cat) && SameBelow(t, u, temp) && Ordinary(t, Join(temp, cat))
    requires ReadFrom(u, temp, cat, listing)
    ensures ReadFrom(t, temp, cat, listing)
    ensures Contribution(u, temp, cat, listing) == Contribution(t, temp, cat, listing)
  {
    var catPath := Join(temp, cat);
    JoinPlain(temp, cat);
    assert IsPrefix(temp, catPath) && IsPrefix(catPath, catPath);
    SameBelowNarrow(t, u, temp, catPath);
    HoldsSkillHere(t, u, catPath);
    if Exists(u, catPath) && !HoldsSkill(u, catPath) {
      SameBelowSymmetric(t, u, catPath);
      ListsBelow(u, t, catPath, listing);
      ListedPlain(t, catPath, listing);
      forall k | 0 <= k < |listing|
        ensures Picks(u, catPath, listing[k]) == Picks(t, catPath, listing[k])
      {
        HoldsSkillBelow(t, u, catPath, listing[k].name);
      }
      NestedSame(cat, listing, e => Picks(u, catPath, e), e => Picks(t, catPath, e));
    }
  }

  /** A category that copies without error adds its contribution, and leaves the clone as it was. */
  lemma CategoryStep(pr: Progress, mid: Progress, home: Path, cat: string, listing: seq<Entry>)
    requires PlainName(cat) && Ordinary(pr.tree, Join(TempDir(home), cat))
    requires mid.failure.None? && SameBelow(pr.tree, mid.tree, TempDir(home))
    requires ListingFits(mid, TempDir(home), CanonicalDir(home), cat, listing)
    requires CopyCategory(mid, TempDir(home), CanonicalDir(home), cat, listing).failure.None?
    ensures CopyCategory(mid, TempDir(home), CanonicalDir(home), cat, listing).skills == mid.skills + Contribution(pr.tree, TempDir(home), cat, listing)
    ensures SameBelow(pr.tree, CopyCategory(mid, TempDir(home), CanonicalDir(home), cat, listing).tree, TempDir(home))
    ensures ReadFrom(pr.tree, TempDir(home), cat, listing)
  {
    var temp, canon := TempDir(home), CanonicalDir(home);
    JoinPlain(temp, cat);
    assert IsPrefix(temp, Join(temp, cat));
    OrdinaryBelow(pr.tree, mid.tree, temp, Join(temp, cat));
    StoreAndTempApart(home, cat, cat);
    CategoryRecords(mid, temp, canon, cat, listing);
    assert CopyCategory(mid, temp, canon, cat, listing).skills == mid.skills + Contribution(mid.tree, temp, cat, listing);
    CopyCategoryApart(mid, home, cat, listing);
    SameBelowTransitive(pr.tree, mid.tree, CopyCategory(mid, temp, canon, cat, listing).tree, temp);
    ContributionBelow(pr.tree, mid.tree, temp, cat, listing);
  }

  /** A category's copies land in the store, so nothing below the clone changes. */
  lemma CopyCategoryApart(pr: Progress, home: Path, cat: string, listing: seq<Entry>)
    requires PlainName(cat) && Ordinary(pr.tree, Join(TempDir(home), cat))
    requires ListingFits(pr, TempDir(home), CanonicalDir(home), cat, listing)
    ensures SameBelow(pr.tree, CopyCategory(pr, TempDir(home), CanonicalDir(home), cat, listing).tree, TempDir(home))
  {
    var temp, canon := TempDir(home), CanonicalDir(home);
    var catPath, target := Join(temp, cat), Join(canon, cat);
    StoreAndTempApart(home, cat, cat);
    if pr.failure.None? && Exists(pr.tree, catPath) {
      var made := MakeIn(pr, target);
      if made.failure.None? {
        MakeIfMissingApart(pr.tree, target, temp);
        JoinPlain(temp, cat);
        assert IsPrefix(temp, catPath);
        if HoldsSkill(made.tree, catPath) {
          if Copy(made.tree, catPath, target).Ok? {
            CopyApart(made.tree, catPath, target, temp);
          }
        } else if IsDirNode(made.tree, catPath) {
          OrdinaryBelow(pr.tree, made.tree, temp, catPath);
          ListedPlain(made.tree, catPath, listing);
          CopySkillsApart(made, catPath, target, cat, listing, temp);
        }
        SameBelowTransitive(pr.tree, made.tree, CopyCategory(pr, temp, canon, cat, listing).tree, temp);
      }
    }
  }

  /**
   * A run of categories that all copy without error records the contributions
   * of its categories, read off the tree the run started from, and reads each
   * listing from that tree's clone.
   */
  lemma {:induction false} CopyCategoriesRecords(pr: Progress, home: Path, cats: seq<string>, listings: seq<seq<Entry>>)
    requires |listings| == |cats|
    requires forall k :: 0 <= k < |cats| ==> PlainName(cats[k]) && Ordinary(pr.tree, Join(TempDir(home), cats[k]))
    requires ListingsFit(pr, TempDir(home), CanonicalDir(home), cats, listings)
    requires CopyCategories(pr, TempDir(home), CanonicalDir(home), cats, listings).failure.None?
    ensures CopyCategories(pr, TempDir(home), CanonicalDir(home), cats, listings).skills == pr.skills + Contributions(pr.tree, TempDir(home), cats, listings)
    ensures SameBelow(pr.tree, CopyCategories(pr, TempDir(home), CanonicalDir(home), cats, listings).tree, TempDir(home))
    ensures AllReadFrom(pr.tree, TempDir(home), cats, listings)
    decreases |cats|
  {
    var temp, canon := TempDir(home), CanonicalDir(home);
    if cats != [] {
      var n := |cats| - 1;
      var init, linit := cats[..n], listings[..n];
      var mid := CopyCategories(pr, temp, canon, init, linit);
      assert forall k :: 0 <= k < n ==> init[k] == cats[k] && linit[k] == listings[k];
      assert CopyCategories(pr, temp, canon, cats, listings) == CopyCategory(mid, temp, canon, cats[n], listings[n]);
      CopyCategoriesRecords(pr, home, init, linit);
      CategoryStep(pr, mid, home, cats[n], listings[n]);
      RecordsAppend(pr.skills, Contributions(pr.tree, temp, init, linit), Contribution(pr.tree, temp, cats[n], listings[n]));
    }
  }

  /** `t` holds the repository `repo` at `at`: below `at` there is exactly what `repo` has. */
  ghost predicate Placed(t: Tree, at: Path, repo: Tree) {
    (forall rel :: rel in repo && rel != [] ==> at + rel in t && t[at + rel] == repo[rel]) &&
    (forall p :: p in t && IsPrefix(at, p) && p != at ==> p[|at|..] in repo && t[p] == repo[p[|at|..]])
  }

  lemma PlacedEntry(t: Tree, at: Path, repo: Tree, rel: Path)
    requires Placed(t, at, repo) && rel != []
    ensures at + rel in t <==> rel in repo
    ensures rel in repo ==> t[at + rel] == repo[rel]
  {
    assert IsPrefix(at, at + rel) && (at + rel)[|at|..] == rel;
  }

  /** A listing of a directory of the placed repository is a listing of that directory of `repo`. */
  lemma PlacedLists(t: Tree, at: Path, repo: Tree, rel: Path, es: seq<Entry>)
    requires Placed(t, at, repo) && rel != []
    ensures Lists(t, at + rel, es) <==> Lists(repo, rel, es)
  {
    forall n
      ensures n in Children(t, at + rel) <==> n in Children(repo, rel)
    {
      ChildrenMembership(t, at + rel, n);
      ChildrenMembership(repo, rel, n);
      assert at + rel + [n] == at + (rel + [n]);
      PlacedEntry(t, at, repo, rel + [n]);
    }
    assert Children(t, at + rel) == Children(repo, rel);
    forall n
      ensures IsDirNode(t, at + rel + [n]) == IsDirNode(repo, rel + [n])
    {
      assert at + rel + [n] == at + (rel + [n]);
      PlacedEntry(t, at, repo, rel + [n]);
    }
  }

  /** Below the category `cat`, the repository holds no link and only names `path.join` keeps as they are. */
  ghost predicate CategoryOrdinary(repo: Tree, cat: string) {
    forall rel :: rel in repo && |rel| >= 1 && rel[0] == cat ==> !repo[rel].Link? && (|rel| > 1 ==> PlainName(rel[1]))
  }

  /** The entry of the repository's category `cat` is a directory holding `SKILL.md`. */
  predicate RepoPicks(repo: Tree, cat: string, e: Entry) {
    e.isDirectory && [cat, e.name, Marker] in repo
  }

  /** The nested records of a category of the repository, for the entries of `listing`. */
  function RepoNested(repo: Tree, cat: string, listing: seq<Entry>): seq<SkillRecord> {
    Nested(cat, listing, e => RepoPicks(repo, cat, e))
  }

  /** What the requested category `cat` of the cloned repository contributes, `listing` being what reading it returns. */
  function RepoContribution(repo: Tree, cat: string, listing: seq<Entry>): seq<SkillRecord> {
    if [cat] !in repo then []
    else if [cat, Marker] in repo then [SkillRecord(cat, cat, true)]
    else RepoNested(repo, cat, listing)
  }

  /** The contributions of the requested categories, in the order requested. */
  function RepoRecords(repo: Tree, cats: seq<string>, listings: seq<seq<Entry>>): seq<SkillRecord>
    requires |listings| == |cats|
    decreases |cats|
  {
    if cats == [] then []
    else
      var n := |cats| - 1;
      RepoRecords(repo, cats[..n], listings[..n]) + RepoContribution(repo, cats[n], listings[n])
  }

  /** An ordinary category of the placed repository is an ordinary directory of the tree. */
  lemma PlacedOrdinary(t: Tree, temp: Path, repo: Tree, cat: string)
    requires Placed(t, temp, repo) && PlainName(cat) && CategoryOrdinary(repo, cat)
    ensures Ordinary(t, Join(temp, cat))
  {
    JoinPlain(temp, cat);
    var catPath := temp + [cat];
    forall p | p in t && IsPrefix(catPath, p)
      ensures !t[p].Link? && (|p| > |catPath| ==> PlainName(p[|catPath|]))
    {
      PrefixOfChild(catPath, temp, cat);
      assert p[..|temp|] == temp && p[|temp|] == cat;
      var rel := p[|temp|..];
      assert rel[0] == cat;
      if |p| > |catPath| {
        assert rel[1] == p[|catPath|];
      }
    }
  }

  /** Read off the placed repository, a category contributes what `RepoContribution` says. */
  lemma PlacedContribution(t: Tree, temp: Path, repo: Tree, cat: string, listing: seq<Entry>)
    requires Placed(t, temp, repo) && PlainName(cat) && CategoryOrdinary(repo, cat)
    requires ReadFrom(t, temp, cat, listing)
    ensures Contribution(t, temp, cat, listing) == RepoContribution(repo, cat, listing)
    ensures [cat] in repo && [cat, Marker] !in repo ==> IsDirNode(repo, [cat]) && Lists(repo, [cat], listing)
  {
    JoinPlain(temp, cat);
    PlacedCategory(t, temp, repo, cat);
    if [cat] in repo && [cat, Marker] !in repo {
      PlacedLists(t, temp, repo, [cat], listing);
      PlacedNested(t, temp, repo, cat, listing);
    }
  }

  /** The category is in the placed repository, and holds `SKILL.md`, exactly when the repository says so. */
  lemma PlacedCategory(t: Tree, temp: Path, repo: Tree, cat: string)
    requires Placed(t, temp, repo) && PlainName(cat) && CategoryOrdinary(repo, cat)
    ensures Exists(t, temp + [cat]) <==> [cat] in repo
    ensures IsDirNode(t, temp + [cat]) <==> IsDirNode(repo, [cat])
    ensures HoldsSkill(t, temp + [cat]) <==> [cat, Marker] in repo
  {
    PlacedEntry(t, temp, repo, [cat]);
    assert temp + [cat] + [Marker] == temp + [cat, Marker];
    PlacedEntry(t, temp, repo, [cat, Marker]);
  }

  /** For a listing of the category, its nested records read off the tree are those read off the repository. */
  lemma PlacedNested(t: Tree, temp: Path, repo: Tree, cat: string, listing: seq<Entry>)
    requires Placed(t, temp, repo) && PlainName(cat) && CategoryOrdinary(repo, cat)
    requires Lists(t, temp + [cat], listing)
    ensures SkillEntries(t, temp + [cat], cat, listing) == RepoNested(repo, cat, listing)
  {
    var catPath := temp + [cat];
    PlacedOrdinary(t, temp, repo, cat);
    JoinPlain(temp, cat);
    ListedPlain(t, catPath, listing);
    forall k | 0 <= k < |listing|
      ensures Picks(t, catPath, listing[k]) == RepoPicks(repo, cat, listing[k])
    {
      PlacedPicks(t, temp, repo, cat, listing[k]);
    }
    NestedSame(cat, listing, e => Picks(t, catPath, e), e => RepoPicks(repo, cat, e));
  }

  lemma PlacedPicks(t: Tree, temp: Path, repo: Tree, cat: string, e: Entry)
    requires Placed(t, temp, repo) && CategoryOrdinary(repo, cat) && PlainName(e.name)
    ensures Picks(t, temp + [cat], e) == RepoPicks(repo, cat, e)
  {
    var catPath, rel := temp + [cat], [cat, e.name, Marker];
    JoinPlain(catPath, e.name);
    assert catPath + [e.name] + [Marker] == temp + rel;
    PlacedEntry(t, temp, repo, rel);
    assert rel in repo ==> !repo[rel].Link? by {
      assert |rel| >= 1 && rel[0] == cat;
    }
  }

  lemma {:induction false} PlacedContributions(t: Tree, temp: Path, repo: Tree, cats: seq<string>, listings: seq<seq<Entry>>)
    requires |listings| == |cats| && Placed(t, temp, repo)
    requires forall k :: 0 <= k < |cats| ==> PlainName(cats[k]) && CategoryOrdinary(repo, cats[k])
    requires AllReadFrom(t, temp, cats, listings)
    ensures Contributions(t, temp, cats, listings) == RepoRecords(repo, cats, listings)
    decreases |cats|
  {
    if cats != [] {
      var n := |cats| - 1;
      assert forall k :: 0 <= k < n ==> cats[..n][k] == cats[k];
      PlacedContributions(t, temp, repo, cats[..n], listings[..n]);
      PlacedContribution(t, temp, repo, cats[n], listings[n]);
    }
  }

  /**
   * The records of a download that succeeds, for plain category ids and a
   * repository with no link below the requested categories: in the order
   * requested, nothing for a category the repository lacks, the one
   * standalone record for a category with `SKILL.md` at its root, and
   * otherwise the nested records of the listing read from it, which is a
   * listing of that directory of the repository.
   */
  lemma DownloadRecords(t: Tree, home: Path, cats: seq<string>, repo: Tree, listings: seq<seq<Entry>>)
    requires |listings| == |cats| && DownloadFits(t, home, cats, Cloned(repo), listings)
    requires forall k :: 0 <= k < |cats| ==> PlainName(cats[k]) && CategoryOrdinary(repo, cats[k])
    requires Download(t, home, cats, Cloned(repo), listings).failure.None?
    ensures Download(t, home, cats, Cloned(repo), listings).skills == RepoRecords(repo, cats, listings)
    ensures forall k :: 0 <= k < |cats| && [cats[k]] in repo && [cats[k], Marker] !in repo ==>
              IsDirNode(repo, [cats[k]]) && Lists(repo, [cats[k]], listings[k])
  {
    DownloadCopies(t, home, cats, Cloned(repo), listings);
    PreparedPlaced(t, home, repo);
    CopiedRecords(Prepared(t, home, Cloned(repo)), home, cats, repo, listings);
  }

  /** The category loop, started on a tree that holds the repository at the temp directory, returns `RepoRecords`. */
  lemma CopiedRecords(pr: Progress, home: Path, cats: seq<string>, repo: Tree, listings: seq<seq<Entry>>)
    requires |listings| == |cats| && pr.skills == [] && Placed(pr.tree, TempDir(home), repo)
    requires forall k :: 0 <= k < |cats| ==> PlainName(cats[k]) && CategoryOrdinary(repo, cats[k])
    requires ListingsFit(pr, TempDir(home), CanonicalDir(home), cats, listings)
    requires CopyCategories(pr, TempDir(home), CanonicalDir(home), cats, listings).failure.None?
    ensures CopyCategories(pr, TempDir(home), CanonicalDir(home), cats, listings).skills == RepoRecords(repo, cats, listings)
    ensures forall k :: 0 <= k < |cats| && [cats[k]] in repo && [cats[k], Marker] !in repo ==>
              IsDirNode(repo, [cats[k]]) && Lists(repo, [cats[k]], listings[k])
  {
    var temp := TempDir(home);
    forall k | 0 <= k < |cats|
      ensures Ordinary(pr.tree, Join(temp, cats[k]))
    {
      PlacedOrdinary(pr.tree, temp, repo, cats[k]);
    }
    CopyCategoriesRecords(pr, home, cats, listings);
    PlacedContributions(pr.tree, temp, repo, cats, listings);
    PlacedListings(pr.tree, temp, repo, cats, listings);
  }

  /** A download that succeeds returns the records of its category loop. */
  lemma DownloadCopies(t: Tree, home: Path, cats: seq<string>, outcome: CloneOutcome, listings: seq<seq<Entry>>)
    requires |listings| == |cats| && DownloadFits(t, home, cats, outcome, listings)
    requires Download(t, home, cats, outcome, listings).failure.None?
    ensures Prepared(t, home, outcome).failure.None? && Prepared(t, home, outcome).skills == []
    ensures ListingsFit(Prepared(t, home, outcome), TempDir(home), CanonicalDir(home), cats, listings)
    ensures CopyCategories(Prepared(t, home, outcome), TempDir(home), CanonicalDir(home), cats, listings).failure.None?
    ensures Download(t, home, cats, outcome, listings).skills ==
            CopyCategories(Prepared(t, home, outcome), TempDir(home), CanonicalDir(home), cats, listings).skills
  {
  }

  /** A clone that succeeds places the repository at the temp directory. */
  lemma PreparedPlaced(t: Tree, home: Path, repo: Tree)
    requires Prepared(t, home, Cloned(repo)).failure.None?
    ensures Placed(Prepared(t, home, Cloned(repo)).tree, TempDir(home), repo)
  {
  }

  /** Each listing read from a category of the placed repository is a listing of that category of `repo`. */
  lemma PlacedListings(t: Tree, temp: Path, repo: Tree, cats: seq<string>, listings: seq<seq<Entry>>)
    requires |listings| == |cats| && Placed(t, temp, repo)
    requires forall k :: 0 <= k < |cats| ==> PlainName(cats[k]) && CategoryOrdinary(repo, cats[k])
    requires AllReadFrom(t, temp, cats, listings)
    ensures forall k :: 0 <= k < |cats| && [cats[k]] in repo && [cats[k], Marker] !in repo ==>
              IsDirNode(repo, [cats[k]]) && Lists(repo, [cats[k]], listings[k])
  {
    forall k | 0 <= k < |cats|
      ensures [cats[k]] in repo && [cats[k], Marker] !in repo ==> IsDirNode(repo, [cats[k]]) && Lists(repo, [cats[k]], listings[k])
    {
      ReadFromAt(t, temp, cats, listings, k);
      PlacedContribution(t, temp, repo, cats[k], listings[k]);
    }
  }

  /**
   * What a category of the repository contributes: nothing when the
   * repository lacks it, the one standalone record when `SKILL.md` sits at
   * its root, and otherwise, for a listing of it, one nested record of the
   * category for each sub-directory holding `SKILL.md` and for no other name,
   * and no name twice.
   */
  lemma RepoContributionMeaning(repo: Tree, cat: string, listing: seq<Entry>)
    ensures [cat] !in repo ==> RepoContribution(repo, cat, listing) == []
    ensures [cat] in repo && [cat, Marker] in repo ==> RepoContribution(repo, cat, listing) == [SkillRecord(cat, cat, true)]
    ensures [cat] in repo && [cat, Marker] !in repo && Lists(repo, [cat], listing) ==>
              var s := RepoContribution(repo, cat, listing);
              (forall k :: 0 <= k < |s| ==> s[k].category == cat && !s[k].standalone) &&
              (forall n :: (exists k :: 0 <= k < |s| && s[k].skill == n) <==> IsDirNode(repo, [cat, n]) && [cat, n, Marker] in repo) &&
              (forall k, l :: 0 <= k < l < |s| ==> s[k].skill != s[l].skill)
  {
    if [cat] in repo && [cat, Marker] !in repo && Lists(repo, [cat], listing) {
      var picked := e => RepoPicks(repo, cat, e);
      var s := Nested(cat, listing, picked);
      NestedFrom(cat, listing, picked);
      NestedComplete(cat, listing, picked);
      NestedDistinct(cat, listing, picked);
      forall n
        ensures (exists k :: 0 <= k < |s| && s[k].skill == n) <==> IsDirNode(repo, [cat, n]) && [cat, n, Marker] in repo
      {
        RepoPicked(repo, cat, listing, n);
      }
    }
  }

  /** In a listing of a category of the repository, an entry named `n` is picked exactly when that sub-directory holds `SKILL.md`. */
  lemma RepoPicked(repo: Tree, cat: string, es: seq<Entry>, n: string)
    requires Lists(repo, [cat], es)
    ensures (exists i :: 0 <= i < |es| && es[i].name == n && RepoPicks(repo, cat, es[i])) <==>
            IsDirNode(repo, [cat, n]) && [cat, n, Marker] in repo
  {
    assert [cat] + [n] == [cat, n];
    ChildrenMembership(repo, [cat], n);
    if IsDirNode(repo, [cat, n]) {
      assert n in Names(es);
      var i :| 0 <= i < |es| && Names(es)[i] == n;
      assert es[i].name == n;
    }
  }

  // ---------------------------------------------------------------------------
  // The download on the machine's file system

  /** `downloadSkills(categories)`. */
  method DownloadSkills(fs: FileSystem, home: Path, cats: seq<string>, outcome: CloneOutcome)
    returns (r: Result<seq<SkillRecord>, InstallError>, ghost listings: seq<seq<Entry>>)
    modifies fs
    ensures |listings| == |cats| && DownloadFits(old(fs.nodes), home, cats, outcome, listings)
    ensures fs.nodes == Download(old(fs.nodes), home, cats, outcome, listings).tree
    ensures r == Outcome(Download(old(fs.nodes), home, cats, outcome, listings))
    ensures r.Ok? && outcome.Cloned? && (forall k :: 0 <= k < |cats| ==> PlainName(cats[k]) && CategoryOrdinary(outcome.repo, cats[k])) ==>
              r.value == RepoRecords(outcome.repo, cats, listings)
  {
    listings := seq(|cats|, _ => []);
    var failure := PrepareClone(fs, home, outcome);
    if failure.Some? {
      r := Err(failure.value);
      return;
    }
    var temp := TempDir(home);
    var skills;
    skills, failure, listings := CopyCategoriesOnDisk(fs, temp, CanonicalDir(home), cats);
    if failure.Some? {
      if Exists(fs.nodes, temp) {
        fs.Remove(temp);
      }
      r := Err(failure.value);
      return;
    }
    fs.Remove(temp);
    r := Ok(skills);
    if outcome.Cloned? && forall k :: 0 <= k < |cats| ==> PlainName(cats[k]) && CategoryOrdinary(outcome.repo, cats[k]) {
      DownloadRecords(old(fs.nodes), home, cats, outcome.repo, listings);
    }
  }

  /** Everything before the category loop. */
  method PrepareClone(fs: FileSystem, home: Path, outcome: CloneOutcome) returns (failure: Option<InstallError>)
    modifies fs
    ensures Progress(fs.nodes, [], failure) == Prepared(old(fs.nodes), home, outcome)
  {
    failure := EnsureCanonicalDir(fs, home);
    if failure.Some? {
      return;
    }
    var temp := TempDir(home);
    if Exists(fs.nodes, temp) {
      fs.Remove(temp);
    }
    var cloned := fs.Clone(temp, outcome);
    if !cloned {
      if Exists(fs.nodes, temp) {
        fs.Remove(temp);
      }
      failure := Some(CloneFailed);
    }
  }

  /** The loop over the requested categories; an error ends it. */
  method CopyCategoriesOnDisk(fs: FileSystem, temp: Path, canon: Path, cats: seq<string>)
    returns (skills: seq<SkillRecord>, failure: Option<InstallError>, ghost listings: seq<seq<Entry>>)
    modifies fs
    ensures |listings| == |cats|
    ensures ListingsFit(Progress(old(fs.nodes), [], None), temp, canon, cats, listings)
    ensures Progress(fs.nodes, skills, failure) == CopyCategories(Progress(old(fs.nodes), [], None), temp, canon, cats, listings)
  {
    ghost var start := Progress(fs.nodes, [], None);
    skills, failure, listings := [], None, [];
    var i := 0;
    while i < |cats|
      invariant 0 <= i <= |cats| && |listings| == i && failure.None?
      invariant ListingsFit(start, temp, canon, cats[..i], listings)
      invariant CopyCategories(start, temp, canon, cats[..i], listings) == Progress(fs.nodes, skills, None)
    {
      ghost var listing;
      skills, failure, listing := CopyCategoryOnDisk(fs, temp, canon, cats[i], skills);
      CategoriesStep(start, temp, canon, cats, i, listings, listing);
      listings := listings + [listing];
      if failure.Some? {
        StopAfter(start, temp, canon, cats, i + 1, listings);
        listings := listings + Unread(|cats| - (i + 1));
        return;
      }
      i := i + 1;
    }
    assert cats[..|cats|] == cats;
  }

  /** One turn of the category loop. */
  method CopyCategoryOnDisk(fs: FileSystem, temp: Path, canon: Path, cat: string, skills: seq<SkillRecord>)
    returns (skills': seq<SkillRecord>, failure: Option<InstallError>, ghost listing: seq<Entry>)
    modifies fs
    ensures ListingFits(Progress(old(fs.nodes), skills, None), temp, canon, cat, listing)
    ensures Progress(fs.nodes, skills', failure) == CopyCategory(Progress(old(fs.nodes), skills, None), temp, canon, cat, listing)
  {
    skills', failure, listing := skills, None, [];
    var catPath, target := Join(temp, cat), Join(canon, cat);
    if !Exists(fs.nodes, catPath) {
      return;
    }
    if !Exists(fs.nodes, target) {
      var made := fs.MakeDirectory(target);
      if made.Err? {
        failure := Some(FsFailed(made.error));
        return;
      }
    }
    if HoldsSkill(fs.nodes, catPath) {
      var copied := fs.CopyContents(catPath, target);
      if copied.Err? {
        failure := Some(FsFailed(copied.error));
        return;
      }
      skills' := skills + [SkillRecord(cat, cat, true)];
      return;
    }
    var entries := fs.ReadDir(catPath);
    if entries.Err? {
      failure := Some(FsFailed(entries.error));
      return;
    }
    listing := entries.value;
    skills', failure := CopyNestedOnDisk(fs, catPath, target, cat, entries.value, skills);
  }

  /** The loop over the entries of a nested category. */
  method CopyNestedOnDisk(fs: FileSystem, catPath: Path, target: Path, cat: string, es: seq<Entry>, skills: seq<SkillRecord>)
    returns (skills': seq<SkillRecord>, failure: Option<InstallError>)
    modifies fs
    ensures Progress(fs.nodes, skills', failure) == CopySkills(Progress(old(fs.nodes), skills, None), catPath, target, cat, es)
  {
    ghost var start := Progress(fs.nodes, skills, None);
    skills', failure := skills, None;
    for i := 0 to |es|
      invariant failure.None?
      invariant CopySkills(start, catPath, target, cat, es[..i]) == Progress(fs.nodes, skills', None)
    {
      assert es[..i + 1][..i] == es[..i];
      skills', failure := CopySkillOnDisk(fs, catPath, target, cat, es[i], skills');
      if failure.Some? {
        CopySkillsFailedAt(start, catPath, target, cat, es, i);
        return;
      }
    }
    assert es[..|es|] == es;
  }

  /** One entry of a nested category. */
  method CopySkillOnDisk(fs: FileSystem, catPath: Path, target: Path, cat: string, e: Entry, skills: seq<SkillRecord>)
    returns (skills': seq<SkillRecord>, failure: Option<InstallError>)
    modifies fs
    ensures Progress(fs.nodes, skills', failure) == CopySkill(Progress(old(fs.nodes), skills, None), catPath, target, cat, e)
  {
    skills', failure := skills, None;
    if !e.isDirectory {
      return;
    }
    var from := Join(catPath, e.name);
    if !HoldsSkill(fs.nodes, from) {
      return;
    }
    var to := Join(target, e.name);
    if !Exists(fs.nodes, to) {
      var made := fs.MakeDirectory(to);
      if made.Err? {
        failure := Some(FsFailed(made.error));
        return;
      }
    }
    var copied := fs.CopyContents(from, to);
    if copied.Err? {
      failure := Some(FsFailed(copied.error));
      return;
    }
    skills' := skills + [SkillRecord(cat, e.name, false)];
  }
}
