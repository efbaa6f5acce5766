/**
 * `downloadSpecificSkills`: the same clone and clean-up as `downloadSkills`,
 * but the copy is driven by explicit keys `category` or `category/skill`.
 * A key's source is copied when it exists; no `SKILL.md` is looked for.
 */
module SpecificDownload {
  import opened Outcomes
  import opened Text
  import opened FileTree
  import opened SkillStore
  import opened Download

  /** A parsed key: the category, and the skill inside it when the key names one. */
  datatype Key = Key(category: string, skill: Option<string>)

  /** `parts = key.split('/')`; the category is `parts[0]`, the skill `parts[1] || null`. */
  function ParseKey(key: string): (k: Key)
    ensures '/' !in k.category
    ensures k.skill.Some? ==> k.skill.value != "" && '/' !in k.skill.value
  {
    var parts := Split(key, '/');
    Key(parts[0], if |parts| > 1 && parts[1] != "" then Some(parts[1]) else None)
  }

  /** A key without '/' names a standalone category. */
  lemma KeyOfCategory(c: string)
    requires '/' !in c
    ensures ParseKey(c) == Key(c, None)
  {
    SplitNoSep(c, '/');
  }

  /** `c/s` names the skill `s` of `c`; an empty `s` (a trailing '/') names the category alone. */
  lemma KeyOfSkill(c: string, s: string)
    requires '/' !in c && '/' !in s
    ensures ParseKey(c + "/" + s) == Key(c, if s == "" then None else Some(s))
  {
    SplitAtSep(c, s, '/');
    SplitNoSep(s, '/');
  }

  /** Segments after the second are ignored. */
  lemma KeyIgnoresRest(c: string, s: string, rest: string)
    requires '/' !in c && '/' !in s
    ensures ParseKey(c + "/" + s + "/" + rest) == ParseKey(c + "/" + s)
  {
    SplitAtSep(c, s + "/" + rest, '/');
    SplitAtSep(s, rest, '/');
    assert c + "/" + s + "/" + rest == c + "/" + (s + "/" + rest);
    KeyOfSkill(c, s);
  }

  /** The record a key yields when its source exists. */
  function RecordOf(k: Key): (r: SkillRecord)
    ensures r.category == k.category && r.standalone == k.skill.None?
    ensures r.skill == if k.skill.Some? then k.skill.value else k.category
  {
    match k.skill
    case Some(name) => SkillRecord(k.category, name, false)
    case None => SkillRecord(k.category, k.category, true)
  }

  /** `join(tempDir, category[, skill])` */
  function SourceOf(temp: Path, k: Key): Path {
    if k.skill.Some? then Join(Join(temp, k.category), k.skill.value) else Join(temp, k.category)
  }

  /** `join(CANONICAL_DIR, category[, skill])` */
  function DestOf(canon: Path, k: Key): Path {
    if k.skill.Some? then Join(Join(canon, k.category), k.skill.value) else Join(canon, k.category)
  }

  /** One key: its text is parsed, then the parsed key is copied. */
  function CopyKey(pr: Progress, temp: Path, canon: Path, key: string): Progress {
    CopyParsed(pr, temp, canon, ParseKey(key))
  }

  /**
   * A parsed key: the category's place in the store is made, then, when the
   * source exists, it is copied (into a place of its own for a skill).
   */
  function CopyParsed(pr: Progress, temp: Path, canon: Path, k: Key): Progress {
    var made := MakeIn(pr, Join(canon, k.category));
    if made.failure.Some? || !Exists(made.tree, SourceOf(temp, k)) then made
    else CopySource(made, SourceOf(temp, k), DestOf(canon, k), RecordOf(k), k.skill.Some?)
  }

  /** The copy of an existing source; `own` makes the destination first. */
  function CopySource(made: Progress, src: Path, dest: Path, rec: SkillRecord, own: bool): Progress {
    CopyIn(if own then MakeIn(made, dest) else made, src, dest, rec)
  }

  function CopyKeys(pr: Progress, temp: Path, canon: Path, keys: seq<string>): Progress
    decreases |keys|
  {
    if keys == [] then pr
    else CopyKey(CopyKeys(pr, temp, canon, keys[..|keys| - 1]), temp, canon, keys[|keys| - 1])
  }

  /** The whole of `downloadSpecificSkills`. */
  function DownloadSpecific(t: Tree, home: Path, keys: seq<string>, outcome: CloneOutcome): Progress {
    var prepared := Prepared(t, home, outcome);
    if prepared.failure.Some? then prepared
    else Finished(CopyKeys(prepared, TempDir(home), CanonicalDir(home), keys), TempDir(home))
  }

  // ---------------------------------------------------------------------------
  // Properties

  lemma {:induction false} CopyKeysAppend(pr: Progress, temp: Path, canon: Path, a: seq<string>, b: seq<string>)
    ensures CopyKeys(pr, temp, canon, a + b) == CopyKeys(CopyKeys(pr, temp, canon, a), temp, canon, b)
    decreases |b|
  {
    if b == [] {
      assert a + b == a;
    } else {
      var n := |b| - 1;
      assert (a + b)[..|a + b| - 1] == a + b[..n];
      CopyKeysAppend(pr, temp, canon, a, b[..n]);
    }
  }

  lemma {:induction false} CopyKeysFailed(pr: Progress, temp: Path, canon: Path, keys: seq<string>)
    requires pr.failure.Some?
    ensures CopyKeys(pr, temp, canon, keys) == pr
    decreases |keys|
  {
    if keys != [] {
      CopyKeysFailed(pr, temp, canon, keys[..|keys| - 1]);
    }
  }

  /**
   * A parsed key that goes through adds its record exactly when its source
   * exists once the category's place is made; whether or not it does, the
   * category's place in the store is there afterwards, a directory when it
   * was missing and unchanged when it existed. The store lies below the home
   * directory, so the category's place is never the root; a skill named `.`
   * or `..` would be copied outside its category, and is not covered.
   */
  lemma KeyRecords(pr: Progress, temp: Path, canon: Path, k: Key)
    requires |canon| > 1 && pr.failure.None? && CopyParsed(pr, temp, canon, k).failure.None?
    requires '/' !in k.category && (k.skill.Some? ==> PlainName(k.skill.value))
    ensures MakeIfMissing(pr.tree, Join(canon, k.category)).Ok?
    ensures CopyParsed(pr, temp, canon, k).skills == pr.skills +
      if Exists(MakeIfMissing(pr.tree, Join(canon, k.category)).value, SourceOf(temp, k)) then [RecordOf(k)] else []
    ensures Join(canon, k.category) in CopyParsed(pr, temp, canon, k).tree
    ensures !Exists(pr.tree, Join(canon, k.category)) ==> IsDirNode(CopyParsed(pr, temp, canon, k).tree, Join(canon, k.category))
    ensures Exists(pr.tree, Join(canon, k.category)) ==>
              CopyParsed(pr, temp, canon, k).tree[Join(canon, k.category)] == pr.tree[Join(canon, k.category)]
  {
    var target := Join(canon, k.category);
    var made := MakeIn(pr, target);
    CategoryPlaceMade(pr, canon, k.category);
    if Exists(made.tree, SourceOf(temp, k)) {
      DestBelowCategory(canon, k);
      CategoryPlaceKept(made, target, DestOf(canon, k), SourceOf(temp, k), RecordOf(k), k.skill.Some?);
    }
  }

  /** Making the category's place: afterwards it is in the tree, a directory if it was missing, unchanged if not. */
  lemma CategoryPlaceMade(pr: Progress, canon: Path, category: string)
    requires |canon| > 1 && '/' !in category && pr.failure.None? && MakeIn(pr, Join(canon, category)).failure.None?
    ensures Join(canon, category) in MakeIn(pr, Join(canon, category)).tree
    ensures !Exists(pr.tree, Join(canon, category)) ==> IsDirNode(MakeIn(pr, Join(canon, category)).tree, Join(canon, category))
    ensures Exists(pr.tree, Join(canon, category)) ==> MakeIn(pr, Join(canon, category)).tree == pr.tree
    ensures MakeIn(pr, Join(canon, category)).skills == pr.skills
  {
    var target := Join(canon, category);
    JoinLength(canon, category);
    assert target[..|target|] == target;
  }

  /** `path.join` with one name takes away at most one trailing name. */
  lemma JoinLength(p: Path, s: string)
    requires '/' !in s
    ensures |Join(p, s)| >= |p| - 1
  {
    SplitNoSep(s, '/');
    assert JoinSegments(p, [s]) == JoinSegments(JoinSegment(p, s), []);
  }

  /** A skill's destination lies inside its category's place. */
  lemma DestBelowCategory(canon: Path, k: Key)
    requires k.skill.Some? ==> PlainName(k.skill.value)
    ensures DestOf(canon, k) == Join(canon, k.category) || IsPrefix(Join(canon, k.category), DestOf(canon, k))
  {
    if k.skill.Some? {
      var target := Join(canon, k.category);
      JoinPlain(target, k.skill.value);
      assert (target + [k.skill.value])[..|target|] == target;
    }
  }

  /** The copy of one key adds its record and leaves the category's own entry as `made` has it. */
  lemma CategoryPlaceKept(made: Progress, target: Path, dest: Path, src: Path, rec: SkillRecord, own: bool)
    requires made.failure.None? && target in made.tree
    requires dest == target || IsPrefix(target, dest)
    requires CopySource(made, src, dest, rec, own).failure.None?
    ensures CopySource(made, src, dest, rec, own).skills == made.skills + [rec]
    ensures target in CopySource(made, src, dest, rec, own).tree
    ensures CopySource(made, src, dest, rec, own).tree[target] == made.tree[target]
  {
  }

  /** Each record is the record of one of the keys, and there are at most as many records as keys. */
  lemma {:induction false} CopyKeysRecords(pr: Progress, temp: Path, canon: Path, keys: seq<string>)
    ensures |pr.skills| <= |CopyKeys(pr, temp, canon, keys).skills| <= |pr.skills| + |keys|
    ensures CopyKeys(pr, temp, canon, keys).skills[..|pr.skills|] == pr.skills
    ensures forall j :: |pr.skills| <= j < |CopyKeys(pr, temp, canon, keys).skills| ==>
              exists i :: 0 <= i < |keys| && CopyKeys(pr, temp, canon, keys).skills[j] == RecordOf(ParseKey(keys[i]))
    decreases |keys|
  {
    if keys != [] {
      var n := |keys| - 1;
      var mid := CopyKeys(pr, temp, canon, keys[..n]);
      CopyKeysRecords(pr, temp, canon, keys[..n]);
      KeyAdds(mid, temp, canon, keys[n]);
      var r := CopyKeys(pr, temp, canon, keys);
      forall j | |pr.skills| <= j < |r.skills|
        ensures exists i :: 0 <= i < |keys| && r.skills[j] == RecordOf(ParseKey(keys[i]))
      {
        if j < |mid.skills| {
          var i :| 0 <= i < n && mid.skills[j] == RecordOf(ParseKey(keys[..n][i]));
          assert keys[..n][i] == keys[i];
        } else {
          assert r.skills[j] == RecordOf(ParseKey(keys[n]));
        }
      }
    }
  }

  /** The loop's step: the first `i + 1` keys are the first `i`, then key `i`. */
  lemma CopyKeysStep(pr: Progress, temp: Path, canon: Path, keys: seq<string>, i: int)
    requires 0 <= i < |keys|
    ensures CopyKeys(pr, temp, canon, keys[..i + 1]) == CopyParsed(CopyKeys(pr, temp, canon, keys[..i]), temp, canon, ParseKey(keys[i]))
  {
    assert keys[..i + 1][..i] == keys[..i];
  }

  /** An error at key `i` is the outcome of the whole loop. */
  lemma CopyKeysFailedAt(pr: Progress, temp: Path, canon: Path, keys: seq<string>, i: int)
    requires 0 <= i < |keys| && CopyKeys(pr, temp, canon, keys[..i + 1]).failure.Some?
    ensures CopyKeys(pr, temp, canon, keys) == CopyKeys(pr, temp, canon, keys[..i + 1])
  {
    CopyKeysAppend(pr, temp, canon, keys[..i + 1], keys[i + 1..]);
    CopyKeysFailed(CopyKeys(pr, temp, canon, keys[..i + 1]), temp, canon, keys[i + 1..]);
    assert keys[..i + 1] + keys[i + 1..] == keys;
  }

  /** One key adds its record or nothing. */
  lemma KeyAdds(pr: Progress, temp: Path, canon: Path, key: string)
    ensures CopyKey(pr, temp, canon, key).skills == pr.skills ||
            CopyKey(pr, temp, canon, key).skills == pr.skills + [RecordOf(ParseKey(key))]
  {
    var k := ParseKey(key);
    var made := MakeIn(pr, Join(canon, k.category));
    MakeInSkills(pr, Join(canon, k.category));
    MakeInSkills(made, DestOf(canon, k));
    CopyInSkills(if k.skill.Some? then MakeIn(made, DestOf(canon, k)) else made, SourceOf(temp, k), DestOf(canon, k), RecordOf(k));
  }

  /** On success the clone is gone; after an error past the store's creation it does not exist; an error drops the records. */
  lemma SpecificRemovesClone(t: Tree, home: Path, keys: seq<string>, outcome: CloneOutcome)
    ensures DownloadSpecific(t, home, keys, outcome).failure.None? ==>
            forall p :: p in DownloadSpecific(t, home, keys, outcome).tree ==> !IsPrefix(TempDir(home), p)
    ensures DownloadSpecific(t, home, keys, outcome).failure.Some? ==> DownloadSpecific(t, home, keys, outcome).skills == []
    ensures DownloadSpecific(t, home, keys, outcome).failure.Some? && EnsureCanonical(t, home).failure.None? ==>
            !Exists(DownloadSpecific(t, home, keys, outcome).tree, TempDir(home))
    ensures outcome.CloneFails? && EnsureCanonical(t, home).failure.None? ==>
            Outcome(DownloadSpecific(t, home, keys, outcome)) == Err(CloneFailed)
  {
  }

  /** A download yields at most one record per key, each the record of a key. */
  lemma SpecificRecords(t: Tree, home: Path, keys: seq<string>, outcome: CloneOutcome)
    ensures |DownloadSpecific(t, home, keys, outcome).skills| <= |keys|
    ensures forall j :: 0 <= j < |DownloadSpecific(t, home, keys, outcome).skills| ==>
              exists i :: 0 <= i < |keys| && DownloadSpecific(t, home, keys, outcome).skills[j] == RecordOf(ParseKey(keys[i]))
  {
    var prepared := Prepared(t, home, outcome);
    if prepared.failure.None? {
      var copied := CopyKeys(prepared, TempDir(home), CanonicalDir(home), keys);
      CopyKeysRecords(prepared, TempDir(home), CanonicalDir(home), keys);
      assert DownloadSpecific(t, home, keys, outcome).skills == if copied.failure.None? then copied.skills else [];
    }
  }

  // ---------------------------------------------------------------------------
  // The records of a whole run, read off the cloned repository

  /** Where a parsed key's source lies inside the repository. */
  function RepoSource(k: Key): Path {
    if k.skill.Some? then [k.category, k.skill.value] else [k.category]
  }

  /** The key's parts are names `path.join` keeps as they are, and the repository's entry at its source, if any, is no link. */
  predicate KeyOrdinary(repo: Tree, key: string) {
    var k := ParseKey(key);
    PlainName(k.category) && (k.skill.Some? ==> PlainName(k.skill.value)) &&
    (RepoSource(k) in repo ==> !repo[RepoSource(k)].Link?)
  }

  /** The record of `key` when the repository holds its source, and nothing otherwise. */
  function KeptOne(repo: Tree, key: string): seq<SkillRecord> {
    var k := ParseKey(key);
    if RepoSource(k) in repo then [RecordOf(k)] else []
  }

  /** In key order, the record of every key whose source the repository holds; a key given twice counts twice. */
  function KeptKeys(repo: Tree, keys: seq<string>): seq<SkillRecord>
    decreases |keys|
  {
    if keys == [] then []
    else
      var n := |keys| - 1;
      KeptKeys(repo, keys[..n]) + KeptOne(repo, keys[n])
  }

  /** The kept records of a concatenation of keys are those of the first part followed by those of the second. */
  lemma {:induction false} KeptKeysAppend(repo: Tree, a: seq<string>, b: seq<string>)
    ensures KeptKeys(repo, a + b) == KeptKeys(repo, a) + KeptKeys(repo, b)
    decreases |b|
  {
    if b == [] {
      assert a + b == a;
    } else {
      var n := |b| - 1;
      assert (a + b)[..|a + b| - 1] == a + b[..n];
      assert (a + b)[|a + b| - 1] == b[n];
      KeptKeysAppend(repo, a, b[..n]);
    }
  }

  /** When the repository holds every key's source, each key yields its record, in key order. */
  lemma {:induction false} KeptKeysAll(repo: Tree, keys: seq<string>)
    requires forall i :: 0 <= i < |keys| ==> RepoSource(ParseKey(keys[i])) in repo
    ensures |KeptKeys(repo, keys)| == |keys|
    ensures forall i :: 0 <= i < |keys| ==> KeptKeys(repo, keys)[i] == RecordOf(ParseKey(keys[i]))
    decreases |keys|
  {
    if keys != [] {
      var n := |keys| - 1;
      var init := keys[..n];
      assert forall i :: 0 <= i < n ==> init[i] == keys[i];
      KeptKeysAll(repo, init);
      assert KeptKeys(repo, keys) == KeptKeys(repo, init) + [RecordOf(ParseKey(keys[n]))];
    }
  }

  /** When the repository holds no key's source, nothing is kept. */
  lemma {:induction false} KeptKeysNone(repo: Tree, keys: seq<string>)
    requires forall i :: 0 <= i < |keys| ==> RepoSource(ParseKey(keys[i])) !in repo
    ensures KeptKeys(repo, keys) == []
    decreases |keys|
  {
    if keys != [] {
      var n := |keys| - 1;
      assert forall i :: 0 <= i < n ==> keys[..n][i] == keys[i];
      KeptKeysNone(repo, keys[..n]);
    }
  }

  /** A tree that agrees with `t` below `at` holds the repository there as `t` does. */
  lemma PlacedSame(t: Tree, u: Tree, at: Path, repo: Tree)
    requires Placed(t, at, repo) && SameBelow(t, u, at)
    ensures Placed(u, at, repo)
  {
    forall rel | rel in repo && rel != []
      ensures at + rel in u && u[at + rel] == repo[rel]
    {
      assert IsPrefix(at, at + rel);
    }
  }

  /** A key's source lies at its place in the repository below the temp directory, and its destinations lie apart from that directory. */
  lemma KeyPlaces(home: Path, k: Key)
    requires PlainName(k.category) && (k.skill.Some? ==> PlainName(k.skill.value))
    ensures SourceOf(TempDir(home), k) == TempDir(home) + RepoSource(k)
    ensures Apart(TempDir(home), Join(CanonicalDir(home), k.category))
    ensures Apart(TempDir(home), DestOf(CanonicalDir(home), k))
  {
    var temp, target := TempDir(home), Join(CanonicalDir(home), k.category);
    StoreAndTempApart(home, k.category, k.category);
    JoinPlain(temp, k.category);
    if k.skill.Some? {
      JoinPlain(temp + [k.category], k.skill.value);
      assert temp + [k.category] + [k.skill.value] == temp + [k.category, k.skill.value];
      JoinPlain(target, k.skill.value);
      ApartChild(temp, target, k.skill.value);
    }
  }

  /**
   * One key of a run over the placed repository: it adds its record exactly
   * when the repository holds its source, and it changes nothing below the
   * temp directory.
   */
  lemma KeyKept(pr: Progress, home: Path, repo: Tree, key: string)
    requires pr.failure.None? && Placed(pr.tree, TempDir(home), repo) && KeyOrdinary(repo, key)
    requires CopyKey(pr, TempDir(home), CanonicalDir(home), key).failure.None?
    ensures CopyKey(pr, TempDir(home), CanonicalDir(home), key).skills == pr.skills + KeptOne(repo, key)
    ensures SameBelow(pr.tree, CopyKey(pr, TempDir(home), CanonicalDir(home), key).tree, TempDir(home))
  {
    var temp, canon, k := TempDir(home), CanonicalDir(home), ParseKey(key);
    var target, src, dest := Join(canon, k.category), SourceOf(temp, k), DestOf(canon, k);
    KeyRecords(pr, temp, canon, k);
    KeyPlaces(home, k);
    var made := MakeIn(pr, target);
    MakeIfMissingApart(pr.tree, target, temp);
    PlacedEntry(pr.tree, temp, repo, RepoSource(k));
    assert Exists(made.tree, src) <==> RepoSource(k) in repo by {
      assert IsPrefix(temp, src);
    }
    if Exists(made.tree, src) {
      var ready := if k.skill.Some? then MakeIn(made, dest) else made;
      if k.skill.Some? {
        MakeIfMissingApart(made.tree, dest, temp);
      }
      CopyApart(ready.tree, src, dest, temp);
    }
  }

  /** The key loop over the placed repository pushes `KeptKeys` and leaves the clone as it was. */
  lemma {:induction false} CopyKeysKept(pr: Progress, home: Path, repo: Tree, keys: seq<string>)
    requires pr.failure.None? && Placed(pr.tree, TempDir(home), repo)
    requires forall i :: 0 <= i < |keys| ==> KeyOrdinary(repo, keys[i])
    requires CopyKeys(pr, TempDir(home), CanonicalDir(home), keys).failure.None?
    ensures CopyKeys(pr, TempDir(home), CanonicalDir(home), keys).skills == pr.skills + KeptKeys(repo, keys)
    ensures Placed(CopyKeys(pr, TempDir(home), CanonicalDir(home), keys).tree, TempDir(home), repo)
    decreases |keys|
  {
    var temp, canon := TempDir(home), CanonicalDir(home);
    if keys != [] {
      var n := |keys| - 1;
      var init := keys[..n];
      var mid := CopyKeys(pr, temp, canon, init);
      CopyKeysLast(pr, temp, canon, keys, mid);
      assert forall i :: 0 <= i < n ==> init[i] == keys[i];
      CopyKeysKept(pr, home, repo, init);
      KeyKept(mid, home, repo, keys[n]);
      PlacedSame(mid.tree, CopyKeys(pr, temp, canon, keys).tree, temp, repo);
      RecordsAppend(pr.skills, KeptKeys(repo, init), KeptOne(repo, keys[n]));
    }
  }

  /** The loop over `keys` is its loop over all but the last key, `mid`, then that key; when it goes through, so did `mid`. */
  lemma CopyKeysLast(pr: Progress, temp: Path, canon: Path, keys: seq<string>, mid: Progress)
    requires keys != [] && mid == CopyKeys(pr, temp, canon, keys[..|keys| - 1])
    ensures CopyKeys(pr, temp, canon, keys) == CopyKey(mid, temp, canon, keys[|keys| - 1])
    ensures CopyKeys(pr, temp, canon, keys).failure.None? ==> mid.failure.None?
  {
  }

  /** A run that succeeds had a successful clone and a key loop that went through, whose records it returns. */
  lemma SpecificCopies(t: Tree, home: Path, keys: seq<string>, outcome: CloneOutcome)
    requires DownloadSpecific(t, home, keys, outcome).failure.None?
    ensures Prepared(t, home, outcome).failure.None?
    ensures CopyKeys(Prepared(t, home, outcome), TempDir(home), CanonicalDir(home), keys).failure.None?
    ensures DownloadSpecific(t, home, keys, outcome).skills ==
            CopyKeys(Prepared(t, home, outcome), TempDir(home), CanonicalDir(home), keys).skills
  {
  }

  /**
   * A run that succeeds after a successful clone of `repo`, with keys of
   * plain names and no link at any key's source: its records are, in key
   * order, the record of each key whose source the repository holds.
   */
  lemma SpecificKept(t: Tree, home: Path, keys: seq<string>, repo: Tree)
    requires forall i :: 0 <= i < |keys| ==> KeyOrdinary(repo, keys[i])
    requires DownloadSpecific(t, home, keys, Cloned(repo)).failure.None?
    ensures DownloadSpecific(t, home, keys, Cloned(repo)).skills == KeptKeys(repo, keys)
  {
    SpecificCopies(t, home, keys, Cloned(repo));
    PreparedPlaced(t, home, repo);
    CopyKeysKept(Prepared(t, home, Cloned(repo)), home, repo, keys);
  }

  // ---------------------------------------------------------------------------
  // The download on the machine's file system

  /** `downloadSpecificSkills(skillPaths)`. */
  method DownloadSpecificSkills(fs: FileSystem, home: Path, keys: seq<string>, outcome: CloneOutcome)
    returns (r: Result<seq<SkillRecord>, InstallError>)
    modifies fs
    ensures fs.nodes == DownloadSpecific(old(fs.nodes), home, keys, outcome).tree
    ensures r == Outcome(DownloadSpecific(old(fs.nodes), home, keys, outcome))
    ensures r.Ok? && outcome.Cloned? && (forall i :: 0 <= i < |keys| ==> KeyOrdinary(outcome.repo, keys[i])) ==>
              r.value == KeptKeys(outcome.repo, keys)
  {
    var failure := PrepareClone(fs, home, outcome);
    if failure.Some? {
      r := Err(failure.value);
      return;
    }
    var temp := TempDir(home);
    var skills;
    skills, failure := CopyKeysOnDisk(fs, temp, CanonicalDir(home), keys);
    if failure.Some? {
      if Exists(fs.nodes, temp) {
        fs.Remove(temp);
      }
      r := Err(failure.value);
      return;
    }
    fs.Remove(temp);
    r := Ok(skills);
    if outcome.Cloned? && forall i :: 0 <= i < |keys| ==> KeyOrdinary(outcome.repo, keys[i]) {
      SpecificKept(old(fs.nodes), home, keys, outcome.repo);
    }
  }

  /** The loop over the keys; an error ends it. */
  method CopyKeysOnDisk(fs: FileSystem, temp: Path, canon: Path, keys: seq<string>)
    returns (skills: seq<SkillRecord>, failure: Option<InstallError>)
    modifies fs
    ensures Progress(fs.nodes, skills, failure) == CopyKeys(Progress(old(fs.nodes), [], None), temp, canon, keys)
  {
    ghost var start := Progress(fs.nodes, [], None);
    skills, failure := [], None;
    for i := 0 to |keys|
      invariant failure.None?
      invariant CopyKeys(start, temp, canon, keys[..i]) == Progress(fs.nodes, skills, None)
    {
      CopyKeysStep(start, temp, canon, keys, i);
      skills, failure := CopyKeyOnDisk(fs, temp, canon, keys[i], skills);
      if failure.Some? {
        CopyKeysFailedAt(start, temp, canon, keys, i);
        return;
      }
    }
    assert keys[..|keys|] == keys;
  }

  /** One turn of the key loop. */
  method CopyKeyOnDisk(fs: FileSystem, temp: Path, canon: Path, key: string, skills: seq<SkillRecord>)
    returns (skills': seq<SkillRecord>, failure: Option<InstallError>)
    modifies fs
    ensures Progress(fs.nodes, skills', failure) == CopyParsed(Progress(old(fs.nodes), skills, None), temp, canon, ParseKey(key))
  {
    skills', failure := skills, None;
    var parts := Split(key, '/');
    var category := parts[0];
    var skillName := if |parts| > 1 && parts[1] != "" then Some(parts[1]) else None;
    var target := Join(canon, category);
    if !Exists(fs.nodes, target) {
      var made := fs.MakeDirectory(target);
      if made.Err? {
        failure := Some(FsFailed(made.error));
        return;
      }
    }
    if skillName.Some? {
      var source := Join(Join(temp, category), skillName.value);
      if Exists(fs.nodes, source) {
        var to := Join(target, skillName.value);
        if !Exists(fs.nodes, to) {
          var made := fs.MakeDirectory(to);
          if made.Err? {
            failure := Some(FsFailed(made.error));
            return;
          }
        }
        var copied := fs.CopyContents(source, to);
        if copied.Err? {
          failure := Some(FsFailed(copied.error));
          return;
        }
        skills' := skills + [SkillRecord(category, skillName.value, false)];
      }
    } else {
      var source := Join(temp, category);
      if Exists(fs.nodes, source) {
        var copied := fs.CopyContents(source, target);
        if copied.Err? {
          failure := Some(FsFailed(copied.error));
          return;
        }
        skills' := skills + [SkillRecord(category, category, true)];
      }
    }
  }
}
