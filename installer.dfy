/**
 * `installSkills` and `installSpecificSkills`: download, link the skills
 * into every chosen agent, then update the lock file and report how many
 * skills were downloaded. An error anywhere stops the installation before
 * the lock is touched and is passed on to the caller.
 */
module Installer {
  import opened Outcomes
  import opened Text
  import opened FileTree
  import opened SkillStore
  import opened Agents
  import opened Download
  import opened SpecificDownload
  import opened Links
  import opened Lock
  import opened Prompts

  /** `getAllCategoryIds` */
  const AllCategoryIds: seq<string> := [
    "01-model-architecture", "02-tokenization", "03-fine-tuning",
    "04-mechanistic-interpretability", "05-data-processing", "06-post-training",
    "07-safety-alignment", "08-distributed-training", "09-infrastructure",
    "10-optimization", "11-evaluation", "12-inference-serving", "13-mlops",
    "14-agents", "15-rag", "16-prompt-engineering", "17-observability",
    "18-multimodal", "19-emerging-techniques", "20-ml-paper-writing"
  ]

  /** Which of the two lock updates an installation makes. */
  datatype LockUpdate = Replace | Append

  /** The file system, the lock file, and what the call returns or throws. */
  datatype Installation = Installation(tree: Tree, lock: LockFileState, result: Result<nat, InstallError>)

  /** `createSymlinks(agent, skills)` for one more agent; an error thrown making its directory stops the rest. */
  function LinkAgent(pr: Progress, canon: Path, agent: Agent): Progress {
    if pr.failure.Some? then pr
    else match Linked(pr.tree, canon, agent.skillsPath, pr.skills)
      case Err(e) => pr.(failure := Some(e))
      case Ok(l) => pr.(tree := l.tree)
  }

  /** The loop over the agents. */
  function LinkAgents(pr: Progress, canon: Path, agents: seq<Agent>): Progress
    decreases |agents|
  {
    if agents == [] then pr
    else LinkAgent(LinkAgents(pr, canon, agents[..|agents| - 1]), canon, agents[|agents| - 1])
  }

  /** What follows a download: the links, then the lock update, each of which may throw. */
  function Finish(d: Progress, lock: LockFileState, canon: Path, agents: seq<Agent>, now: string, update: LockUpdate): Installation {
    if d.failure.Some? then Installation(d.tree, lock, Err(d.failure.value))
    else
      var linked := LinkAgents(d, canon, agents);
      if linked.failure.Some? then Installation(linked.tree, lock, Err(linked.failure.value))
      else
        var read := ReadLock(lock);
        match (if update == Replace then Replaced(read, d.skills, agents, now) else Appended(read, d.skills, agents, now))
        case Err(e) => Installation(linked.tree, lock, Err(e))
        case Ok(l) => Installation(linked.tree, Holds(LockObject(l)), Ok(|d.skills|))
  }

  /** `installSkills(categories, agents)` */
  function InstallAll(t: Tree, lock: LockFileState, home: Path, cats: seq<string>, agents: seq<Agent>,
                      outcome: CloneOutcome, listings: seq<seq<Entry>>, now: string): Installation
    requires |listings| == |cats|
  {
    Finish(Download.Download(t, home, cats, outcome, listings), lock, CanonicalDir(home), agents, now, Replace)
  }

  /** `installSpecificSkills(skillPaths, agents)` */
  function InstallSome(t: Tree, lock: LockFileState, home: Path, keys: seq<string>, agents: seq<Agent>,
                       outcome: CloneOutcome, now: string): Installation
  {
    Finish(DownloadSpecific(t, home, keys, outcome), lock, CanonicalDir(home), agents, now, Append)
  }

  // ---------------------------------------------------------------------------
  // Properties

  lemma {:induction false} LinkAgentsFailed(pr: Progress, canon: Path, agents: seq<Agent>)
    requires pr.failure.Some?
    ensures LinkAgents(pr, canon, agents) == pr
    decreases |agents|
  {
    if agents != [] {
      LinkAgentsFailed(pr, canon, agents[..|agents| - 1]);
    }
  }

  /** Linking keeps the records. */
  lemma {:induction false} LinkAgentsSkills(pr: Progress, canon: Path, agents: seq<Agent>)
    ensures LinkAgents(pr, canon, agents).skills == pr.skills
    decreases |agents|
  {
    if agents != [] {
      LinkAgentsSkills(pr, canon, agents[..|agents| - 1]);
      LinkAgentStep(LinkAgents(pr, canon, agents[..|agents| - 1]), canon, agents[|agents| - 1]);
    }
  }

  /** The agent's directory is missing and cannot be made: `mkdirSync` throws. */
  predicate Stuck(t: Tree, agent: Agent) {
    !Exists(t, agent.skillsPath) && Blocked(t, agent.skillsPath)
  }

  /** Linking keeps the records and fails exactly when some agent's directory cannot be made when its turn comes. */
  lemma LinkAgentsOutcome(pr: Progress, canon: Path, agents: seq<Agent>)
    requires pr.failure.None?
    ensures LinkAgents(pr, canon, agents).failure.None? <==>
              forall i :: 0 <= i < |agents| ==> !Stuck(Reached(pr, canon, agents, i), agents[i])
  {
    assert agents[..|agents|] == agents;
    if forall i :: 0 <= i < |agents| ==> !Stuck(Reached(pr, canon, agents, i), agents[i]) {
      PrefixLinked(pr, canon, agents, |agents|);
    }
    if LinkAgents(pr, canon, agents).failure.None? {
      forall i | 0 <= i < |agents|
        ensures !Stuck(Reached(pr, canon, agents, i), agents[i])
      {
        PrefixStep(pr, canon, agents, i);
        LinkAgentStep(LinkAgents(pr, canon, agents[..i]), canon, agents[i]);
        if LinkAgents(pr, canon, agents[..i]).failure.Some? {
          LinkAgentsFailedAt(pr, canon, agents, i);
        } else if LinkAgents(pr, canon, agents[..i + 1]).failure.Some? {
          LinkAgentsFailedAt(pr, canon, agents, i + 1);
        }
      }
    }
  }

  /** The first `k` agents link without an error when none of their directories is stuck. */
  lemma {:induction false} PrefixLinked(pr: Progress, canon: Path, agents: seq<Agent>, k: int)
    requires pr.failure.None? && 0 <= k <= |agents|
    requires forall i :: 0 <= i < k ==> !Stuck(Reached(pr, canon, agents, i), agents[i])
    ensures LinkAgents(pr, canon, agents[..k]).failure.None?
    decreases k
  {
    if k > 0 {
      PrefixLinked(pr, canon, agents, k - 1);
      PrefixStep(pr, canon, agents, k - 1);
      LinkAgentStep(LinkAgents(pr, canon, agents[..k - 1]), canon, agents[k - 1]);
    } else {
      assert agents[..k] == [];
    }
  }

  /** The first `i + 1` agents are the first `i` and then agent `i`. */
  lemma PrefixStep(pr: Progress, canon: Path, agents: seq<Agent>, i: int)
    requires 0 <= i < |agents|
    ensures LinkAgents(pr, canon, agents[..i + 1]) == LinkAgent(LinkAgents(pr, canon, agents[..i]), canon, agents[i])
  {
    assert agents[..i + 1][..i] == agents[..i];
  }

  /** One agent's call keeps the records, and fails exactly when its directory cannot be made. */
  lemma LinkAgentStep(pr: Progress, canon: Path, agent: Agent)
    ensures LinkAgent(pr, canon, agent).skills == pr.skills
    ensures pr.failure.Some? ==> LinkAgent(pr, canon, agent) == pr
    ensures pr.failure.None? ==> (LinkAgent(pr, canon, agent).failure.None? <==> !Stuck(pr.tree, agent))
  {
  }

  /** The tree the `i`-th agent's call starts from. */
  function Reached(pr: Progress, canon: Path, agents: seq<Agent>, i: int): Tree
    requires 0 <= i <= |agents|
  {
    LinkAgents(pr, canon, agents[..i]).tree
  }

  /**
   * After a download: on success the call returns the number of skills
   * downloaded, and the lock holds the version, the time, the agents' ids in
   * order, the other keys it had, and as skills exactly the downloaded ones
   * (`installSkills`) or those it held followed by the downloaded ones
   * (`installSpecificSkills`). On an error the lock file is as it was. It
   * fails exactly when the download failed, an agent's directory could not
   * be made, or the lock holds a value that is not an object.
   */
  lemma FinishOutcome(d: Progress, lock: LockFileState, canon: Path, agents: seq<Agent>, now: string, update: LockUpdate)
    ensures var i := Finish(d, lock, canon, agents, now, update);
            (i.result.Ok? ==>
               d.failure.None? && ReadLock(lock).LockObject? && i.result.value == |d.skills| &&
               i.lock == Holds(LockObject(StoredLock(
                           Some(LockVersion), Some(now),
                           Some(if update == Replace then d.skills else SkillsOr(ReadLock(lock).lock) + d.skills),
                           Some(AgentIds(agents)), ReadLock(lock).lock.other)))) &&
            (i.result.Err? ==> i.lock == lock) &&
            (i.result.Err? <==> d.failure.Some? || LinkAgents(d, canon, agents).failure.Some? || ReadLock(lock).NotAnObject?)
  {
    LinkAgentsSkills(d, canon, agents);
    if d.failure.None? {
      LinkAgentsOutcome(d, canon, agents);
    }
  }

  /** A clone that fails stops the installation with that error, before any link is made or the lock is read. */
  lemma CloneFailureStops(t: Tree, lock: LockFileState, home: Path, cats: seq<string>, agents: seq<Agent>,
                          listings: seq<seq<Entry>>, now: string)
    requires |listings| == |cats| && EnsureCanonical(t, home).failure.None?
    ensures InstallAll(t, lock, home, cats, agents, CloneFails, listings, now) ==
            Installation(Download.Download(t, home, cats, CloneFails, listings).tree, lock, Err(CloneFailed))
  {
    CloneFailure(t, home, cats, listings);
  }

  /** The number an id starts with, read from its first two digits. */
  function Position(id: string): int
    requires |id| >= 2
  {
    (id[0] as int - '0' as int) * 10 + (id[1] as int - '0' as int)
  }

  /** The ids `getAllCategoryIds` returns are twenty, numbered 1 to 20 in order, so pairwise different. */
  lemma AllCategoryIdsDistinct()
    ensures |AllCategoryIds| == 20
    ensures forall i :: 0 <= i < 20 ==> |AllCategoryIds[i]| >= 2 && Position(AllCategoryIds[i]) == i + 1
    ensures Distinct(AllCategoryIds)
  {
    forall i | 0 <= i < 20
      ensures |AllCategoryIds[i]| >= 2 && Position(AllCategoryIds[i]) == i + 1
    {
      PositionAt(i);
    }
  }

  lemma PositionAt(i: int)
    requires 0 <= i < 20
    ensures |AllCategoryIds[i]| >= 2 && Position(AllCategoryIds[i]) == i + 1
  {
  }

  /** `getAllCategoryIds()` lists the ids of `CATEGORIES`, in the same order. */
  lemma AllCategoryIdsMatchCatalogue()
    ensures AllCategoryIds == CategoryIds(Categories)
  {
    forall i | 0 <= i < 20
      ensures AllCategoryIds[i] == Categories[i].id
    {
      IdAt(i);
    }
  }

  lemma IdAt(i: int)
    requires 0 <= i < 20
    ensures AllCategoryIds[i] == Categories[i].id
  {
  }

  // ---------------------------------------------------------------------------
  // The installations on the machine

  /** The loop over the agents on the machine's file system. */
  method LinkAgentsOnDisk(fs: FileSystem, canon: Path, agents: seq<Agent>, skills: seq<SkillRecord>)
    returns (failure: Option<InstallError>)
    modifies fs
    ensures Progress(fs.nodes, skills, failure) == LinkAgents(Progress(old(fs.nodes), skills, None), canon, agents)
  {
    ghost var start := Progress(fs.nodes, skills, None);
    failure := None;
    for i := 0 to |agents|
      invariant LinkAgents(start, canon, agents[..i]) == Progress(fs.nodes, skills, None)
    {
      assert agents[..i + 1][..i] == agents[..i];
      var count := CreateSymlinks(fs, canon, agents[i], skills);
      if count.Err? {
        failure := Some(count.error);
        LinkAgentsFailedAt(start, canon, agents, i + 1);
        return;
      }
    }
    assert agents[..|agents|] == agents;
  }

  lemma LinkAgentsFailedAt(pr: Progress, canon: Path, agents: seq<Agent>, i: int)
    requires 0 <= i <= |agents| && LinkAgents(pr, canon, agents[..i]).failure.Some?
    ensures LinkAgents(pr, canon, agents) == LinkAgents(pr, canon, agents[..i])
  {
    var mid := LinkAgents(pr, canon, agents[..i]);
    LinkAgentsAppend(pr, canon, agents[..i], agents[i..]);
    assert agents[..i] + agents[i..] == agents;
    LinkAgentsFailed(mid, canon, agents[i..]);
  }

  lemma {:induction false} LinkAgentsAppend(pr: Progress, canon: Path, a: seq<Agent>, b: seq<Agent>)
    ensures LinkAgents(pr, canon, a + b) == LinkAgents(LinkAgents(pr, canon, a), canon, b)
    decreases |b|
  {
    if b == [] {
      assert a + b == a;
    } else {
      var n := |b| - 1;
      assert (a + b)[..|a + b| - 1] == a + b[..n];
      LinkAgentsAppend(pr, canon, a, b[..n]);
    }
  }

  /** What the installations do after a download that succeeded with `skills`. */
  method FinishOnDisk(fs: FileSystem, store: LockStore, canon: Path, skills: seq<SkillRecord>, agents: seq<Agent>,
                      now: string, update: LockUpdate)
    returns (r: Result<nat, InstallError>)
    modifies fs, store
    ensures Installation(fs.nodes, store.file, r) == Finish(Progress(old(fs.nodes), skills, None), old(store.file), canon, agents, now, update)
  {
    var failure := LinkAgentsOnDisk(fs, canon, agents, skills);
    if failure.Some? {
      return Err(failure.value);
    }
    var read := store.Read();
    var updated := if update == Replace then Replaced(read, skills, agents, now) else Appended(read, skills, agents, now);
    if updated.Err? {
      return Err(updated.error);
    }
    store.Write(updated.value);
    r := Ok(|skills|);
  }

  /** `installSkills(categories, agents)` on the machine: `now` is the time it reads. */
  method InstallSkills(fs: FileSystem, store: LockStore, home: Path, cats: seq<string>, agents: seq<Agent>,
                       outcome: CloneOutcome, now: string)
    returns (r: Result<nat, InstallError>, ghost listings: seq<seq<Entry>>)
    modifies fs, store
    ensures |listings| == |cats| && DownloadFits(old(fs.nodes), home, cats, outcome, listings)
    ensures Installation(fs.nodes, store.file, r) == InstallAll(old(fs.nodes), old(store.file), home, cats, agents, outcome, listings, now)
  {
    var d;
    d, listings := DownloadSkills(fs, home, cats, outcome);
    ghost var dl := Download.Download(old(fs.nodes), home, cats, outcome, listings);
    if d.Err? {
      return Err(d.error), listings;
    }
    assert dl == Progress(fs.nodes, d.value, None);
    r := FinishOnDisk(fs, store, CanonicalDir(home), d.value, agents, now, Replace);
  }

  /** `installSpecificSkills(skillPaths, agents)` on the machine. */
  method InstallSpecificSkills(fs: FileSystem, store: LockStore, home: Path, keys: seq<string>, agents: seq<Agent>,
                               outcome: CloneOutcome, now: string)
    returns (r: Result<nat, InstallError>)
    modifies fs, store
    ensures Installation(fs.nodes, store.file, r) == InstallSome(old(fs.nodes), old(store.file), home, keys, agents, outcome, now)
  {
    var d := DownloadSpecificSkills(fs, home, keys, outcome);
    ghost var dl := DownloadSpecific(old(fs.nodes), home, keys, outcome);
    if d.Err? {
      return Err(d.error);
    }
    assert dl == Progress(fs.nodes, d.value, None);
    r := FinishOnDisk(fs, store, CanonicalDir(home), d.value, agents, now, Append);
  }
}
