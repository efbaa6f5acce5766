/**
 * The lock file `~/.orchestra/.lock.json`: what is read from it, how an
 * installation updates it, and the object that holds it between calls.
 *
 * The JSON text is not modelled: the file is missing, unreadable or not
 * JSON, or holds a parsed value. A parsed value is an object with the four
 * keys the installer touches and any others, which it carries along, or a
 * value that is not an object (`null`, a number, a string, `true`), on which
 * the installer's property assignments throw.
 */
module Lock {
  import opened Outcomes
  import opened SkillStore
  import opened Agents

  /**
   * A lock object. A key that is absent or `null` is `None`; `skills` is
   * `None` also when it holds another falsy value, since `lock.skills || []`
   * treats these alike. `other` holds the remaining keys.
   */
  datatype StoredLock = StoredLock(
    version: Option<string>,
    installedAt: Option<string>,
    skills: Option<seq<SkillRecord>>,
    agents: Option<seq<string>>,
    other: map<string, string>)

  /** The value `JSON.parse` gives back. */
  datatype LockValue = LockObject(lock: StoredLock) | NotAnObject

  /** What sits at the lock file's path. */
  datatype LockFileState = NoLockFile | Unparsable | Holds(value: LockValue)

  /** The version every installation writes. */
  const LockVersion := "1.0.0"

  /** `{ version: null, installedAt: null, skills: [] }` */
  const ZeroLock := StoredLock(None, None, Some([]), None, map[])

  /**
   * `readLock`: the parsed contents, or the zero lock when the file is
   * missing or cannot be read or parsed. It never fails.
   */
  function ReadLock(f: LockFileState): (v: LockValue)
    ensures f.NoLockFile? || f.Unparsable? ==> v == LockObject(ZeroLock)
    ensures f.Holds? ==> v == f.value
    ensures v.LockObject? && !f.Holds? ==> v.lock.skills == Some([]) && v.lock.version.None? && v.lock.installedAt.None?
  {
    if f.Holds? then f.value else LockObject(ZeroLock)
  }

  /** `agents.map(a => a.id)` */
  function AgentIds(agents: seq<Agent>): (ids: seq<string>)
    ensures |ids| == |agents| && forall i :: 0 <= i < |agents| ==> ids[i] == agents[i].id
  {
    seq(|agents|, i requires 0 <= i < |agents| => agents[i].id)
  }

  /** `lock.skills || []` */
  function SkillsOr(l: StoredLock): seq<SkillRecord> {
    if l.skills.Some? then l.skills.value else []
  }

  /**
   * The assignments both installations make: version, time, agents, and the
   * new skill list; the other keys stay. On a value that is not an object the
   * first assignment throws.
   */
  function Stamped(v: LockValue, skills: seq<SkillRecord>, agents: seq<Agent>, now: string): Result<StoredLock, InstallError> {
    if v.NotAnObject? then Err(LockNotAnObject)
    else Ok(v.lock.(version := Some(LockVersion), installedAt := Some(now), skills := Some(skills), agents := Some(AgentIds(agents))))
  }

  /** The update `installSkills` makes: the skill list becomes exactly the new one. */
  function Replaced(v: LockValue, skills: seq<SkillRecord>, agents: seq<Agent>, now: string): (r: Result<StoredLock, InstallError>)
    ensures r.Err? <==> v.NotAnObject?
    ensures r.Err? ==> r.error == LockNotAnObject
    ensures r.Ok? ==> r.value == StoredLock(Some(LockVersion), Some(now), Some(skills), Some(AgentIds(agents)), v.lock.other)
  {
    Stamped(v, skills, agents, now)
  }

  /** The update `installSpecificSkills` makes: the new skills come after the old ones, which stay. */
  function Appended(v: LockValue, skills: seq<SkillRecord>, agents: seq<Agent>, now: string): (r: Result<StoredLock, InstallError>)
    ensures r.Err? <==> v.NotAnObject?
    ensures r.Err? ==> r.error == LockNotAnObject
    ensures r.Ok? ==> r.value == StoredLock(Some(LockVersion), Some(now), Some(SkillsOr(v.lock) + skills), Some(AgentIds(agents)), v.lock.other)
  {
    if v.NotAnObject? then Err(LockNotAnObject) else Stamped(v, SkillsOr(v.lock) + skills, agents, now)
  }

  // ---------------------------------------------------------------------------
  // Properties of the updates

  /** Replacing twice with the same list, agents and time is replacing once. */
  lemma ReplacedIdempotent(v: LockValue, skills: seq<SkillRecord>, agents: seq<Agent>, now: string)
    requires v.LockObject?
    ensures Replaced(LockObject(Replaced(v, skills, agents, now).value), skills, agents, now) == Replaced(v, skills, agents, now)
  {
  }

  /** Appending the same skills twice lists them twice: the lock keeps duplicates. */
  lemma AppendedTwice(v: LockValue, skills: seq<SkillRecord>, agents: seq<Agent>, now: string)
    requires v.LockObject?
    ensures SkillsOr(Appended(LockObject(Appended(v, skills, agents, now).value), skills, agents, now).value) ==
            SkillsOr(v.lock) + skills + skills
  {
    assert SkillsOr(v.lock) + skills + skills == (SkillsOr(v.lock) + skills) + skills;
  }

  /** On a freshly read lock from a missing or broken file, appending and replacing agree. */
  lemma AppendedToZero(f: LockFileState, skills: seq<SkillRecord>, agents: seq<Agent>, now: string)
    requires !f.Holds?
    ensures Appended(ReadLock(f), skills, agents, now) == Replaced(ReadLock(f), skills, agents, now)
  {
    assert [] + skills == skills;
  }

  /**
   * The lock file between calls. `Read` and `Write` are `readLock` and
   * `writeLock`; reading after writing gives back what was written.
   */
  class LockStore {
    var file: LockFileState

    constructor (initial: LockFileState)
      ensures file == initial
    {
      file := initial;
    }

    /** `readLock()` */
    method Read() returns (v: LockValue)
      ensures v == ReadLock(file)
    {
      if file.Holds? {
        v := file.value;
      } else {
        v := LockObject(ZeroLock);
      }
    }

    /** `writeLock(data)` */
    method Write(data: StoredLock)
      modifies this
      ensures file == Holds(LockObject(data))
      ensures ReadLock(file) == LockObject(data)
    {
      file := Holds(LockObject(data));
    }
  }
}
