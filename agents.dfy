/**
 * The coding agents the installer knows about, and their detection: an agent
 * counts as installed when its configuration directory exists in the home
 * directory.
 */
module Agents {
  import opened Outcomes
  import opened Text
  import opened FileTree

  /** One row of the table of supported agents. */
  datatype AgentSpec = AgentSpec(id: string, name: string, configDir: string, skillsDir: string)

  /** A detected agent: the row's fields plus where it lives on this machine. */
  datatype Agent = Agent(
    id: string, name: string, configDir: string, skillsDir: string,
    path: string,        // "~/" followed by the configuration directory, for display
    fullPath: Path,      // home/configDir
    skillsPath: Path)    // home/configDir/skillsDir

  const SupportedAgents: seq<AgentSpec> := [
    AgentSpec("claude", "Claude Code", ".claude", "skills"),
    AgentSpec("cursor", "Cursor", ".cursor", "skills"),
    AgentSpec("codex", "Codex", ".codex", "skills"),
    AgentSpec("gemini", "Gemini CLI", ".gemini", "skills"),
    AgentSpec("qwen", "Qwen Code", ".qwen", "skills")
  ]

  /** The record detection builds for a row whose configuration directory exists. */
  function Located(spec: AgentSpec, home: Path): (a: Agent)
    ensures a.id == spec.id && a.name == spec.name
    ensures a.configDir == spec.configDir && a.skillsDir == spec.skillsDir
    ensures a.path == "~/" + spec.configDir
    ensures a.fullPath == Join(home, spec.configDir)
    ensures a.skillsPath == Join(a.fullPath, spec.skillsDir)
  {
    var full := Join(home, spec.configDir);
    Agent(spec.id, spec.name, spec.configDir, spec.skillsDir, "~/" + spec.configDir, full, Join(full, spec.skillsDir))
  }

  /** For the shipped table the paths are home/.agent and home/.agent/skills. */
  lemma SupportedPaths(home: Path, i: int)
    requires 0 <= i < |SupportedAgents|
    ensures Located(SupportedAgents[i], home).fullPath == home + [SupportedAgents[i].configDir]
    ensures Located(SupportedAgents[i], home).skillsPath == home + [SupportedAgents[i].configDir, "skills"]
  {
    var spec := SupportedAgents[i];
    assert PlainName(spec.configDir) && spec.skillsDir == "skills" && PlainName("skills");
    JoinPlain(home, spec.configDir);
    JoinPlain(home + [spec.configDir], "skills");
    assert home + [spec.configDir] + ["skills"] == home + [spec.configDir, "skills"];
  }

  /**
   * The positions among the first `i` rows of `specs` whose home/configDir
   * exists: increasing, and holding a position exactly when its directory
   * exists.
   */
  function Rows(t: Tree, home: Path, specs: seq<AgentSpec>, i: nat): (rows: seq<nat>)
    requires i <= |specs|
    ensures |rows| <= i
    ensures forall k :: 0 <= k < |rows| ==> rows[k] < i
    ensures forall k, l :: 0 <= k < l < |rows| ==> rows[k] < rows[l]
    ensures forall j :: 0 <= j < i ==> (j in rows <==> Exists(t, Join(home, specs[j].configDir)))
    decreases i
  {
    if i == 0 then []
    else Rows(t, home, specs, i - 1) + (if Exists(t, Join(home, specs[i - 1].configDir)) then [i - 1] else [])
  }

  /** The records detection builds for the rows at `rows`. */
  function Records(home: Path, specs: seq<AgentSpec>, rows: seq<nat>): (d: seq<Agent>)
    requires forall k :: 0 <= k < |rows| ==> rows[k] < |specs|
    ensures |d| == |rows| && forall k :: 0 <= k < |rows| ==> d[k] == Located(specs[rows[k]], home)
  {
    seq(|rows|, k requires 0 <= k < |rows| => Located(specs[rows[k]], home))
  }

  /** The records of the rows of `specs` whose configuration directory exists, in table order. */
  function Detected(t: Tree, home: Path, specs: seq<AgentSpec>): seq<Agent> {
    Records(home, specs, Rows(t, home, specs, |specs|))
  }

  /** `detectAgents` */
  method DetectAgents(fs: FileSystem, home: Path) returns (detected: seq<Agent>)
    ensures detected == Detected(fs.nodes, home, SupportedAgents)
  {
    detected := DetectAmong(fs, home, SupportedAgents);
  }

  /** The detection loop over any table of rows. */
  method DetectAmong(fs: FileSystem, home: Path, specs: seq<AgentSpec>) returns (detected: seq<Agent>)
    ensures detected == Detected(fs.nodes, home, specs)
  {
    detected := [];
    for i := 0 to |specs|
      invariant detected == Records(home, specs, Rows(fs.nodes, home, specs, i))
    {
      DetectStep(fs.nodes, home, specs, i);
      var configPath := Join(home, specs[i].configDir);
      if Exists(fs.nodes, configPath) {
        detected := detected + [Located(specs[i], home)];
      }
    }
  }

  /** One step of the detection loop: a row adds its record exactly when its directory exists. */
  lemma DetectStep(t: Tree, home: Path, specs: seq<AgentSpec>, i: nat)
    requires i < |specs|
    ensures Records(home, specs, Rows(t, home, specs, i + 1)) ==
            Records(home, specs, Rows(t, home, specs, i)) +
              (if Exists(t, Join(home, specs[i].configDir)) then [Located(specs[i], home)] else [])
  {
    if Exists(t, Join(home, specs[i].configDir)) {
      RecordsSnoc(home, specs, Rows(t, home, specs, i), i);
    }
  }

  /** One more row adds its record at the end. */
  lemma RecordsSnoc(home: Path, specs: seq<AgentSpec>, rows: seq<nat>, i: nat)
    requires i < |specs| && forall k :: 0 <= k < |rows| ==> rows[k] < |specs|
    ensures Records(home, specs, rows + [i]) == Records(home, specs, rows) + [Located(specs[i], home)]
  {
    var d, e := Records(home, specs, rows + [i]), Records(home, specs, rows) + [Located(specs[i], home)];
    forall k | 0 <= k < |d|
      ensures d[k] == e[k]
    {
      if k < |rows| {
        assert (rows + [i])[k] == rows[k];
      }
    }
  }

  /** A row's record is detected exactly when the row's configuration directory exists. */
  lemma DetectedRow(t: Tree, home: Path, specs: seq<AgentSpec>, i: int)
    requires 0 <= i < |specs|
    ensures Located(specs[i], home) in Detected(t, home, specs) <==> Exists(t, Join(home, specs[i].configDir))
  {
    var rows := Rows(t, home, specs, |specs|);
    var d := Detected(t, home, specs);
    if Located(specs[i], home) in d {
      var k :| 0 <= k < |d| && d[k] == Located(specs[i], home);
      assert Located(specs[rows[k]], home).fullPath == Located(specs[i], home).fullPath;
      assert rows[k] in rows;
    }
    if Exists(t, Join(home, specs[i].configDir)) {
      assert i in rows;
      var k :| 0 <= k < |rows| && rows[k] == i;
      assert d[k] == Located(specs[i], home);
    }
  }

  /** The first row of `specs` with the given id. */
  function Find(specs: seq<AgentSpec>, id: string): (r: Option<AgentSpec>)
    ensures r.None? <==> forall i :: 0 <= i < |specs| ==> specs[i].id != id
    ensures r.Some? ==> exists i :: 0 <= i < |specs| && specs[i] == r.value && r.value.id == id &&
                                    forall j :: 0 <= j < i ==> specs[j].id != id
  {
    if specs == [] then None
    else if specs[0].id == id then Some(specs[0])
    else
      var r := Find(specs[1..], id);
      assert r.Some? ==> exists i :: 0 <= i < |specs[1..]| && specs[1..][i] == r.value && r.value.id == id &&
                                     forall j :: 0 <= j < i ==> specs[1..][j].id != id;
      assert r.Some? ==> exists i :: 0 <= i < |specs| && specs[i] == r.value && r.value.id == id &&
                                     forall j :: 0 <= j < i ==> specs[j].id != id by {
        if r.Some? {
          var i :| 0 <= i < |specs[1..]| && specs[1..][i] == r.value && r.value.id == id &&
                   forall j :: 0 <= j < i ==> specs[1..][j].id != id;
          assert specs[i + 1] == r.value;
          assert forall j :: 0 <= j < i + 1 ==> specs[j].id != id by {
            forall j | 0 <= j < i + 1 ensures specs[j].id != id {
              if j > 0 { assert specs[j] == specs[1..][j - 1]; }
            }
          }
        }
      }
      r
  }

  /** `getAgentById`: the supported agent with this id, or none. */
  function AgentById(id: string): (r: Option<AgentSpec>)
    ensures r.None? <==> forall i :: 0 <= i < |SupportedAgents| ==> SupportedAgents[i].id != id
    ensures r.Some? ==> r.value in SupportedAgents && r.value.id == id
  {
    Find(SupportedAgents, id)
  }

  /** `getSupportedAgentIds`: the ids in table order; no two are equal. */
  function SupportedAgentIds(): (ids: seq<string>)
    ensures |ids| == |SupportedAgents| == 5
    ensures forall i :: 0 <= i < |ids| ==> ids[i] == SupportedAgents[i].id
    ensures Distinct(ids)
  {
    seq(|SupportedAgents|, i requires 0 <= i < |SupportedAgents| => SupportedAgents[i].id)
  }

  /** Ids are unique in the table, so looking up a row's id finds that row. */
  lemma AgentByIdOfRow(i: int)
    requires 0 <= i < |SupportedAgents|
    ensures AgentById(SupportedAgents[i].id) == Some(SupportedAgents[i])
  {
    var ids := SupportedAgentIds();
    var r := AgentById(SupportedAgents[i].id);
    var k :| 0 <= k < |SupportedAgents| && SupportedAgents[k] == r.value && r.value.id == SupportedAgents[i].id;
    assert ids[k] == ids[i];
  }
}
