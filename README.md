# ai-research-skills installer, modelled in Dafny

`@orchestra-research/ai-research-skills` is a command-line installer for a
library of research "skills". Each skill is a directory whose presence is
marked by a `SKILL.md` file. The installer:

- shallow-clones the skills repository into `~/.orchestra/.temp-clone`;
- copies the requested categories or `category/skill` keys into the
  canonical store `~/.orchestra/skills`;
- links every copied skill into the `skills` directory of each detected
  coding agent (Claude Code, Cursor, Codex, Gemini CLI, Qwen Code);
- records the installation in the lock file `~/.orchestra/.lock.json`.

It is driven by command-line options or by a guided wizard.

This project models that core. The model covers the skill synchronisation
engine (`installer.js`), the argument parser and the catalogue tables
(`prompts.js`), the entry point with its command mode and wizard
(`index.js`), and agent detection (`agents.js`). It proves what these
promise about their results.

## Layout

Each module has one file.

- `outcomes.dfy` (`Outcomes`): `Option` and `Result`.
- `text.dfy` (`Text`): the string operations the code relies on:
  - `split('/')` and joining it back;
  - `includes`;
  - ASCII `toLowerCase`;
  - the default code-unit order of `sort()`, with an insertion sort;
  - `[...new Set(xs)]`.
- `fs.dfy` (`FileTree`): the file system.
  - A tree is a map from paths, which are sequences of names, to `File`, `Dir` or `Link(target)`.
  - The tree has pure descriptions of `existsSync`, `mkdirSync({recursive})`, `rmSync({recursive, force})`, the `cp -r src/* dst/` merge, `symlinkSync`, `readdirSync({withFileTypes})` and `git clone`.
  - The class `FileSystem` holds the tree and changes it in place through methods specified by those descriptions.
- `store.dfy` (`SkillStore`): the store's paths, skill records, the error kinds, and `ensureCanonicalDir`.
- `download.dfy` (`Download`): `downloadSkills`, both as a function and as the looping method that changes the file system.
- `specific.dfy` (`SpecificDownload`): `downloadSpecificSkills`.
- `links.dfy` (`Links`): `createSymlinks`.
- `lock.dfy` (`Lock`): `readLock` and `writeLock`, the two lock updates, and a `LockStore` object holding the file.
- `installer.dfy` (`Installer`): `installSkills`, `installSpecificSkills`, `getAllCategoryIds`.
- `scan.dfy` (`Scan`): `listInstalledSkills` as a scan that returns `byCategory` and the total.
- `agents.dfy` (`Agents`): `SUPPORTED_AGENTS`, `detectAgents`, `getAgentById`, `getSupportedAgentIds`.
- `prompts.dfy` (`Prompts`): the tables `CATEGORIES`, `INDIVIDUAL_SKILLS` and `QUICK_START_SKILLS`, `getTotalSkillCount`, and `parseArgs`.
- `catalogue.dfy` (`Catalogue`): the consistency facts that hold between the three tables.
- `cli.dfy` (`Cli`): `main`, `commandMode`, and `interactiveFlow`.
  - `interactiveFlow` is a state machine fed by the answers to its prompts.
  - It is written twice over that machine: as a step function, and as the loop method.

Neither mode of `Cli` reaches the file system. Each produces the installer
calls it makes, as `Effect`s, and how it ends. The installer calls are
modelled in `Installer`.

Which things the environment supplies, and which are parameters:

| supplied by the environment | how the model takes it |
|---|---|
| the home directory | a parameter |
| the time stamp | an opaque string parameter |
| what `git clone` produces | a `CloneOutcome` parameter: failure, or a repository tree |
| the order `readdirSync` lists entries in | chosen by `FileSystem.ReadDir`, and handed back by the download methods as ghost listings |
| the prompts' answers | a sequence of `Answer`s |

## Behaviour of the code worth knowing

- `update`, from the command line or the menu, installs every category id. It does not rescan the store first.
- The menu's "Uninstall all skills" answer has no handler of its own. It falls through to the install choice, so nothing is ever uninstalled.
- `existsSync` follows a link. So a dangling link at a link path is neither removed nor replaced, and the `symlinkSync` that then fails is silently not counted.
- `installSpecificSkills` appends to the lock's skill list and keeps duplicates.
- `ensureCanonicalDir` runs before the clone, so a failing clone still leaves the two store directories created.
- Every copy goes into the store under the home directory. There is no project-local copy mode.

## Model

All source paths are under `packages/ai-research-skills/src/`.

| member | source | states |
|---|---|---|
| Lock.ReadLock | packages/ai-research-skills/src/installer.js:28-37 | A missing or unparsable lock file reads as `{version: null, installedAt: null, skills: []}`. A parsed value is returned as it is. Reading never fails. |
| Lock.LockStore.Read | packages/ai-research-skills/src/installer.js:28-37 | `readLock()` on the stored file returns exactly `ReadLock` of it. |
| Lock.LockStore.Write | packages/ai-research-skills/src/installer.js:42-44 | After `writeLock(data)`, the file holds `data`, and reading it back gives `data`. |
| Lock.AgentIds | packages/ai-research-skills/src/installer.js:285 | `agents.map(a => a.id)`: one id per agent, in order. |
| Lock.Replaced | packages/ai-research-skills/src/installer.js:281-286 | `installSkills` sets version `1.0.0`, the time, the agent ids, and a skill list equal to exactly the new records. It keeps the other keys. It fails exactly when the parsed value is not an object. |
| Lock.Appended | packages/ai-research-skills/src/installer.js:243-248 | Like `Replaced`, but the skill list becomes the old list (empty when the lock has none) followed by the new records. |
| Lock.ReplacedIdempotent | packages/ai-research-skills/src/installer.js:281-286 | Replacing twice with the same records, agents and time equals replacing once. |
| Lock.AppendedTwice | packages/ai-research-skills/src/installer.js:246 | Appending the same records twice lists them twice: duplicates are kept. |
| Lock.AppendedToZero | packages/ai-research-skills/src/installer.js:243-248 | On a lock read from a missing or broken file, appending and replacing give the same lock. |
| SkillStore.MakeIfMissing | packages/ai-research-skills/src/installer.js:17-19 | An existing path leaves the tree unchanged. Otherwise it fails exactly when a prefix is not a directory; on success every prefix is a directory and nothing already there changes. |
| SkillStore.EnsureCanonical | packages/ai-research-skills/src/installer.js:15-23 | The store exists afterwards unless a prefix of it is not a directory. Only directories on the store's path are added. When both directories exist it changes nothing. |
| SkillStore.EnsureCanonicalDir | packages/ai-research-skills/src/installer.js:15-23 | The method changes the file system exactly as `EnsureCanonical` describes. |
| SkillStore.Cleanup | packages/ai-research-skills/src/installer.js:109-111 | After the error-path removal, nothing exists at the temp path, and everything outside it is unchanged. |
| SkillStore.StoreAndTempApart | packages/ai-research-skills/src/installer.js:69-72 | The temp directory and a category's place in the store never contain one another. Neither do a category's place in the clone and its place in the store, nor its place in the clone and a skill's place in the store. |
| Download.DownloadSkills | packages/ai-research-skills/src/installer.js:49-114 | The method's new file system and its result (records, or the rethrown error) are exactly those of the function `Download` on the listings it read. When it succeeds after a successful clone, with plain category ids and no link below the requested categories of the repository, the records are exactly `RepoRecords` of the repository. |
| Download.DownloadRecords | packages/ai-research-skills/src/installer.js:49-114 | For a download that succeeds, with plain category ids and no link below the requested categories of the cloned repository, the records come in the order requested. Each category contributes what `RepoContribution` of the repository says. The listing read for a nested category is a listing of that directory of the repository. |
| Download.CopiedRecords | packages/ai-research-skills/src/installer.js:68-102 | When the repository sits at the temp directory, with plain ids and no link below the requested categories, a category loop that succeeds returns exactly `RepoRecords` of the repository. |
| Download.RepoContributionMeaning | packages/ai-research-skills/src/installer.js:70-100 | A category the repository lacks contributes nothing. One with `SKILL.md` at its root contributes the one standalone record `(category, category, true)`. Otherwise, for a listing of it, there is one nested record of the category for each sub-directory holding `SKILL.md`, none for any other name, and no name twice. |
| Download.CopyCategoriesRecords | packages/ai-research-skills/src/installer.js:68-102 | With plain ids and no link below any requested category of the clone, the category loop's records are the records before it followed by each category's contribution, read off the clone as it was before the loop. The loop's writes to the store never reach the clone. |
| Download.PlacedContribution | packages/ai-research-skills/src/installer.js:70-100 | A category read off the repository placed at the temp directory contributes exactly `RepoContribution` of the repository. |
| Download.CopyCategoriesOnDisk | packages/ai-research-skills/src/installer.js:68-102 | The loop over the categories equals `CopyCategories` over the listings it read. It stops at the first error. |
| Download.CopyCategoryOnDisk | packages/ai-research-skills/src/installer.js:69-101 | One category: skipped when absent; its store directory is made; then it is copied as a standalone skill or as nested skills. |
| Download.CopyNestedOnDisk | packages/ai-research-skills/src/installer.js:86-100 | The loop over a nested category's entries equals `CopySkills`. |
| Download.CopySkillOnDisk | packages/ai-research-skills/src/installer.js:88-98 | One entry: when it is a directory holding `SKILL.md`, its store directory is made, it is merged in, and one nested record is pushed. |
| Download.PrepareClone | packages/ai-research-skills/src/installer.js:50-63 | The store is ensured, the old clone is removed, and then the clone runs. |
| Download.CategoryRecords | packages/ai-research-skills/src/installer.js:70-100 | For a category of the clone with no link below it, whose clone and store places are apart: an absent category adds nothing. A category with `SKILL.md` at its root adds exactly one standalone record `(category, category, true)`, whatever sub-directories it has. Otherwise it adds the nested records of its listing. |
| Download.SkillEntriesMeaning | packages/ai-research-skills/src/installer.js:86-100 | For a listing of a category with no link below it, the nested records of the category are `(category, name, false)`, one for each immediate sub-directory holding `SKILL.md` and no other. There are no repeats. |
| Download.CopySkillsRecords | packages/ai-research-skills/src/installer.js:86-100 | When the category has no link below it and is apart from its store place, a nested category's loop pushes exactly its skill entries' records, in listing order, and leaves the category's clone unchanged. |
| Download.NestedFrom | packages/ai-research-skills/src/installer.js:87-98 | Every nested record names an accepted entry of its category. |
| Download.NestedComplete | packages/ai-research-skills/src/installer.js:87-98 | Every accepted entry has a record. |
| Download.NestedDistinct | packages/ai-research-skills/src/installer.js:87-98 | Entries with distinct names give records with distinct skills. |
| Download.DownloadShaped | packages/ai-research-skills/src/installer.js:68-102 | Every record belongs to a requested category, and a standalone record's skill is its category. |
| Download.DownloadRemovesClone | packages/ai-research-skills/src/installer.js:104-113 | On success nothing below the temp directory is left. On failure no records are returned, and the temp directory is gone once the store could be made. |
| Download.CloneFailure | packages/ai-research-skills/src/installer.js:56-63 | A failing clone rethrows the clone error. It copies nothing into the store: the tree is the one after `ensureCanonicalDir`, less the temp directory. |
| Download.DownloadKeeps | packages/ai-research-skills/src/installer.js:82 | Only the store and the temp directory change. Every other path, and every path of the store, survives: copies merge and never delete. |
| Download.CopyCategoriesAppend | packages/ai-research-skills/src/installer.js:68 | Copying a concatenation of categories equals copying the first part and then the second. |
| Download.CopyCategoriesFailed | packages/ai-research-skills/src/installer.js:108-112 | After an error, the remaining categories do nothing. |
| SpecificDownload.ParseKey | packages/ai-research-skills/src/installer.js:177-179 | The category is the first segment, and the skill is the second when it is non-empty. Neither holds a `/`. |
| SpecificDownload.KeyOfCategory | packages/ai-research-skills/src/installer.js:177-179 | A key without `/` is a standalone key. |
| SpecificDownload.KeyOfSkill | packages/ai-research-skills/src/installer.js:177-179 | `c/s` parses to category `c` and skill `s`; an empty `s` parses as standalone. |
| SpecificDownload.KeyIgnoresRest | packages/ai-research-skills/src/installer.js:177-179 | Segments after the second are ignored. |
| SpecificDownload.RecordOf | packages/ai-research-skills/src/installer.js:196-204 | A skill key gives `(category, skill, false)`, and a category key gives `(category, category, true)`. |
| SpecificDownload.KeyRecords | packages/ai-research-skills/src/installer.js:181-206 | The category directory is made even when the source is absent. A record is pushed exactly when the source exists; there is no `SKILL.md` check. |
| SpecificDownload.KeyAdds | packages/ai-research-skills/src/installer.js:175-207 | A key adds no record or exactly its own record. |
| SpecificDownload.CopyKeysRecords | packages/ai-research-skills/src/installer.js:175-207 | The loop pushes at most one record per key, each the record of some key, after the records already there. |
| SpecificDownload.SpecificRecords | packages/ai-research-skills/src/installer.js:156-219 | There are at most as many records as keys, and each is the record of a key. |
| SpecificDownload.SpecificRemovesClone | packages/ai-research-skills/src/installer.js:209-218 | The temp directory is gone on success and, once the store could be made, on failure. A failure returns no records. A failing clone rethrows the clone error. |
| SpecificDownload.DownloadSpecificSkills | packages/ai-research-skills/src/installer.js:156-219 | The method's file system and result are exactly those of `DownloadSpecific`. When it succeeds after a successful clone, with keys of plain names and no link at any key's source, the records are exactly `KeptKeys` of the repository: in key order, the record of each key whose source the repository holds. |
| SpecificDownload.SpecificKept | packages/ai-research-skills/src/installer.js:156-219 | A run that succeeds after a successful clone of a repository, with keys of plain names and no link at any key's source, returns exactly `KeptKeys` of the repository. |
| SpecificDownload.CopyKeysKept | packages/ai-research-skills/src/installer.js:175-207 | The key loop over the placed repository pushes the records before it followed by `KeptKeys`, and the clone is still in place afterwards. |
| SpecificDownload.KeyKept | packages/ai-research-skills/src/installer.js:176-206 | One key adds its record exactly when the repository holds its source, and changes nothing below the temp directory. |
| SpecificDownload.KeptKeysAll | packages/ai-research-skills/src/installer.js:175-206 | When the repository holds every key's source, there is one record per key, the record of that key, in key order. |
| SpecificDownload.KeptKeysNone | packages/ai-research-skills/src/installer.js:175-206 | When the repository holds no key's source, nothing is kept. |
| SpecificDownload.KeptKeysAppend | packages/ai-research-skills/src/installer.js:175 | The kept records of a concatenation of keys are those of each part, in order; a key given twice is kept twice. |
| SpecificDownload.CopyKeysOnDisk | packages/ai-research-skills/src/installer.js:175-207 | The loop over the keys equals `CopyKeys`. |
| SpecificDownload.CopyKeyOnDisk | packages/ai-research-skills/src/installer.js:176-206 | One key equals `CopyParsed` of its parsed form. |
| Links.CreateSymlinks | packages/ai-research-skills/src/installer.js:119-151 | The method fails exactly when the agent directory cannot be made, and then changes nothing. Otherwise its tree and its count are those of `Linked`. |
| Links.LinkedBound | packages/ai-research-skills/src/installer.js:127-150 | `0 <= linkedCount <= skills.length`. |
| Links.LinkOneMade | packages/ai-research-skills/src/installer.js:142-147 | A step counts one exactly when it makes the link, which points at `CANONICAL/category[/skill]`. A failed link adds no path and is not counted. |
| Links.DanglingLinkStays | packages/ai-research-skills/src/installer.js:138-147 | A dangling link at the link path does not exist for `existsSync`. It is not removed, the link is not made, and nothing changes. |
| Links.ExistingEntryReplaced | packages/ai-research-skills/src/installer.js:138-144 | When something exists at a plain link name in the agent directory, it is replaced by the link, and the link is counted. |
| Links.LinksAllMade | packages/ai-research-skills/src/installer.js:129-148 | With plain, distinct link names, and a replaceable entry at each, every link is made: the count is the number of skills, each link points at its skill, and nothing outside the links changes. |
| Links.LinkOfSkill | packages/ai-research-skills/src/installer.js:130-143 | Under the same conditions, the link of skill `i` is named after the category (standalone) or the skill, and points at its store path. |
| Links.AgentDirAfterwards | packages/ai-research-skills/src/installer.js:122-125 | The agent's directory is a directory afterwards, when it was one or was missing and the link names are plain. |
| Links.LinkAllBound | packages/ai-research-skills/src/installer.js:129-148 | Each skill adds at most one to the count. |
| Installer.InstallSkills | packages/ai-research-skills/src/installer.js:260-293 | The method's file system, lock file and result are exactly those of `InstallAll` on the listings it read. |
| Installer.InstallSpecificSkills | packages/ai-research-skills/src/installer.js:224-255 | The method's file system, lock file and result are exactly those of `InstallSome`. |
| Installer.FinishOnDisk | packages/ai-research-skills/src/installer.js:272-288 | Linking every agent and then updating the lock equals `Finish`. |
| Installer.LinkAgentsOnDisk | packages/ai-research-skills/src/installer.js:272-276 | The loop over the agents equals `LinkAgents`. |
| Installer.FinishOutcome | packages/ai-research-skills/src/installer.js:281-288 | On success, the result is `skills.length`, and the lock holds version `1.0.0`, the time, the new list (replaced or appended), the agent ids and the other keys. On failure, the lock file is unchanged. It fails exactly when the download failed, an agent could not be linked, or the lock is not an object. |
| Installer.LinkAgentsOutcome | packages/ai-research-skills/src/installer.js:272-276 | Linking fails exactly when some agent's directory cannot be made when its turn comes. |
| Installer.LinkAgentStep | packages/ai-research-skills/src/installer.js:273 | Linking one agent keeps the records, does nothing after an error, and fails exactly when that agent is stuck. |
| Installer.CloneFailureStops | packages/ai-research-skills/src/installer.js:289-292 | When the clone fails, `installSkills` rethrows the clone error and leaves the lock file as it was. |
| Installer.AllCategoryIdsDistinct | packages/ai-research-skills/src/installer.js:368-391 | `getAllCategoryIds` lists 20 ids; id `k` starts with the number `k + 1`, so no two are equal. |
| Installer.AllCategoryIdsMatchCatalogue | packages/ai-research-skills/src/installer.js:368-391 | The ids, in order, are those of `CATEGORIES`. |
| Scan.ListInstalledSkills | packages/ai-research-skills/src/installer.js:298-343 | A missing store gives nothing installed, and a store that is not a directory node (a link to a directory included) gives `Err`. Otherwise the categories are the store's directories in sorted order. A standalone one lists itself; a nested one lists its sorted `SKILL.md` sub-directories; one with none is omitted. The total is the sum of the list lengths. |
| Scan.ScanCategories | packages/ai-research-skills/src/installer.js:324-343 | The loop over sorted categories keeps exactly the shown ones, in order, each with its group, and sums their lengths. |
| Scan.ScanCategory | packages/ai-research-skills/src/installer.js:328-342 | One category's list is `[category]` when it is standalone, or else its sorted skill directories. The list is empty exactly when the category is not shown. |
| Scan.DescribesUnique | packages/ai-research-skills/src/installer.js:308-343 | The report depends only on the store's contents, not on the order the entries are listed in. |
| Scan.StandaloneCountsOne | packages/ai-research-skills/src/installer.js:330-332 | A standalone category contributes `[category]`, which counts 1. |
| Scan.TotalAtLeastGroups | packages/ai-research-skills/src/installer.js:338-341 | Every listed category has a skill, so the total is at least the number of categories. |
| Scan.NamesWhere | packages/ai-research-skills/src/installer.js:309-311 | `filter(...).map(d => d.name)` keeps exactly the names of the accepted entries, without repeats. |
| Text.SortStrings | packages/ai-research-skills/src/installer.js:311 | `sort()`: the result is sorted and a permutation of the input. |
| Text.SortedPermutationOfDistinct | packages/ai-research-skills/src/installer.js:336 | Sorting distinct names gives a strictly increasing sequence with the same elements. |
| Text.StrictlySortedUnique | packages/ai-research-skills/src/installer.js:309-311 | Two strictly increasing sequences with the same elements are equal. |
| Text.Split | packages/ai-research-skills/src/installer.js:177 | `split('/')` gives at least one piece, and no piece holds the separator. |
| Text.GlueSplit | packages/ai-research-skills/src/installer.js:177 | Joining the pieces of a split gives back the string. |
| Text.SplitGlue | packages/ai-research-skills/src/installer.js:177 | Splitting separator-free pieces that were joined gives back the pieces. |
| Text.ContainsIffOccurs | packages/ai-research-skills/src/index.js:249 | `includes` holds exactly when the term occurs at some position. |
| Text.ToLower | packages/ai-research-skills/src/index.js:249 | `toLowerCase` maps each character and keeps the length. |
| Text.Dedup | packages/ai-research-skills/src/index.js:117 | `[...new Set(xs)]` has no repeats and has the same elements. |
| Text.DedupOrder | packages/ai-research-skills/src/index.js:117 | It keeps the elements in the order of their first occurrences. |
| FileTree.JoinPlain | packages/ai-research-skills/src/installer.js:135 | `path.join` with a plain name appends that name. |
| FileTree.MakeDirs | packages/ai-research-skills/src/installer.js:18 | `mkdirSync({recursive: true})` fails exactly when a prefix is not a directory. Otherwise it adds only directories on the path, and every prefix is a directory. |
| FileTree.RemoveTree | packages/ai-research-skills/src/installer.js:57 | `rmSync({recursive, force})` removes exactly the path and what is below it. |
| FileTree.Merge | packages/ai-research-skills/src/installer.js:82 | `cp -r src/* dst/` overwrites with what the source's visible entries hold. Every other path survives. |
| FileTree.MergeCopies | packages/ai-research-skills/src/installer.js:82 | Every path below a visible entry of the source arrives under the destination. |
| FileTree.Copy | packages/ai-research-skills/src/installer.js:82 | The copy succeeds exactly when the source is a directory with a visible entry and the destination is a directory. |
| FileTree.Graft | packages/ai-research-skills/src/installer.js:61-63 | A successful clone puts the repository tree at the temp path and changes nothing else. |
| FileTree.FileSystem.MakeDirectory | packages/ai-research-skills/src/installer.js:18 | In place: the tree becomes `MakeDirs`, or is unchanged on error. |
| FileTree.FileSystem.Remove | packages/ai-research-skills/src/installer.js:57 | In place: the tree becomes `RemoveTree`. |
| FileTree.FileSystem.CopyContents | packages/ai-research-skills/src/installer.js:82 | In place: the tree becomes `Merge` on success, or is unchanged on error. |
| FileTree.FileSystem.Symlink | packages/ai-research-skills/src/installer.js:143 | The link is made exactly when nothing is at the path and its parent is a directory. |
| FileTree.FileSystem.ReadDir | packages/ai-research-skills/src/installer.js:86 | It lists each entry of a directory once, each with its `isDirectory()`, and throws on anything else. |
| FileTree.FileSystem.Clone | packages/ai-research-skills/src/installer.js:61-63 | The clone succeeds exactly when it produces a tree and the temp path is free. |
| Agents.Located | packages/ai-research-skills/src/agents.js:53-60 | A detected agent keeps the row's fields and adds `path = "~/" + configDir`, `fullPath = home/configDir`, `skillsPath = home/configDir/skillsDir`. |
| Agents.SupportedPaths | packages/ai-research-skills/src/agents.js:9-40 | For every supported row, `fullPath` is `home + [configDir]` and `skillsPath` is `home + [configDir, "skills"]`. |
| Agents.DetectAgents | packages/ai-research-skills/src/agents.js:46-64 | The method returns `Detected` of the file system. |
| Agents.Rows | packages/ai-research-skills/src/agents.js:50-61 | The rows kept are exactly those whose config directory exists, in increasing order, and at most as many as examined. |
| Agents.Records | packages/ai-research-skills/src/agents.js:54-59 | One located agent per kept row, in order. |
| Agents.DetectedRow | packages/ai-research-skills/src/agents.js:50-61 | A supported agent is detected exactly when its config directory exists. |
| Agents.DetectStep | packages/ai-research-skills/src/agents.js:50-61 | One loop step appends the row's agent exactly when its directory exists. |
| Agents.Find | packages/ai-research-skills/src/agents.js:72 | `find` returns the first row with the id, or none exactly when no row has it. |
| Agents.AgentById | packages/ai-research-skills/src/agents.js:71-73 | `getAgentById` returns a supported agent with that id, or null exactly when there is none. |
| Agents.AgentByIdOfRow | packages/ai-research-skills/src/agents.js:71-73 | Looking up a row's id finds that row. |
| Agents.SupportedAgentIds | packages/ai-research-skills/src/agents.js:79-81 | `getSupportedAgentIds` returns the 5 ids in table order, and no two are equal. |
| Prompts.TotalSkillCount | packages/ai-research-skills/src/prompts.js:90-92 | `getTotalSkillCount` is the sum of `skills` over `CATEGORIES`, which is 84. |
| Prompts.SkillSumOfCatalogue | packages/ai-research-skills/src/prompts.js:7-28 | The table's skill counts add up to 84. |
| Prompts.SkillSumAppend | packages/ai-research-skills/src/prompts.js:91 | The fold over a concatenation is the sum of the folds. |
| Prompts.CategoryIds | packages/ai-research-skills/src/prompts.js:7-28 | The ids of the categories, in order. |
| Prompts.ParseArgs | packages/ai-research-skills/src/prompts.js:499-528 | The method's result is `Parsed(args)`, the record `ParsedMeaning` characterises. |
| Prompts.ScanArgument | packages/ai-research-skills/src/prompts.js:509-525 | One step of the loop. The index advances by two after a value flag, and by one otherwise. It stays within bounds and never lands on a consumed value. The record afterwards is that of the arguments scanned so far. |
| Prompts.ParsedMeaning | packages/ai-research-skills/src/prompts.js:499-528 | The rules of the parse: (1) the last command word wins; (2) `--all` or `-a` anywhere sets `all`; (3) `--agent` and `--category` take the next argument only when it is non-empty, that value is never scanned as a command or skill, and the last one wins; (4) the skill is the last plain word scanned while no command has been seen; (5) each option is null exactly when no argument sets it. |
| Prompts.CommandBeforeMeaning | packages/ai-research-skills/src/prompts.js:523 | "Some command was seen" holds exactly when a command word is scanned earlier. |
| Prompts.ValueFollows | packages/ai-research-skills/src/prompts.js:519-522 | A value flag that is scanned has its value next, and that value is consumed. |
| Prompts.LastMeaning | packages/ai-research-skills/src/prompts.js:508-525 | The last position that sets a field is found, and it is none exactly when no position sets it. |
| Catalogue.IndividualsUnderCategories | packages/ai-research-skills/src/prompts.js:33-65 | The first segment of every `INDIVIDUAL_SKILLS` id is a `CATEGORIES` id. |
| Catalogue.QuickStartOffered | packages/ai-research-skills/src/prompts.js:70-85 | Every `QUICK_START_SKILLS` entry is an `INDIVIDUAL_SKILLS` id. |
| Catalogue.SegmentOf | packages/ai-research-skills/src/index.js:117 | The first segment of `c/rest` is `c`. |
| Cli.ModeOfArguments | packages/ai-research-skills/src/index.js:271-282 | `main` runs the wizard exactly when no argument sets a command, `--all` or a category, and no non-empty skill term is given. Otherwise it runs the command mode. |
| Cli.NoArgumentsStartWizard | packages/ai-research-skills/src/index.js:276-281 | With no arguments, `main` runs the wizard. |
| Cli.AgentIgnored | packages/ai-research-skills/src/index.js:216-266 | `--agent` changes neither the mode nor what the command mode does. |
| Cli.FindCategory | packages/ai-research-skills/src/index.js:248-250 | The first category whose id contains the term, or whose lowercased name contains the lowercased term. None exactly when no category matches. |
| Cli.MatchMeansOccurrence | packages/ai-research-skills/src/index.js:249 | A match is an occurrence of the term in the id, or of the lowercased term in the lowercased name. |
| Cli.CommandCategoriesMeaning | packages/ai-research-skills/src/index.js:242-259 | The categories: with `all`, every category id; else with `category`, `[category]`; else with a skill term, `[id]` of the first match, or nothing when none matches; else every category id. |
| Cli.CommandOutcome | packages/ai-research-skills/src/index.js:216-266 | `list` wins over every other option. Without agents nothing is installed. `update` installs every id with every detected agent. Otherwise there is exactly one `installSkills` of the resolved categories with every agent, or no installation when the skill term matches nothing. |
| Cli.QuickStartCategories | packages/ai-research-skills/src/index.js:117 | The quick-start categories are the distinct first segments of `QUICK_START_SKILLS`. |
| Cli.QuickStartOrder | packages/ai-research-skills/src/index.js:117 | They come in the order of first appearance. |
| Cli.QuickStartCategoriesInCatalogue | packages/ai-research-skills/src/index.js:117 | Each is a `CATEGORIES` id. |
| Cli.FirstSegments | packages/ai-research-skills/src/index.js:117 | `map(s => s.split('/')[0])`. |
| Cli.SelectedCategories | packages/ai-research-skills/src/index.js:134-135 | `CATEGORIES.filter(c => categories.includes(c.id))` keeps exactly the selected categories. |
| Cli.SelectionCountsOnce | packages/ai-research-skills/src/index.js:134-136 | Only which ids are selected matters to the skill count: an id selected twice counts once. |
| Cli.SelectingAllCountsAll | packages/ai-research-skills/src/index.js:134-136 | Selecting every category counts every skill. |
| Cli.PickerAnswer | packages/ai-research-skills/src/prompts.js:258-296 | A non-empty selection confirms. An empty one gives `{[], action}`, with `retry` or `back` as the follow-up chose. The same holds for `askIndividualSkills`, at prompts.js:302-340. |
| Cli.AgentAnswer | packages/ai-research-skills/src/prompts.js:412-473 | `back` goes back. `all` confirms the detected agents. A chosen non-empty subset confirms that subset. An empty subset gives `{agents: [], action}`, with `retry` or `back`. |
| Cli.OfferedEverything | packages/ai-research-skills/src/index.js:113-115 | "Everything" is every catalogue id, and its count is the skill count of that selection, 84. |
| Cli.OfferedQuickStart | packages/ai-research-skills/src/index.js:116-118 | The quick-start categories have no repeats and lie in the catalogue; the count is 14. |
| Cli.InstallOnlyWhenConfirmed | packages/ai-research-skills/src/index.js:177-203 | An answer installs exactly when it answers the confirmation with neither `exit` nor `back`. It then installs the selection with the chosen agents, and the wizard ends. |
| Cli.InstallationChoice | packages/ai-research-skills/src/index.js:196-203 | `installSpecificSkills` is called exactly when skills were selected; otherwise `installSkills` of the categories is called. |
| Cli.MainMenuAnswers | packages/ai-research-skills/src/index.js:55-101 | `exit` ends. `view` lists. `update` installs every category with every agent. Any other answer, `uninstall` included, goes to the install choice. |
| Cli.Navigation | packages/ai-research-skills/src/index.js:126-170 | `back` on the category, skill or agent picker returns to the install choice. `retry` stays on the same picker. |
| Cli.BackFromConfirmation | packages/ai-research-skills/src/index.js:184-186 | `back` on the confirmation returns to the agent picker. |
| Cli.BackFromInstallChoice | packages/ai-research-skills/src/index.js:103-105 | `back` on the install choice returns to the main menu. |
| Cli.PresetChoices | packages/ai-research-skills/src/index.js:107-118 | "everything" and "quickstart" go straight to the agent picker with their categories and counts, and no skills. The pickers start with an empty selection. No choice installs anything. |
| Cli.PickedSelections | packages/ai-research-skills/src/index.js:133-173 | A confirmed category pick sets the categories and their skill count. A confirmed skill pick sets the skills and their number. A confirmed agent pick sets the targets and moves to the confirmation. |
| Cli.NoAgentsNoPrompt | packages/ai-research-skills/src/index.js:47-52 | With no detected agent, the wizard ends before any prompt and installs nothing. |
| Cli.StepShape | packages/ai-research-skills/src/index.js:55-209 | One answer causes at most one installer call. The wizard finishes exactly when that call is an installation; any other call is a menu view or update. |
| Cli.WalkShape | packages/ai-research-skills/src/index.js:55-209 | Along any answers: the session finishes exactly when its last call is an installation, and every earlier call is a view or update. |
| Cli.FlowShape | packages/ai-research-skills/src/index.js:32-211 | The same holds for `interactiveFlow` from its start. |
| Cli.InteractiveFlow | packages/ai-research-skills/src/index.js:32-211 | The loop method with its screen, `installType`, `categories`, `selectedSkills`, `skillCount` and `targetAgents` produces exactly the session `Flow` describes. |
| Cli.Converse | packages/ai-research-skills/src/index.js:55-209 | The loop from the main menu produces exactly `Walk`. |
| Cli.Respond | packages/ai-research-skills/src/index.js:55-209 | The loop body's update of the locals is exactly `Step`. |
| Cli.AfterAppend | packages/ai-research-skills/src/index.js:55-209 | Calls made one after another concatenate. |

## Left out

- `ascii.js` and `bin/cli.js` are not part of this model: they are banner output and process glue.
- The network transfer of `git clone` and the quoting of the `cp -r` and `git` shell strings are left out. The clone is a parameter (failure, or a repository tree), and `cp -r src/* dst/` is the merge `FileTree.Merge`.
- inquirer rendering, chalk colours, ora spinner text, padding, the confirmation screen (`askConfirmation` only displays), `console.log` output and `sleep` are left out. They do not change state.
- `homedir()` is a parameter. `new Date().toISOString()` is an opaque string parameter.
- The JSON text of the lock file is not modelled. A file is missing, unparsable, or holds a parsed value. A parsed value is an object with the four keys and others, or a value that is not an object.
- Lock.ReadLock: JSON arrays and a `skills` that is truthy but not a list are not distinguished. A falsy `skills` reads as absent.
- Lock.LockStore.Write: `writeFileSync` failures are not modelled; writing always succeeds.
- FileTree.Exists is the only operation that follows a link, and only as the last step of a path; a link to a link counts as dangling. FileTree.MakeDirs, FileTree.Copy, FileTree.FileSystem.ReadDir and Scan.ListInstalledSkills never follow a link, and no operation resolves a link in the middle of a path. The real calls do follow such links. So in the model:
  - a store that is a link to a directory makes Scan.ListInstalledSkills return `Err`;
  - an agent's config directory (such as `~/.claude`) that is a link to a directory makes Links.Linked fail with `FsFailed`, because `mkdirSync` meets a prefix that is not a directory;
  - a category of the clone that is a link to a directory fails the download with `NotADirectory`.
- SpecificDownload.SpecificKept, SpecificDownload.CopyKeysKept and SpecificDownload.KeyKept require the keys' category and skill parts to be plain names and the repository's entry at each key's source to be no link, and SpecificDownload.DownloadSpecificSkills states its records only under that condition. A key part `..` would make the copy land outside the store, and a source that is a link exists or not depending on its target. The only caller passes `INDIVIDUAL_SKILLS` ids, all of plain names.
- Download.CategoryRecords, Download.SkillEntriesMeaning, Download.CopySkillsRecords, Download.CopyCategoriesRecords and Download.DownloadRecords require that there be no link below the category read, and Download.DownloadSkills states its records only under that condition. With links, `FileTree.Exists` and `Dirent.isDirectory()` can disagree about an entry, and those lemmas do not cover that case.
- `cp -r` over an entry of a different kind (a directory copied over a file) overwrites it the way a single map update does. It does not fail the way the real `cp` may.
- Scan.ListInstalledSkills: it returns the report instead of printing it. It requires the store's entry names to be plain names (neither `.` nor `..` nor containing `/`), which every real directory listing satisfies.
- Links.LinksAllMade: it requires plain link names. A skill named `..` would make `rmSync` remove the agent directory's parent; that behaviour is modelled by `Links.LinkOne` but no property is proved about it.
- Text.ToLower: only ASCII letters are folded. The Unicode case mapping of `toLowerCase` is not modelled.
- Text.SortStrings: the default `sort()` compares UTF-16 code units. The model compares characters, which agrees whenever the names have no characters outside the Basic Multilingual Plane.
- The order of `Object.entries(byCategory)` is not modelled: the report is an ordered list of pairs.
- Cli.InteractiveFlow: exceptions are not followed. The wizard records each installer call as an `Effect`, and `Installer.InstallSkills`, `Installer.InstallSpecificSkills` and `Scan.ListInstalledSkills` model what that call does. When `installSkills` or `installSpecificSkills` throws during the wizard (index.js:190-203), the program ends, as the model's session does after an installation. When `listInstalledSkills` throws from `view` (index.js:69), or `installSkills` throws from the menu's `update` (index.js:85), the program also ends, while `Cli.Step` and `Cli.MainMenuAnswers` record the call and go on to the after-action prompt.
- Cli.CommandOutcome: exceptions are not followed. When `listInstalledSkills` (index.js:218) or `installSkills` (index.js:230, 262) throws, the error propagates out of `commandMode` to `main` (index.js:277). `Cli.RunCommand` and `Cli.CommandOutcome` still end the session `Finished` after recording the call.
- The uninstall menu item has no handler in the code, so there is no uninstall to model. The other uninstall prompts, such as `askUninstallChoice`, are not reached from `index.js` and are left out.
- The wizard's steps take the catalogue and both preset selections as a parameter. `Cli.Flow` instantiates it with `Cli.Offered`, and `Cli.OfferedEverything` and `Cli.OfferedQuickStart` prove what that instance holds.
