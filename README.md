# Plugin loader model

A Dafny model of the plugin loader of a mesh-radio relay bot (`plugin_loader.py`), with
proofs of what it promises. The loader builds the bot's plugin registry once per process:

- ten built-in plugins, then the plugins found in `plugins/custom` (top level only), then the
  plugins found anywhere under `plugins/community`;
- before that last scan, every active entry of the `community-plugins` section of
  `config.yaml` has its git repository cloned or updated at a tag, with its `requirements.txt`
  installed by pip; any failure, or an active entry with no repository, ends the process;
- of all these candidates only those whose configuration marks them active are kept, each
  gets its configured priority, is started (a failing start is logged, the plugin stays), and
  the list is sorted by priority, stably;
- the result is cached: a later call with a non-empty cache returns it and does nothing else.

The external world is an input. `Registry.World` holds the parsed configuration, the
built-in instances, the two directory trees, the set of commands that fail, and the
repositories that carry a `requirements.txt`. The loader's process state is the class
`Registry.Loader`:

- `cache`: the global `sorted_active_plugins`;
- `repos`: the repository directories under `plugins/community`;
- `trace`: every effect in order (configuration read, directory scans, git and pip
  commands, `start()` calls).

`sys.exit(1)` becomes an `Err` result that leaves the cache untouched.

Modules, one per concern:

| file | module | models |
|---|---|---|
| `wrappers.dfy` | `Wrappers` | `Option` and `Result` |
| `plugins.dfy` | `Plugins` | a plugin's configuration, the active filter and the priority override |
| `priority_sort.dfy` | `PrioritySort` | Python's stable `sorted(..., key=priority)` as an insertion sort, with its specification |
| `events.dfy` | `Events` | the observable effects of a build |
| `directory_scan.dfy` | `DirectoryScan` | `load_plugins_from_directory` over a directory tree with a per-file load outcome |
| `repo_sync.dfy` | `RepoSync` | the repository name of `clone_or_update_repo` and its git/pip command sequence |
| `community_config.dfy` | `CommunityConfig` | the `community-plugins` loop as a plan: the syncs to run, and whether an entry lacks a repository |
| `registry.dfy` | `Registry` | `load_plugins` as the specification `Build` and as the imperative `Loader` class proved against it |

The imperative parts keep their form:

- `Registry.Loader.LoadPlugins`, `SyncCommunityPlugins`, `StartActivePlugins`,
  `SyncRepository` and `DirectoryScan.ScanDirectory` are methods with loops that update the
  loader's fields. `ScanDirectory` keeps the source's `break` after the top level.
- Each method is proved equal to a specification function: `Build`, `CommunityPlan` with
  `RunSyncs`, `ActivePlugins`, `Sync` and `Scan`.
- The lemmas then state what the source promises about those functions.

## Model

| member | source | states |
|---|---|---|
| Registry.Loader.LoadPlugins | plugin_loader.py:83-150 | A non-empty cache is returned unchanged and nothing else happens (no read, scan, sync or start). Otherwise the effects, the repository directories, the result and the new cache are exactly those of `Build`. The cache is set only on success, so an empty cache means a rebuild. |
| Registry.Loader.SyncCommunityPlugins | plugin_loader.py:121-133 | The loop over community entries issues exactly the commands of the planned syncs, run until the first failure. It stops with a sync failure, or with a missing repository, exactly as the plan says. |
| Registry.Loader.StartActivePlugins | plugin_loader.py:139-147 | Returns the active candidates with their configured priority, in candidate order. It starts each of them once, in that order, whatever `start()` does. |
| Registry.Loader.SyncRepository | plugin_loader.py:28-57 | The fetch/checkout/pull or clone sequence, then pip, each guarded by the success of the previous one. It is equal to `Sync` on the trace, the directories and the outcome. |
| Registry.Loader.CloneOrUpdateRepo | plugin_loader.py:25-57 | Syncs the directory named after the URL; equal to `Sync` with `RepoName(url)`. |
| Registry.Loader.StartPlugin | plugin_loader.py:144-147 | Records one `start()` call; its failure is reported, never propagated. |
| Registry.Loader.RunCommand | plugin_loader.py:31-33 | One `check_call`: recorded, and successful exactly when the command is not failing. |
| Registry.Loader.constructor | plugin_loader.py:10 | A fresh process has an empty cache and has done nothing. |
| Registry.Build | plugin_loader.py:83-150 | The uncached build: config read, custom scan, the planned syncs run until the first failure, then either `Err(SyncFailed)` / `Err(MissingRepository)` with nothing scanned or started, or the community scan, one start per active candidate and `Ok` of the stably sorted active list. Characterised by `BuildResultSorted`, `BuildKeepsActiveCandidates`, `BuildStartsActiveInOrder`, `BuildFailureStartsNothing`, `BuildFatalCases`, `BuildWithoutCommunityPlugins`; `Loader.LoadPlugins` is proved equal to it. |
| Registry.Candidates | plugin_loader.py:103-136 | The candidate list: the built-ins, then the flat scan of `plugins/custom`, then the recursive scan of `plugins/community`, in that order (the two `extend` calls). Used by `BuildStartsActiveInOrder` and `BuildResultSorted` for candidate order. |
| Registry.RunSyncs | plugin_loader.py:124-133 | The requested syncs one after the other, each on the directories the previous one left, stopping at the first failing sync. Characterised by `RunSyncsStopsAfterFailure`, `RunSyncsOkIffNoFailure`, `RunSyncsFailureIsLast`, `RunSyncsOnlyCommands`. |
| Registry.BuildResultSorted | plugin_loader.py:139-149 | A successful build returns a list sorted by priority that is a permutation of the active candidates. Equal priorities keep candidate order (built-ins, custom, community). |
| Registry.BuildKeepsActiveCandidates | plugin_loader.py:139-143 | A plugin is in the result iff it is a candidate whose `active` is true, with its configured priority applied; every member of the result is active. |
| Registry.FailedStartIsKept | plugin_loader.py:144-147 | An active candidate whose `start()` raises is still in the result. |
| Registry.BuildStartsActiveInOrder | plugin_loader.py:135-147 | After all syncs the community directory is scanned. Then every active candidate, and nothing else, is started exactly once, in candidate order, with its configured priority already set. |
| Registry.BuildFailureStartsNothing | plugin_loader.py:121-136 | A build that ends the process has done only the configuration read, the custom scan and git/pip commands. It never scanned the community directory and started nothing. After a failed sync, the failing command was the last effect. |
| Registry.BuildFatalCases | plugin_loader.py:124-133 | The build fails with a sync error iff a command it ran failed. It fails with a missing repository iff no command failed and some active entry has no usable repository. |
| Registry.BuildWithoutCommunityPlugins | plugin_loader.py:121-124 | Without a `community-plugins` key no command runs, the directories are untouched, and the build succeeds with the sorted active candidates. |
| Registry.OnlyBuiltins | plugin_loader.py:103-150 | With no community configuration and neither plugin directory, the registry is the sorted active built-ins. |
| Registry.OnlyBuiltinsEmptyDirs | plugin_loader.py:103-150 | With no community configuration and both plugin directories present but empty, the registry is the sorted active built-ins. |
| Registry.RunSyncsStopsAfterFailure | plugin_loader.py:124-133 | Once a sync has failed, later requests add nothing: the process has exited. |
| Registry.SyncFailureIsFinal | plugin_loader.py:124-133 | A failed sync for an entry makes the run of the whole configuration equal to the run so far. |
| Registry.RunSyncsOkIffNoFailure | plugin_loader.py:124-133 | A run of syncs goes on iff none of the commands it issued failed. |
| Registry.RunSyncsFailureIsLast | plugin_loader.py:124-133 | A failed run of syncs ends with the failing command. |
| Registry.RunSyncsOnlyCommands | plugin_loader.py:124-129 | The community loop issues only git and pip commands. |
| Registry.FailedSyncIsLast | plugin_loader.py:35-57 | A failed sync's failing command is the last effect recorded. |
| Plugins.IsActive | plugin_loader.py:141 | `plugin.config.get("active", False)`: true only when the key is present and true; a missing key counts as false. Used by `ActiveIndicesExact` and `ActivePluginsMembership`. |
| Plugins.WithConfiguredPriority | plugin_loader.py:142 | The priority override: the configured priority when one is given, the plugin's own otherwise; nothing else changes. Used by `ActivePluginsMembership` and `ActivePluginsByIndex`. |
| Plugins.ActivePlugins | plugin_loader.py:139-143 | The `active_plugins` list: the active candidates in candidate order, each with the override applied. Characterised by `ActivePluginsMembership` and `ActivePluginsByIndex`; `Loader.StartActivePlugins` is proved equal to it. |
| Plugins.ActiveIndices | plugin_loader.py:140-141 | The positions of the active candidates, increasing. Characterised by `ActiveIndicesExact`. |
| Plugins.ActivePluginsMembership | plugin_loader.py:139-143 | Every kept plugin is active. A plugin is kept iff some candidate whose `active` is true yields it with its `priority` replaced by the configured one, or left as it was when none is configured. |
| Plugins.ActivePluginsByIndex | plugin_loader.py:139-143 | The kept list is, position by position, the active candidates at the active indices with the priority override. |
| Plugins.ActiveIndicesExact | plugin_loader.py:140-141 | The active indices are exactly the candidates whose `active` is true (a missing key counts as false), in increasing order. |
| PrioritySort.SortByPriority | plugin_loader.py:149 | `sorted(active_plugins, key=priority)` as an insertion sort that places each plugin ahead of the later ones of equal priority. Characterised by `SortByPriorityCorrect` (sorted, permutation, stable) and `StableSortUnique` (the only such list). |
| PrioritySort.Insert | plugin_loader.py:149 | One insertion step: the plugin goes before the first element whose priority is not below its own. Characterised by `InsertKeepsSorted`, `InsertPermutes`, `InsertWithPriority`. |
| PrioritySort.WithPriority | plugin_loader.py:149 | The plugins of one priority in list order: the subsequence that a stable sort keeps unchanged. Used to state stability in `SortByPriorityCorrect`. |
| PrioritySort.SortByPriorityCorrect | plugin_loader.py:149 | The sort returns a list sorted by priority, a permutation of its input. For every priority, the plugins of that priority keep their input order (stability). |
| PrioritySort.StableSortUnique | plugin_loader.py:149 | Any sorted list that keeps each priority's plugins in input order is the sort's output, so the model is Python's `sorted` and not merely some sort. |
| PrioritySort.SortedStableEqual | plugin_loader.py:149 | Two sorted lists with the same per-priority subsequences are equal. |
| PrioritySort.InsertKeepsSorted | plugin_loader.py:149 | Inserting into a sorted list keeps it sorted. |
| PrioritySort.InsertPermutes | plugin_loader.py:149 | Insertion adds exactly the inserted plugin. |
| PrioritySort.InsertWithPriority | plugin_loader.py:149 | Insertion puts the plugin ahead of the others of its own priority and leaves every other priority's plugins as they were. |
| PrioritySort.MinPriority | plugin_loader.py:149 | The head of a sorted list has the least priority and is the first of its priority. |
| PrioritySort.NoneBelow | plugin_loader.py:149 | A list whose priorities all exceed `k` has no plugin of priority `k`. |
| Events.StartEvents | plugin_loader.py:140-147 | One `start()` event per kept plugin, in list order. Characterised by `StartEventsExact`. |
| Events.StartEventsExact | plugin_loader.py:140-147 | One `start()` per kept plugin, in list order. |
| DirectoryScan.Scan | plugin_loader.py:59-81 | The result of `load_plugins_from_directory`: [] for a missing directory, otherwise what the listings visited yield, in walk order. Characterised by `ScanDirectory`, `CollectedMembership`, `EmptyDirectoryScan`. |
| DirectoryScan.IsPythonFile | plugin_loader.py:64 | `filename.endswith('.py')`: at least three characters, the last three being `.py`. Used by `LoadedFromMembership` and `LoadedFromCount`. |
| DirectoryScan.Yields | plugin_loader.py:64-72 | A `.py` file that loads and defines `Plugin`: the only kind of file that contributes. Used by `LoadedFromCount` and `SkippedFileIsolated`. |
| DirectoryScan.Loaded | plugin_loader.py:64-76 | What one file contributes: its `Plugin()` instance, or nothing when it is not `.py`, raises, or defines no `Plugin`. Used by `SkippedFileIsolated`. |
| DirectoryScan.LoadedFrom | plugin_loader.py:63-76 | The inner `for filename in files` loop: each file's contribution, in file order. Characterised by `LoadedFromMembership`, `LoadedFromCount`, `LoadedFromAppend`, `SkippedFileIsolated`. |
| DirectoryScan.Collected | plugin_loader.py:62-76 | The outer walk loop: each listing's contribution, in listing order. Characterised by `CollectedMembership`. |
| DirectoryScan.Walk | plugin_loader.py:62 | The `files` lists `os.walk` yields, top-down: the directory first, then its subdirectories in order. Used by `Listings` and `ScanDirectory`. |
| DirectoryScan.Listings | plugin_loader.py:62-78 | The listings visited: the whole walk when recursive, the top level only otherwise (the `break`). Used by `Scan`. |
| DirectoryScan.ScanDirectory | plugin_loader.py:59-81 | The walk loop with its `break` computes `Scan`. A missing directory gives []. A non-recursive scan loads only the top-level files. |
| DirectoryScan.LoadedFromMembership | plugin_loader.py:63-76 | A plugin is loaded from a listing iff some `.py` file there defines it. |
| DirectoryScan.LoadedFromCount | plugin_loader.py:63-76 | One plugin per `.py` file that defines `Plugin`; every other file contributes nothing. |
| DirectoryScan.SkippedFileIsolated | plugin_loader.py:69-76 | A file that is not `.py`, raises, or defines no `Plugin` is skipped without changing what the files around it contribute. |
| DirectoryScan.LoadedFromAppend | plugin_loader.py:62-76 | Loading two listings one after the other is loading each. |
| DirectoryScan.CollectedMembership | plugin_loader.py:62-78 | A recursive scan finds a plugin iff some `.py` file in some directory of the walk defines it. |
| DirectoryScan.EmptyDirectoryScan | plugin_loader.py:59-62 | An empty directory yields no plugin in either mode. |
| RepoSync.RepoName | plugin_loader.py:27 | `os.path.splitext(os.path.basename(repo_url.rstrip('/')))[0]`. Characterised by `RepoNameShape`, `RepoNameDropsExtension`, `RepoNameKeepsLeadingDot`. |
| RepoSync.LastSegment | plugin_loader.py:27 | `os.path.basename(repo_url.rstrip('/'))`. Characterised through `StripTrailingSlashesOf` and `BasenameAfterSlash`. |
| RepoSync.StripTrailingSlashes | plugin_loader.py:27 | `rstrip('/')`: the longest prefix not ending in `/`, with only slashes removed. |
| RepoSync.Basename | plugin_loader.py:27 | `basename`: the slash-free suffix after the last `/`. |
| RepoSync.LastDot | plugin_loader.py:27 | The position of the last `.`, if any. |
| RepoSync.SplitExt | plugin_loader.py:27 | `splitext`: root and extension concatenate to the input. A non-empty extension is a dot followed by no dot, and leading dots are never an extension. |
| RepoSync.RepoNameShape | plugin_loader.py:27 | The repository name contains no `/`, is a prefix of the URL's last segment, and is the whole segment when there is no dot. |
| RepoSync.RepoNameDropsExtension | plugin_loader.py:27 | `dir/stem.ext` followed by any number of slashes gives `stem` (e.g. `…/name.git/` gives `name`). |
| RepoSync.RepoNameKeepsLeadingDot | plugin_loader.py:27 | A segment whose only dot is its first character is kept whole. |
| RepoSync.StripTrailingSlashesOf | plugin_loader.py:27 | Stripping removes exactly the trailing slashes. |
| RepoSync.BasenameAfterSlash | plugin_loader.py:27 | The basename of `dir/segment` is `segment`. |
| RepoSync.SplitExtAtLastDot | plugin_loader.py:27 | `splitext` splits at the last dot when the root is not all dots. |
| RepoSync.RunUntilFailure | plugin_loader.py:30-38 | `check_call` after `check_call`: the commands run in order until the first failing one. Characterised by `RunUntilFailureSpec` and `RunUntilFailureAppend`. |
| RepoSync.SyncPlan | plugin_loader.py:29-52 | The commands a sync issues when none fails: fetch, checkout, pull for an existing directory or one clone otherwise, then pip when `requirements.txt` exists. Used by `SyncGitCommands` and `PipRunsIffManifestAndSynced`. |
| RepoSync.Sync | plugin_loader.py:25-57 | `clone_or_update_repo` on directory `name`: the plan run until the first failure, the directory added by a successful clone, and whether the process carries on. Characterised by `SyncStopsAtFirstFailure`, `SyncGitCommands`, `PipOnlyAfterSuccessfulSync`, `PipRunsIffManifestAndSynced`, `SecondSyncUpdates`; `Loader.SyncRepository` is proved equal to it. |
| RepoSync.RunUntilFailureSpec | plugin_loader.py:30-38 | The commands run are a prefix of the list, stopping at the first failure. The run succeeds iff it ran every command and none failed; otherwise the failing command is the last one run. |
| RepoSync.RunUntilFailureAppend | plugin_loader.py:29-57 | Running the git commands and then pip: pip's part runs only when the git part succeeded, and a failed git part is the whole run. |
| RepoSync.SyncStopsAtFirstFailure | plugin_loader.py:29-57 | A sync issues at least one command. It succeeds iff none failed, a failing command is the last one, and all before it succeeded. |
| RepoSync.SyncGitCommands | plugin_loader.py:29-52 | An existing directory gets fetch, then checkout of the tag, then pull of the tag, and is never cloned; at most pip for the repository follows (at most four commands). An absent one gets a single clone at the tag, followed at most by pip (at most two commands), and appears iff the clone succeeded. |
| RepoSync.PipOnlyAfterSuccessfulSync | plugin_loader.py:47-57 | pip is only ever the last command of a sync, only for a repository with `requirements.txt`, and only after every git command succeeded. Its failure is the sync's failure. |
| RepoSync.PipRunsIffManifestAndSynced | plugin_loader.py:47-57 | pip runs iff `requirements.txt` exists and the git commands all succeeded. |
| RepoSync.SyncIssuesOnlyCommands | plugin_loader.py:29-57 | A sync issues git and pip commands only. |
| RepoSync.SecondSyncUpdates | plugin_loader.py:29-42 | After a successful sync the directory exists, so syncing again updates (fetch first) instead of cloning. |
| CommunityConfig.Entries | plugin_loader.py:121-124 | `config.get('community-plugins', {}).values()`: the entries in configuration order, none when the key is absent. Used by `NoCommunityKeyNoSyncs`. |
| CommunityConfig.EntryActive | plugin_loader.py:125 | `plugin_info.get('active', False)`: true only when present and true. Used by `PlanFatalIffMissingRepository` and `PlanSyncsEveryActiveEntry`. |
| CommunityConfig.HasRepository | plugin_loader.py:126-128 | `if repo_url`: the repository is present and not the empty string. Used by `PlanFatalIffMissingRepository`. |
| CommunityConfig.TagOf | plugin_loader.py:127 | `plugin_info.get('tag', 'master')`. Used by `PlanRequestsByIndex`. |
| CommunityConfig.RequestFor | plugin_loader.py:126-129 | The sync an entry asks for: its repository URL at its tag. Used by `PlanRequestsByIndex`. |
| CommunityConfig.CommunityPlan | plugin_loader.py:124-133 | The loop over the entries: a sync request per active entry with a repository, in order, until an active entry without one stops the loop. Characterised by `PlanFatalIffMissingRepository`, `PlanRequestsByIndex`, `PlanSyncsEveryActiveEntry`, `CommunityPlanPrefix`, `NoCommunityKeyNoSyncs`. |
| CommunityConfig.SyncedIndices | plugin_loader.py:124-129 | The positions of the entries the plan syncs. Characterised by `PlanRequestsByIndex` and `PlanSyncsEveryActiveEntry`. |
| CommunityConfig.FirstMissing | plugin_loader.py:124-133 | The first active entry without a usable repository, or the number of entries when there is none. |
| CommunityConfig.PlanFatalIffMissingRepository | plugin_loader.py:124-133 | The loop ends the process for a missing repository iff some active entry has a missing or empty `repository`. |
| CommunityConfig.PlanRequestsByIndex | plugin_loader.py:124-129 | Each sync comes from an active entry before the first missing repository, at the entry's URL and tag (default `master`), in configuration order. |
| CommunityConfig.PlanSyncsEveryActiveEntry | plugin_loader.py:124-129 | Every active entry before the first missing repository is synced, in increasing order. |
| CommunityConfig.CommunityPlanPrefix | plugin_loader.py:124-133 | Syncs for earlier entries happen first. Once an entry lacks a repository, later entries change nothing. |
| CommunityConfig.FirstMissingOfPrefix | plugin_loader.py:124-133 | The first missing repository of a prefix is that of the whole list when it lies inside the prefix, and the prefix's length otherwise. |
| CommunityConfig.NoCommunityKeyNoSyncs | plugin_loader.py:121-124 | A missing `community-plugins` key means no syncs and no fatal error. |

## Left out

- Process termination: `sys.exit(1)` is an `Err` result. The effects that follow an exit are not modelled.
- Command execution: the git and pip subprocesses are a set of failing commands, and their output is not modelled.
- `load_config` (plugin_loader.py:12-23): YAML parsing and the file read. The configuration is a given value, and entries keep the order of the YAML mapping.
- Registry.Build: a command that cannot be launched is not modelled.
  - In the source, `check_call` raises `OSError` when git is not installed, when `sys.executable` cannot be run (pip itself runs through it at plugin_loader.py:52, so a missing pip is an ordinary non-zero exit that the handler at :54 catches), or when `plugins/community` is missing, so the clone's working directory (plugin_loader.py:41) does not exist.
  - The `except CalledProcessError` handlers at plugin_loader.py:35, :43 and :54 do not catch it, so it escapes `load_plugins` uncaught, with no remediation log and no `sys.exit(1)`.
  - The model knows only the caught failure, `Err(SyncFailed)`.
- Registry.World: `communityDir` is not tied to the syncs. A world whose `communityDir` is None can still clone successfully and build `Ok`, although in the source that clone raises `OSError` as described above.
- RepoSync.Sync: a command's outcome depends on the command alone, because `failing` is a fixed set. Repeating an identical command, in a later sync or a later build, always gives the same outcome; transient failures are not modelled.
- CommunityConfig.Entries: every entry is a record here. An entry whose value is not a mapping (for example `myplugin:` with no body, which YAML reads as null) makes `plugin_info.get` at plugin_loader.py:125 raise; that case cannot be expressed.
- Unusual configuration values:
  - A configuration file that parses to `None` makes `config.get` raise in the source; such a configuration cannot be expressed here.
  - The same holds for a `community-plugins` value that is not a mapping.
- Python truthiness: `active` is `Option<bool>`, so values such as `1` or `"yes"` are not modelled.
  - `HasRepository` is a present, non-empty string, which matches the source's `if repo_url`.
- Null or non-string overrides: a `priority` or `tag` key present with a `null` value is not modelled, nor a `tag` that YAML reads as a number (`tag: 1.0`). Such a tag makes `check_call` raise `TypeError` at plugin_loader.py:32 or :41, which the `CalledProcessError` handlers do not catch; `CommunityEntry.tag` is `Option<string>` and cannot express it.
- Plugin loading: the MD5 module name and `importlib` execution (plugin_loader.py:66-70) are one outcome per file: it raises, it defines no `Plugin`, or it defines one.
- Directory walking: `os.walk` order is the order of the given tree (files, then subdirectories depth-first), and `os.path.join` is not modelled.
- Built-in plugins: the ten classes (plugin_loader.py:91-100) are an input list, in their fixed order.
- Clone directory: a successful clone is taken to create the directory `RepoName(url)`. The directory git actually creates is not modelled.
- Logging and thread safety of the global cache are not modelled.
- Priorities are integers; float priorities are not modelled.
- Priority mutation: the source updates `plugin.priority` in place, while the model returns an updated record. No plugin object is shared between candidates, so nothing else can observe the difference.
- RepoSync.RepoNameDropsExtension: stated for every URL shape `dir/stem.ext` with trailing slashes, not on concrete literal URLs.
