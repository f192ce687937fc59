/**
 * `load_plugins()`: the memoised registry build. On a cache hit it returns the cached list
 * and does nothing else; otherwise it reads the configuration, lists the built-in plugins,
 * scans `plugins/custom` flat, syncs the active community repositories, scans
 * `plugins/community` recursively, keeps and starts the active plugins with their configured
 * priorities, sorts them by priority and caches the result.
 */
module Registry {
  import opened Wrappers
  import opened Plugins
  import opened PrioritySort
  import opened Events
  import opened DirectoryScan
  import opened RepoSync
  import opened CommunityConfig

  /**
   * Everything the build consults that the loader does not control:
   *  - config:        the parsed `config.yaml`
   *  - builtins:      the ten built-in plugin instances, in their fixed order
   *  - customDir:     `plugins/custom` (None when it does not exist)
   *  - communityDir:  `plugins/community` as it stands when it is scanned
   *  - failing:       the git and pip commands that exit non-zero
   *  - requirements:  the repository directories holding a `requirements.txt`
   */
  datatype World = World(
    config: Config,
    builtins: seq<Plugin>,
    customDir: Option<Dir>,
    communityDir: Option<Dir>,
    failing: set<Event>,
    requirements: set<string>)

  /** The two ways the build ends the process with `sys.exit(1)`. */
  datatype Fatal = SyncFailed | MissingRepository

  datatype SyncRun = SyncRun(events: seq<Event>, repos: set<string>, ok: bool)

  /** The requested syncs run one after the other; the first failing one ends the run. */
  function RunSyncs(reqs: seq<SyncRequest>, repos: set<string>, w: World): SyncRun {
    if reqs == [] then SyncRun([], repos, true)
    else
      var prev := RunSyncs(reqs[..|reqs| - 1], repos, w);
      var r := reqs[|reqs| - 1];
      if !prev.ok then prev
      else
        var s := Sync(r.url, r.tag, RepoName(r.url), prev.repos, w.failing, w.requirements);
        SyncRun(prev.events + s.commands, s.repos, s.ok)
  }

  /** The candidate list: built-ins, then custom plugins, then community plugins. */
  function Candidates(w: World): seq<Plugin> {
    w.builtins + Scan(w.customDir, false) + Scan(w.communityDir, true)
  }

  /** The effects of one uncached build, the repository directories after it, and its result. */
  datatype BuildOutcome = BuildOutcome(events: seq<Event>, repos: set<string>, result: Result<seq<Plugin>, Fatal>)

  /** What an uncached call of `load_plugins` does, from the world and the repository directories present. */
  function Build(w: World, repos: set<string>): BuildOutcome {
    var plan := CommunityPlan(Entries(w.config));
    var run := RunSyncs(plan.requests, repos, w);
    var before := [ReadConfig, Scanned(CustomDir)] + run.events;
    if !run.ok then BuildOutcome(before, run.repos, Err(SyncFailed))
    else if plan.missingRepository then BuildOutcome(before, run.repos, Err(MissingRepository))
    else
      var active := ActivePlugins(Candidates(w));
      BuildOutcome(before + [Scanned(CommunityDir)] + StartEvents(active), run.repos, Ok(SortByPriority(active)))
  }

  /** Once a sync has failed, later requests change nothing. */
  lemma {:induction false} RunSyncsStopsAfterFailure(reqs: seq<SyncRequest>, n: nat, repos: set<string>, w: World)
    requires n <= |reqs| && !RunSyncs(reqs[..n], repos, w).ok
    ensures RunSyncs(reqs, repos, w) == RunSyncs(reqs[..n], repos, w)
    decreases |reqs| - n
  {
    if n < |reqs| {
      var init := reqs[..|reqs| - 1];
      assert init[..n] == reqs[..n];
      RunSyncsStopsAfterFailure(init, n, repos, w);
    } else {
      assert reqs[..n] == reqs;
    }
  }

  /** A failed sync ends the community loop: the run of the whole plan is the run up to that sync. */
  lemma SyncFailureIsFinal(entries: seq<CommunityEntry>, n: nat, reqs: seq<SyncRequest>, repos: set<string>, w: World)
    requires n <= |entries| && CommunityPlan(entries[..n]) == Plan(reqs, false)
    requires !RunSyncs(reqs, repos, w).ok
    ensures RunSyncs(CommunityPlan(entries).requests, repos, w) == RunSyncs(reqs, repos, w)
  {
    CommunityPlanPrefix(entries, n);
    var all := CommunityPlan(entries).requests;
    assert all[..|reqs|] == reqs;
    RunSyncsStopsAfterFailure(all, |reqs|, repos, w);
  }

  /** One more request extends a successful run by that request's sync. */
  lemma RunSyncsStep(reqs: seq<SyncRequest>, req: SyncRequest, repos: set<string>, w: World)
    requires RunSyncs(reqs, repos, w).ok
    ensures var prev := RunSyncs(reqs, repos, w);
      var s := Sync(req.url, req.tag, RepoName(req.url), prev.repos, w.failing, w.requirements);
      RunSyncs(reqs + [req], repos, w) == SyncRun(prev.events + s.commands, s.repos, s.ok)
  {
    assert (reqs + [req])[..|reqs|] == reqs;
  }

  /** The plan of one more entry, in terms of the plan of the entries before it. */
  lemma CommunityPlanStep(entries: seq<CommunityEntry>, i: nat)
    requires i < |entries|
    ensures var prev := CommunityPlan(entries[..i]); var e := entries[i];
      CommunityPlan(entries[..i + 1])
        == if prev.missingRepository || !EntryActive(e) then prev
           else if HasRepository(e) then Plan(prev.requests + [RequestFor(e)], false)
           else Plan(prev.requests, true)
  {
    assert entries[..i + 1][..i] == entries[..i];
  }

  /** Associativity of the trace, stated for the loop proofs of `Loader` (a hint for the solver). */
  lemma TraceAppend(t0: seq<Event>, done: seq<Event>, more: seq<Event>)
    ensures t0 + done + more == t0 + (done + more)
  {
  }

  /** The trace up to the syncs regrouped as in `Build` (a hint for the solver). */
  lemma TraceBeforeScan(t0: seq<Event>, synced: seq<Event>)
    ensures t0 + [ReadConfig] + [Scanned(CustomDir)] + synced == t0 + ([ReadConfig, Scanned(CustomDir)] + synced)
  {
  }

  /** The whole trace of a build regrouped as in `Build` (a hint for the solver). */
  lemma TraceOfBuild(t0: seq<Event>, synced: seq<Event>, starts: seq<Event>)
    ensures t0 + [ReadConfig] + [Scanned(CustomDir)] + synced + [Scanned(CommunityDir)] + starts
      == t0 + ([ReadConfig, Scanned(CustomDir)] + synced + [Scanned(CommunityDir)] + starts)
  {
  }

  /** A run of syncs issues git and pip commands only. */
  lemma {:induction false} RunSyncsOnlyCommands(reqs: seq<SyncRequest>, repos: set<string>, w: World)
    ensures forall e :: e in RunSyncs(reqs, repos, w).events ==> IsCommand(e)
  {
    if reqs != [] {
      var init, r := reqs[..|reqs| - 1], reqs[|reqs| - 1];
      RunSyncsOnlyCommands(init, repos, w);
      var prev := RunSyncs(init, repos, w);
      if prev.ok {
        SyncIssuesOnlyCommands(r.url, r.tag, RepoName(r.url), prev.repos, w.failing, w.requirements);
      }
    }
  }

  /** A run of syncs that fails ends with the failing command. */
  lemma {:induction false} RunSyncsFailureIsLast(reqs: seq<SyncRequest>, repos: set<string>, w: World)
    requires !RunSyncs(reqs, repos, w).ok
    ensures var run := RunSyncs(reqs, repos, w); run.events != [] && run.events[|run.events| - 1] in w.failing
  {
    var init, r := reqs[..|reqs| - 1], reqs[|reqs| - 1];
    var prev := RunSyncs(init, repos, w);
    if prev.ok {
      FailedSyncIsLast(prev.events, r.url, r.tag, RepoName(r.url), prev.repos, w.failing, w.requirements);
    } else {
      RunSyncsFailureIsLast(init, repos, w);
    }
  }

  /** A failed sync appended to earlier events leaves its failing command last. */
  lemma FailedSyncIsLast(earlier: seq<Event>, url: string, tag: string, name: string, repos: set<string>, failing: set<Event>, requirements: set<string>)
    requires !Sync(url, tag, name, repos, failing, requirements).ok
    ensures var events := earlier + Sync(url, tag, name, repos, failing, requirements).commands;
      events != [] && events[|events| - 1] in failing
  {
    SyncStopsAtFirstFailure(url, tag, name, repos, failing, requirements);
  }

  /**
   * A successful build returns the active candidates, with their configured priorities,
   * sorted by priority; the sort is a permutation and keeps candidate order among equal
   * priorities.
   */
  lemma BuildResultSorted(w: World, repos: set<string>)
    requires Build(w, repos).result.Ok?
    ensures var r, active := Build(w, repos).result.value, ActivePlugins(Candidates(w));
      && SortedByPriority(r)
      && multiset(r) == multiset(active)
      && forall k :: WithPriority(r, k) == WithPriority(active, k)
  {
    SortByPriorityCorrect(ActivePlugins(Candidates(w)));
  }

  /**
   * A successful build holds exactly the candidates whose `active` flag is true, each with its
   * configured priority applied; a plugin whose `start()` failed is kept all the same.
   */
  lemma BuildKeepsActiveCandidates(w: World, repos: set<string>)
    requires Build(w, repos).result.Ok?
    ensures var r, cs := Build(w, repos).result.value, Candidates(w);
      && (forall q :: q in r ==> IsActive(q))
      && forall q :: q in r <==> exists i :: 0 <= i < |cs| && IsActive(cs[i]) && q == WithConfiguredPriority(cs[i])
  {
    var cs := Candidates(w);
    var active := ActivePlugins(cs);
    var r := Build(w, repos).result.value;
    SortByPriorityCorrect(active);
    ActivePluginsMembership(cs);
    forall q ensures q in r <==> q in active {
      assert q in r <==> q in multiset(r);
      assert q in active <==> q in multiset(active);
    }
  }

  /** An active candidate whose `start()` raises still ends up in the result, still marked as failing. */
  lemma FailedStartIsKept(w: World, repos: set<string>, i: nat)
    requires Build(w, repos).result.Ok?
    requires i < |Candidates(w)| && IsActive(Candidates(w)[i]) && Candidates(w)[i].startFails
    ensures var q := WithConfiguredPriority(Candidates(w)[i]);
      q in Build(w, repos).result.value && q.startFails
  {
    BuildKeepsActiveCandidates(w, repos);
  }

  /**
   * A successful build scans `plugins/community` after every sync and then starts each active
   * candidate exactly once, in candidate order (built-ins, custom, community); nothing is
   * started before that scan.
   */
  lemma BuildStartsActiveInOrder(w: World, repos: set<string>)
    requires Build(w, repos).result.Ok?
    ensures var events, cs, idx := Build(w, repos).events, Candidates(w), ActiveIndices(Candidates(w));
      var n := |events| - |idx|;
      && 3 <= n
      && events[n - 1] == Scanned(CommunityDir)
      && (forall k :: 0 <= k < n - 1 ==> !events[k].Started?)
      && (forall j :: 0 <= j < |idx| ==> idx[j] < |cs| && IsActive(cs[idx[j]]))
      && (forall j :: 0 <= j < |idx| ==> events[n + j] == Started(WithConfiguredPriority(cs[idx[j]])))
      && (forall i :: 0 <= i < |cs| && IsActive(cs[i]) ==> i in idx)
      && forall j, k :: 0 <= j < k < |idx| ==> idx[j] < idx[k]
  {
    var cs := Candidates(w);
    var active := ActivePlugins(cs);
    var before := BuildEventsOnSuccess(w, repos);
    ActiveIndicesExact(cs);
    ActivePluginsByIndex(cs);
    StartEventsExact(active);
    EventsAfter(before, StartEvents(active));
    NoStartBefore(before, StartEvents(active));
  }

  /** Indexing into the prefix of a concatenated event list (a hint for the solver). */
  lemma NoStartBefore(before: seq<Event>, after: seq<Event>)
    requires forall k :: 0 <= k < |before| - 1 ==> !before[k].Started?
    ensures forall k :: 0 <= k < |before| - 1 ==> !(before + after)[k].Started?
  {
  }

  /** The events of a successful build: everything up to the community scan, then the starts. */
  lemma BuildEventsOnSuccess(w: World, repos: set<string>) returns (before: seq<Event>)
    requires Build(w, repos).result.Ok?
    ensures |before| >= 3 && before[|before| - 1] == Scanned(CommunityDir)
    ensures forall k :: 0 <= k < |before| - 1 ==> !before[k].Started?
    ensures Build(w, repos).events == before + StartEvents(ActivePlugins(Candidates(w)))
  {
    var run := RunSyncs(CommunityPlan(Entries(w.config)).requests, repos, w);
    RunSyncsOnlyCommands(CommunityPlan(Entries(w.config)).requests, repos, w);
    before := [ReadConfig, Scanned(CustomDir)] + run.events + [Scanned(CommunityDir)];
    NoStartAmongCommands(run.events);
  }

  /** The events up to the community scan start nothing when the syncs issued only commands. */
  lemma NoStartAmongCommands(cmds: seq<Event>)
    requires forall e :: e in cmds ==> IsCommand(e)
    ensures var before := [ReadConfig, Scanned(CustomDir)] + cmds + [Scanned(CommunityDir)];
      forall k :: 0 <= k < |before| - 1 ==> !before[k].Started?
  {
    var before := [ReadConfig, Scanned(CustomDir)] + cmds + [Scanned(CommunityDir)];
    forall k | 2 <= k < |before| - 1 ensures !before[k].Started? {
      assert before[k] == cmds[k - 2] && cmds[k - 2] in cmds;
    }
  }

  /** Indexing into the part of an event list that follows a prefix (a hint for the solver). */
  lemma EventsAfter(before: seq<Event>, after: seq<Event>)
    ensures forall j :: 0 <= j < |after| ==> (before + after)[|before| + j] == after[j]
  {
  }

  /**
   * A build that ends the process has issued the configuration read, the custom scan and
   * git or pip commands only: it never scans `plugins/community` and never starts a plugin.
   * When a sync failed, the failing command is the last thing that happened.
   */
  lemma BuildFailureStartsNothing(w: World, repos: set<string>)
    requires Build(w, repos).result.Err?
    ensures var b := Build(w, repos);
      && b.events[..2] == [ReadConfig, Scanned(CustomDir)]
      && (forall e :: e in b.events[2..] ==> IsCommand(e))
      && (b.result == Err(SyncFailed) ==> b.events[|b.events| - 1] in w.failing)
  {
    var run := RunSyncs(CommunityPlan(Entries(w.config)).requests, repos, w);
    RunSyncsOnlyCommands(CommunityPlan(Entries(w.config)).requests, repos, w);
    assert Build(w, repos).events[2..] == run.events;
    if !run.ok {
      RunSyncsFailureIsLast(CommunityPlan(Entries(w.config)).requests, repos, w);
    }
  }

  /**
   * The build stops with a missing-repository error exactly when every sync succeeded and some
   * active community entry has no usable `repository`; it stops with a sync error exactly
   * when a git or pip command failed.
   */
  lemma BuildFatalCases(w: World, repos: set<string>)
    ensures var b, es := Build(w, repos), Entries(w.config);
      var run := RunSyncs(CommunityPlan(es).requests, repos, w);
      && (b.result == Err(SyncFailed) <==> exists e :: e in run.events && e in w.failing)
      && (b.result == Err(MissingRepository) <==> !(exists e :: e in run.events && e in w.failing) && FirstMissing(es) < |es|)
  {
    var es := Entries(w.config);
    PlanFatalIffMissingRepository(es);
    RunSyncsOkIffNoFailure(CommunityPlan(es).requests, repos, w);
  }

  /** A run of syncs succeeds exactly when none of the commands it issued failed. */
  lemma {:induction false} RunSyncsOkIffNoFailure(reqs: seq<SyncRequest>, repos: set<string>, w: World)
    ensures var run := RunSyncs(reqs, repos, w); run.ok <==> !(exists e :: e in run.events && e in w.failing)
  {
    if reqs != [] {
      var init, r := reqs[..|reqs| - 1], reqs[|reqs| - 1];
      RunSyncsOkIffNoFailure(init, repos, w);
      var prev := RunSyncs(init, repos, w);
      if prev.ok {
        SyncStopsAtFirstFailure(r.url, r.tag, RepoName(r.url), prev.repos, w.failing, w.requirements);
        var s := Sync(r.url, r.tag, RepoName(r.url), prev.repos, w.failing, w.requirements);
        assert forall e :: e in prev.events + s.commands <==> e in prev.events || e in s.commands;
      }
    }
  }

  /**
   * Without a `community_plugins` key the build runs no command, leaves the repository
   * directories alone and succeeds with the sorted active candidates.
   */
  lemma BuildWithoutCommunityPlugins(w: World, repos: set<string>)
    requires w.config.communityPlugins.None?
    ensures var b := Build(w, repos);
      && b.result == Ok(SortByPriority(ActivePlugins(Candidates(w))))
      && b.repos == repos
      && forall e :: e in b.events ==> !IsCommand(e)
  {
    NoCommunityKeyNoSyncs(w.config);
    var active := ActivePlugins(Candidates(w));
    StartEventsExact(active);
    var b := Build(w, repos);
    forall e | e in b.events ensures !IsCommand(e) {
      if e in StartEvents(active) {
        var j :| 0 <= j < |StartEvents(active)| && StartEvents(active)[j] == e;
      }
    }
  }

  /** With no community configuration and no plugin directories, the registry is the sorted active built-ins. */
  lemma OnlyBuiltins(w: World, repos: set<string>)
    requires w.config.communityPlugins.None? && w.customDir.None? && w.communityDir.None?
    ensures Build(w, repos).result == Ok(SortByPriority(ActivePlugins(w.builtins)))
  {
    BuildWithoutCommunityPlugins(w, repos);
    assert Candidates(w) == w.builtins;
  }

  /** The same with both plugin directories present but empty. */
  lemma OnlyBuiltinsEmptyDirs(w: World, repos: set<string>)
    requires w.config.communityPlugins.None? && w.customDir == Some(Dir([], [])) && w.communityDir == Some(Dir([], []))
    ensures Build(w, repos).result == Ok(SortByPriority(ActivePlugins(w.builtins)))
  {
    BuildWithoutCommunityPlugins(w, repos);
    EmptyDirectoryScan(false);
    EmptyDirectoryScan(true);
    assert Candidates(w) == w.builtins;
  }

  /**
   * The process state the loader reads and writes: the module-level cache
   * `sorted_active_plugins`, the repository directories under `plugins/community`, and the
   * ordered record of the effects performed so far.
   */
  class Loader {
    var cache: seq<Plugin>
    var repos: set<string>
    var trace: seq<Event>

    /** A fresh process: empty cache, nothing done yet. */
    constructor (present: set<string>)
      ensures cache == [] && repos == present && trace == []
    {
      cache := [];
      repos := present;
      trace := [];
    }

    /** `subprocess.check_call(...)`: record the command; it succeeds unless the oracle says it fails. */
    method RunCommand(c: Event, failing: set<Event>) returns (ok: bool)
      modifies this`trace
      ensures trace == old(trace) + [c]
      ensures ok <==> c !in failing
    {
      trace := trace + [c];
      ok := c !in failing;
    }

    /** `plugin.start()`: a failure is only logged; the caller keeps the plugin either way. */
    method StartPlugin(p: Plugin) returns (failed: bool)
      modifies this`trace
      ensures trace == old(trace) + [Started(p)]
      ensures failed == p.startFails
    {
      trace := trace + [Started(p)];
      failed := p.startFails;
    }

    /**
     * `clone_or_update_repo(url, tag, community_plugins_dir)`; `ok` is false where the source
     * calls `sys.exit(1)`.
     */
    method CloneOrUpdateRepo(url: string, tag: string, w: World) returns (ok: bool)
      modifies this`trace, this`repos
      ensures var s := Sync(url, tag, RepoName(url), old(repos), w.failing, w.requirements);
        trace == old(trace) + s.commands && repos == s.repos && ok == s.ok
    {
      var name := RepoName(url);
      ok := SyncRepository(url, tag, name, w);
    }

    /** The body of `clone_or_update_repo` once the directory name `name` is derived. */
    method SyncRepository(url: string, tag: string, name: string, w: World) returns (ok: bool)
      modifies this`trace, this`repos
      ensures var s := Sync(url, tag, name, old(repos), w.failing, w.requirements);
        trace == old(trace) + s.commands && repos == s.repos && ok == s.ok
    {
      ghost var git := if name in repos then [Fetch(name), Checkout(name, tag), Pull(name, tag)] else [Clone(url, tag)];
      ghost var pip := if name in w.requirements then [PipInstall(name)] else [];
      assert SyncPlan(url, tag, name, name in repos, name in w.requirements) == git + pip;
      RunUntilFailureAppend(git, pip, w.failing);
      if name in repos {
        RunUntilFailureAppend([Fetch(name)], [Checkout(name, tag), Pull(name, tag)], w.failing);
        RunUntilFailureAppend([Checkout(name, tag)], [Pull(name, tag)], w.failing);
        ok := RunCommand(Fetch(name), w.failing);
        if ok {
          ok := RunCommand(Checkout(name, tag), w.failing);
        }
        if ok {
          ok := RunCommand(Pull(name, tag), w.failing);
        }
      } else {
        ok := RunCommand(Clone(url, tag), w.failing);
        if ok {
          repos := repos + {name};
        }
      }
      assert trace == old(trace) + RunUntilFailure(git, w.failing).0 && ok == RunUntilFailure(git, w.failing).1;
      if ok && name in w.requirements {
        ok := RunCommand(PipInstall(name), w.failing);
      }
    }

    /**
     * The community loop of `load_plugins`: for each active entry, in configuration order,
     * sync its repository at its tag, or stop when it names no repository. `status` is the
     * reason for `sys.exit(1)`, or None when every active entry was synced.
     */
    method SyncCommunityPlugins(entries: seq<CommunityEntry>, w: World) returns (status: Option<Fatal>)
      modifies this`trace, this`repos
      ensures var plan := CommunityPlan(entries); var run := RunSyncs(plan.requests, old(repos), w);
        && trace == old(trace) + run.events
        && repos == run.repos
        && status == (if !run.ok then Some(SyncFailed)
                      else if plan.missingRepository then Some(MissingRepository)
                      else None)
    {
      ghost var reqs: seq<SyncRequest> := [];
      var i := 0;
      while i < |entries|
        invariant 0 <= i <= |entries|
        invariant CommunityPlan(entries[..i]) == Plan(reqs, false)
        invariant var run := RunSyncs(reqs, old(repos), w);
          run.ok && trace == old(trace) + run.events && repos == run.repos
      {
        var e := entries[i];
        CommunityPlanStep(entries, i);
        if EntryActive(e) {
          var tag := TagOf(e);
          if HasRepository(e) {
            var url := e.repository.value;
            ghost var prevTrace, prevRun := trace, RunSyncs(reqs, old(repos), w);
            var ok := CloneOrUpdateRepo(url, tag, w);
            RunSyncsStep(reqs, SyncRequest(url, tag), old(repos), w);
            TraceAppend(old(trace), prevRun.events, trace[|prevTrace|..]);
            reqs := reqs + [SyncRequest(url, tag)];
            if !ok {
              SyncFailureIsFinal(entries, i + 1, reqs, old(repos), w);
              return Some(SyncFailed);
            }
          } else {
            CommunityPlanPrefix(entries, i + 1);
            return Some(MissingRepository);
          }
        }
        i := i + 1;
      }
      assert entries[..i] == entries;
      assert CommunityPlan(entries).requests == reqs;
      assert trace == old(trace) + RunSyncs(CommunityPlan(entries).requests, old(repos), w).events;
      return None;
    }

    /**
     * The filter loop of `load_plugins`: each active candidate, in candidate order, gets its
     * configured priority, is appended to the result and is started; a failed start does not
     * remove it and does not stop the loop.
     */
    method StartActivePlugins(plugins: seq<Plugin>) returns (active: seq<Plugin>)
      modifies this`trace
      ensures active == ActivePlugins(plugins)
      ensures trace == old(trace) + StartEvents(active)
    {
      active := [];
      var j := 0;
      while j < |plugins|
        invariant 0 <= j <= |plugins|
        invariant active == ActivePlugins(plugins[..j])
        invariant trace == old(trace) + StartEvents(active)
      {
        var p := plugins[j];
        assert plugins[..j + 1][..j] == plugins[..j];
        if IsActive(p) {
          p := WithConfiguredPriority(p);
          active := active + [p];
          var failed := StartPlugin(p);
        }
        j := j + 1;
      }
      assert plugins[..j] == plugins;
    }

    /**
     * `load_plugins()`. A non-empty cache is returned as it is and nothing else happens; an
     * empty one does not count as built. Otherwise the effects, the repository directories
     * and the result are those of `Build`, and a successful result is cached.
     */
    method LoadPlugins(w: World) returns (r: Result<seq<Plugin>, Fatal>)
      modifies this
      ensures old(cache) != [] ==>
        r == Ok(old(cache)) && cache == old(cache) && trace == old(trace) && repos == old(repos)
      ensures old(cache) == [] ==>
        var b := Build(w, old(repos));
        && trace == old(trace) + b.events
        && repos == b.repos
        && r == b.result
        && cache == (if r.Ok? then r.value else old(cache))
    {
      if cache != [] {
        return Ok(cache);
      }
      ghost var t0 := trace;
      trace := trace + [ReadConfig];
      var config := w.config;
      var plugins := w.builtins;
      trace := trace + [Scanned(CustomDir)];
      var custom := ScanDirectory(w.customDir, false);
      plugins := plugins + custom;

      ghost var t1 := trace;
      var status := SyncCommunityPlugins(Entries(config), w);
      ghost var run := RunSyncs(CommunityPlan(Entries(w.config)).requests, old(repos), w);
      if status.Some? {
        TraceBeforeScan(t0, run.events);
        return Err(status.value);
      }

      ghost var t2 := trace;
      trace := trace + [Scanned(CommunityDir)];
      var community := ScanDirectory(w.communityDir, true);
      plugins := plugins + community;
      var active := StartActivePlugins(plugins);
      TraceOfBuild(t0, run.events, StartEvents(active));
      cache := SortByPriority(active);
      return Ok(cache);
    }
  }

}
