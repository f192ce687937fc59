/**
 * `clone_or_update_repo(repo_url, tag, plugins_dir)`: derive the local directory name from the
 * repository URL, then bring that directory to `tag` (fetch, checkout, pull when it exists;
 * clone otherwise) and install its `requirements.txt` when it has one. Any failing command
 * ends the process. Command outcomes are an oracle: the set of commands that fail.
 */
module RepoSync {
  import opened Wrappers
  import opened Events

  /** `s.rstrip('/')`. */
  function StripTrailingSlashes(s: string): (r: string)
    ensures |r| <= |s| && r == s[..|r|]
    ensures r == [] || r[|r| - 1] != '/'
    ensures forall k :: |r| <= k < |s| ==> s[k] == '/'
  {
    if s != [] && s[|s| - 1] == '/' then StripTrailingSlashes(s[..|s| - 1]) else s
  }

  /** `os.path.basename(s)` with POSIX separators: everything after the last '/'. */
  function Basename(s: string): (r: string)
    ensures '/' !in r
    ensures |r| <= |s| && r == s[|s| - |r|..]
    ensures |r| < |s| ==> s[|s| - |r| - 1] == '/'
  {
    if s == [] || s[|s| - 1] == '/' then [] else Basename(s[..|s| - 1]) + [s[|s| - 1]]
  }

  /** The position of the last '.' in `s`, if any. */
  function LastDot(s: string): (r: Option<nat>)
    ensures r.None? ==> '.' !in s
    ensures r.Some? ==> r.value < |s| && s[r.value] == '.' && '.' !in s[r.value + 1..]
  {
    if s == [] then None
    else if s[|s| - 1] == '.' then Some(|s| - 1)
    else LastDot(s[..|s| - 1])
  }

  predicate AllDots(s: string) {
    forall i :: 0 <= i < |s| ==> s[i] == '.'
  }

  /**
   * `os.path.splitext(p)` for a `p` without '/': the extension is the last '.' and what follows
   * it, except when only dots precede that '.', as in ".bashrc" or "..x", which have none.
   */
  function SplitExt(p: string): (r: (string, string))
    ensures r.0 + r.1 == p
    ensures r.1 != [] ==> r.1[0] == '.' && '.' !in r.1[1..] && !AllDots(r.0)
    ensures r.1 == [] ==> forall k :: 0 <= k < |p| && p[k] == '.' && '.' !in p[k + 1..] ==> AllDots(p[..k])
  {
    match LastDot(p)
    case None => (p, [])
    case Some(k) =>
      assert p[..k] + p[k..] == p;
      if AllDots(p[..k]) then (p, []) else (p[..k], p[k..])
  }

  /** The last path segment of the URL once trailing slashes are removed. */
  function LastSegment(url: string): string {
    Basename(StripTrailingSlashes(url))
  }

  /** `os.path.splitext(os.path.basename(repo_url.rstrip('/')))[0]`. */
  function RepoName(url: string): string {
    SplitExt(LastSegment(url)).0
  }

  /**
   * The repository name is a '/'-free prefix of the URL's last segment; what it drops is
   * either nothing or exactly one extension (a '.' followed by no other '.').
   */
  lemma RepoNameShape(url: string)
    ensures '/' !in RepoName(url)
    ensures |RepoName(url)| <= |LastSegment(url)| && RepoName(url) == LastSegment(url)[..|RepoName(url)|]
    ensures var ext := LastSegment(url)[|RepoName(url)|..];
      ext == [] || (ext[0] == '.' && '.' !in ext[1..])
    ensures '.' !in LastSegment(url) ==> RepoName(url) == LastSegment(url)
  {
    var seg := LastSegment(url);
    var r := SplitExt(seg);
    assert seg == r.0 + r.1;
    assert seg[..|r.0|] == r.0 && seg[|r.0|..] == r.1;
    if '.' !in seg {
      assert LastDot(seg).None?;
    }
    forall c | c in r.0 ensures c in seg { }
  }

  /** Stripping only removes the trailing run of '/': text that does not end in '/' comes back whole. */
  lemma {:induction false} StripTrailingSlashesOf(s: string, trailing: string)
    requires s == [] || s[|s| - 1] != '/'
    requires forall i :: 0 <= i < |trailing| ==> trailing[i] == '/'
    ensures StripTrailingSlashes(s + trailing) == s
    decreases |trailing|
  {
    if trailing != [] {
      var t := trailing[..|trailing| - 1];
      assert (s + trailing)[..|s + trailing| - 1] == s + t;
      StripTrailingSlashesOf(s, t);
    } else {
      assert s + trailing == s;
    }
  }

  /** The base name of a path is the text after its last '/'. */
  lemma {:induction false} BasenameAfterSlash(dir: string, segment: string)
    requires '/' !in segment
    ensures Basename(dir + "/" + segment) == segment
    decreases |segment|
  {
    if segment != [] {
      var init := segment[..|segment| - 1];
      assert (dir + "/" + segment)[..|dir + "/" + segment| - 1] == dir + "/" + init;
      assert (dir + "/" + segment)[|dir + "/" + segment| - 1] == segment[|segment| - 1];
      BasenameAfterSlash(dir, init);
      assert init + [segment[|segment| - 1]] == segment;
    }
  }

  /** The last '.' of `stem + "." + ext` is the one before `ext` when `ext` has none. */
  lemma {:induction false} LastDotBeforeExtension(stem: string, ext: string)
    requires '.' !in ext
    ensures LastDot(stem + "." + ext) == Some(|stem|)
    decreases |ext|
  {
    if ext != [] {
      var init := ext[..|ext| - 1];
      assert (stem + "." + ext)[..|stem + "." + ext| - 1] == stem + "." + init;
      LastDotBeforeExtension(stem, init);
    }
  }

  /**
   * A URL ending in `/<stem>.<ext>` (followed by any number of '/') names the repository
   * `<stem>`, provided `stem` is not made of dots only.
   */
  lemma RepoNameDropsExtension(dir: string, stem: string, ext: string, trailing: string)
    requires '/' !in stem && '/' !in ext && '.' !in ext && !AllDots(stem)
    requires forall i :: 0 <= i < |trailing| ==> trailing[i] == '/'
    ensures RepoName(dir + "/" + stem + "." + ext + trailing) == stem
  {
    var segment := stem + "." + ext;
    NoSlashInSegment(stem, ext);
    var path := dir + "/" + segment;
    assert dir + "/" + stem + "." + ext + trailing == path + trailing;
    assert path[|path| - 1] == segment[|segment| - 1];
    StripTrailingSlashesOf(path, trailing);
    BasenameAfterSlash(dir, segment);
    assert LastSegment(path + trailing) == segment;
    SplitExtAtLastDot(stem, ext);
  }

  /** Membership in a concatenation, stated for `RepoNameDropsExtension` (a hint for the solver). */
  lemma NoSlashInSegment(stem: string, ext: string)
    requires '/' !in stem && '/' !in ext
    ensures '/' !in stem + "." + ext
  {
  }

  lemma SplitExtAtLastDot(stem: string, ext: string)
    requires '.' !in ext && !AllDots(stem)
    ensures SplitExt(stem + "." + ext) == (stem, "." + ext)
  {
    var segment := stem + "." + ext;
    LastDotBeforeExtension(stem, ext);
    assert segment[..|stem|] == stem;
    assert segment[|stem|..] == "." + ext;
  }

  /** A segment whose only '.' is its first character, like ".hidden", has no extension. */
  lemma RepoNameKeepsLeadingDot(dir: string, segment: string, trailing: string)
    requires '/' !in segment && segment != [] && segment[0] == '.' && '.' !in segment[1..]
    requires forall i :: 0 <= i < |trailing| ==> trailing[i] == '/'
    ensures RepoName(dir + "/" + segment + trailing) == segment
  {
    assert (dir + "/" + segment)[|dir + "/" + segment| - 1] == segment[|segment| - 1];
    StripTrailingSlashesOf(dir + "/" + segment, trailing);
    BasenameAfterSlash(dir, segment);
    assert LastDot(segment) == Some(0);
  }

  /** Runs `cmds` in order and stops at the first failing one: the commands run, and whether all succeeded. */
  function RunUntilFailure(cmds: seq<Event>, failing: set<Event>): (seq<Event>, bool) {
    if cmds == [] then ([], true)
    else if cmds[0] in failing then ([cmds[0]], false)
    else
      var rest := RunUntilFailure(cmds[1..], failing);
      ([cmds[0]] + rest.0, rest.1)
  }

  /**
   * The commands run are a prefix of the list; every one but the last succeeded; the run
   * succeeds exactly when it ran the whole list and none failed, and otherwise ends with the
   * failing command.
   */
  lemma {:induction false} RunUntilFailureSpec(cmds: seq<Event>, failing: set<Event>)
    ensures var r := RunUntilFailure(cmds, failing);
      && |r.0| <= |cmds| && r.0 == cmds[..|r.0|]
      && (forall k :: 0 <= k < |r.0| - 1 ==> r.0[k] !in failing)
      && (r.1 <==> r.0 == cmds && forall c :: c in cmds ==> c !in failing)
      && (!r.1 ==> r.0 != [] && r.0[|r.0| - 1] in failing)
  {
    if cmds != [] && cmds[0] !in failing {
      RunUntilFailureSpec(cmds[1..], failing);
      assert cmds == [cmds[0]] + cmds[1..];
    }
  }

  /** Running two command lists one after the other: the second runs only if the first succeeded. */
  lemma {:induction false} RunUntilFailureAppend(a: seq<Event>, b: seq<Event>, failing: set<Event>)
    ensures var ra, rb := RunUntilFailure(a, failing), RunUntilFailure(b, failing);
      RunUntilFailure(a + b, failing) == if ra.1 then (ra.0 + rb.0, rb.1) else ra
  {
    var rb := RunUntilFailure(b, failing);
    if a == [] {
      assert a + b == b;
      assert RunUntilFailure(a, failing) == ([], true);
      assert [] + rb.0 == rb.0;
    } else {
      assert (a + b)[0] == a[0];
      assert (a + b)[1..] == a[1..] + b;
      RunUntilFailureAppend(a[1..], b, failing);
      if a[0] !in failing {
        var ra := RunUntilFailure(a[1..], failing);
        assert [a[0]] + (ra.0 + rb.0) == [a[0]] + ra.0 + rb.0;
      }
    }
  }

  /**
   * The commands a sync issues when none fails: fetch, checkout and pull in an existing
   * directory or a single clone otherwise, then pip when the directory has `requirements.txt`.
   */
  function SyncPlan(url: string, tag: string, name: string, present: bool, hasRequirements: bool): seq<Event> {
    (if present then [Fetch(name), Checkout(name, tag), Pull(name, tag)] else [Clone(url, tag)])
    + (if hasRequirements then [PipInstall(name)] else [])
  }

  /** The commands run, the repository directories afterwards, and whether the process carries on. */
  datatype SyncStep = SyncStep(commands: seq<Event>, repos: set<string>, ok: bool)

  /**
   * The effect of `clone_or_update_repo` on the repository directory `name` (the caller passes
   * `name`): the plan run up to its first failure; a successful clone adds the
   * directory. `repos` holds the names of the directories present.
   */
  function Sync(url: string, tag: string, name: string, repos: set<string>, failing: set<Event>, requirements: set<string>): SyncStep {
    var run := RunUntilFailure(SyncPlan(url, tag, name, name in repos, name in requirements), failing);
    var cloned := name !in repos && Clone(url, tag) !in failing;
    SyncStep(run.0, if cloned then repos + {name} else repos, run.1)
  }

  /**
   * A sync succeeds exactly when none of its commands fails; when one fails it is the last
   * command issued, and every command before it succeeded.
   */
  lemma SyncStopsAtFirstFailure(url: string, tag: string, name: string, repos: set<string>, failing: set<Event>, requirements: set<string>)
    ensures var s := Sync(url, tag, name, repos, failing, requirements);
      && s.commands != []
      && (s.ok <==> forall c :: c in s.commands ==> c !in failing)
      && (!s.ok ==> s.commands[|s.commands| - 1] in failing)
      && forall k :: 0 <= k < |s.commands| - 1 ==> s.commands[k] !in failing
  {
    var plan := SyncPlan(url, tag, name, name in repos, name in requirements);
    RunUntilFailureSpec(plan, failing);
    var run := RunUntilFailure(plan, failing);
    assert plan != [];
    assert Sync(url, tag, name, repos, failing, requirements).commands == run.0;
  }

  /**
   * An existing directory is updated with fetch, then checkout of the tag, then pull of the
   * tag from origin, in that order and never cloned; an absent one gets a single clone at the tag.
   * Whatever follows the git commands is pip for this repository, and nothing else.
   */
  lemma {:induction false} SyncGitCommands(url: string, tag: string, name: string, repos: set<string>, failing: set<Event>, requirements: set<string>)
    ensures var s := Sync(url, tag, name, repos, failing, requirements);
      && (name in repos ==>
            && s.commands[0] == Fetch(name)
            && (|s.commands| > 1 ==> s.commands[1] == Checkout(name, tag))
            && (|s.commands| > 2 ==> s.commands[2] == Pull(name, tag))
            && |s.commands| <= 4
            && (forall k :: 3 <= k < |s.commands| ==> s.commands[k] == PipInstall(name))
            && (forall c :: c in s.commands ==> !c.Clone?)
            && s.repos == repos)
      && (name !in repos ==>
            && s.commands[0] == Clone(url, tag)
            && |s.commands| <= 2
            && (forall k :: 1 <= k < |s.commands| ==> s.commands[k] == PipInstall(name))
            && (forall c :: c in s.commands ==> !c.Fetch? && !c.Checkout? && !c.Pull?)
            && s.repos == (if s.commands[0] in failing then repos else repos + {name}))
  {
    var plan := SyncPlan(url, tag, name, name in repos, name in requirements);
    RunUntilFailureSpec(plan, failing);
    var s := Sync(url, tag, name, repos, failing, requirements);
    assert s.commands == plan[..|s.commands|];
    forall c | c in s.commands ensures c in plan {
      var k :| 0 <= k < |s.commands| && s.commands[k] == c;
      assert plan[k] == c;
    }
  }

  /**
   * pip runs only as the last command of a sync, only when the repository has
   * `requirements.txt`, and only after every git command succeeded.
   */
  lemma {:induction false} PipOnlyAfterSuccessfulSync(url: string, tag: string, name: string, repos: set<string>, failing: set<Event>, requirements: set<string>, k: nat)
    requires var s := Sync(url, tag, name, repos, failing, requirements); k < |s.commands| && s.commands[k].PipInstall?
    ensures var s := Sync(url, tag, name, repos, failing, requirements);
      && k == |s.commands| - 1
      && s.commands[k] == PipInstall(name)
      && name in requirements
      && (forall j :: 0 <= j < k ==> s.commands[j] !in failing)
      && (s.ok <==> PipInstall(name) !in failing)
  {
    var plan := SyncPlan(url, tag, name, name in repos, name in requirements);
    RunUntilFailureSpec(plan, failing);
    var s := Sync(url, tag, name, repos, failing, requirements);
    assert plan[k] == s.commands[k];
    if !s.ok {
      assert s.commands[|s.commands| - 1] in failing;
    }
  }

  /**
   * Without `requirements.txt` pip never runs; with it, pip runs exactly when the git
   * commands all succeeded.
   */
  lemma {:induction false} PipRunsIffManifestAndSynced(url: string, tag: string, name: string, repos: set<string>, failing: set<Event>, requirements: set<string>)
    ensures var s := Sync(url, tag, name, repos, failing, requirements);
      var git := if name in repos then [Fetch(name), Checkout(name, tag), Pull(name, tag)] else [Clone(url, tag)];
      PipInstall(name) in s.commands <==>
        name in requirements && forall c :: c in git ==> c !in failing
  {
    var git := if name in repos then [Fetch(name), Checkout(name, tag), Pull(name, tag)] else [Clone(url, tag)];
    var plan := SyncPlan(url, tag, name, name in repos, name in requirements);
    RunUntilFailureSpec(plan, failing);
    var s := Sync(url, tag, name, repos, failing, requirements);
    assert plan[..|git|] == git;
    if PipInstall(name) in s.commands {
      var k :| 0 <= k < |s.commands| && s.commands[k] == PipInstall(name);
      assert plan[k] == PipInstall(name);
      assert k == |git|;
      forall c | c in git ensures c !in failing {
        var j :| 0 <= j < |git| && git[j] == c;
        assert s.commands[j] == c;
      }
    }
    if name in requirements && forall c :: c in git ==> c !in failing {
      assert |s.commands| > |git|;
      assert s.commands[|git|] == PipInstall(name);
    }
  }

  /** A sync issues git and pip commands only. */
  lemma SyncIssuesOnlyCommands(url: string, tag: string, name: string, repos: set<string>, failing: set<Event>, requirements: set<string>)
    ensures forall c :: c in Sync(url, tag, name, repos, failing, requirements).commands ==> IsCommand(c)
  {
    var plan := SyncPlan(url, tag, name, name in repos, name in requirements);
    RunUntilFailureSpec(plan, failing);
    var s := Sync(url, tag, name, repos, failing, requirements);
    forall c | c in s.commands ensures IsCommand(c) {
      var k :| 0 <= k < |s.commands| && s.commands[k] == c;
      assert plan[k] == c;
    }
  }

  /**
   * Syncing the same repository a second time after a successful sync takes the update branch
   * and leaves the directories as they were.
   */
  lemma SecondSyncUpdates(url: string, tag: string, name: string, repos: set<string>, failing: set<Event>, requirements: set<string>)
    requires Sync(url, tag, name, repos, failing, requirements).ok
    ensures var s := Sync(url, tag, name, repos, failing, requirements);
      var again := Sync(url, tag, name, s.repos, failing, requirements);
      name in s.repos && again.commands[0] == Fetch(name) && again.repos == s.repos
  {
    SyncGitCommands(url, tag, name, repos, failing, requirements);
    SyncGitCommands(url, tag, name, Sync(url, tag, name, repos, failing, requirements).repos, failing, requirements);
  }
}
