/**
 * `load_plugins_from_directory(directory, recursive)`: walk a directory top-down and collect
 * a `Plugin()` instance from every `.py` file that loads and defines `Plugin`. Loading a file
 * is an oracle: it raises, or it defines no `Plugin`, or it yields a plugin.
 */
module DirectoryScan {
  import opened Wrappers
  import opened Plugins

  /** What executing a plugin file and instantiating its `Plugin` class produces. */
  datatype LoadOutcome = Raises | NoPluginClass | Defines(plugin: Plugin)

  datatype File = File(name: string, outcome: LoadOutcome)

  /** A directory: its files and its sub-directories, in listing order. */
  datatype Dir = Dir(files: seq<File>, subdirs: seq<Dir>)

  /** `filename.endswith('.py')`. */
  predicate IsPythonFile(name: string) {
    |name| >= 3 && name[|name| - 3] == '.' && name[|name| - 2] == 'p' && name[|name| - 1] == 'y'
  }

  /** A `.py` file that loads and defines `Plugin`: the only kind of file that contributes. */
  predicate Yields(f: File) {
    IsPythonFile(f.name) && f.outcome.Defines?
  }

  /** The plugins one file contributes: its instance, or nothing when it is skipped. */
  function Loaded(f: File): seq<Plugin> {
    if Yields(f) then [f.outcome.plugin] else []
  }

  /** The plugins the inner loop collects from the files of one directory, in file order. */
  function LoadedFrom(files: seq<File>): seq<Plugin> {
    if files == [] then [] else LoadedFrom(files[..|files| - 1]) + Loaded(files[|files| - 1])
  }

  /** The plugins collected over a sequence of directory listings, in listing order. */
  function Collected(listings: seq<seq<File>>): seq<Plugin> {
    if listings == [] then []
    else Collected(listings[..|listings| - 1]) + LoadedFrom(listings[|listings| - 1])
  }

  /** The `files` lists that `os.walk` yields for a directory, top-down: the directory itself first. */
  function Walk(d: Dir): seq<seq<File>>
    decreases d, 1
  {
    [d.files] + WalkAll(d.subdirs)
  }

  function WalkAll(ds: seq<Dir>): seq<seq<File>>
    decreases ds, 0
  {
    if ds == [] then [] else Walk(ds[0]) + WalkAll(ds[1..])
  }

  /** The listings the scan visits: all of them, or the top level only (the `break`). */
  function Listings(d: Dir, recursive: bool): seq<seq<File>> {
    if recursive then Walk(d) else [d.files]
  }

  /** What `load_plugins_from_directory` returns; `None` is a directory that does not exist. */
  function Scan(dir: Option<Dir>, recursive: bool): seq<Plugin> {
    match dir
    case None => []
    case Some(d) => Collected(Listings(d, recursive))
  }

  /**
   * The scan itself: an outer loop over the directories `os.walk` yields, an inner loop over
   * their files, and a `break` after the first directory when the scan is not recursive.
   */
  method ScanDirectory(dir: Option<Dir>, recursive: bool) returns (plugins: seq<Plugin>)
    ensures plugins == Scan(dir, recursive)
    ensures dir.None? ==> plugins == []
    ensures dir.Some? && !recursive ==> plugins == LoadedFrom(dir.value.files)
  {
    plugins := [];
    if dir.Some? {
      var walk := Walk(dir.value);
      var i := 0;
      while i < |walk|
        invariant 0 <= i <= |walk|
        invariant plugins == Collected(walk[..i])
        invariant !recursive ==> i == 0
      {
        var files := walk[i];
        ghost var before := plugins;
        var j := 0;
        while j < |files|
          invariant 0 <= j <= |files|
          invariant plugins == before + LoadedFrom(files[..j])
        {
          var f := files[j];
          LoadedFromStep(files, j);
          if IsPythonFile(f.name) {
            match f.outcome {
              case Defines(p) =>
                AppendAssoc(before, LoadedFrom(files[..j]), [p]);
                plugins := plugins + [p];
              case NoPluginClass =>   // logged: the file does not define a Plugin class
              case Raises =>          // logged: error loading the plugin
            }
          }
          j := j + 1;
        }
        assert files[..j] == files;
        CollectedStep(walk, i);
        i := i + 1;
        if !recursive {
          assert walk[..i] == [dir.value.files];
          break;
        }
      }
      assert recursive ==> walk[..i] == walk;
    }
  }

  lemma LoadedFromStep(files: seq<File>, j: nat)
    requires j < |files|
    ensures LoadedFrom(files[..j + 1]) == LoadedFrom(files[..j]) + Loaded(files[j])
  {
    assert files[..j + 1][..j] == files[..j];
  }

  lemma CollectedStep(listings: seq<seq<File>>, i: nat)
    requires i < |listings|
    ensures Collected(listings[..i + 1]) == Collected(listings[..i]) + LoadedFrom(listings[i])
  {
    assert listings[..i + 1][..i] == listings[..i];
  }

  /** Associativity of concatenation, stated for the loop proof of `ScanDirectory` (a hint for the solver). */
  lemma AppendAssoc(a: seq<Plugin>, b: seq<Plugin>, c: seq<Plugin>)
    ensures a + b + c == a + (b + c)
  {
  }

  /** Collecting from two runs of files one after the other gives the two results in order. */
  lemma {:induction false} LoadedFromAppend(a: seq<File>, b: seq<File>)
    ensures LoadedFrom(a + b) == LoadedFrom(a) + LoadedFrom(b)
    decreases |b|
  {
    if b != [] {
      var b' := b[..|b| - 1];
      assert (a + b)[..|a + b| - 1] == a + b';
      assert (a + b)[|a + b| - 1] == b[|b| - 1];
      LoadedFromAppend(a, b');
      calc {
        LoadedFrom(a + b);
        LoadedFrom(a + b') + Loaded(b[|b| - 1]);
        LoadedFrom(a) + LoadedFrom(b') + Loaded(b[|b| - 1]);
      }
    } else {
      assert a + b == a;
    }
  }

  /**
   * A file that raises, defines no `Plugin`, or is not a `.py` file is skipped without
   * affecting the files before or after it.
   */
  lemma SkippedFileIsolated(before: seq<File>, f: File, after: seq<File>)
    requires !Yields(f)
    ensures LoadedFrom(before + [f] + after) == LoadedFrom(before) + LoadedFrom(after)
  {
    var bf := before + [f];
    LoadedFromAppend(bf, after);
    assert bf[..|bf| - 1] == before && bf[|bf| - 1] == f;
    assert LoadedFrom(bf) == LoadedFrom(before) + [];
    assert LoadedFrom(before) + [] == LoadedFrom(before);
  }

  /** A plugin is collected from a directory exactly when some `.py` file there yields it. */
  lemma {:induction false} LoadedFromMembership(files: seq<File>, p: Plugin)
    ensures p in LoadedFrom(files) <==>
      exists f :: f in files && IsPythonFile(f.name) && f.outcome == Defines(p)
  {
    if files != [] {
      var init, last := files[..|files| - 1], files[|files| - 1];
      LoadedFromMembership(init, p);
      assert files == init + [last];
      if exists f :: f in files && IsPythonFile(f.name) && f.outcome == Defines(p) {
        var f :| f in files && IsPythonFile(f.name) && f.outcome == Defines(p);
        if f != last {
          assert f in init;
        }
      }
    }
  }

  /** The number of plugins a directory contributes is the number of `.py` files that yield one. */
  lemma {:induction false} LoadedFromCount(files: seq<File>)
    ensures |LoadedFrom(files)| == |YieldingIndices(files)|
  {
    if files != [] {
      var n := |files| - 1;
      LoadedFromCount(files[..n]);
      YieldingIndicesStep(files);
    }
  }

  /** Adding a file adds its position exactly when it contributes. */
  lemma YieldingIndicesStep(files: seq<File>)
    requires files != []
    ensures var n := |files| - 1;
      && n !in YieldingIndices(files[..n])
      && YieldingIndices(files) == YieldingIndices(files[..n]) + (if Yields(files[n]) then {n} else {})
  {
    var n := |files| - 1;
    var before, now := YieldingIndices(files[..n]), YieldingIndices(files);
    var last: set<nat> := if Yields(files[n]) then {n} else {};
    forall i: nat ensures i in now <==> i in before + last {
      if i < n { assert files[..n][i] == files[i]; }
    }
  }

  /** The positions of the files that contribute a plugin. */
  function YieldingIndices(files: seq<File>): set<nat> {
    set i: nat | i < |files| && Yields(files[i])
  }

  /**
   * A recursive scan yields a plugin exactly when some `.py` file in some directory that the
   * walk visits yields it; a flat scan looks at the top-level files only.
   */
  lemma {:induction false} CollectedMembership(listings: seq<seq<File>>, p: Plugin)
    ensures p in Collected(listings) <==>
      exists i, f :: 0 <= i < |listings| && f in listings[i] && IsPythonFile(f.name) && f.outcome == Defines(p)
  {
    if listings != [] {
      var n := |listings| - 1;
      CollectedMembership(listings[..n], p);
      LoadedFromMembership(listings[n], p);
      if exists i, f :: 0 <= i < |listings| && f in listings[i] && IsPythonFile(f.name) && f.outcome == Defines(p) {
        var i, f :| 0 <= i < |listings| && f in listings[i] && IsPythonFile(f.name) && f.outcome == Defines(p);
        if i < n {
          assert listings[..n][i] == listings[i];
        }
      }
      if exists i, f :: 0 <= i < n && f in listings[..n][i] && IsPythonFile(f.name) && f.outcome == Defines(p) {
        var i, f :| 0 <= i < n && f in listings[..n][i] && IsPythonFile(f.name) && f.outcome == Defines(p);
        assert listings[i] == listings[..n][i];
      }
    }
  }

  /** An empty directory, scanned flat or recursively, yields nothing. */
  lemma EmptyDirectoryScan(recursive: bool)
    ensures Scan(Some(Dir([], [])), recursive) == []
  {
    assert Walk(Dir([], [])) == [[]];
    assert Collected([[]]) == Collected([]) + LoadedFrom([]);
  }
}
