/**
 * The externally visible effects of building the plugin registry, in the order they happen:
 * reading the configuration, scanning a plugin directory (which executes the plugin files),
 * running a git or pip command, and calling a plugin's `start()`.
 */
module Events {
  import opened Plugins

  /** `plugins/custom` (scanned flat) and `plugins/community` (scanned recursively). */
  datatype PluginDir = CustomDir | CommunityDir

  datatype Event =
    | ReadConfig
    | Scanned(dir: PluginDir)
    | Fetch(repo: string)                 // git -C <repo> fetch
    | Checkout(repo: string, tag: string) // git -C <repo> checkout <tag>
    | Pull(repo: string, tag: string)     // git -C <repo> pull origin <tag>
    | Clone(url: string, tag: string)     // git clone --branch <tag> <url>
    | PipInstall(repo: string)            // pip install -r <repo>/requirements.txt
    | Started(plugin: Plugin)             // plugin.start()

  /** The events that are subprocess invocations. */
  predicate IsCommand(e: Event) {
    e.Fetch? || e.Checkout? || e.Pull? || e.Clone? || e.PipInstall?
  }

  /** One `Started` event per plugin of `ps`, in order. */
  function StartEvents(ps: seq<Plugin>): seq<Event> {
    if ps == [] then [] else StartEvents(ps[..|ps| - 1]) + [Started(ps[|ps| - 1])]
  }

  /** Starting a list of plugins starts each one exactly once, in list order, and runs no command. */
  lemma {:induction false} StartEventsExact(ps: seq<Plugin>)
    ensures |StartEvents(ps)| == |ps|
    ensures forall j :: 0 <= j < |ps| ==> StartEvents(ps)[j] == Started(ps[j])
  {
    if ps != [] {
      StartEventsExact(ps[..|ps| - 1]);
    }
  }
}
