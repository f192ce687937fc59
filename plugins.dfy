/**
 * The plugin record and the activation gate of `load_plugins`: only plugins whose own
 * `config["active"]` is true are kept, and each kept plugin's `priority` is replaced by
 * `config["priority"]` when that key is present.
 */
module Plugins {
  import opened Wrappers

  /**
   * A plugin instance as the loader sees it.
   *  - active:      `config["active"]`, None when the key is absent (read as false)
   *  - cfgPriority: `config["priority"]`, None when the key is absent
   *  - priority:    the plugin's own `priority` attribute
   *  - startFails:  whether calling `start()` raises
   */
  datatype Plugin = Plugin(active: Option<bool>, cfgPriority: Option<int>, priority: int, startFails: bool)

  /** `plugin.config.get("active", False)` is truthy. */
  predicate IsActive(p: Plugin) {
    p.active == Some(true)
  }

  /** `plugin.priority = plugin.config.get("priority", plugin.priority)`. */
  function WithConfiguredPriority(p: Plugin): Plugin {
    p.(priority := p.cfgPriority.GetOr(p.priority))
  }

  /**
   * The list `active_plugins` that the filter loop of `load_plugins` builds from the
   * candidates: the active ones, in candidate order, each with its configured priority.
   */
  function ActivePlugins(cs: seq<Plugin>): seq<Plugin> {
    if cs == [] then []
    else
      var rest := ActivePlugins(cs[..|cs| - 1]);
      var c := cs[|cs| - 1];
      if IsActive(c) then rest + [WithConfiguredPriority(c)] else rest
  }

  /** The positions in `cs` of the active candidates, in increasing order. */
  function ActiveIndices(cs: seq<Plugin>): seq<nat> {
    if cs == [] then []
    else
      var rest := ActiveIndices(cs[..|cs| - 1]);
      if IsActive(cs[|cs| - 1]) then rest + [|cs| - 1] else rest
  }

  /** Each position is listed once, in increasing order, and exactly the active candidates are listed. */
  lemma {:induction false} ActiveIndicesExact(cs: seq<Plugin>)
    ensures forall j :: 0 <= j < |ActiveIndices(cs)| ==>
      ActiveIndices(cs)[j] < |cs| && IsActive(cs[ActiveIndices(cs)[j]])
    ensures forall i :: 0 <= i < |cs| && IsActive(cs[i]) ==> i in ActiveIndices(cs)
    ensures forall j, k :: 0 <= j < k < |ActiveIndices(cs)| ==> ActiveIndices(cs)[j] < ActiveIndices(cs)[k]
  {
    if cs != [] {
      var init := cs[..|cs| - 1];
      ActiveIndicesExact(init);
      forall i | 0 <= i < |cs| && IsActive(cs[i]) ensures i in ActiveIndices(cs) {
        if i < |cs| - 1 {
          assert cs[i] == init[i];
        }
      }
    }
  }

  /**
   * The kept list holds, at position j, the j-th active candidate with its configured
   * priority: nothing inactive, nothing twice, nothing reordered.
   */
  lemma {:induction false} ActivePluginsByIndex(cs: seq<Plugin>)
    ensures |ActivePlugins(cs)| == |ActiveIndices(cs)|
    ensures forall j :: 0 <= j < |ActivePlugins(cs)| ==>
      ActiveIndices(cs)[j] < |cs| &&
      ActivePlugins(cs)[j] == WithConfiguredPriority(cs[ActiveIndices(cs)[j]])
  {
    if cs != [] {
      var init := cs[..|cs| - 1];
      ActivePluginsByIndex(init);
      ActiveIndicesExact(init);
      forall j | 0 <= j < |ActivePlugins(init)|
        ensures ActiveIndices(init)[j] < |cs| && init[ActiveIndices(init)[j]] == cs[ActiveIndices(init)[j]]
      {
      }
    }
  }

  /**
   * A candidate is kept exactly when it is active; every kept plugin is active, so a plugin
   * whose own configuration is inactive never reaches the result.
   */
  lemma ActivePluginsMembership(cs: seq<Plugin>)
    ensures forall q :: q in ActivePlugins(cs) ==> IsActive(q)
    ensures forall q :: q in ActivePlugins(cs) <==>
      exists i :: 0 <= i < |cs| && IsActive(cs[i]) && q == WithConfiguredPriority(cs[i])
  {
    ActivePluginsByIndex(cs);
    ActiveIndicesExact(cs);
    var A, I := ActivePlugins(cs), ActiveIndices(cs);
    forall q ensures q in A <==> exists i :: 0 <= i < |cs| && IsActive(cs[i]) && q == WithConfiguredPriority(cs[i]) {
      if q in A {
        var j :| 0 <= j < |A| && A[j] == q;
        assert IsActive(cs[I[j]]);
      }
      if exists i :: 0 <= i < |cs| && IsActive(cs[i]) && q == WithConfiguredPriority(cs[i]) {
        var i :| 0 <= i < |cs| && IsActive(cs[i]) && q == WithConfiguredPriority(cs[i]);
        assert i in I;
        var j :| 0 <= j < |I| && I[j] == i;
        assert A[j] == q;
      }
    }
  }
}
