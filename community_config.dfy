/**
 * The community-plugin loop of `load_plugins`: walk the entries of `community-plugins` in
 * configuration order, skip the inactive ones, and for each active one either request a sync
 * of its repository at its tag (default "master") or, when it names no repository, stop the
 * process. The plan is the list of syncs requested before that stop.
 */
module CommunityConfig {
  import opened Wrappers

  /** One entry under `community-plugins`; None marks a key that is absent. */
  datatype CommunityEntry = CommunityEntry(active: Option<bool>, repository: Option<string>, tag: Option<string>)

  /** The part of the configuration the loader reads; None when `community-plugins` is absent. */
  datatype Config = Config(communityPlugins: Option<seq<CommunityEntry>>)

  const DefaultTag: string := "master"

  /** `config.get('community-plugins', {}).values()`, in configuration order. */
  function Entries(config: Config): seq<CommunityEntry> {
    config.communityPlugins.GetOr([])
  }

  /** `plugin_info.get('active', False)` is truthy. */
  predicate EntryActive(e: CommunityEntry) {
    e.active == Some(true)
  }

  /** `plugin_info.get('repository')` is truthy: present and not the empty string. */
  predicate HasRepository(e: CommunityEntry) {
    e.repository.Some? && e.repository.value != ""
  }

  /** `plugin_info.get('tag', 'master')`. */
  function TagOf(e: CommunityEntry): string {
    e.tag.GetOr(DefaultTag)
  }

  datatype SyncRequest = SyncRequest(url: string, tag: string)

  /** The syncs requested, and whether the loop stopped at an active entry without a repository. */
  datatype Plan = Plan(requests: seq<SyncRequest>, missingRepository: bool)

  function RequestFor(e: CommunityEntry): SyncRequest
    requires HasRepository(e)
  {
    SyncRequest(e.repository.value, TagOf(e))
  }

  /** The plan of the loop over `es`; once an entry without repository is met, later entries are ignored. */
  function CommunityPlan(es: seq<CommunityEntry>): Plan {
    if es == [] then Plan([], false)
    else
      var prev := CommunityPlan(es[..|es| - 1]);
      var e := es[|es| - 1];
      if prev.missingRepository || !EntryActive(e) then prev
      else if HasRepository(e) then Plan(prev.requests + [RequestFor(e)], false)
      else Plan(prev.requests, true)
  }

  /** The index of the first active entry without a repository, or |es| when there is none. */
  function FirstMissing(es: seq<CommunityEntry>): (m: nat)
    ensures m <= |es|
    ensures m < |es| ==> EntryActive(es[m]) && !HasRepository(es[m])
    ensures forall i :: 0 <= i < m ==> !EntryActive(es[i]) || HasRepository(es[i])
  {
    if es == [] then 0
    else if EntryActive(es[0]) && !HasRepository(es[0]) then 0
    else 1 + FirstMissing(es[1..])
  }

  /** The positions of the entries whose repositories the plan syncs, in increasing order. */
  function SyncedIndices(es: seq<CommunityEntry>): seq<nat> {
    if es == [] then []
    else
      var prev := SyncedIndices(es[..|es| - 1]);
      var e := es[|es| - 1];
      if CommunityPlan(es[..|es| - 1]).missingRepository || !EntryActive(e) || !HasRepository(e) then prev
      else prev + [|es| - 1]
  }

  /** The loop is fatal exactly when some active entry has no repository. */
  lemma {:induction false} PlanFatalIffMissingRepository(es: seq<CommunityEntry>)
    ensures CommunityPlan(es).missingRepository <==> FirstMissing(es) < |es|
  {
    if es != [] {
      var n := |es| - 1;
      PlanFatalIffMissingRepository(es[..n]);
      FirstMissingOfPrefix(es, n);
    }
  }

  /**
   * Request j of the plan is for the entry at `SyncedIndices(es)[j]`: an active entry with a
   * repository, before the first entry without one, synced at its tag ("master" when absent).
   */
  lemma {:induction false} PlanRequestsByIndex(es: seq<CommunityEntry>)
    ensures var reqs, idx := CommunityPlan(es).requests, SyncedIndices(es);
      && |reqs| == |idx|
      && forall j :: 0 <= j < |idx| ==>
           idx[j] < FirstMissing(es) && EntryActive(es[idx[j]]) && HasRepository(es[idx[j]])
           && reqs[j] == SyncRequest(es[idx[j]].repository.value, TagOf(es[idx[j]]))
  {
    if es != [] {
      var n := |es| - 1;
      var init := es[..n];
      PlanRequestsByIndex(init);
      FirstMissingOfPrefix(es, n);
      PlanFatalIffMissingRepository(init);
      var idx := SyncedIndices(init);
      forall j | 0 <= j < |idx| ensures idx[j] < n && init[idx[j]] == es[idx[j]] { }
    }
  }

  /**
   * Every active entry before the first one without a repository is synced, once and in
   * configuration order.
   */
  lemma {:induction false} PlanSyncsEveryActiveEntry(es: seq<CommunityEntry>)
    ensures var idx := SyncedIndices(es);
      && (forall i :: 0 <= i < FirstMissing(es) && EntryActive(es[i]) ==> i in idx)
      && (forall j, k :: 0 <= j < k < |idx| ==> idx[j] < idx[k])
  {
    if es != [] {
      var n := |es| - 1;
      var init := es[..n];
      PlanSyncsEveryActiveEntry(init);
      PlanRequestsByIndex(init);
      FirstMissingOfPrefix(es, n);
      PlanFatalIffMissingRepository(init);
      forall i | 0 <= i < FirstMissing(es) && EntryActive(es[i]) ensures i in SyncedIndices(es) {
        if i < n {
          assert init[i] == es[i];
        }
      }
    }
  }

  /** The first missing entry of a prefix is the first missing entry of the whole list, or the prefix's end. */
  lemma FirstMissingOfPrefix(es: seq<CommunityEntry>, n: nat)
    requires n <= |es|
    ensures FirstMissing(es[..n]) == if FirstMissing(es) < n then FirstMissing(es) else n
  {
    var m, p := FirstMissing(es), FirstMissing(es[..n]);
    assert forall i :: 0 <= i < n ==> es[..n][i] == es[i];
    if p < n {
      assert EntryActive(es[p]) && !HasRepository(es[p]);
    }
  }

  /** Without a `community-plugins` key nothing is synced and nothing is fatal. */
  lemma NoCommunityKeyNoSyncs(config: Config)
    requires config.communityPlugins.None?
    ensures CommunityPlan(Entries(config)) == Plan([], false)
  {
  }

  /**
   * Extending the entry list keeps the plan of the prefix: its requests come first, and once
   * the prefix has hit an entry without repository nothing after it counts.
   */
  lemma {:induction false} CommunityPlanPrefix(es: seq<CommunityEntry>, n: nat)
    requires n <= |es|
    ensures var p, q := CommunityPlan(es[..n]), CommunityPlan(es);
      && |p.requests| <= |q.requests| && q.requests[..|p.requests|] == p.requests
      && (p.missingRepository ==> q == p)
    decreases |es| - n
  {
    if n < |es| {
      var init := es[..|es| - 1];
      assert init[..n] == es[..n];
      CommunityPlanPrefix(init, n);
    } else {
      assert es[..n] == es;
    }
  }
}
