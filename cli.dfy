/**
 The body of the command line tool: registering lists and configured
 feeds, the three reconciliation loops, and the loop that hands updated
 feeds to their actions. Every loop walks a snapshot of `get_feeds(...)`
 taken before the loop starts, while it changes the store.
 */
module Cli {
  import opened Wrappers
  import opened Tags
  import opened FeedStore
  import opened Actions
  import opened Reconcile
  import opened Dispatch

  // --------------------------------------------------------- add_list

  /** `add_list`: adds the list feed, tags it `list` and disables its
      updates. `existed` stands for the `FeedExistsError` that `add_feed`
      raises before anything changes. */
  method AddList(reader: Reader, url: string) returns (existed: bool)
    modifies reader
    ensures existed == (url in old(reader.feeds))
    ensures existed ==> reader.feeds == old(reader.feeds)
    ensures !existed ==> reader.feeds == old(reader.feeds)[url := FeedState({ListTag}, false)]
  {
    existed := reader.AddFeed(url);
    if existed {
      return;
    }
    var found := reader.AddTag(url, ListTag);
    assert found;
    found := reader.DisableUpdates(url);
    assert found;
    assert {} + {ListTag} == {ListTag};
  }

  // ------------------------------------------------------ delete_list

  /** `delete_list`: deletes every feed tagged with the list's provenance
      tag, then the list feed itself. `ok` is false where that final
      `delete_feed` raises because the list is gone by then (never there,
      or tagged with its own provenance); the deletions are done either way. */
  method DeleteList(reader: Reader, url: string) returns (ok: bool)
    modifies reader
    ensures reader.feeds == old(reader.feeds) - {url} - WithAllTags(old(reader.feeds), {ProvenanceTag(url)})
    ensures ok == (url in old(reader.feeds) && ProvenanceTag(url) !in old(reader.feeds)[url].tags)
  {
    var tagged := reader.FeedsWithAllTags({ProvenanceTag(url)});
    ghost var m0 := reader.feeds;
    for i := 0 to |tagged|
      invariant reader.feeds == map u | u in m0 && u !in tagged[..i] :: m0[u]
    {
      assert tagged[i] !in tagged[..i];
      var found := reader.DeleteFeed(tagged[i]);
      assert found;
      assert tagged[..i + 1] == tagged[..i] + [tagged[i]];
    }
    assert tagged[..|tagged|] == tagged;
    ok := reader.DeleteFeed(url);
  }

  // -------------------------------------------------- configuration

  /** The first loop of `main`: each configured list is registered with
      `add_list`, each other feed with `add_feed`, swallowing
      `FeedExistsError`, and every entry goes into the action map. */
  method RegisterConfig(reader: Reader, config: seq<FeedAction>) returns (actions: map<string, FeedAction>)
    modifies reader
    ensures actions == ActionMap(config)
    ensures reader.feeds == Registered(old(reader.feeds), config)
  {
    actions := map[];
    ghost var m0 := reader.feeds;
    for i := 0 to |config|
      invariant actions == ActionMap(config[..i])
      invariant reader.feeds == Registered(m0, config[..i])
    {
      var entry := config[i];
      var existed;
      if entry.kind == Opml {
        existed := AddList(reader, entry.feedUrl);
      } else {
        existed := reader.AddFeed(entry.feedUrl);
      }
      actions := actions[entry.feedUrl := entry];
      assert config[..i + 1][..i] == config[..i];
    }
    assert config[..|config|] == config;
  }

  // --------------------------------------------------- reconciliation

  /** The mark loop: every `from-list` feed gets the marker. */
  method MarkStale(reader: Reader)
    modifies reader
    ensures reader.feeds == Mark(old(reader.feeds))
  {
    var derived := reader.FeedsWithAllTags({FromList});
    ghost var m0 := reader.feeds;
    for i := 0 to |derived|
      invariant reader.feeds.Keys == m0.Keys
      invariant forall u :: u in m0 ==> reader.feeds[u] == if u in derived[..i] then Mark(m0)[u] else m0[u]
    {
      assert derived[i] !in derived[..i];
      var found := reader.AddTag(derived[i], Marker);
      assert found;
      assert derived[..i + 1] == derived[..i] + [derived[i]];
    }
    assert derived[..|derived|] == derived;
  }

  /** The refresh loop: for every list feed, every member is added if new,
      tagged `from-list` and with the list's provenance tag, and loses the
      marker. A list whose membership is unknown stands for a failing
      `listparser` call, whose exception ends the run: `ok` is false and
      `done` holds the lists processed before it. */
  method RefreshLists(reader: Reader, members: map<string, seq<string>>) returns (ok: bool, ghost done: set<string>)
    modifies reader
    ensures ok <==> ListFeeds(old(reader.feeds)) <= members.Keys
    ensures done <= ListFeeds(old(reader.feeds)) && (ok ==> done == ListFeeds(old(reader.feeds)))
    ensures reader.feeds == Confirm(old(reader.feeds), PairsOf(done, members))
  {
    var lists := reader.FeedsWithAllTags({ListTag});
    ghost var m0 := reader.feeds;
    done := {};
    var i := 0;
    while i < |lists|
      invariant 0 <= i <= |lists|
      invariant forall l :: l in done <==> l in lists[..i]
      invariant done <= members.Keys
      invariant reader.feeds == Confirm(m0, PairsOf(done, members))
    {
      var l := lists[i];
      if l !in members {
        return false, done;
      }
      var ms := members[l];
      ConfirmMembers(reader, l, ms, m0, PairsOf(done, members));
      PairsOfInsert(done, l, members);
      done := done + {l};
      assert lists[..i + 1] == lists[..i] + [l];
      i := i + 1;
    }
    assert lists[..|lists|] == lists;
    ok := true;
  }

  /** The inner loop of the refresh loop, over the members `ms` of list `l`. */
  method ConfirmMembers(reader: Reader, l: string, ms: seq<string>, ghost m0: Store, ghost before: set<Pair>)
    requires reader.feeds == Confirm(m0, before)
    modifies reader
    ensures reader.feeds == Confirm(m0, before + MemberPairs(l, ms))
  {
    assert before + MemberPairs(l, ms[..0]) == before;
    for j := 0 to |ms|
      invariant reader.feeds == Confirm(m0, before + MemberPairs(l, ms[..j]))
    {
      ConfirmMember(reader, l, ms[j]);
      ConfirmStep(m0, before + MemberPairs(l, ms[..j]), l, ms[j]);
      MemberPairsStep(l, ms, j);
      assert before + MemberPairs(l, ms[..j + 1]) == before + MemberPairs(l, ms[..j]) + {(l, ms[j])};
    }
    MemberPairsAll(l, ms);
  }

  /** The body of the inner refresh loop for member `u` of list `l`. */
  method ConfirmMember(reader: Reader, l: string, u: string)
    modifies reader
    ensures reader.feeds == ConfirmOne(old(reader.feeds), l, u)
  {
    var existed := reader.AddFeed(u);
    var found := reader.AddTag(u, FromList);
    assert found;
    found := reader.AddTag(u, ProvenanceTag(l));
    assert found;
    found := reader.RemoveTag(u, Marker);
    assert found;
  }

  /** The delete loop: every feed still carrying `from-list` and the marker
      is deleted. */
  method DeleteStale(reader: Reader)
    modifies reader
    ensures reader.feeds == Sweep(old(reader.feeds))
  {
    var stale := reader.FeedsWithAllTags({FromList, Marker});
    ghost var m0 := reader.feeds;
    for i := 0 to |stale|
      invariant reader.feeds == map u | u in m0 && u !in stale[..i] :: m0[u]
    {
      assert stale[i] !in stale[..i];
      var found := reader.DeleteFeed(stale[i]);
      assert found;
      assert stale[..i + 1] == stale[..i] + [stale[i]];
    }
    assert stale[..|stale|] == stale;
  }

  /** Mark, refresh and delete in sequence. When a list cannot be resolved
      the run stops after the lists already processed and nothing is
      deleted. */
  method ReconcileFeeds(reader: Reader, members: map<string, seq<string>>) returns (ok: bool, ghost done: set<string>)
    modifies reader
    ensures ok <==> ListFeeds(old(reader.feeds)) <= members.Keys
    ensures ok ==> reader.feeds == Reconciled(old(reader.feeds), members)
    ensures !ok ==> done <= ListFeeds(old(reader.feeds))
    ensures !ok ==> reader.feeds == Confirm(Mark(old(reader.feeds)), PairsOf(done, members))
  {
    ListFeedsOfMark(reader.feeds);
    MarkStale(reader);
    ok, done := RefreshLists(reader, members);
    if ok {
      DeleteStale(reader);
    }
  }

  // --------------------------------------------------------- dispatch

  /** The `for tag in tags: ... break / else: continue` scan: the list URL
      of the first provenance tag met, in an unspecified order, or `None`
      when no tag matches. */
  method FindListKey(tags: set<string>) returns (key: Option<string>)
    ensures key.None? <==> !HasListKey(tags)
    ensures key.Some? ==> exists t :: t in tags && MatchProvenance(t) == key
  {
    var rest := tags;
    while rest != {}
      invariant rest <= tags
      invariant forall t :: t in tags - rest ==> MatchProvenance(t).None?
      decreases rest
    {
      var t :| t in rest;
      var m := MatchProvenance(t);
      if m.Some? {
        return m;
      }
      rest := rest - {t};
    }
    return None;
  }

  /** The action an updated feed with these tags is handed to, if any. */
  method ResolveAction(tags: set<string>, url: string, actions: map<string, FeedAction>) returns (o: Option<FeedAction>)
    ensures AllowedOutcome(tags, url, actions, o)
  {
    if FromList in tags {
      var key := FindListKey(tags);
      match key
      case None =>
        o := None;
      case Some(listUrl) =>
        o := Lookup(actions, listUrl);
    } else {
      o := Lookup(actions, url);
    }
  }

  /** The dispatch loop over the update stream, reading tags from the store
      `feeds`. */
  method DispatchUpdates(feeds: map<string, FeedState>, results: seq<UpdateResult>, actions: map<string, FeedAction>)
    returns (invocations: seq<Invocation>, completed: bool, ghost processed: nat, ghost origin: seq<nat>)
    ensures Dispatched(feeds, results, actions, invocations, completed, processed, origin)
  {
    invocations, origin := [], [];
    var i := 0;
    while i < |results|
      invariant 0 <= i <= |results|
      invariant forall j :: 0 <= j < i && results[j].Updated? ==> results[j].url in feeds
      invariant |origin| == |invocations|
      invariant forall k :: 0 <= k < |origin| ==>
        origin[k] < i && results[origin[k]].Updated? && invocations[k].url == results[origin[k]].url
      invariant forall k :: 0 <= k < |origin| ==>
        invocations[k].url in feeds &&
        AllowedOutcome(feeds[invocations[k].url].tags, invocations[k].url, actions, Some(invocations[k].action))
      invariant forall k, k' :: 0 <= k < k' < |origin| ==> origin[k] < origin[k']
      invariant forall j :: 0 <= j < i && results[j].Updated? && j !in origin ==>
        results[j].url in feeds && AllowedOutcome(feeds[results[j].url].tags, results[j].url, actions, None)
    {
      if results[i].Updated? {
        var url := results[i].url;
        if url !in feeds {
          return invocations, false, i, origin;
        }
        var o := ResolveAction(feeds[url].tags, url, actions);
        if o.Some? {
          invocations := invocations + [Invocation(o.value, url)];
          origin := origin + [i];
        }
      }
      i := i + 1;
    }
    completed, processed := true, |results|;
  }

  // ------------------------------------------------------------- main

  /** `main` after the configuration is loaded: register the configured
      feeds and lists, reconcile, then dispatch the update stream `results`
      that the store produces for the reconciled feeds. A list that cannot
      be resolved ends the run before anything is deleted or dispatched. */
  method Run(reader: Reader, config: seq<FeedAction>, members: map<string, seq<string>>, results: seq<UpdateResult>)
    returns (invocations: seq<Invocation>, completed: bool, ghost processed: nat, ghost origin: seq<nat>,
             ghost done: set<string>)
    modifies reader
    ensures var registered := Registered(old(reader.feeds), config);
      if ListFeeds(registered) <= members.Keys then
        && reader.feeds == Reconciled(registered, members)
        && Dispatched(reader.feeds, results, ActionMap(config), invocations, completed, processed, origin)
      else
        && invocations == [] && !completed
        && done <= ListFeeds(registered)
        && reader.feeds == Confirm(Mark(registered), PairsOf(done, members))
  {
    var actions := RegisterConfig(reader, config);
    var ok;
    ok, done := ReconcileFeeds(reader, members);
    if !ok {
      return [], false, 0, [], done;
    }
    invocations, completed, processed, origin := DispatchUpdates(reader.feeds, results, actions);
  }
}
