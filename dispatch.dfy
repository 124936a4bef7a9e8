/**
 What the update dispatch owes each entry of the update stream: which
 action, if any, an updated feed is handed to.
 */
module Dispatch {
  import opened Wrappers
  import opened Tags
  import opened Actions
  import FeedStore
  import Reconcile

  /** One entry of `update_feeds_iter()`: not modified (`None`), an
      exception, or an updated feed. */
  datatype UpdateResult = Unchanged(url: string) | Error(url: string) | Updated(url: string)

  /** One run of an action's command for the feed at `url`. */
  datatype Invocation = Invocation(action: FeedAction, url: string)

  /** `feeds.get(key)`. */
  function Lookup(actions: map<string, FeedAction>, key: string): Option<FeedAction>
  {
    if key in actions then Some(actions[key]) else None
  }

  /** Some tag of `tags` matches the provenance pattern. */
  ghost predicate HasListKey(tags: set<string>)
  {
    exists t :: t in tags && MatchProvenance(t).Some?
  }

  /** The actions an updated feed with these tags may be handed to, `None`
      standing for "no action runs". A feed without `from-list` is looked
      up by its own URL. A `from-list` feed is looked up by the list URL of
      one of its provenance tags; tags are a set, so which one is not
      determined. A `from-list` feed without a provenance tag is skipped. */
  ghost predicate AllowedOutcome(tags: set<string>, url: string, actions: map<string, FeedAction>, o: Option<FeedAction>)
  {
    if FromList !in tags then o == Lookup(actions, url)
    else if !HasListKey(tags) then o == None
    else exists t :: t in tags && MatchProvenance(t).Some? && o == Lookup(actions, MatchProvenance(t).value)
  }

  /** What the dispatch loop owes the update stream `results`, read against
      the store `feeds`: entry `origin[k]` caused invocation `k`; only
      updated entries cause one, each at most one, in stream order, with an
      allowed action; an updated entry causing none has `None` allowed. An
      updated URL missing from the store makes `get_feed` raise, ending the
      loop at entry `processed`. */
  ghost predicate Dispatched(feeds: map<string, FeedStore.FeedState>, results: seq<UpdateResult>,
                             actions: map<string, FeedAction>, invocations: seq<Invocation>,
                             completed: bool, processed: nat, origin: seq<nat>)
  {
    && processed <= |results|
    && (completed <==> processed == |results|)
    && (completed <==> forall i :: 0 <= i < |results| && results[i].Updated? ==> results[i].url in feeds)
    && (!completed ==> results[processed].Updated? && results[processed].url !in feeds)
    && |origin| == |invocations|
    && (forall k :: 0 <= k < |origin| ==>
          origin[k] < processed && results[origin[k]].Updated? && invocations[k].url == results[origin[k]].url)
    && (forall k :: 0 <= k < |origin| ==>
          invocations[k].url in feeds &&
          AllowedOutcome(feeds[invocations[k].url].tags, invocations[k].url, actions, Some(invocations[k].action)))
    && (forall k, k' :: 0 <= k < k' < |origin| ==> origin[k] < origin[k'])
    && (forall i :: 0 <= i < processed && results[i].Updated? && i !in origin ==>
          results[i].url in feeds && AllowedOutcome(feeds[results[i].url].tags, results[i].url, actions, None))
  }

  /** What a dispatch promises without its bookkeeping: it completes
      exactly when every updated URL is in the store, and every invocation
      is for an updated feed of the store, with an action allowed for it. */
  lemma DispatchedInvocations(feeds: map<string, FeedStore.FeedState>, results: seq<UpdateResult>,
                              actions: map<string, FeedAction>, invocations: seq<Invocation>,
                              completed: bool, processed: nat, origin: seq<nat>)
    requires Dispatched(feeds, results, actions, invocations, completed, processed, origin)
    ensures completed <==> forall i :: 0 <= i < |results| && results[i].Updated? ==> results[i].url in feeds
    ensures forall k :: 0 <= k < |invocations| ==>
      Updated(invocations[k].url) in results && invocations[k].url in feeds &&
      AllowedOutcome(feeds[invocations[k].url].tags, invocations[k].url, actions, Some(invocations[k].action))
  {
    forall k | 0 <= k < |invocations|
      ensures Updated(invocations[k].url) in results
    {
      assert results[origin[k]] == Updated(invocations[k].url);
    }
  }

  /** A feed that a single list accounts for is handed to that list's
      action, and to nothing when the list has no action. */
  lemma SoleListDispatch(tags: set<string>, url: string, actions: map<string, FeedAction>, listUrl: string, o: Option<FeedAction>)
    requires FromList in tags && ProvenanceTag(listUrl) in tags
    requires listUrl != [] && '\n' !in listUrl
    requires forall t :: t in tags && MatchProvenance(t).Some? ==> t == ProvenanceTag(listUrl)
    requires AllowedOutcome(tags, url, actions, o)
    ensures o == Lookup(actions, listUrl)
  {
    MatchProvenanceTag(listUrl);
  }

  /** After a reconciliation pass, a member of a registered list whose URL
      the provenance pattern reads back is never skipped for lack of a
      provenance tag. */
  lemma ListedMemberHasListKey(m: Reconcile.Store, members: map<string, seq<string>>, l: string, u: string)
    requires l in Reconcile.ListFeeds(m) && l in members && u in members[l]
    requires l != [] && '\n' !in l
    ensures u in Reconcile.Reconciled(m, members)
    ensures FromList in Reconcile.Reconciled(m, members)[u].tags
    ensures HasListKey(Reconcile.Reconciled(m, members)[u].tags)
  {
    var pairs := Reconcile.PairsOf(Reconcile.ListFeeds(m), members);
    assert (l, u) in pairs;
    Reconcile.ReconciledShape(m, members);
    assert ProvenanceTag(l) in Reconcile.Provenance(pairs, u);
    MatchProvenanceTag(l);
  }
}
