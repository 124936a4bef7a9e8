/**
 A two-cycle scenario: a direct feed with action `echo` and
 a list with action `notify`, followed from an empty store through two
 reconciliation passes.
 */
module Scenario {
  import opened Wrappers
  import opened Tags
  import opened FeedStore
  import opened Actions
  import opened Reconcile
  import opened Dispatch

  const DirectUrl: string := "https://a.example/feed.xml"
  const ListUrl: string := "https://l.example/opml"
  const MemberUrl: string := "https://b.example/feed.xml"

  function Config(): seq<FeedAction>
  {
    [FeedAction(DirectUrl, "echo", Rss), FeedAction(ListUrl, "notify", Opml)]
  }

  /** The store once the configuration is registered. */
  function Cycle0(): Store
  {
    map[DirectUrl := NewFeed, ListUrl := FeedState({ListTag}, false)]
  }

  /** The store after cycle 1. */
  function Cycle1(): Store
  {
    Cycle0()[MemberUrl := FeedState({FromList, ProvenanceTag(ListUrl)}, true)]
  }

  lemma DistinctUrls()
    ensures DirectUrl != ListUrl && DirectUrl != MemberUrl && ListUrl != MemberUrl
  {
    assert DirectUrl[8] == 'a' && ListUrl[8] == 'l' && MemberUrl[8] == 'b';
  }

  /** Registering the configuration into an empty store adds the direct
      feed plain and the list tagged `list` with updates off. */
  lemma RegisterScenario()
    ensures Registered(map[], Config()) == Cycle0()
    ensures ActionMap(Config()) == map[DirectUrl := Config()[0], ListUrl := Config()[1]]
  {
    var config := Config();
    assert config[..1] == [config[0]] && config[..1][..0] == [];
    DistinctUrls();
    assert Registered(map[], config[..1]) == map[DirectUrl := NewFeed];
  }

  /** At the start of cycle 2 registration runs again and changes nothing,
      since both configured URLs are already in the store. */
  lemma ReRegisterScenario()
    ensures Registered(Cycle1(), Config()) == Cycle1()
  {
    var config := Config();
    assert config[..1] == [config[0]] && config[..1][..0] == [];
    DistinctUrls();
  }

  /** Cycle 1 adds the member with `from-list` and the list's provenance tag. */
  lemma FirstCycle()
    ensures Reconciled(Cycle0(), map[ListUrl := [MemberUrl]]) == Cycle1()
  {
    var s0 := Cycle0();
    var members := map[ListUrl := [MemberUrl]];
    DistinctUrls();
    assert ListFeeds(s0) == {ListUrl};
    assert Mark(s0) == s0;
    var pairs := PairsOf(ListFeeds(s0), members);
    assert pairs == {(ListUrl, MemberUrl)};
    assert Targets(pairs) == {MemberUrl};
    assert Provenance(pairs, MemberUrl) == {ProvenanceTag(ListUrl)};
    ProvenanceTagIsNotFixed(ListUrl);
    assert FromList != Marker;
    assert Confirmed(Base(s0, MemberUrl), {ProvenanceTag(ListUrl)}) == FeedState({FromList, ProvenanceTag(ListUrl)}, true);
    var c := Confirm(s0, pairs);
    assert c.Keys == Cycle1().Keys;
    assert c == Cycle1();
    assert FromList != Marker;
    assert Sweep(c) == c;
  }

  /** After cycle 1 an update of the direct feed goes to `echo`. */
  lemma DirectDispatch()
    ensures forall o :: AllowedOutcome(Cycle1()[DirectUrl].tags, DirectUrl, ActionMap(Config()), o) ==>
              o == Some(Config()[0])
  {
    RegisterScenario();
    DistinctUrls();
  }

  /** After cycle 1 an update of the member goes to the list's `notify`. */
  lemma MemberDispatch()
    ensures forall o :: AllowedOutcome(Cycle1()[MemberUrl].tags, MemberUrl, ActionMap(Config()), o) ==>
              o == Some(Config()[1])
  {
    RegisterScenario();
    MemberTags();
    var tags := {FromList, ProvenanceTag(ListUrl)};
    OnlyListProvenance();
    ListUrlIsOneLine();
    forall o | AllowedOutcome(tags, MemberUrl, ActionMap(Config()), o)
      ensures o == Some(Config()[1])
    {
      SoleListDispatch(tags, MemberUrl, ActionMap(Config()), ListUrl, o);
    }
  }

  lemma MemberTags()
    ensures Cycle1()[MemberUrl].tags == {FromList, ProvenanceTag(ListUrl)}
  {
  }

  lemma OnlyListProvenance()
    ensures forall t :: t in {FromList, ProvenanceTag(ListUrl)} && MatchProvenance(t).Some? ==> t == ProvenanceTag(ListUrl)
  {
    FromListIsNoProvenance();
  }

  lemma FromListIsNoProvenance()
    ensures MatchProvenance(FromList).None?
  {
    assert |FromList| < |ProvenancePrefix|;
  }

  lemma ListUrlIsOneLine()
    ensures ListUrl != [] && '\n' !in ListUrl
  {
    assert forall i :: 0 <= i < |ListUrl| ==> ListUrl[i] != '\n';
  }

  /** Cycle 2, with the list now empty, deletes the member and leaves the
      direct feed untouched. */
  lemma SecondCycle()
    ensures MemberUrl !in Reconciled(Cycle1(), map[ListUrl := []])
    ensures DirectUrl in Reconciled(Cycle1(), map[ListUrl := []])
    ensures Reconciled(Cycle1(), map[ListUrl := []])[DirectUrl] == Cycle1()[DirectUrl]
  {
    var s1 := Cycle1();
    var members: map<string, seq<string>> := map[ListUrl := []];
    Cycle1Lists();
    assert Listed(s1, members) == {};
    ReconciledMembership(s1, members);
  }

  lemma Cycle1Lists()
    ensures ListFeeds(Cycle1()) == {ListUrl}
    ensures FromList in Cycle1()[MemberUrl].tags && FromList !in Cycle1()[DirectUrl].tags
  {
    DistinctUrls();
    ProvenanceTagIsNotFixed(ListUrl);
  }

  /** Dispatching the stream in which both feeds were updated after cycle 1
      runs `echo` for the direct feed, then `notify` for the member. */
  lemma FirstCycleInvocations(invocations: seq<Invocation>, completed: bool, processed: nat, origin: seq<nat>)
    requires Dispatched(Cycle1(), [Updated(DirectUrl), Updated(MemberUrl)], ActionMap(Config()),
                        invocations, completed, processed, origin)
    ensures completed
    ensures invocations == [Invocation(Config()[0], DirectUrl), Invocation(Config()[1], MemberUrl)]
  {
    DistinctUrls();
    DirectDispatch();
    MemberDispatch();
    TwoUpdates(Cycle1(), ActionMap(Config()), DirectUrl, MemberUrl, Config()[0], Config()[1],
               invocations, completed, processed, origin);
  }

  /** Two updated feeds, each with a single allowed action, are handed to
      those actions in stream order. */
  lemma TwoUpdates(feeds: Store, actions: map<string, FeedAction>, a: string, b: string,
                   actA: FeedAction, actB: FeedAction,
                   invocations: seq<Invocation>, completed: bool, processed: nat, origin: seq<nat>)
    requires a in feeds && b in feeds
    requires forall o :: AllowedOutcome(feeds[a].tags, a, actions, o) ==> o == Some(actA)
    requires forall o :: AllowedOutcome(feeds[b].tags, b, actions, o) ==> o == Some(actB)
    requires Dispatched(feeds, [Updated(a), Updated(b)], actions, invocations, completed, processed, origin)
    ensures completed
    ensures invocations == [Invocation(actA, a), Invocation(actB, b)]
  {
    var results := [Updated(a), Updated(b)];
    assert completed && processed == 2;
    assert !AllowedOutcome(feeds[a].tags, a, actions, None);
    assert !AllowedOutcome(feeds[b].tags, b, actions, None);
    assert 0 in origin && 1 in origin;
    IncreasingBelow(origin, 2);
    assert origin == [0, 1];
  }

  /** A strictly increasing sequence of numbers below `n` has at most `n` elements. */
  lemma {:induction false} IncreasingBelow(s: seq<nat>, n: nat)
    requires forall k :: 0 <= k < |s| ==> s[k] < n
    requires forall k, k' :: 0 <= k < k' < |s| ==> s[k] < s[k']
    ensures |s| <= n
  {
    if s != [] {
      IncreasingBelow(s[..|s| - 1], s[|s| - 1]);
    }
  }

  /** The whole scenario, from an empty store. */
  lemma TwoCycles()
    ensures var s0 := Registered(map[], Config());
            var s1 := Reconciled(s0, map[ListUrl := [MemberUrl]]);
            var s2 := Reconciled(s1, map[ListUrl := []]);
            && s1.Keys == {DirectUrl, ListUrl, MemberUrl}
            && s1[MemberUrl].tags == {FromList, ProvenanceTag(ListUrl)}
            && (forall o :: AllowedOutcome(s1[DirectUrl].tags, DirectUrl, ActionMap(Config()), o) ==>
                  o == Some(Config()[0]))
            && (forall o :: AllowedOutcome(s1[MemberUrl].tags, MemberUrl, ActionMap(Config()), o) ==>
                  o == Some(Config()[1]))
            && Registered(s1, Config()) == s1
            && MemberUrl !in s2 && DirectUrl in s2 && s2[DirectUrl] == s1[DirectUrl]
  {
    RegisterScenario();
    ReRegisterScenario();
    FirstCycle();
    DirectDispatch();
    MemberDispatch();
    SecondCycle();
  }
}
