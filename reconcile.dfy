/**
 What one reconciliation pass does to the store, phase by phase, as
 functions of the store before the phase: the mark phase, the refresh
 phase that re-confirms the members of every list, and the delete phase.
 The loops that carry the phases out are proved against these functions
 in module Cli.
 */
module Reconcile {
  import opened Tags
  import opened FeedStore
  import Actions

  type Store = map<string, FeedState>

  /** A list URL paired with one of its member URLs. */
  type Pair = (string, string)

  /** The feeds registered as lists. */
  function ListFeeds(m: Store): set<string>
  {
    WithAllTags(m, {ListTag})
  }

  // ---------------------------------------------------------------- mark

  /** Every `from-list` feed gains the marker; nothing else changes. */
  function Mark(m: Store): (r: Store)
    ensures r.Keys == m.Keys
    ensures forall u :: u in m ==> (Marker in r[u].tags <==> Marker in m[u].tags || FromList in m[u].tags)
    ensures forall u :: u in m ==>
      r[u].tags - {Marker} == m[u].tags - {Marker} && r[u].updatesEnabled == m[u].updatesEnabled
  {
    map u | u in m :: if FromList in m[u].tags then m[u].(tags := m[u].tags + {Marker}) else m[u]
  }

  /** The mark phase leaves the set of lists as it was. */
  lemma ListFeedsOfMark(m: Store)
    ensures ListFeeds(Mark(m)) == ListFeeds(m)
  {
    forall u | u in m
      ensures ListTag in Mark(m)[u].tags <==> ListTag in m[u].tags
    {
      assert ListTag != Marker;
    }
  }

  // ------------------------------------------------------------- refresh

  /** The member URLs of a set of pairs. */
  function Targets(pairs: set<Pair>): set<string>
  {
    set p | p in pairs :: p.1
  }

  /** The provenance tags that a set of pairs gives member `u`. */
  function Provenance(pairs: set<Pair>, u: string): set<string>
  {
    set p | p in pairs && p.1 == u :: ProvenanceTag(p.0)
  }

  /** The state `add_feed` leaves `u` in: as it was, or new. */
  function Base(m: Store, u: string): FeedState
  {
    if u in m then m[u] else NewFeed
  }

  /** A re-confirmed member: `from-list` and the given provenance tags added,
      the marker removed. */
  function Confirmed(b: FeedState, provenance: set<string>): FeedState
  {
    b.(tags := b.tags + {FromList} + provenance - {Marker})
  }

  /** One pass of the inner loop body: member `u` of list `l` re-confirmed. */
  function ConfirmOne(m: Store, l: string, u: string): Store
  {
    m[u := Confirmed(Base(m, u), {ProvenanceTag(l)})]
  }

  /** The store after every pair of `pairs` has been re-confirmed, in any order. */
  function Confirm(m: Store, pairs: set<Pair>): Store
  {
    map u | u in m.Keys + Targets(pairs) ::
      if u in Targets(pairs) then Confirmed(Base(m, u), Provenance(pairs, u)) else m[u]
  }

  /** The (list, member) pairs of the given lists whose membership is known. */
  function PairsOf(lists: set<string>, members: map<string, seq<string>>): set<Pair>
  {
    set l, u | l in lists && l in members && u in members[l] :: (l, u)
  }

  /** The pairs that one list's members give. */
  function MemberPairs(l: string, ms: seq<string>): set<Pair>
  {
    set u | u in ms :: (l, u)
  }

  /** The refresh phase over every list of `m`. */
  function RefreshPhase(m: Store, members: map<string, seq<string>>): Store
  {
    Confirm(m, PairsOf(ListFeeds(m), members))
  }

  /** Re-confirming one more pair is one more pass of the loop body: the
      order in which pairs are re-confirmed does not matter. */
  lemma ConfirmStep(m: Store, pairs: set<Pair>, l: string, u: string)
    ensures Confirm(m, pairs + {(l, u)}) == ConfirmOne(Confirm(m, pairs), l, u)
  {
    var pairs' := pairs + {(l, u)};
    var a, b := Confirm(m, pairs'), ConfirmOne(Confirm(m, pairs), l, u);
    TargetsInsert(pairs, l, u);
    assert a.Keys == b.Keys;
    forall v | v in a
      ensures a[v] == b[v]
    {
      if v != u {
        ProvenanceOther(pairs, l, u, v);
      } else {
        ConfirmStepAt(m, pairs, l, u);
      }
    }
  }

  lemma ConfirmStepAt(m: Store, pairs: set<Pair>, l: string, u: string)
    ensures Confirmed(Base(m, u), Provenance(pairs + {(l, u)}, u))
         == Confirmed(Base(Confirm(m, pairs), u), {ProvenanceTag(l)})
  {
    ProvenanceInsert(pairs, l, u);
    ProvenanceTagIsNotFixed(l);
    if u in Targets(pairs) {
      MarkerNotProvenance(pairs);
      var b := Base(m, u);
      assert Base(Confirm(m, pairs), u) == Confirmed(b, Provenance(pairs, u));
    } else {
      ProvenanceOfNonTarget(pairs, u);
    }
  }

  lemma TargetsInsert(pairs: set<Pair>, l: string, u: string)
    ensures Targets(pairs + {(l, u)}) == Targets(pairs) + {u}
  {
    assert (l, u) in pairs + {(l, u)};
  }

  lemma ProvenanceInsert(pairs: set<Pair>, l: string, u: string)
    ensures Provenance(pairs + {(l, u)}, u) == Provenance(pairs, u) + {ProvenanceTag(l)}
  {
    assert (l, u) in pairs + {(l, u)};
  }

  lemma ProvenanceOther(pairs: set<Pair>, l: string, u: string, v: string)
    requires v != u
    ensures Provenance(pairs + {(l, u)}, v) == Provenance(pairs, v)
  {
  }

  lemma MarkerNotProvenance(pairs: set<Pair>)
    ensures forall u :: Marker !in Provenance(pairs, u)
  {
    forall p | p in pairs { ProvenanceTagIsNotFixed(p.0); }
  }

  lemma ProvenanceOfNonTarget(pairs: set<Pair>, u: string)
    requires u !in Targets(pairs)
    ensures Provenance(pairs, u) == {}
  {
    forall p | p in pairs ensures p.1 != u { assert p.1 in Targets(pairs); }
  }

  lemma PairsOfInsert(lists: set<string>, l: string, members: map<string, seq<string>>)
    requires l in members
    ensures PairsOf(lists + {l}, members) == PairsOf(lists, members) + MemberPairs(l, members[l])
  {
  }

  lemma MemberPairsStep(l: string, ms: seq<string>, j: nat)
    requires j < |ms|
    ensures MemberPairs(l, ms[..j + 1]) == MemberPairs(l, ms[..j]) + {(l, ms[j])}
  {
    assert ms[..j + 1] == ms[..j] + [ms[j]];
  }

  lemma MemberPairsAll(l: string, ms: seq<string>)
    ensures MemberPairs(l, ms[..|ms|]) == MemberPairs(l, ms)
  {
    assert ms[..|ms|] == ms;
  }

  /** After the refresh phase every member of every list is in the store,
      carries `from-list` and that list's provenance tag, and has lost the
      marker; every other feed is left exactly as it was; and no feed loses
      a tag other than the marker or has its update flag changed. */
  lemma RefreshPhaseConfirmsMembers(m: Store, members: map<string, seq<string>>)
    ensures var r := RefreshPhase(m, members);
      && (forall l, u :: l in ListFeeds(m) && l in members && u in members[l] ==>
            u in r && FromList in r[u].tags && ProvenanceTag(l) in r[u].tags && Marker !in r[u].tags)
      && (forall u :: u in r <==> u in m || u in Targets(PairsOf(ListFeeds(m), members)))
      && (forall u :: u in m && u !in Targets(PairsOf(ListFeeds(m), members)) ==> r[u] == m[u])
      && (forall u :: u in m ==>
            u in r && r[u].updatesEnabled == m[u].updatesEnabled && m[u].tags - {Marker} <= r[u].tags)
  {
    var pairs := PairsOf(ListFeeds(m), members);
    var r := RefreshPhase(m, members);
    forall l, u | l in ListFeeds(m) && l in members && u in members[l]
      ensures u in r && FromList in r[u].tags && ProvenanceTag(l) in r[u].tags && Marker !in r[u].tags
    {
      assert (l, u) in pairs;
      assert u in Targets(pairs);
      assert ProvenanceTag(l) in Provenance(pairs, u);
      ProvenanceTagIsNotFixed(l);
    }
  }

  // -------------------------------------------------------------- delete

  /** Every feed carrying both `from-list` and the marker is deleted. */
  function Sweep(m: Store): (r: Store)
    ensures r.Keys == m.Keys - WithAllTags(m, {FromList, Marker})
    ensures forall u :: u in r ==> r[u] == m[u]
    ensures forall u :: u in r ==> !(FromList in r[u].tags && Marker in r[u].tags)
  {
    map u | u in m && !({FromList, Marker} <= m[u].tags) :: m[u]
  }

  // --------------------------------------------------------------- whole

  /** The store after one complete reconciliation pass. */
  function Reconciled(m: Store, members: map<string, seq<string>>): Store
  {
    Sweep(RefreshPhase(Mark(m), members))
  }

  /** Every member URL of every registered list with known membership. */
  function Listed(m: Store, members: map<string, seq<string>>): set<string>
  {
    Targets(PairsOf(ListFeeds(m), members))
  }

  /** What a pass deletes and keeps: a feed of the old store disappears
      exactly when it was `from-list` and no list lists it any more; every
      listed URL ends up present; nothing else appears; and no feed is
      left carrying both `from-list` and the marker. */
  lemma ReconciledMembership(m: Store, members: map<string, seq<string>>)
    ensures var r := Reconciled(m, members);
      && (forall u :: u in m && u !in r <==> u in m && FromList in m[u].tags && u !in Listed(m, members))
      && (forall u :: u in r <==> (u in m && !(FromList in m[u].tags && u !in Listed(m, members))) || u in Listed(m, members))
      && (forall u :: u in r ==> !(FromList in r[u].tags && Marker in r[u].tags))
  {
    var marked := Mark(m);
    ListFeedsOfMark(m);
    var pairs := PairsOf(ListFeeds(m), members);
    var c := RefreshPhase(marked, members);
    assert c == Confirm(marked, pairs);
    forall u | u in Listed(m, members)
      ensures u in c && !(FromList in c[u].tags && Marker in c[u].tags)
    {
    }
    forall u | u in m && u !in Listed(m, members)
      ensures u in c && c[u] == marked[u]
      ensures (FromList in c[u].tags && Marker in c[u].tags) <==> FromList in m[u].tags
    {
      assert FromList != Marker;
    }
  }

  /** Feeds never tagged `from-list` -- direct feeds and list feeds -- are
      never deleted, and keep their tags apart from the marker. */
  lemma DirectFeedsSurvive(m: Store, members: map<string, seq<string>>, u: string)
    requires u in m && FromList !in m[u].tags
    ensures u in Reconciled(m, members)
    ensures Reconciled(m, members)[u].tags - {Marker} <= m[u].tags - {Marker} + {FromList} + Provenance(PairsOf(ListFeeds(m), members), u)
    ensures m[u].tags - {Marker} <= Reconciled(m, members)[u].tags
  {
    ReconciledMembership(m, members);
    ListFeedsOfMark(m);
  }

  /** A pass never removes a provenance tag from a feed it keeps, even one
      naming a list that no longer lists the feed. */
  lemma ProvenanceNeverRemoved(m: Store, members: map<string, seq<string>>, u: string, l: string)
    requires u in m && ProvenanceTag(l) in m[u].tags
    requires u in Reconciled(m, members)
    ensures ProvenanceTag(l) in Reconciled(m, members)[u].tags
  {
    ListFeedsOfMark(m);
    ProvenanceTagIsNotFixed(l);
  }

  // --------------------------------------------------------- idempotence

  /** A pass adds no list and changes no feed's `list` tag. */
  lemma ListFeedsOfReconciled(m: Store, members: map<string, seq<string>>)
    ensures ListFeeds(Reconciled(m, members)) <= ListFeeds(m)
    ensures forall l :: l in ListFeeds(m) && l in Reconciled(m, members) ==> l in ListFeeds(Reconciled(m, members))
  {
    ListFeedsOfMark(m);
    var marked := Mark(m);
    var pairs := PairsOf(ListFeeds(m), members);
    var c := RefreshPhase(marked, members);
    forall u | u in c
      ensures ListTag in c[u].tags <==> u in m && ListTag in m[u].tags
    {
      if u in Targets(pairs) {
        assert ListTag !in Provenance(pairs, u) by {
          forall p | p in pairs { ProvenanceTagIsNotFixed(p.0); }
        }
      }
    }
  }

  /** When a pass deletes no list feed, a second pass with the same list
      memberships leaves the store exactly as the first one left it. */
  lemma {:induction false} ReconcileIdempotent(m: Store, members: map<string, seq<string>>)
    requires ListFeeds(m) <= Reconciled(m, members).Keys
    ensures Reconciled(Reconciled(m, members), members) == Reconciled(m, members)
  {
    var r1 := Reconciled(m, members);
    ListFeedsOfReconciled(m, members);
    assert ListFeeds(r1) == ListFeeds(m);
    ListFeedsOfMark(r1);
    var pairs := PairsOf(ListFeeds(m), members);
    assert Reconciled(r1, members) == Sweep(Confirm(Mark(r1), pairs));
    ReconciledShape(m, members);
    FixedPoint(r1, pairs);
  }

  /** The shape a pass leaves the store in, relative to the pairs it confirmed. */
  lemma ReconciledShape(m: Store, members: map<string, seq<string>>)
    ensures var r, pairs := Reconciled(m, members), PairsOf(ListFeeds(m), members);
      && (forall u :: u in Targets(pairs) ==>
            u in r && FromList in r[u].tags && Marker !in r[u].tags && Provenance(pairs, u) <= r[u].tags)
      && (forall u :: u in r && u !in Targets(pairs) ==> FromList !in r[u].tags)
  {
    var pairs := PairsOf(ListFeeds(m), members);
    ListFeedsOfMark(m);
    var marked := Mark(m);
    var c := Confirm(marked, pairs);
    assert c == RefreshPhase(marked, members);
    MarkerNotProvenance(pairs);
    forall u | u in Targets(pairs)
      ensures u in c && FromList in c[u].tags && Marker !in c[u].tags && Provenance(pairs, u) <= c[u].tags
    {
    }
    forall u | u in c && u !in Targets(pairs) && FromList in c[u].tags
      ensures Marker in c[u].tags
    {
      assert c[u] == marked[u];
    }
  }

  /** A store in that shape is a fixed point of a pass over the same pairs. */
  lemma FixedPoint(r: Store, pairs: set<Pair>)
    requires forall u :: u in Targets(pairs) ==>
      u in r && FromList in r[u].tags && Marker !in r[u].tags && Provenance(pairs, u) <= r[u].tags
    requires forall u :: u in r && u !in Targets(pairs) ==> FromList !in r[u].tags
    ensures Sweep(Confirm(Mark(r), pairs)) == r
  {
    var c := Confirm(Mark(r), pairs);
    assert c.Keys == r.Keys;
    forall u | u in r
      ensures c[u] == r[u]
    {
      if u in Targets(pairs) {
        assert Mark(r)[u].tags == r[u].tags + {Marker};
      }
    }
    assert c == r;
  }

  /** A pass keeps lists paused: it only adds `from-list`, provenance tags
      and the marker, removes the marker, and never touches an update flag;
      a member new to the store is added without the `list` tag. */
  lemma ReconciledPausesLists(m: Store, members: map<string, seq<string>>)
    requires Actions.ListsPaused(m)
    ensures Actions.ListsPaused(Reconciled(m, members))
  {
    var pairs := PairsOf(ListFeeds(Mark(m)), members);
    forall p | p in pairs { ProvenanceTagIsNotFixed(p.0); }
    assert ListTag != FromList && ListTag != Marker;
  }

  /** The code deletes a list feed that is itself list-derived once its
      parent list drops it, although the members of that list were just
      re-confirmed; the next pass then deletes those members too. So a second
      pass with unchanged memberships does change the store here: list "A",
      listed by list "B" until now, carries member "x". */
  lemma NestedListBreaksIdempotence()
    ensures var m := map["B" := FeedState({ListTag}, false),
                         "A" := FeedState({ListTag, FromList, ProvenanceTag("B")}, false),
                         "x" := FeedState({FromList, ProvenanceTag("A")}, true)];
            var members := map["A" := ["x"], "B" := []];
            && "A" in m && "A" !in Reconciled(m, members)
            && "x" in Reconciled(m, members)
            && "x" !in Reconciled(Reconciled(m, members), members)
  {
    var m := map["B" := FeedState({ListTag}, false),
                 "A" := FeedState({ListTag, FromList, ProvenanceTag("B")}, false),
                 "x" := FeedState({FromList, ProvenanceTag("A")}, true)];
    var members := map["A" := ["x"], "B" := []];
    ProvenanceTagIsNotFixed("A");
    ProvenanceTagIsNotFixed("B");
    assert ListTag != FromList;
    assert ListFeeds(m) == {"A", "B"};
    assert ("A", "x") in PairsOf(ListFeeds(m), members);
    assert Listed(m, members) == {"x"};
    ReconciledMembership(m, members);
    var r1 := Reconciled(m, members);
    ListFeedsOfReconciled(m, members);
    assert ListFeeds(r1) <= {"B"};
    assert Listed(r1, members) == {};
    ReconciledShape(m, members);
    assert FromList in r1["x"].tags;
    ReconciledMembership(r1, members);
  }

  /** A directly configured feed that a list also names carries `from-list`
      from then on, so once the list drops it the next pass deletes it:
      feed "d", once listed by list "L", which now lists nothing. */
  lemma ListedDirectFeedIsDeleted()
    ensures var m := map["L" := FeedState({ListTag}, false),
                         "d" := FeedState({FromList, ProvenanceTag("L")}, true)];
            "d" !in Reconciled(m, map["L" := []])
  {
    var m := map["L" := FeedState({ListTag}, false),
                 "d" := FeedState({FromList, ProvenanceTag("L")}, true)];
    var members: map<string, seq<string>> := map["L" := []];
    ProvenanceTagIsNotFixed("L");
    assert ListTag != FromList;
    assert ListFeeds(m) == {"L"};
    assert Listed(m, members) == {};
    ReconciledMembership(m, members);
  }
}
