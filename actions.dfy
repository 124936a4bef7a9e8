/**
 The configured feed actions and what registering them does: the action
 map built from the configuration (the dictionary `feeds` in `main`) and
 the store after every configured feed or list has been added.
 */
module Actions {
  import opened FeedStore
  import opened Tags

  /** The feed types of the configuration; only `Opml` is treated apart. */
  datatype FeedType = Rss | Atom | Opml | Json

  /** One configuration entry: a feed or list URL, the command to run for it, its type. */
  datatype FeedAction = FeedAction(feedUrl: string, cmd: string, kind: FeedType)

  /** The dictionary from URL to action, filled in configuration order, so
      that a later entry for the same URL replaces an earlier one. */
  function ActionMap(config: seq<FeedAction>): map<string, FeedAction>
  {
    if config == [] then map[]
    else
      var last := config[|config| - 1];
      ActionMap(config[..|config| - 1])[last.feedUrl := last]
  }

  /** No later entry of `config` is for the URL of entry `i`. */
  ghost predicate LastFor(config: seq<FeedAction>, i: nat)
    requires i < |config|
  {
    forall j :: i < j < |config| ==> config[j].feedUrl != config[i].feedUrl
  }

  /** No earlier entry of `config` is for the URL of entry `i`. */
  ghost predicate FirstFor(config: seq<FeedAction>, i: nat)
    requires i < |config|
  {
    forall j :: 0 <= j < i ==> config[j].feedUrl != config[i].feedUrl
  }

  /** The action map holds exactly the configured URLs. */
  lemma {:induction false} ActionMapKeys(config: seq<FeedAction>)
    ensures forall url :: url in ActionMap(config) <==>
      exists i :: 0 <= i < |config| && config[i].feedUrl == url
  {
    if config != [] {
      var n := |config| - 1;
      var init := config[..n];
      ActionMapKeys(init);
      assert ActionMap(config) == ActionMap(init)[config[n].feedUrl := config[n]];
      forall url | url in ActionMap(config)
        ensures exists i :: 0 <= i < |config| && config[i].feedUrl == url
      {
        if url != config[n].feedUrl {
          assert url in ActionMap(init);
          var i :| 0 <= i < |init| && init[i].feedUrl == url;
          assert config[i].feedUrl == url;
        }
      }
      forall url | exists i :: 0 <= i < |config| && config[i].feedUrl == url
        ensures url in ActionMap(config)
      {
        if url != config[n].feedUrl {
          var i :| 0 <= i < |config| && config[i].feedUrl == url;
          assert init[i].feedUrl == url;
        }
      }
    }
  }

  /** Each configured URL maps to the LAST entry configured for it. */
  lemma {:induction false} ActionMapLastWins(config: seq<FeedAction>)
    ensures forall i :: 0 <= i < |config| && LastFor(config, i) ==>
      config[i].feedUrl in ActionMap(config) && ActionMap(config)[config[i].feedUrl] == config[i]
  {
    if config != [] {
      var n := |config| - 1;
      var init := config[..n];
      ActionMapLastWins(init);
      assert ActionMap(config) == ActionMap(init)[config[n].feedUrl := config[n]];
      forall i | 0 <= i < |config| && LastFor(config, i)
        ensures config[i].feedUrl in ActionMap(config) && ActionMap(config)[config[i].feedUrl] == config[i]
      {
        if i < n {
          assert init[i] == config[i];
          assert LastFor(init, i) by {
            forall j | i < j < |init| ensures init[j].feedUrl != init[i].feedUrl {
              assert init[j] == config[j];
            }
          }
        }
      }
    }
  }

  /** The state a configured URL that is new to the store is registered
      with: a list is tagged `list` and not updated, any other feed is added
      plain. */
  function Initial(kind: FeedType): FeedState
  {
    if kind == Opml then FeedState({ListTag}, false) else NewFeed
  }

  /** One configuration entry registered. An URL already in the store is
      left as it is: `add_feed` raises first and the error is swallowed. */
  function RegisterOne(m: map<string, FeedState>, a: FeedAction): map<string, FeedState>
  {
    if a.feedUrl in m then m else m[a.feedUrl := Initial(a.kind)]
  }

  /** The store after the configuration has been registered in order. */
  function Registered(m: map<string, FeedState>, config: seq<FeedAction>): map<string, FeedState>
  {
    if config == [] then m
    else RegisterOne(Registered(m, config[..|config| - 1]), config[|config| - 1])
  }

  /** Every list feed of the store has its updates disabled, so that no
      list is fetched by the update loop. */
  predicate ListsPaused(m: map<string, FeedState>)
  {
    forall u :: u in m && ListTag in m[u].tags ==> !m[u].updatesEnabled
  }

  /** Registration keeps lists paused: a new list is added with updates
      off, a new plain feed has no `list` tag, an existing feed is left as
      it was. */
  lemma {:induction false} RegisteredPausesLists(m: map<string, FeedState>, config: seq<FeedAction>)
    requires ListsPaused(m)
    ensures ListsPaused(Registered(m, config))
  {
    if config != [] {
      RegisteredPausesLists(m, config[..|config| - 1]);
    }
  }

  /** After registration every configured URL is in the store and nothing
      else was added. */
  lemma {:induction false} RegisteredKeys(m: map<string, FeedState>, config: seq<FeedAction>)
    ensures forall u :: u in Registered(m, config) <==>
      u in m || exists i :: 0 <= i < |config| && config[i].feedUrl == u
  {
    if config != [] {
      var n := |config| - 1;
      var init := config[..n];
      RegisteredKeys(m, init);
      assert Registered(m, config) == RegisterOne(Registered(m, init), config[n]);
      forall u | u in Registered(m, config) && u !in m
        ensures exists i :: 0 <= i < |config| && config[i].feedUrl == u
      {
        if u != config[n].feedUrl {
          assert u in Registered(m, init);
          var i :| 0 <= i < |init| && init[i].feedUrl == u;
          assert config[i].feedUrl == u;
        }
      }
      forall u | u in m || exists i :: 0 <= i < |config| && config[i].feedUrl == u
        ensures u in Registered(m, config)
      {
        if u !in m && u != config[n].feedUrl {
          var i :| 0 <= i < |config| && config[i].feedUrl == u;
          assert init[i].feedUrl == u;
        }
      }
    }
  }

  /** Feeds already in the store keep their tags and update flag: `add_feed`
      raises for them before anything is changed. */
  lemma {:induction false} RegisteredKeepsExisting(m: map<string, FeedState>, config: seq<FeedAction>)
    ensures forall u :: u in m ==> u in Registered(m, config) && Registered(m, config)[u] == m[u]
  {
    if config != [] {
      RegisteredKeepsExisting(m, config[..|config| - 1]);
    }
  }

  /** A URL new to the store gets the state that its FIRST configuration
      entry asks for; later entries for it change nothing. */
  lemma {:induction false} RegisteredFirstWins(m: map<string, FeedState>, config: seq<FeedAction>)
    ensures forall i :: 0 <= i < |config| && config[i].feedUrl !in m && FirstFor(config, i) ==>
      config[i].feedUrl in Registered(m, config) && Registered(m, config)[config[i].feedUrl] == Initial(config[i].kind)
  {
    if config != [] {
      var n := |config| - 1;
      var init := config[..n];
      RegisteredFirstWins(m, init);
      assert Registered(m, config) == RegisterOne(Registered(m, init), config[n]);
      forall i | 0 <= i < |config| && config[i].feedUrl !in m && FirstFor(config, i)
        ensures config[i].feedUrl in Registered(m, config) && Registered(m, config)[config[i].feedUrl] == Initial(config[i].kind)
      {
        if i < n {
          assert init[i] == config[i];
          assert FirstFor(init, i) by {
            forall j | 0 <= j < i ensures init[j].feedUrl != init[i].feedUrl {
              assert init[j] == config[j];
            }
          }
        } else {
          RegisteredKeys(m, init);
        }
      }
    }
  }
}
