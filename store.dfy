/**
 The feed store of the `reader` library, reduced to what the command line
 tool uses: which feed URLs are tracked, the tags on each, and whether each
 is updated. HTTP fetching, parsing and the SQLite persistence are not part
 of this model.
 */
module FeedStore {

  /** What the store keeps about one feed. */
  datatype FeedState = FeedState(tags: set<string>, updatesEnabled: bool)

  /** The state `add_feed` gives a new feed: no tags, updates enabled. */
  const NewFeed: FeedState := FeedState({}, true)

  /** The URLs of the feeds that carry every tag of `query`. */
  function WithAllTags(feeds: map<string, FeedState>, query: set<string>): set<string>
  {
    set u | u in feeds && query <= feeds[u].tags
  }

  /** `reader`'s handle on the store. */
  class Reader {
    var feeds: map<string, FeedState>

    constructor ()
      ensures feeds == map[]
    {
      feeds := map[];
    }

    /** `add_feed`: `existed` stands for `FeedExistsError`, in which case nothing changes. */
    method AddFeed(url: string) returns (existed: bool)
      modifies this
      ensures existed == (url in old(feeds))
      ensures feeds == if existed then old(feeds) else old(feeds)[url := NewFeed]
    {
      existed := url in feeds;
      if !existed {
        feeds := feeds[url := NewFeed];
      }
    }

    /** `add_feed_tag`: `found` is false where `FeedNotFoundError` is raised. */
    method AddTag(url: string, tag: string) returns (found: bool)
      modifies this
      ensures found == (url in old(feeds))
      ensures found ==> feeds == old(feeds)[url := old(feeds)[url].(tags := old(feeds)[url].tags + {tag})]
      ensures !found ==> feeds == old(feeds)
    {
      found := url in feeds;
      if found {
        feeds := feeds[url := feeds[url].(tags := feeds[url].tags + {tag})];
      }
    }

    /** `remove_feed_tag`: removing a tag the feed lacks changes nothing. */
    method RemoveTag(url: string, tag: string) returns (found: bool)
      modifies this
      ensures found == (url in old(feeds))
      ensures found ==> feeds == old(feeds)[url := old(feeds)[url].(tags := old(feeds)[url].tags - {tag})]
      ensures !found ==> feeds == old(feeds)
    {
      found := url in feeds;
      if found {
        feeds := feeds[url := feeds[url].(tags := feeds[url].tags - {tag})];
      }
    }

    /** `disable_feed_updates`. */
    method DisableUpdates(url: string) returns (found: bool)
      modifies this
      ensures found == (url in old(feeds))
      ensures found ==> feeds == old(feeds)[url := old(feeds)[url].(updatesEnabled := false)]
      ensures !found ==> feeds == old(feeds)
    {
      found := url in feeds;
      if found {
        feeds := feeds[url := feeds[url].(updatesEnabled := false)];
      }
    }

    /** `delete_feed`: the feed and its tags go; `found` is false where
        `FeedNotFoundError` is raised. */
    method DeleteFeed(url: string) returns (found: bool)
      modifies this
      ensures found == (url in old(feeds))
      ensures feeds == old(feeds) - {url}
    {
      found := url in feeds;
      feeds := feeds - {url};
    }

    /** `get_feeds(tags=query)`, taken as a snapshot: each matching URL once,
        in an order the store does not specify. */
    method FeedsWithAllTags(query: set<string>) returns (urls: seq<string>)
      ensures forall u :: u in urls <==> u in feeds && query <= feeds[u].tags
      ensures forall i, j :: 0 <= i < j < |urls| ==> urls[i] != urls[j]
    {
      urls := [];
      var rest := feeds.Keys;
      while rest != {}
        invariant rest <= feeds.Keys
        invariant forall u :: u in urls <==> u in feeds && u !in rest && query <= feeds[u].tags
        invariant forall i, j :: 0 <= i < j < |urls| ==> urls[i] != urls[j]
        decreases rest
      {
        var u :| u in rest;
        if query <= feeds[u].tags {
          urls := urls + [u];
        }
        rest := rest - {u};
      }
    }
  }
}
