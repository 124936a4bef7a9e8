# rss-actions: reconciliation and dispatch, modelled in Dafny

`rss-actions` keeps a feed reader's subscriptions in step with configured
feeds and OPML subscription lists, and after each poll hands every updated
feed to the command configured for it. Its only real logic is `main` in
`rss_actions/cli.py` with its helpers `add_list` and `delete_list`. The
reader store's string tags are the only persistent state:

- `list` marks a feed that is an OPML list;
- `from-list` marks a feed that some list brought in;
- `from-list:<list-url>` records which list brought it in;
- `not-in-list-anymore` is a transient marker.

This project models that code and proves what it promises.

- `store.dfy`, module `FeedStore`: the `reader` store as a class
  `Reader`. It holds a `map` from feed URL to `FeedState` (tags and the
  update flag). It has `AddFeed`, `AddTag`, `RemoveTag`, `DisableUpdates`,
  `DeleteFeed`, and `FeedsWithAllTags`, which returns a snapshot of the
  matching URLs. The `FeedExistsError` and `FeedNotFoundError` exceptions
  become boolean results.
- `tags.dfy`, module `Tags`: the four tag strings, the provenance tag
  `from-list:<url>`, and the regular expression `from-list:(?P<opml>.+)`
  used with `re.match`. The expression is modelled exactly: it is anchored
  at the start only, and its group stops at the first newline.
- `actions.dfy`, module `Actions`: configuration entries. This module
  defines the URL-to-action dictionary `feeds`, in which a later entry wins,
  and the store after the configured feeds and lists are registered, in
  which the first entry for a new URL wins.
- `reconcile.dfy`, module `Reconcile`: one function for each reconciliation
  phase (`Mark`, `RefreshPhase`, `Sweep`) and their composition
  `Reconciled`, with the phase properties and idempotence.
- `dispatch.dfy`, module `Dispatch`: the update stream
  (`Unchanged | Error | Updated`), invocations, and `AllowedOutcome`, which
  says which action an updated feed may be handed to. The tags are a Python
  `set`, so when a feed has several provenance tags the choice among them is
  left open, and the properties are stated existentially. `Dispatched` is
  the contract of the whole dispatch loop.
- `cli.dfy`, module `Cli`: the code itself as imperative methods on a
  `Reader`. The methods are `AddList`, `DeleteList`, `RegisterConfig` (the
  loop at lines 56-65), `MarkStale`, `RefreshLists` with `ConfirmMembers`
  and `ConfirmMember`, `DeleteStale`, `ReconcileFeeds`, the for/else tag
  scan `FindListKey`, `ResolveAction`, `DispatchUpdates` and `Run`. Each
  loop walks a snapshot taken before the loop starts, and each method is
  proved against the functions above.
- `scenario.dfy`, module `Scenario`: a two-cycle example with one direct
  feed and one list, from an empty store.

List membership (what `listparser` returns for a list URL) is an input
`map<string, seq<string>>`. A list URL missing from the map stands for a
failing `listparser` call. The code does not catch that exception, so the
run stops: `ReconcileFeeds` reports `ok == false`, and nothing is deleted or
dispatched. Likewise, the update stream is an input. An updated URL that is
no longer in the store makes `get_feed` raise, which ends the dispatch loop.

## Model

| member | source | states |
|---|---|---|
| `FeedStore.Reader.AddFeed` | rss_actions/cli.py:73-76 | reports "already exists" exactly when the URL is present, and then changes nothing; otherwise adds the feed with no tags and updates on |
| `FeedStore.Reader.AddTag` | rss_actions/cli.py:77-78 | adds the tag to the feed and changes nothing else; reports not-found, changing nothing, for a missing feed |
| `FeedStore.Reader.RemoveTag` | rss_actions/cli.py:79 | removes the tag from the feed and changes nothing else; reports not-found for a missing feed |
| `FeedStore.Reader.DisableUpdates` | rss_actions/cli.py:34 | clears the feed's update flag and nothing else |
| `FeedStore.Reader.DeleteFeed` | rss_actions/cli.py:82 | the feed and its tags are gone, every other feed is unchanged; reports whether it was there |
| `FeedStore.Reader.FeedsWithAllTags` | rss_actions/cli.py:68 | the snapshot holds exactly the feeds that carry every queried tag, each once |
| `Tags.ProvenanceTagIsNotFixed` | rss_actions/cli.py:69-79 | no provenance tag equals `not-in-list-anymore`, `from-list` or `list`, so the refresh loop cannot undo a marker removal or fake a list |
| `Tags.UpToNewline` | rss_actions/cli.py:97 | the group `.+` consumes: the longest newline-free prefix |
| `Tags.MatchProvenance` | rss_actions/cli.py:97 | matches exactly when the tag starts with `from-list:` followed by a character other than a newline; the group is non-empty, newline-free and followed by the end of the tag or a newline |
| `Tags.MatchProvenanceTag` | rss_actions/cli.py:78-97 | the tag written at line 78 reads back as its list URL at line 97 when the URL is non-empty and has no newline |
| `Tags.NewlineListUrlIsTruncated` | rss_actions/cli.py:78-97 | a list URL containing a newline is read back truncated |
| `Actions.ActionMapKeys` | rss_actions/cli.py:56-65 | the action dictionary holds exactly the configured URLs |
| `Actions.ActionMapLastWins` | rss_actions/cli.py:65 | each URL maps to the last configuration entry for it |
| `Actions.RegisteredKeys` | rss_actions/cli.py:57-64 | after registration the store holds the old feeds plus every configured URL, and nothing else |
| `Actions.RegisteredKeepsExisting` | rss_actions/cli.py:58-64 | a URL already in the store keeps its tags and update flag, because `add_feed` raises first and the error is swallowed |
| `Actions.RegisteredFirstWins` | rss_actions/cli.py:58-64 | a new URL gets the state its first entry asks for: a list is tagged `list` with updates off, any other feed is plain |
| `Actions.RegisteredPausesLists` | rss_actions/cli.py:30-34 | if every list feed of the old store has updates disabled, so has every list feed after registration, because a new list is added with updates off |
| `Cli.AddList` | rss_actions/cli.py:30-34 | a URL new to the store is added, tagged `list`, with updates disabled; when it already exists, nothing changes and "already exists" is reported |
| `Cli.DeleteList` | rss_actions/cli.py:37-40 | afterwards neither the list nor any feed tagged `from-list:<url>` is in the store, and nothing else was deleted or changed; the final `delete_feed` fails exactly when the list was absent or tagged with its own provenance |
| `Cli.RegisterConfig` | rss_actions/cli.py:56-65 | returns the action map of the configuration and leaves the store registered as above |
| `Reconcile.Mark` | rss_actions/cli.py:68-69 | no feed is added or removed; a feed carries the marker afterwards exactly when it had it before or is `from-list`; no other tag or flag changes |
| `Reconcile.ListFeedsOfMark` | rss_actions/cli.py:68-71 | the mark loop changes no feed's `list` tag, so the list snapshot sees the original lists |
| `Cli.MarkStale` | rss_actions/cli.py:68-69 | the store after the loop is `Mark` of the store before |
| `Reconcile.ConfirmStep` | rss_actions/cli.py:73-79 | re-confirming one more (list, member) pair is one more pass of the loop body, so the result does not depend on list or member order |
| `Cli.ConfirmMember` | rss_actions/cli.py:73-79 | one member is added if new, tagged `from-list` and `from-list:<list>`, and loses the marker |
| `Cli.ConfirmMembers` | rss_actions/cli.py:72-79 | the inner loop re-confirms every member of one list |
| `Cli.RefreshLists` | rss_actions/cli.py:71-79 | completes exactly when every list's membership is known; the store is then the refresh phase of the store before; otherwise it shows only the lists processed before the failing one |
| `Reconcile.RefreshPhaseConfirmsMembers` | rss_actions/cli.py:71-79 | every member of every list is present with `from-list` and that list's provenance tag, without the marker; no other URL is added; every other feed is unchanged; no feed loses a tag other than the marker or has its update flag changed |
| `Reconcile.Sweep` | rss_actions/cli.py:81-82 | deletes exactly the feeds carrying both `from-list` and the marker; the kept ones are unchanged |
| `Cli.DeleteStale` | rss_actions/cli.py:81-82 | the store after the loop is `Sweep` of the store before |
| `Cli.ReconcileFeeds` | rss_actions/cli.py:67-82 | completes exactly when every list's membership is known, leaving `Reconciled` of the store before; on failure nothing is deleted |
| `Reconcile.ReconciledMembership` | rss_actions/cli.py:67-82 | a feed disappears exactly when it was `from-list` before the pass and no list lists it now; every listed URL is present; nothing else appears; no feed keeps both `from-list` and the marker |
| `Reconcile.DirectFeedsSurvive` | rss_actions/cli.py:67-82 | a feed not tagged `from-list`, such as a direct feed or a list, is never deleted and loses no tag other than the marker |
| `Reconcile.ProvenanceNeverRemoved` | rss_actions/cli.py:71-82 | a feed the pass keeps keeps every provenance tag, even one naming a list that dropped it |
| `Reconcile.ListFeedsOfReconciled` | rss_actions/cli.py:67-82 | a pass creates no list, and a list it keeps is still a list |
| `Reconcile.ReconciledPausesLists` | rss_actions/cli.py:68-82 | a pass keeps every list feed's updates disabled: it changes no update flag and gives no feed the `list` tag |
| `Reconcile.ReconciledShape` | rss_actions/cli.py:67-82 | after a pass, each listed feed has `from-list`, has all its provenance tags, and lacks the marker; no other feed has `from-list` |
| `Reconcile.ReconcileIdempotent` | rss_actions/cli.py:67-82 | if the pass deleted no list feed, a second pass with the same memberships leaves the store exactly as the first did |
| `Reconcile.ListedDirectFeedIsDeleted` | rss_actions/cli.py:77-82 | a feed carrying `from-list` because a list once named it is deleted when that list no longer lists it, even one that is also configured directly |
| `Reconcile.NestedListBreaksIdempotence` | rss_actions/cli.py:67-82 | a list feed that is itself list-derived and has been dropped is deleted, and then its members disappear on the next pass |
| `Dispatch.SoleListDispatch` | rss_actions/cli.py:94-100 | a `from-list` feed whose only provenance tag names list L is handed to L's action, or to nothing when L has none |
| `Dispatch.ListedMemberHasListKey` | rss_actions/cli.py:71-103 | after a pass, a member of a list with a one-line URL carries `from-list` and a matching provenance tag, so it is never skipped |
| `Cli.FindListKey` | rss_actions/cli.py:95-103 | returns no key exactly when no tag matches the pattern; otherwise returns the group of some matching tag |
| `Cli.ResolveAction` | rss_actions/cli.py:94-105 | a feed without `from-list` is looked up by its own URL; a `from-list` feed is looked up by the list URL from some provenance tag, or skipped when it has none; if the key has no action, nothing runs |
| `Cli.DispatchUpdates` | rss_actions/cli.py:85-108 | unchanged and error entries produce no invocation; each updated entry produces at most one, with an allowed action; invocations keep the stream's order; an updated entry producing none has "no action" allowed; an updated URL missing from the store ends the loop |
| `Dispatch.DispatchedInvocations` | rss_actions/cli.py:85-108 | a dispatch completes exactly when every updated URL is in the store, and every invocation is for an updated feed of the store with an action allowed for it |
| `Cli.Run` | rss_actions/cli.py:55-108 | register, reconcile, and, when every list resolves, dispatch against the reconciled store and the configuration's action map; otherwise nothing is invoked and the store that is kept holds the marks and the confirmations of the lists handled before the failing one, with nothing deleted |
| `Scenario.RegisterScenario` | rss_actions/cli.py:56-65 | one direct feed and one list configured into an empty store give the expected store and action map |
| `Scenario.FirstCycle` | rss_actions/cli.py:67-82 | cycle 1 adds the list member with `from-list` and its provenance tag |
| `Scenario.DirectDispatch` | rss_actions/cli.py:104-108 | an update of the direct feed goes to its own action |
| `Scenario.MemberDispatch` | rss_actions/cli.py:94-108 | an update of the member goes to the list's action |
| `Scenario.SecondCycle` | rss_actions/cli.py:67-82 | with the list emptied, cycle 2 deletes the member and leaves the direct feed untouched |
| `Scenario.ReRegisterScenario` | rss_actions/cli.py:56-65 | registering the configuration again at the start of cycle 2 leaves the store unchanged |
| `Scenario.TwoCycles` | rss_actions/cli.py:56-108 | the whole two-cycle scenario from an empty store, including the second registration that changes nothing |
| `Scenario.FirstCycleInvocations` | rss_actions/cli.py:85-108 | after cycle 1, dispatching an update of both feeds completes and runs exactly `echo` for the direct feed and then `notify` for the member |

## Behaviour worth knowing

- Reconciliation deletes any feed carrying both `from-list` and the
  marker, list feeds included (lines 81-82). So a pass is not idempotent
  when a list was itself brought in by another list that has dropped it.
  The first pass deletes that list while still re-confirming its members,
  and the second pass then deletes those members
  (`Reconcile.NestedListBreaksIdempotence`).
- Provenance tags are never removed (lines 71-79). A feed that leaves one
  list but stays in another keeps both `from-list:<url>` tags, so after a
  pass the feeds tagged `from-list:<L>` can include feeds that L no longer
  lists (`Reconcile.ProvenanceNeverRemoved`).
- A directly configured feed that some list also names gains `from-list`
  at line 77. From then on, lines 94-100 hand its updates to the list's
  action instead of its own. Once the list drops it, lines 81-82 delete it,
  until the next run's registration adds it back plain
  (`Reconcile.ListedDirectFeedIsDeleted`).
- Nothing catches an exception from resolving a list at line 72, so one
  list that fails to resolve stops the whole run before anything is
  deleted or dispatched.

## Left out

- `touch`, `TomlModel.load`/`dump`, the `typer` command line, logging and
  the `print` output: file and console handling only.
- `exec_cmd` (running a shell command with a JSON dump of the feed): an
  invocation is an `Invocation` value holding the action and the feed URL;
  what the command does, and whether it fails, is not modelled.
- The internals of `reader`: HTTP fetching and parsing, SQLite
  persistence, storage errors, and how `update_feeds_iter` picks and orders
  its results. The update stream is an input and is not tied to the
  store's update flags; `Actions.ListsPaused` states, and
  `Actions.RegisteredPausesLists` and `Reconcile.ReconciledPausesLists`
  preserve, that every list feed has updates disabled, which is why
  `reader` never yields a list in it.
- The `listparser` fetch and parse (`get_list_feeds`): list membership is
  an input map, and a missing entry is a failing parse.
- `FeedAction`, `FeedType` and the configuration schema come from a package
  that is not part of this model. `FeedType` lists rss, atom, opml and json;
  only opml is treated apart, as in the code.
- The difference between `get_feeds(tags="from-list:" + url)` at line 38
  and the list queries elsewhere: every tag query is an exact match on the
  given tags.
- Which provenance tag is met first when a feed has several: Python set
  order is not modelled. `FindListKey` may return the key of any matching
  tag, and `AllowedOutcome` allows each of them.
- Reconcile.ReconcileIdempotent: stated only for a first pass that deletes
  no list feed, because the code is not idempotent otherwise (see
  `Reconcile.NestedListBreaksIdempotence`).
