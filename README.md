# bbblb in Dafny

bbblb is a load balancer for BigBlueButton. It sits in front of several
BigBlueButton servers and answers the BigBlueButton API for many tenants. It
decides which server hosts a new meeting, polls the servers for their
meetings, load and health, and signs and proxies the callbacks of those
servers. A set of administrative commands manage servers, tenants, overrides
of create parameters and recordings.

This project models the decision logic of that program and proves what it
promises. One Dafny module stands for each source file:

| module | file | form |
|---|---|---|
| `Base` | (none) | Python's string built-ins the others use: split, join, strip, ASCII case, hex, int parsing |
| `Model` | bbblb/model.py | the health state machine on the `Server` class, server selection, the lock table, `get_or_create`, the column codecs |
| `Poller` | bbblb/services/poller.py | one poll of one server: the loop over the reported meetings, the forget set, the health update, the sleep between rounds |
| `BbbApi` | bbblb/web/bbbapi.py | the response conversion, the in-place meeting-ID rewrite, the bounded body reader, parameter lookup, callback interception, the create flow, getRecordings and updateRecordings |
| `BbblbApi` | bbblb/api/bbblbapi.py | the end-callback signature check, the callback proxy, bearer tokens and scopes, the upload gate |
| `StateCli` | bbblb/cli/state.py | `state load` and `state save` |
| `TenantCli` | bbblb/cli/tenant.py | `tenant create`, `remove` and `override` |
| `OverrideCli` | bbblb/cli/override.py | the `NAME<op>VALUE` parser, `override set`, `unset` and `list` |
| `RecordingCli` | bbblb/cli/recording.py | `recording delete` and `remove-orphans` |
| `CliMain` | bbblb/cli/__init__.py | the `-c KEY=VALUE` options and the `-v` verbosity |

Database tables are maps or sequences of rows. An ORM object whose fields the
source assigns in place is a class: `Server`, `Store` (meetings, callbacks,
recordings), `Registry` (servers, tenants, override calls), `LockTable`,
`ApiRequest`, `Environ` and `Loggers`. Loops in the source are `while` loops
with invariants, proved against a function that states the result.

Some things come from outside the program or are not shown in the source.
They are parameters of the operations that use them:

- the clock (`now`) and random values (the meeting uuid, the token of a new tenant secret);
- HMAC-SHA256 (`mac`) and the JWT library (`TokenSite`);
- URL building (`CallbackSite`), `utils.add_scope` and UTF-8 decoding with `parse_qs` (`ProxySite`);
- the server lookup by domain;
- the answer of the back-end server to `getMeetings` and `create`;
- the existence of a recording's storage directory (`StorageLookup`);
- the iteration order of Python dictionaries and sets (`order` arguments);
- a row committed by a concurrent transaction (`racer`).

Loads and factors are `real`. Time is whole seconds as in the `createTime`
comparison of the poller.

Where the specification of the program and its code disagree, the model
follows the code:

- `select_best` orders the available servers by load DESCENDING and takes the
  first, so a new meeting goes to the most loaded available server, not the
  least loaded (bbblb/model.py:454-455).
- A failed poll leaves `running_ids` empty, so every known meeting of that
  server is forgotten. The delete matches internal ids on all servers, and a
  meeting whose internal id is still NULL is never deleted, because SQL `IN`
  never matches NULL (bbblb/services/poller.py:157-172).
- The create call forwards the parameters of an already existing meeting as
  they are: no meeting-ID scoping, no `meta_bbblb-*` values, no callback
  rewriting (bbblb/web/bbbapi.py:321-357).
- The analytics callback type is `meta[5:-14]`, that is `"analytic"`, not
  `"analytics"` (bbblb/web/bbbapi.py:276).
- `state save` writes the tenant secret as its realm (see Findings).
- getRecordings appends the last <format> element of a recording with formats
  in place of the recording itself (see Findings).
- The getRecordings metadata element unpacks the filter keys instead of the
  recording's metadata (see Findings).
- The `override set` help text offers a `+` operator that the pattern rejects
  (bbblb/cli/override.py:49-52, 69).
- bbblb/api/bbblbapi.py is written against another version of the model and
  web modules. It uses `model.ScopedSession`, `model.transactional`,
  `model.scope`, `Server.find` without a session and `bbbapi.forget_meeting`
  with one argument. cli/state.py and cli/override.py use
  `async_command(db=True)` and `model.session()`. The model follows what these
  calls evidently mean: a transaction committed at the end, and a lookup of a
  meeting or server.

## Model

| member | source | states |
|---|---|---|
| Model.OnError | bbblb/model.py:462-476 | a failed poll leaves a server OFFLINE iff it was OFFLINE or had reached the failure threshold, and then its counters are kept; otherwise it is UNSTABLE with one more error and no recovery count |
| Model.OnSuccess | bbblb/model.py:478-493 | a successful poll leaves a server AVAILABLE iff it was AVAILABLE or had reached the recovery threshold; a server that just became AVAILABLE has both counters reset, an AVAILABLE one is unchanged, and otherwise it is UNSTABLE with one more recovery |
| Model.Run | bbblb/model.py:462-493 | only successes leave an AVAILABLE server as it is, and only failures an OFFLINE one |
| Model.FailuresAccumulate | bbblb/model.py:462-476 | k failed polls of a server that is not OFFLINE, with the error count staying within the threshold, leave it UNSTABLE with k more errors and no recovery count |
| Model.OfflineAbsorbsFailures | bbblb/model.py:462-464 | an OFFLINE server stays exactly as it is after any number of failed polls |
| Model.SuccessesAccumulate | bbblb/model.py:478-488 | k successful polls of a server that is not AVAILABLE, with the recovery count staying within the threshold, leave it UNSTABLE with k more recoveries and its error count |
| Model.RunKeepsCounters | bbblb/model.py:462-493 | the error count stays between 0 and the failure threshold and the recovery count between 0 and the recovery threshold, across any sequence of poll outcomes |
| Model.RunAppend | bbblb/model.py:462-493 | running two sequences of poll outcomes one after the other is running their concatenation |
| Model.Repeat | bbblb/model.py:462-493 | a sequence of k equal poll outcomes (used by the threshold lemmas) |
| Model.OfflineAfterThresholdPlusOne | bbblb/model.py:465-476 | an AVAILABLE server without errors is OFFLINE after T+1 failed polls and not OFFLINE after T or fewer, T the failure threshold |
| Model.NewServerAvailableAfterThresholdPlusOne | bbblb/model.py:435-493 | a new server (OFFLINE, no errors, no recovery) is AVAILABLE with both counters 0 after R+1 successful polls and not AVAILABLE after R or fewer, R the recovery threshold |
| Model.Server.constructor | bbblb/model.py:424-445 | a server inserted with a domain and secret is enabled, OFFLINE, has no errors, no recovery count and no load |
| Model.Server.MarkError | bbblb/model.py:462-476 | the health columns after `mark_error`: unchanged when OFFLINE; below the threshold one more error, recovery 0 and UNSTABLE; at the threshold OFFLINE with the counters kept |
| Model.Server.MarkSuccess | bbblb/model.py:478-493 | the health columns after `mark_success`: unchanged when AVAILABLE; below the threshold one more recovery and UNSTABLE; otherwise AVAILABLE with both counters 0 |
| Model.Server.IncrementLoad | bbblb/model.py:457-460 | this server's load grows by the given amount and nothing else of any server changes |
| Model.SelectAvailable | bbblb/model.py:447-452 | the result holds exactly the enabled, AVAILABLE servers |
| Model.MostLoaded | bbblb/model.py:454-455 | ORDER BY load DESC LIMIT 1: a candidate whose load is at least every other candidate's, nothing iff there are no candidates |
| Model.SelectBest | bbblb/model.py:453-455 | nothing iff no server is enabled and AVAILABLE; otherwise an enabled, AVAILABLE server with maximal load among those |
| Model.Pruned | bbblb/model.py:343-356 | the lock of that name is dropped iff a force-release period is given and its timestamp is older than now minus that period; every other lock is kept unchanged |
| Model.Acquire | bbblb/model.py:343-364 | acquiring succeeds iff no lock of that name remains after pruning; then the pruned table gets the lock with this owner and now; a failure leaves the table as it was |
| Model.Refresh | bbblb/model.py:367-379 | `check` holds iff the lock exists and is owned by this process; only then its timestamp becomes now; no lock is added or removed |
| Model.Release | bbblb/model.py:382-392 | `try_release` holds iff the lock exists and is owned by this process; then exactly that lock is deleted, else nothing changes |
| Model.AcquireIsNotReentrant | bbblb/model.py:343-364 | acquiring a lock this process just acquired fails again, unless the force-release period has passed in between |
| Model.ForeignLocksUntouched | bbblb/model.py:367-392 | refreshing or releasing a lock held by another process returns false and leaves the table unchanged |
| Model.LockTable.constructor | bbblb/model.py:334-341 | an empty lock table for one process identity |
| Model.LockTable.TryAcquire | bbblb/model.py:343-364 | the result and the new table are those of Acquire |
| Model.LockTable.Check | bbblb/model.py:367-379 | the result and the new table are those of Refresh |
| Model.LockTable.TryRelease | bbblb/model.py:382-392 | the result and the new table are those of Release |
| Model.Store.constructor | bbblb/model.py:504-590 | empty meeting, callback and recording tables |
| Model.Store.GetOrCreate | bbblb/model.py:220-248 | an existing row is returned uncreated and the table is unchanged; otherwise the new row is inserted and returned as created; when a concurrent insert wins, that row is returned uncreated |
| Model.EncodeList | bbblb/model.py:254-259 | NULL is stored as NULL, the empty list as the empty text and a one-element list as that element |
| Model.DecodeList | bbblb/model.py:261-264 | NULL reads as NULL, and any text as a non-empty list of lines none of which holds a newline |
| Model.ListRoundTrip | bbblb/model.py:255-265 | decoding the encoded value gives back NULL or any non-empty list whose items contain no newline |
| Model.TextRoundTrip | bbblb/model.py:255-265 | encoding a decoded column value gives back the stored text |
| Model.EmptyListComesBackAsOneEmptyString | bbblb/model.py:255-265 | the empty list is stored as "" and read back as a list of one empty string |
| Model.BindHealth | bbblb/model.py:275-280 | NULL is stored as NULL, and a health value as its number, 0 to 2 |
| Model.ReadHealth | bbblb/model.py:283-291 | a stored integer reads as a health value iff it is 0, 1 or 2, and then as the value with that number |
| Model.HealthRoundTrip | bbblb/model.py:276-291 | reading a stored health value gives it back, NULL included |
| Model.Registry.constructor | bbblb/model.py:398-445 | empty server and tenant tables and no override calls |
| Poller.Age | bbblb/services/poller.py:141 | the age of a meeting is never negative |
| Poller.Penalty | bbblb/services/poller.py:142-143 | no penalty from the cooldown on; before it a positive prediction factor adds an amount in (0, factor] |
| Poller.Running | bbblb/services/poller.py:124-131 | every running id is the internalMeetingID of a reported meeting |
| Poller.Users | bbblb/services/poller.py:133-134 | with no negative participant count the user total is not negative |
| Poller.AllEndedIsIdle | bbblb/services/poller.py:124-143 | when every reported meeting has ended nothing runs, and the user total (Users) and the load (TotalLoad) are both zero |
| Poller.SettledMeetingLoad | bbblb/services/poller.py:133-143 | a meeting at least the cooldown old adds (MeetingLoad) the base load plus the weighted participant, voice and video counts, with no prediction term |
| Poller.RunningIsLive | bbblb/services/poller.py:124-131 | an id is running iff some reported meeting that has not ended carries it, known to the database or not |
| Poller.LoadAdditive | bbblb/services/poller.py:124-143 | the load of two answers together is the sum of their loads |
| Poller.LiveCount | bbblb/services/poller.py:124-127 | at most as many live meetings as reported meetings |
| Poller.MeetingLoadAtLeastBase | bbblb/services/poller.py:133-143 | with non-negative factors and counts a running meeting adds at least the base load |
| Poller.LoadAtLeastBase | bbblb/services/poller.py:124-143 | with non-negative factors and counts the load is at least the base load times the number of live meetings |
| Poller.Forgotten | bbblb/services/poller.py:164-172 | a meeting row is deleted iff its internal id is set and in the forget set; the others are kept unchanged |
| Poller.KnownIds | bbblb/services/poller.py:106-107 | the known ids are exactly the internal ids of the meetings the table assigns to the server |
| Poller.PollResult | bbblb/services/poller.py:101-172 | a poll is skipped iff the server is disabled and has no meetings; otherwise it succeeds iff the answer is not an error and forgets exactly the known meetings that are not running; after an error nothing is running and users and load are zero |
| Poller.SkippedExactly | bbblb/services/poller.py:106-111 | a poll is skipped iff the server is disabled and has no meetings |
| Poller.ForgetExactly | bbblb/services/poller.py:115-163 | an id is forgotten iff the database knows it on this server and the poll succeeded without it running; after a failed poll every known id is forgotten |
| Poller.NullIdsSurvive | bbblb/services/poller.py:168-172 | a meeting whose internal id is NULL survives every poll unchanged |
| Poller.AddMeetingLoad | bbblb/services/poller.py:133-143 | the load additions for one running meeting add exactly that meeting's load: the base, the per-participant, per-voice and per-video weights and the start-up penalty of a young meeting |
| Poller.Tally | bbblb/services/poller.py:115-143 | the loop over the reported meetings yields the running ids, the participant count and the load of the meetings that have not ended |
| Poller.PollOne | bbblb/services/poller.py:101-197 | a skipped poll changes nothing; otherwise the forgotten meetings are deleted; success sets the load to the computed one and applies mark_success; failure keeps the load and applies mark_error |
| Poller.SleepSeconds | bbblb/services/poller.py:86-92 | the sleep is the larger of 1 second and the interval minus the time the round took |
| BbbApi.Render | bbblb/web/bbbapi.py:41-45 | an error response is answered as that error; a reply with an XML body as XML, any other as JSON, each with its own body and status |
| BbbApi.Convert | bbblb/web/bbbapi.py:29-51 | a BBB error is answered like a response; another exception becomes an internalError with status 500; a returned response is rendered, a tree answered as XML and a dict as JSON, both with 200; anything else is passed on unconverted |
| BbbApi.FixedNodes | bbblb/web/bbbapi.py:70-76 | element by element, the rewrite of each |
| BbbApi.FixTouchesOnlyMatches | bbblb/web/bbbapi.py:70-76 | tags never change; only meetingID and meetingId elements with the searched text change, and they read the replacement |
| BbbApi.FixIdempotent | bbblb/web/bbbapi.py:70-76 | rewriting twice is rewriting once when search and replacement differ |
| BbbApi.FixReversible | bbblb/web/bbbapi.py:70-76 | rewriting back restores the reply when no meeting-ID element carried the replacement before |
| BbbApi.FixMeetingId | bbblb/web/bbbapi.py:70-76 | the array of elements after the in-place loop is the rewrite of its old contents |
| BbbApi.ConcatPrefixShorter | bbblb/web/bbbapi.py:178-182 | the bytes read so far are never more than the whole body |
| BbbApi.ApiRequest.constructor | bbblb/web/bbbapi.py:79-106 | a request with its method and body stream and no cached body |
| BbbApi.ApiRequest.ReadBody | bbblb/web/bbbapi.py:172-184 | a cached body is returned again; a request that is not POST raises TypeError; otherwise the concatenated chunks, cached, iff no prefix of the stream exceeds the limit, else the 413 error and nothing cached |
| BbbApi.MissingKey | bbblb/web/bbbapi.py:199 | the error key is "missingParameter" followed by the name with its first letter upper-cased and the rest unchanged |
| BbbApi.MissingKeyNamesParameter | bbblb/web/bbbapi.py:199 | the error key is "missingParameter" and the name with its first letter upper-cased; the name can be read back |
| BbbApi.RequireParam | bbblb/web/bbbapi.py:186-200 | the converted value when present and convertible; else the default when there is one; else the missingParameter error of that name |
| BbbApi.StringParam | bbblb/web/bbbapi.py:186-198 | with a default, a string parameter never fails: the given value or the default |
| BbbApi.IntParam | bbblb/web/bbbapi.py:186-198 | with a default, an integer parameter is the value `int()` reads (whitespace around it, an optional sign, digit groups joined by single underscores), or the default when it is missing or not such a literal |
| BbbApi.IntParamOfString | bbblb/web/bbbapi.py:195 | a number written in decimal into the query reads back as that number |
| Base.ParseIntUnderscore | bbblb/web/bbbapi.py:195 | a single underscore between two digit strings is skipped: the literal reads as the two strings written together |
| Base.ParseIntDoubleUnderscore | bbblb/web/bbbapi.py:195 | two underscores in a row make the literal unreadable, as with `int()` |
| Base.DigitsValueSkips | bbblb/web/bbbapi.py:195 | an underscore inside a digit string does not change its value |
| Base.UnderscoreJoin | bbblb/web/bbbapi.py:195 | two digit strings joined by one underscore are a valid group of digits |
| BbbApi.EndSignature | bbblb/web/bbbapi.py:246-247 | the signature of the end callback URL is the hex form of the HMAC of the ASCII message, two characters per byte |
| BbbApi.NewCallbacks | bbblb/web/bbbapi.py:235-292 | every callback remembered for a new meeting carries its uuid, tenant and server, and one of them is an end callback iff a non-empty meetingEndedURL was given |
| BbbApi.InterceptedParams | bbblb/web/bbbapi.py:235-292 | the recording-ready parameters are gone, the analytics URL (if kept) is the proxy URL, meetingEndedURL is the signed end URL, and every other parameter is passed on unchanged |
| BbbApi.RecCallbacks | bbblb/web/bbbapi.py:255-268 | one REC callback for the meeting per recording-ready key |
| BbbApi.RecCallbacksOnKeys | bbblb/web/bbbapi.py:255-268 | the REC callbacks depend only on the values of the recording-ready keys |
| BbbApi.PopRecordingReady | bbblb/web/bbbapi.py:255-268 | the loop removes exactly the recording-ready keys and keeps every other parameter; it records their callbacks only for a new meeting |
| BbbApi.ReplaceEndUrl | bbblb/web/bbbapi.py:235-250 | meetingEndedURL becomes the URL signed with the HMAC of the meeting's uuid; the original is remembered as an END callback only when it is non-empty and the meeting is new |
| BbbApi.ProxyAnalytics | bbblb/web/bbbapi.py:273-292 | a non-empty analytics URL is replaced by the proxy URL of type "analytic" and remembered for a new meeting; an empty one is dropped |
| BbbApi.InterceptedParamsFacts | bbblb/web/bbbapi.py:229-294 | the forwarded parameters hold the signed end URL, no recording-ready key, the proxy URL exactly when a non-empty analytics URL was given, and every other parameter unchanged |
| BbbApi.InterceptCallbacks | bbblb/web/bbbapi.py:229-294 | meetingEndedURL is always the locally signed URL; no recording-ready key remains; a non-empty analytics URL is replaced by the proxy URL and an empty one dropped; every other parameter is untouched; callbacks only for a new meeting |
| BbbApi.AnalyticsTypeIsAnalytic | bbblb/web/bbbapi.py:276 | the analytics callback type is "analytic" |
| BbbApi.ServerLoads | bbblb/web/bbbapi.py:323-330 | the loads of the servers, in order |
| BbbApi.PlacedParamsKeepRecordingReadyKeys | bbblb/web/bbbapi.py:343-347 | setting the meeting ID and the bbblb metadata keeps the recording-ready keys as they were |
| BbbApi.PlacedKeysNotIntercepted | bbblb/web/bbbapi.py:343-351 | none of the parameters set for a placed meeting is rewritten by the interception |
| BbbApi.PlacedParamsValues | bbblb/web/bbbapi.py:343-347 | the meeting ID is the scoped one, and meta_bbblb-uuid, -origin, -tenant and -server hold the meeting's values |
| BbbApi.PlaceMeeting | bbblb/web/bbbapi.py:321-357 | a meeting not yet in the table is inserted (or the concurrent one taken); the server load grows by the initial and meeting factors only when this call created it; its callbacks are stored only when created |
| BbbApi.ForwardCreate | bbblb/web/bbbapi.py:359-394 | the client gets the back-end's answer with the meeting ID unscoped; an existing meeting changes no table; a created meeting gets its internal id on success, and on failure it and its callbacks are deleted |
| BbbApi.CreateParamCheck | bbblb/web/bbbapi.py:302-313 | missing meetingID, then missing name, then a scoped id longer than the limit, in that order, are errors; otherwise the unscoped id |
| BbbApi.CreateOn | bbblb/web/bbbapi.py:328-394 | on the chosen server: only that server gains load, and only for a meeting this call created; the rewritten parameters go to the meeting's server; a created meeting gets its internal ID on success and is forgotten with its callbacks on failure |
| BbbApi.CreateNew | bbblb/web/bbbapi.py:321-394 | the most loaded available server is chosen; without one the call fails and nothing changes; the chosen server alone gets the added load; health and enabled never change |
| BbbApi.HandleCreate | bbblb/web/bbbapi.py:297-394 | a parameter error changes nothing; an existing meeting is forwarded with no server selected and no load added; for a new meeting the best server is chosen, no server is an error that changes nothing, and otherwise the meeting, its callbacks, the load and the reply are those CreateNew states |
| BbbApi.ListEntries | bbblb/web/bbbapi.py:608-621 | every entry is non-empty and stripped |
| BbbApi.ListParam | bbblb/web/bbbapi.py:608-621 | a comma-separated parameter gives non-empty, stripped entries |
| BbbApi.ListEntriesOfEntries | bbblb/web/bbbapi.py:608 | entries that are already non-empty and stripped are kept as they are |
| BbbApi.ListParamJoin | bbblb/web/bbbapi.py:608-621 | joining non-empty, stripped entries without commas by ',' and parsing gives them back |
| BbbApi.MetaFilter | bbblb/web/bbbapi.py:598 | the filter holds exactly the meta_ parameters, without the prefix, with their values |
| BbbApi.QueryOf | bbblb/web/bbbapi.py:594-634 | at most 100 record-id prefixes; a state filter of 1 to 5 states, off iff no state or "any" is given; an offset iff 0 < offset < 10000; the limit iff 0 < limit < MAX_ITEMS, else MAX_ITEMS |
| BbbApi.Selects | bbblb/web/bbbapi.py:601-628 | a selected recording belongs to the tenant and carries every meta_ filter entry with its value |
| BbbApi.Matching | bbblb/web/bbbapi.py:602-628 | exactly the recordings the WHERE clause selects |
| BbbApi.Found | bbblb/web/bbbapi.py:629-639 | no more recordings than the limit, each of them selected |
| BbbApi.FoundBounded | bbblb/web/bbbapi.py:629-634 | a getRecordings call lists at most MAX_ITEMS recordings, and all matches when they fit and no offset is given |
| BbbApi.AnyStateMatchesAll | bbblb/web/bbbapi.py:621-625 | with "any" among the states, the state of a recording does not matter |
| BbbApi.Metadata | bbblb/web/bbbapi.py:653 | one element per metadata key, each the recording's own key and value |
| BbbApi.MetadataAsWritten | bbblb/web/bbbapi.py:653 | the metadata element as written unpacks each filter key into a pair |
| BbbApi.MetadataAsWrittenFails | bbblb/web/bbbapi.py:653 | a filter key whose length is not 2 makes the whole listing fail |
| BbbApi.MetadataAsWrittenOrigin | bbblb/web/bbbapi.py:653 | a filter on meta_origin fails |
| BbbApi.MetadataListsRecordingMeta | bbblb/web/bbbapi.py:653 | the intended metadata element lists exactly the recording's own metadata |
| BbbApi.RecordingEntryOf | bbblb/web/bbbapi.py:639-655 | a recording is listed iff it has a meetingName (else KeyError); published is "true" iff its state is published; the metadata is the recording's own |
| BbbApi.ListedAsWritten | bbblb/web/bbbapi.py:639-666 | as written, a recording is listed iff it has a meetingName (else KeyError) |
| BbbApi.ListedAsWrittenLosesRecording | bbblb/web/bbbapi.py:661-666 | a recording with the formats presentation and video is listed as a bare <format> element for video |
| BbbApi.Listed | bbblb/web/bbbapi.py:639-666 | a recording is listed iff it has a meetingName, as a <recording> with its record and meeting ids and its playback formats in order |
| BbbApi.ListedAsWrittenAgrees | bbblb/web/bbbapi.py:661-666 | the code as written lists a recording as intended exactly when it has no playback formats |
| BbbApi.UpdatesAmong | bbblb/web/bbbapi.py:755-759 | among the listed parameters, every update comes from an update parameter, and every update parameter yields one |
| BbbApi.UpdatesAmongDistinct | bbblb/web/bbbapi.py:755-759 | distinct parameter names yield updates of distinct keys |
| BbbApi.MetaUpdates | bbblb/web/bbbapi.py:755-759 | the updates are exactly the meta_ parameters that do not start with meta_bbblb-, each without the prefix and with its value, and no key is updated twice |
| BbbApi.Merged | bbblb/web/bbbapi.py:767-771 | the last update wins: a non-empty value is stored under its key, an empty one removes it |
| BbbApi.MergedSets | bbblb/web/bbbapi.py:755-771 | an update parameter with a non-empty value sets its key to that value |
| BbbApi.MergedRemoves | bbblb/web/bbbapi.py:755-771 | an update parameter with an empty value removes its key |
| BbbApi.MergedKeeps | bbblb/web/bbbapi.py:755-771 | a key with no update parameter (none given, or a meta_bbblb- one) keeps its presence and value |
| BbbApi.MergedMeaning | bbblb/web/bbbapi.py:766-771 | a non-empty update sets its key, an empty one removes it, and no other key changes |
| BbbApi.MergeMeta | bbblb/web/bbbapi.py:767-771 | the loop over the updates yields the merged metadata |
| BbbApi.Updated | bbblb/web/bbbapi.py:761-771 | only the metadata of a selected recording changes; a recording of another tenant or id is unchanged |
| BbbApi.UpdateRecordings | bbblb/web/bbbapi.py:749-773 | a missing recordID changes nothing and is an error; otherwise every recording becomes its Updated version under the updates MetaUpdates takes from the query, in order |
| BbblbApi.Wrap | bbblb/api/bbblbapi.py:25-43 | an answer is passed on and any exception becomes a 500 reply |
| BbblbApi.EndSignatureOk | bbblb/api/bbblbapi.py:91-93 | the check is undecided (an exception) for a non-ASCII uuid or a signature that is not hex, and holds iff the decoded signature equals the HMAC of "bbblb:callback:end:" and the uuid |
| BbblbApi.EndMessageAscii | bbblb/api/bbblbapi.py:91 | the signed message is ASCII iff the uuid is |
| BbblbApi.SignedEndUrlAccepted | bbblb/api/bbblbapi.py:91-93 | the signature put into the end-callback URL at create time passes the check |
| BbblbApi.EndSignatureOnlyOwn | bbblb/api/bbblbapi.py:91-93 | a signature passes iff it decodes to the same bytes as the one signed for that uuid, so it may differ only in the case of its hex digits and in whitespace |
| BbblbApi.MatchingCallbacks | bbblb/api/bbblbapi.py:140-141 | exactly the callbacks of that meeting and type, in table order |
| BbblbApi.OtherCallbacks | bbblb/api/bbblbapi.py:106 | exactly the callbacks of every other meeting or type, in table order |
| BbblbApi.Forgotten | bbblb/api/bbblbapi.py:109-113 | the meetings table without the meeting of that uuid; every other row unchanged |
| BbblbApi.HandleCallbackEnd | bbblb/api/bbblbapi.py:78-115 | a bad signature answers 401 and changes nothing; otherwise 200, the END callback is deleted and forwarded when it has a URL, and the meeting is forgotten |
| BbblbApi.SignedParameters | bbblb/api/bbblbapi.py:134-138 | the first signed_parameters value of a UTF-8 form body, nothing otherwise |
| BbblbApi.CallbackProxy | bbblb/api/bbblbapi.py:118-157 | 413 once the body passes the limit; 400 without signed parameters; 200 with nothing fired when no callback is registered; 401 when the token does not verify with the first callback's server secret; else every callback fired with the payload |
| BbblbApi.Scopes | bbblb/api/bbblbapi.py:169-171 | no scope when the claim is absent; every scope is a non-empty word without whitespace |
| BbblbApi.ScopesOfJoined | bbblb/api/bbblbapi.py:169-178 | scopes joined by blanks come back as exactly that set, when they are non-empty and contain no whitespace |
| BbblbApi.FromRequest | bbblb/api/bbblbapi.py:180-208 | nothing without a header, without exactly two words, with another scheme than bearer in any case, or when decoding fails; a server token gets scope bbb and the server's domain as subject; other tokens are checked with the global secret |
| BbblbApi.ServerTokenScope | bbblb/api/bbblbapi.py:191-201 | a token with a key id authenticates only a known server, with scope bbb and the server domain as subject |
| BbblbApi.NoBearerNoAuth | bbblb/api/bbblbapi.py:182-189 | a missing or empty header, or another scheme, yields no authentication |
| BbblbApi.Upload | bbblb/api/bbblbapi.py:211-245 | 401 unless the token has rec, rec:upload or bbb, checked first; then 415 with Accept-Post unless the type is application/x-tar; then 202 with the import id, or 500 when the import cannot start |
| BbblbApi.ServerTokenMayUpload | bbblb/api/bbblbapi.py:199-215 | a server token always passes the authorisation of the upload |
| StateCli.LogChange | bbblb/cli/state.py:91-98 | the attribute takes the new value and changes becomes true iff it was true or the old value differs |
| StateCli.UpsertedServers | bbblb/cli/state.py:108-116 | every server of the document exists with the document's secret and enabled flag; every other server is unchanged; existing meetings are kept |
| StateCli.UpsertServer | bbblb/cli/state.py:109-116 | one server of the document: created when missing, then given the document's secret and enabled flag with its meetings kept; a change is logged iff it was missing or either attribute differed |
| StateCli.UpsertServers | bbblb/cli/state.py:107-116 | the loop yields those servers, and reports a change iff some server of the document is new or differs |
| StateCli.UpsertedTenants | bbblb/cli/state.py:137-147 | every tenant of the document exists with the document's secret, realm and enabled flag; every other tenant is unchanged |
| StateCli.UpsertTenant | bbblb/cli/state.py:137-147 | one tenant of the document: created when missing, then given the document's secret, realm and enabled flag; a change is logged iff it was missing or any attribute differed |
| StateCli.UpsertTenants | bbblb/cli/state.py:136-147 | the loop yields those tenants, and reports a change iff some tenant of the document is new or differs |
| StateCli.Retired | bbblb/cli/state.py:118-165 | rows still in the document stay as they are; an obsolete row is deleted iff it is to be removed, and is disabled otherwise; no row is added |
| StateCli.RetiredMeaning | bbblb/cli/state.py:118-165 | an obsolete row is deleted iff clean and (nuke or no meetings), and disabled otherwise; other rows are unchanged |
| StateCli.EndedMeetingsMeaning | bbblb/cli/state.py:124-159 | a meeting is ended iff it belongs to an obsolete row |
| StateCli.EndedMeetingsAdd | bbblb/cli/state.py:119-128 | one more obsolete row ends its meetings in addition |
| StateCli.RetireRows | bbblb/cli/state.py:118-165 | the obsolete loop yields the retired rows; it ends meetings only when nuke and not dry-run, and then exactly the meetings of the obsolete rows |
| StateCli.RetireOne | bbblb/cli/state.py:120-134 | one turn: the row is deleted or disabled, and its meetings ended with nuke and not dry-run |
| StateCli.RetiredNone | bbblb/cli/state.py:119 | without obsolete rows nothing is retired |
| StateCli.EndedMeetingsNone | bbblb/cli/state.py:119 | without obsolete rows no meeting is ended |
| StateCli.RetiredAdd | bbblb/cli/state.py:119-134 | retiring one more obsolete row changes only that row |
| StateCli.EndedMeetingsSameRows | bbblb/cli/state.py:119-128 | rows that agree on the obsolete names end the same meetings |
| StateCli.ReconcileServers | bbblb/cli/state.py:107-134 | the two server loops yield the loaded servers and the ended meetings; any obsolete server counts as a change |
| StateCli.ReconcileTenants | bbblb/cli/state.py:136-165 | the two tenant loops yield the loaded tenants and the ended meetings; any obsolete tenant counts as a change |
| StateCli.Load | bbblb/cli/state.py:68-176 | the tables become the loaded ones iff something changed and this is not a dry run, else they are unchanged; meetings are ended only with nuke and not dry-run |
| StateCli.LoadedServers | bbblb/cli/state.py:107-134 | every server left is in the table or the document, and one the document does not name is kept only disabled |
| StateCli.LoadedTenants | bbblb/cli/state.py:136-165 | every tenant left is in the table or the document, and one the document does not name is kept only disabled |
| StateCli.UnchangedLoadKeepsTables | bbblb/cli/state.py:87-175 | when the document would log no change (LoadChanges false), the loaded tables are the current ones, so skipping the commit loses nothing |
| StateCli.LoadedHasDocument | bbblb/cli/state.py:108-147 | after loading, every server and tenant of the document exists with the document's values |
| StateCli.ObsoleteServer | bbblb/cli/state.py:119-134 | an obsolete server is removed iff clean and (nuke or no meetings), and is otherwise kept disabled |
| StateCli.SaveAsWritten | bbblb/cli/state.py:22-42 | the export as written: servers with secret and enabled, tenants with secret, realm (holding the secret) and enabled |
| StateCli.SaveAsWrittenLosesRealm | bbblb/cli/state.py:40 | loading what save wrote changes the realm of every tenant whose realm differs from its secret |
| StateCli.Save | bbblb/cli/state.py:22-42 | the intended export: every server and tenant with its own values, realm included |
| StateCli.SaveLoadRoundTrip | bbblb/cli/state.py:22-176 | loading the intended export reports no change and leaves the tables as they are |
| TenantCli.Or | bbblb/cli/tenant.py:48-49 | `a or b`: the first value when it is set and non-empty, else the second |
| TenantCli.CreatedTenant | bbblb/cli/tenant.py:43-49 | realm: the given one, else the existing non-empty one, else name.DOMAIN; secret: the given one, else the existing non-empty one, else the random token; a new tenant is enabled without meetings, an existing one keeps both |
| TenantCli.Create | bbblb/cli/tenant.py:32-53 | an existing name without --update is refused and nothing changes; otherwise CREATED or UPDATED, with only that tenant's row replaced |
| TenantCli.Remove | bbblb/cli/tenant.py:59-70 | found iff the tenant exists; afterwards it does not |
| TenantCli.Override | bbblb/cli/tenant.py:92-123 | exit 0 iff the tenant exists and every argument parses; then the clear (with --clear) and the additions in order are stored; on exit 1 nothing is |
| TenantCli.UpdateIdempotent | bbblb/cli/tenant.py:48-49 | updating a tenant with realm and secret set, without new values, leaves its row unchanged |
| TenantCli.CreateThenUpdate | bbblb/cli/tenant.py:43-49 | a plain update after a create with a non-empty token changes nothing |
| OverrideCli.ParseOverride | bbblb/cli/override.py:69-73 | a parsed override is the argument split at a valid place: a name, one operator and the value |
| OverrideCli.ValueOf | bbblb/cli/override.py:69 | `(.*)$`: the value has no newline and is the rest of the input, up to one final newline |
| OverrideCli.RunLength | bbblb/cli/override.py:69 | the longest prefix of name characters, and the character after it is not one |
| OverrideCli.Search | bbblb/cli/override.py:69 | the backtracking of the greedy name group yields a name length of at most k characters at which the pattern matches |
| OverrideCli.SearchFinds | bbblb/cli/override.py:69 | no longer name of at most k characters matches than the one found, and none at all when nothing is found |
| OverrideCli.ParseOverrideLongest | bbblb/cli/override.py:69 | the parse succeeds iff some split matches the pattern, and the name is then the longest one that does |
| OverrideCli.SplitAtRecompose | bbblb/cli/override.py:69-73 | a matching split has a non-empty name of name characters, an operator, a value without newline, and they recompose the input |
| OverrideCli.ParseOverrideRecompose | bbblb/cli/override.py:69-73 | name, operator and value together give the input back, up to a final newline; the operator is one of =, ?, < and - |
| OverrideCli.PlusIsRejected | bbblb/cli/override.py:49-69 | "x+1" does not parse |
| OverrideCli.DashEndsLongestName | bbblb/cli/override.py:69 | "a--" parses as the name "a-", the operator "-" and an empty value |
| OverrideCli.AddCalls | bbblb/cli/override.py:68-74 | one add_override call per argument, with its parsed name, operator and value |
| OverrideCli.CollectAdds | bbblb/cli/override.py:68-74 | the loop yields the add calls iff every argument parses |
| OverrideCli.SetOverrides | bbblb/cli/override.py:40-77 | exit 0 iff the tenant exists, --clear or some override is given, and every override parses; then the clear and the additions are committed; on exit 1 nothing is |
| OverrideCli.UnsetOverrides | bbblb/cli/override.py:84-98 | exit 0 iff the tenant exists; then one remove_override per name, in order; on exit 1 nothing is stored |
| OverrideCli.StrLessTotal | bbblb/cli/override.py:29 | Python's string order is total |
| OverrideCli.Insert | bbblb/cli/override.py:29 | inserting adds exactly the one item |
| OverrideCli.InsertSorted | bbblb/cli/override.py:29 | inserting into a key-sorted list keeps it sorted |
| OverrideCli.SortByKey | bbblb/cli/override.py:29 | `sorted(items)` is a permutation of the items |
| OverrideCli.SortByKeySorted | bbblb/cli/override.py:29 | `sorted(items)` is in key order |
| OverrideCli.TenantLines | bbblb/cli/override.py:28-30 | one line per override of the tenant |
| OverrideCli.Named | bbblb/cli/override.py:19-24 | exactly the tenants with that name |
| OverrideCli.AllLines | bbblb/cli/override.py:28-30 | one line per override of every tenant in the list |
| OverrideCli.ListOverrides | bbblb/cli/override.py:16-30 | exit 1 iff a named tenant is unknown; otherwise the lines of the named tenant, or of every tenant without a name |
| OverrideCli.TenantLinesSorted | bbblb/cli/override.py:28-30 | a tenant's lines are "tenant: key" followed by the value, in key order, each override once |
| RecordingCli.KeptFormats | bbblb/cli/recording.py:89-101 | a format is kept iff it is among the record's formats and its storage directory exists |
| RecordingCli.Cleaned | bbblb/cli/recording.py:87-106 | a record is kept iff one of its formats exists, zero formats included, and a kept record has exactly its existing formats |
| RecordingCli.RemoveOrphans | bbblb/cli/recording.py:77-110 | false (rolled back) iff some record has no tenant; otherwise the cleaned records are committed unless this is a dry run |
| RecordingCli.KeptFormatsAll | bbblb/cli/recording.py:95-97 | when every format exists, all are kept |
| RecordingCli.CleanedIdempotent | bbblb/cli/recording.py:77-110 | a second remove-orphans run on the same storage changes nothing |
| RecordingCli.Remaining | bbblb/cli/recording.py:43-45 | exactly the records whose id was not given are left |
| RecordingCli.StorageDeletes | bbblb/cli/recording.py:44-46 | a storage deletion is asked for exactly each given record, with its tenant |
| RecordingCli.Delete | bbblb/cli/recording.py:37-47 | without orphans among the selected records, exactly those are deleted from the table and from storage; otherwise the table is rolled back and the storage deletions before the first orphan remain |
| CliMain.Partition | bbblb/cli/__init__.py:69 | the text before the first '=' and after it, the input and "" without '=' |
| CliMain.SetFromArgument | bbblb/cli/__init__.py:69-77 | one argument: an unknown name raises with its message and changes nothing, a non-empty value sets the variable, an empty one deletes it |
| CliMain.ApplyOne | bbblb/cli/__init__.py:68-77 | one option fails iff its upper-cased name is unknown, with "Unknown config parameter: " and the name, leaving the environment as it was; otherwise a non-empty value sets the variable and an empty one removes it |
| CliMain.ApplyAll | bbblb/cli/__init__.py:68-77 | an error needs at least one option |
| CliMain.FirstUnknownRaises | bbblb/cli/__init__.py:68-72 | the options fail with the message of the first unknown name |
| CliMain.ApplyAllFails | bbblb/cli/__init__.py:68-72 | the arguments raise exactly when one of them names an unknown option |
| CliMain.ApplyAllUntouched | bbblb/cli/__init__.py:68-77 | a variable no argument names keeps its presence and its value |
| CliMain.LastFor | bbblb/cli/__init__.py:68-77 | the last argument for a variable, nothing iff none names it |
| CliMain.ApplyAllLastWins | bbblb/cli/__init__.py:73-77 | the last argument for a variable wins: a non-empty value sets it and an empty one leaves it absent |
| CliMain.AppliedStaysFailed | bbblb/cli/__init__.py:71-72 | after the first unknown name, later arguments change nothing |
| CliMain.Environ.constructor | bbblb/cli/__init__.py:66-77 | the process environment with given variables |
| CliMain.ApplyConfig | bbblb/cli/__init__.py:66-77 | BBBLB_CONFIG is set first from a non-empty --config-file, then the arguments are applied in order, up to and including the first unknown name |
| CliMain.VerbosityMonotone | bbblb/cli/__init__.py:52-62 | more -v flags never make the bbblb or engine logger quieter |
| CliMain.Loggers.constructor | bbblb/cli/__init__.py:48-50 | the root logger at WARNING and no level on the named loggers |
| CliMain.Loggers.SetVerbosity | bbblb/cli/__init__.py:48-62 | 0, 1, 2 set bbblb to WARNING, INFO, DEBUG; 3 also sets the engine logger to DEBUG; 4 or more set only the root to DEBUG |

## Left out

- Database engine, sessions, migrations and SQL execution: tables are maps or sequences, and row locks (`with_for_update`) are not modelled.
- Unique-constraint failures at commit time, other than the one `get_or_create` handles, are not modelled.
- Network calls are left out: the back-end client, the `getMeetings` fan-out, `fire_callback` and `trigger_callback`'s retry loop. The answers are parameters, and fired callbacks are an output sequence.
- The concurrency of the poller (lock contention, timeouts, cancellation) and background tasks are left out.
- HMAC-SHA256 and JWT are uninterpreted functions. Only the hex encoding of the signature is concrete.
- Poller.PollOne does not model a malformed integer in a getMeetings answer, which raises out of the loop. A missing or empty count reads as 0.
- Poller.Age takes the clock and `createTime` as reals and does not model float rounding.
- `Recording.meta` is a JSON column without mutation tracking, so the in-place update of `updateRecordings` may not be stored by the ORM. BbbApi.UpdateRecordings treats the merged metadata as stored.
- BbbApi.UpdateRecordings returns nothing, and the `api` decorator passes that on unconverted (BbbApi.Convert shows this case).
- BbbApi.FixMeetingId works on the elements of the tree in document order. The tree shape is not modelled.
- BbbApi.IntParam: decimal digits outside ASCII (Arabic-Indic digits, full-width digits and the like), which Python's `int()` also accepts, give the default, because the model reads ASCII digits only.
- The <recordings> list of the getRecordings answer is not assembled as a whole: BbbApi.Listed gives the element for one found recording, and BbbApi.Found which recordings are listed.
- BbbApi.Found does not model the JSON operator of the metadata filter. A filter key matches a metadata entry with the same text.
- getRecordings timestamps (`startTime`, `endTime`) and participants are not modelled. A playback format is its name: the <format> document `playback_xml` builds for it is not modelled. Neither are the other BigBlueButton API handlers besides create, getRecordings and updateRecordings.
- Path parameters missing from a callback URL (the "Invalid callback URL" answer) are not modelled, because the router always supplies them.
- Checksum verification, `utils.add_scope`/`extract_scope`, the tenant override API and the recording importer are not part of this model. They are parameters or a journal of calls (`OverrideCall`).
- StateCli.Load takes the JSON document already parsed. Malformed JSON or a missing key is not modelled. `_end_meeting` becomes the output set of ended meetings, so a meeting of both an obsolete server and an obsolete tenant is ended twice in the source.
- StateCli.Load treats deleting a server or tenant row as removing it and its meeting set. The cascade to meetings, callbacks and recordings in the database is not modelled.
- `tenant list` and `recording list` print rows and are not modelled. `recording import` only hands a file to the importer and is not modelled.
- RecordingCli.Delete: the storage deletion is a journal of (tenant, record id) pairs. The importer's own deletion is not modelled.
- `config_.populate()` and `bootstrap()` after the option loop are not modelled.
- CliMain.ApplyConfig does not model the ASCII-only case mapping of `Upper`. Python's `str.upper` also maps other letters.
- CliMain.Loggers.SetVerbosity does not model the log format string.
- bbblb/__main__.py is cited only for the scope join in BbblbApi.ScopesOfJoined. bbblb/asgi.py, bbblb/cli/db.py and docs/conf.py are not part of this model.

## Findings

| source | as written | input that shows it | evidently intended | confidence | as-written member | corrected member |
|---|---|---|---|---|---|---|
| bbblb/cli/state.py:40 | `state save` writes `tenant.secret` under the key "realm" | a tenant with realm "a.example.org" and secret "s": save then load sets its realm to "s" | the realm entry holds `tenant.realm`, so a saved state loads back unchanged | high (not executed) | StateCli.SaveAsWritten (StateCli.SaveAsWrittenLosesRealm) | StateCli.Save (StateCli.SaveLoadRoundTrip) |
| bbblb/web/bbbapi.py:653 | the metadata element iterates `for key, value in meta` over the filter dict, which yields its keys, and unpacks each key string into two values | getRecordings with `meta_origin=x`: unpacking "origin" raises ValueError and the call fails | the recording's own metadata, `rec.meta.items()` | high (not executed) | BbbApi.MetadataAsWritten (BbbApi.MetadataAsWrittenOrigin, BbbApi.MetadataAsWrittenFails) | BbbApi.Metadata (BbbApi.MetadataListsRecordingMeta, BbbApi.RecordingEntryOf) |
| bbblb/web/bbbapi.py:662-666 | the loop over `rec.formats` assigns each new <format> element to `rec_xml`, the name of the <recording> element, and `all_recordings.append(rec_xml)` after the loop appends that last <format> | a published recording with meetingName "Class" and the formats presentation and video is listed as a bare <format> for video, and its <recording> element is missing from the answer | a fresh name for the <format> element, so the <recording> holding every format in its <playback> is appended | high (not executed) | BbbApi.ListedAsWritten (BbbApi.ListedAsWrittenLosesRecording, BbbApi.ListedAsWrittenAgrees) | BbbApi.Listed |
