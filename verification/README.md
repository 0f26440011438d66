# Convex sync client: a verified model

The project models the deterministic core of the Go client for Convex: the sync state
machine of `baseclient`, the reconnect loop that drives it, the Convex value codec, function
paths and query tokens, and two smaller algorithms (source masking for code generation and
the latest-value channel).

How it is organised:

- `ClientSteps` gives the client's state and one step per method; `ClientRuns` defines a run
  as any sequence of method calls and server messages, together with its history (messages
  handed out since the last reset, transitions received, subscriber ids issued, requests
  completed), and the invariant of every run. `RegistryInvariant`, `LedgerInvariant` and
  `SessionInvariant` hold its three parts.
- `BaseClient.BaseClient` is the client as an object with mutable fields. Every public method
  is proved to make exactly one step and to carry the history along, so each theorem about
  runs is a theorem about the object. `LocalStore.OptimisticLocalStore` is the mutable store.
- `Sessions` is an independent account of the other side: a fresh server that accepts a
  message only if it continues the version chain, adds no known query, removes no unknown one
  and repeats no request id. What the client sends is judged by that server.
- `OutcomeTheorems`, `AuthTheorems` and `LoopTheorems` say what each operation does, exactly:
  when it succeeds and what it leaves, in terms of the queue, the pending requests, the
  subscribers and the results. `ClientTheorems`, `AgreementTheorems`, `OptimisticTheorems`,
  `StoreTheorems`, `RestartTheorems`, `ObservationTheorems` and `ReconnectLoop` state what
  holds over whole runs. What the loop does to the shared client is shown to be a run of it,
  so all of that holds in the loop too.
- `NumberCodecs`, `Values`, `Strings`, `Paths`, `Spellings`, `Canonical` cover the codec, the
  paths and the query tokens. `NumberTheorems` and `WireGrammar` hold the codec against an
  independent account of the format: byte weights, bits and a relation between trees and values; `Masking` and `LatestChannel` the two smaller pieces.

An optimistic update is an arbitrary deterministic callback: a tree that calls one store
operation at a time and continues depending on the reply, and may fail at any point.

Where the code does not do what it says:

- A function in a module whose whole path is `api` or `internal` cannot be named with a file
  extension (`api.js:list`): the name is read as a generated one with too few parts. A `.js`
  spelling is also refused when the last component with its extension exceeds 64 characters,
  although the same module without the extension is accepted. `Spellings.SpellingsCollapse`
  gives the exact condition, `RefusedExample` and `RefusedLongExample` two inputs.
- The comment on `UDFPath.Canonicalize` calls it one-to-one. It is not;
  `Paths.CanonicalizeCollapses` says exactly which paths it identifies, and
  `Spellings.CanonicalizeExample` gives two accepted texts.
- A restart that fails on auth returns an error after it has emptied the session, and the
  client goes on from there. If it had queries, the server's view and the client's then differ
  up to the next restart, even if every query is dropped meanwhile; if it had none, they differ
  exactly while a mutation pending at that restart is still pending.
  `AgreementTheorems.AgreementExactly` states this for every run, `FailedRestartExample` gives
  a failing one.

## Model

| member | source | states |
|---|---|---|
| `ClientTheorems.ServerViewAgreement` | baseclient/client_state.go:73-158 | in every run whose last restart did not fail, a fresh server accepts everything queued in the session and ends with exactly the client's query ids, paths and arguments, its two version counters and every pending request |
| `ClientTheorems.SessionVersions` | baseclient/client_state.go:86-124 | in every session of every run, also after a failed restart, query-set messages carry (0,1), (1,2), ... up to the current version and auth messages 0, 1, ... below the current identity version |
| `ClientTheorems.LogOnlyGrows` | baseclient/client_state.go:116-124 | in every stretch of a run without a restart, popped messages followed by the queue only grow at the end, and so do the popped messages |
| `ClientTheorems.RegistryInEveryRun` | baseclient/client_state.go:126-158 | in every run, the query map and the id map are inverse, each count is the number of live subscribers and at least one, results exist only for active queries, and the two unexpected-state errors of Unsubscribe cannot happen |
| `ClientTheorems.SubscribersNeverReissued` | baseclient/client_state.go:73-114 | no two Subscribe calls of a run return the same subscriber id |
| `ClientTheorems.SharedQueriesAreExact` | baseclient/client_state.go:78-99 | two active queries are the same query if and only if their paths and argument values are equal |
| `ClientTheorems.RequestConservation` | baseclient/client_receive.go:257-301 | every issued request id is pending, a completed mutation or a completed action, exactly one of them and completed once; each retained map holds exactly the most recent completions up to the configured limit, at least one, in completion order, with the results they completed with |
| `ClientTheorems.AnswersComeFromTheRun` | baseclient/client_receive.go:198-226 | the result a pending mutation carries is that of a successful response received earlier in the run, with its timestamp |
| `ClientTheorems.NoEarlyRollback` | baseclient/client_receive.go:241-265 | a mutation stops being pending only on a reported failure, or in a transition that ends at or after the commit timestamp of a success received earlier, and then that success is what is recorded |
| `OutcomeTheorems.TransitionSucceedsExactly` | baseclient/client_receive.go:32-49 | a transition succeeds if and only if it continues the version, contains nothing unknown and no update that stays pending fails over the new server results; then the visible results are those updates by increasing id over the server results; applied or not, what it leaves |
| `OutcomeTheorems.TransitionInEveryRun` | baseclient/client_receive.go:118-157 | the same in every run, and that an answered mutation is still pending exactly when its timestamp is later than the end |
| `ObservationTheorems.LastModificationWins` | baseclient/client_receive.go:51-68 | each active query ends a transition with the last modification that concerns it or keeps its result; an inactive query never gets one |
| `OutcomeTheorems.PlainTransitionSucceeds` | baseclient/client_receive.go:127-143 | in every run, with no update left pending, every transition that continues the version and is understood succeeds, and the visible results are the server results |
| `OutcomeTheorems.SubscribersSeeTheServer` | baseclient/client_receive.go:51-78 | in every run, with no update left pending, each live subscriber reads from the snapshot the value or failure of the last modification of its query, or what the server said earlier |
| `OutcomeTheorems.MutationResponseOutcome` | baseclient/client_receive.go:198-226 | exactly when a mutation response is accepted, what it records, what stays pending, and that a failed update is rolled back unless another pending update fails |
| `OutcomeTheorems.ActionResponseOutcome` | baseclient/client_receive.go:228-239 | an action response is accepted exactly while that action is pending, ends it and keeps its result |
| `OutcomeTheorems.OtherMessages` | baseclient/client_receive.go:19-29 | every other message changes nothing and is an error unless it is a ping |
| `OutcomeTheorems.ResponsesAreShown` | baseclient/client_receive.go:336-344 | a failure without data is an error message, one with data a Convex error with both; it passes for a value exactly when it has neither text nor data |
| `OutcomeTheorems.MutationOutcome` | baseclient/client_state.go:233-265 | a mutation is refused, with nothing changed, exactly when it has an update and one of the updates then pending fails; otherwise exactly its message is queued, exactly its request is pending under the next id, and its update shows |
| `OutcomeTheorems.ActionOutcome` | baseclient/client_state.go:267-286 | an action is always issued: its message queued, its request pending under the next id |
| `OutcomeTheorems.RequestIdsIncrease` | baseclient/client_state.go:239-263 | no run gives out the same request id twice; later accepted requests get larger ids |
| `OutcomeTheorems.SubscribeOutcome` | baseclient/client_state.go:73-114 | in every run, subscribing adds exactly one subscriber of the query with that path and argument, tells the server exactly when the query is new, and changes nothing shown |
| `OutcomeTheorems.UnsubscribeOutcome` | baseclient/client_state.go:126-158 | in every run, unsubscribing removes that subscriber and no other; the query stays exactly while another subscriber has it, otherwise the server is told and its results go |
| `ObservationTheorems.MaxObservedIsLargest` | baseclient/client_receive.go:172-176 | the timestamp reported on reconnect bounds every timestamp observed in the run and is one of them |
| `OptimisticTheorems.IncrementalMutation` | baseclient/client_state.go:233-265 | from results that are in sync, the full recompute for a new optimistic mutation equals one application of its update to the current results; a failing update changes nothing |
| `OptimisticTheorems.IncrementalInEveryRun` | baseclient/client_receive.go:127-157 | the same in every run since a synced state, if no query appeared or disappeared and no recompute failed since |
| `OptimisticTheorems.MutationRefusedExactly` | baseclient/client_state.go:252-256 | an optimistic mutation is refused exactly when one of the pending updates or its own, replayed in order over the server results, is the first to fail; and then the whole client is unchanged |
| `OptimisticTheorems.SyncedKept` | baseclient/client_receive.go:118-125 | every step other than a new query, a removed query or a failed recompute keeps the visible results equal to a recompute |
| `OptimisticTheorems.SyncedSince` | baseclient/client_state.go:252-260 | over whole runs, results in sync at some point stay so while none of those events happens |
| `OptimisticTheorems.StartIsSynced` | baseclient/client_state.go:59-71 | a new client's results are in sync |
| `Optimistic.ApplyStaysActive` | baseclient/optimistic_updates.go:46-124 | no composition of store operations writes a result for a query that is not active |
| `Optimistic.ApplyAllStaysActive` | baseclient/client_receive.go:127-143 | nor does any stack of updates |
| `Optimistic.SameApply` | baseclient/optimistic_updates.go:95-124 | an update cannot see subscriber counts: registries with the same queries give the same results |
| `StoreTheorems.SpellingsReachTheSameQuery` | baseclient/optimistic_updates.go:46-61 | any two accepted spellings of a function, with arguments of equal value, make the same store operation |
| `StoreTheorems.RespelledUpdatesApplyAlike` | baseclient/optimistic_updates.go:46-124 | a callback that only spells its queries differently has the same effect, whatever it does with the replies |
| `StoreTheorems.SetThenGet` | baseclient/optimistic_updates.go:95-110 | an accepted write is read back through every spelling of that query and changes no other read; a bad address, an inactive query or an unencodable value leaves the results alone |
| `StoreTheorems.LoadingThenGet` | baseclient/optimistic_updates.go:113-124 | loading fails exactly on a bad address and hides exactly the addressed query |
| `StoreTheorems.ReadsWhatIsVisible` | baseclient/optimistic_updates.go:126-131 | a read shows the value of an active query that has one, and nothing while it is loading, has failed or is not active |
| `StoreTheorems.AllQueriesAreListed` | baseclient/optimistic_updates.go:64-90 | GetAllQueries lists every active query of the path once and nothing else, by increasing id, each with its argument and the value it shows |
| `AgreementTheorems.AgreementExactly` | baseclient/client_state.go:313-338 | in every run, the two views agree exactly when there was no restart, or the last one could refresh its token, or it failed on a client without queries and every mutation pending then has completed since |
| `AgreementTheorems.RestartAgreement` | baseclient/client_state.go:320-324 | right after a restart they agree exactly when there was no fetcher or it answered, or the client had neither queries nor pending mutations |
| `AgreementTheorems.FailedRestartExample` | baseclient/client_state.go:313-324 | one subscription and a fetcher that fails: the views disagree, also after unsubscribing |
| `RestartTheorems.RestartQueue` | baseclient/client_state.go:313-338 | after a successful restart the queue is exactly auth if a fetcher is set, one batch of Adds 0 to 1 for all active queries by id if there are any, then the pending mutations; only actions leave the pending set, and everything but session and ledger is untouched |
| `RestartTheorems.ReplayIsTheOnlyOrder` | baseclient/client_state.go:288-311 | the replay has every pending mutation once, in the only sequence the comparator allows |
| `RestartTheorems.ReplayInPlainTerms` | baseclient/client_state.go:288-311 | the replay is the message of each pending mutation once: answered ones first by descending commit timestamp, then the others, ties by increasing id |
| `ClientSteps.ReplayBeforeTotal` | baseclient/client_state.go:296-305 | the replay comparator is a strict total order |
| `RestartTheorems.RestartIdempotent` | baseclient/client_state.go:313-338 | a second restart with the same fetched token changes nothing |
| `RestartTheorems.RestartInEveryRun` | baseclient/client_receive.go:303-334 | in every run, a successful restart leaves no pending action, the same visible results, and a queue a fresh server accepts, ending with the client's query set |
| `OutcomeTheorems.RestartCompletesActions` | baseclient/client_receive.go:322-334 | in every run, a restart, failed or not, completes every pending action with the error that the connection was lost |
| `AuthTheorems.AuthIsConveyed` | baseclient/client_receive.go:178-196 | every auth operation that gets a token queues one message under the next identity version with the same value, the type or none if unset, and an identifier made of issuer and subject only for an admin token that lacks one; otherwise nothing changes |
| `AuthTheorems.SourceInEveryRun` | baseclient/client_state.go:183-215 | in every run the client refreshes from the auth source installed last and not cleared |
| `AuthTheorems.RestartAuth` | baseclient/client_state.go:217-226 | a restart sends no auth message without a source, the fixed token first with one, and what the callback returned first, failing exactly when the callback fails |
| `ReconnectLoop.EveryConnectionStartsFresh` | internal/syncclient/websocket_manager.go:286-303 | in every run of the loop, whenever no restart is due at the loop head and whenever a dial is attempted, nothing of the session has been handed out, no transition has been applied, and the queue is a complete session for a fresh server |
| `ReconnectLoop.EveryConnectionIsAccepted` | internal/syncclient/websocket_manager.go:337-356 | on every connection, every prefix of what is written after Connect is accepted by a fresh server, also with the message whose write failed, however earlier connections ended |
| `ReconnectLoop.FlushedConnectionIsComplete` | internal/syncclient/websocket_manager_runtime.go:123-135 | on a live connection without a failed write and with a drained queue, what was successfully written gives the server exactly the client's query set and versions and every pending request |
| `ReconnectLoop.LostMessageIsRebuilt` | internal/syncclient/websocket_manager_runtime.go:52-70 | after a failed write, the message it took is the only one missing of those taken off the queue, and the loop can only stop or come to its head with a restart due |
| `ReconnectLoop.ConnectionCountsIncrease` | internal/syncclient/websocket_manager.go:351-353 | Connect messages carry strictly increasing connection counts |
| `ReconnectLoop.RunLoopInv` | internal/syncclient/websocket_manager.go:378-435 | the loop's invariant holds after every sequence of caller, writer, reader and loop steps |
| `ReconnectLoop.UsedBeforeRun` | internal/syncclient/websocket_manager_runtime.go:35-50 | the loop may start on a client that callers have already used |
| `ReconnectLoop.LoopRunsTheClient` | internal/syncclient/websocket_manager.go:286-303 | whatever the loop, its writer, its reader and the callers do to the shared client is one run of that client |
| `ReconnectLoop.ConnectReportsLargestTimestamp` | internal/syncclient/websocket_manager.go:337-339 | every Connect message reports the largest timestamp the client had observed by then, over its whole life |
| `LoopTheorems.RestartIsDueExactly` | internal/syncclient/websocket_manager.go:351-353 | in every run of the loop a restart is due exactly when a used connection was given up and none failed on its first write since; failed dials do not matter |
| `LoopTheorems.RestartsOnlyWhenDue` | internal/syncclient/websocket_manager_runtime.go:35-40 | the loop restarts the client exactly where a restart is due and passes over it exactly where none is |
| `LoopTheorems.NothingLostBeforeConnecting` | internal/syncclient/websocket_manager_runtime.go:42-50 | as long as no connection has opened, the client is never restarted and no pending request is completed or changed |
| `LoopTheorems.CountsFailures` | internal/syncclient/websocket_manager_runtime.go:47-48 | the connection count is the number of attempts that failed or ended before |
| `LoopTheorems.StopsExactly` | internal/syncclient/websocket_manager.go:337-350 | the loop ends exactly on cancellation or a refused message, never on a failed connection |
| `LoopTheorems.QueueCanBeWrittenOut` | internal/syncclient/websocket_manager_runtime.go:123-135 | on a live connection the whole queue can be written out in its order without touching anything else of the client |
| `LoopTheorems.LoopCanAlwaysFlush` | internal/syncclient/websocket_manager.go:286-303 | from every state that is not over the loop can still come to a live connection with everything written, provided the fetcher answers |
| `BaseClient.BaseClient.constructor` | baseclient/client_state.go:59-71 | the new object is the start of a run |
| `BaseClient.BaseClient.Subscribe` | baseclient/client_state.go:73-114 | one Subscribe step of the run; the returned id was never issued before; a bad path or argument changes nothing |
| `BaseClient.BaseClient.PopNextMessage` | baseclient/client_state.go:116-124 | one Pop step; the oldest queued message, or none |
| `BaseClient.BaseClient.Unsubscribe` | baseclient/client_state.go:126-158 | one Unsubscribe step; it fails exactly on an unknown subscriber |
| `BaseClient.BaseClient.SetAuth` | baseclient/client_state.go:183-197 | one SetAuth step, for user and admin tokens; the queued message conveys that token |
| `BaseClient.BaseClient.ClearAuth` | baseclient/client_state.go:199-202 | one ClearAuth step |
| `BaseClient.BaseClient.SetAuthCallback` | baseclient/client_state.go:204-215 | one SetAuthCallback step; it succeeds exactly when the fetcher does, keeps the old fetcher otherwise, and the queued message conveys the fetched token |
| `BaseClient.BaseClient.RefreshAuthForReconnect` | baseclient/client_state.go:217-226 | one RefreshAuth step and its outcome |
| `BaseClient.BaseClient.QueueAuth` | baseclient/client_receive.go:178-196 | queues one message that conveys the token under the next identity version |
| `BaseClient.BaseClient.Mutation` | baseclient/client_state.go:233-265 | one Mutate step; a refusal leaves the state unchanged; accepted, exactly its message is queued and its request pending under the next id; a snapshot comes with an optimistic one |
| `BaseClient.BaseClient.Action` | baseclient/client_state.go:267-286 | one Act step; exactly its message is queued and its request pending under the next id |
| `BaseClient.BaseClient.ReceiveMessage` | baseclient/client_receive.go:8-30 | one Receive step, its outcome, a snapshot exactly after a transition or the failure of an optimistic mutation; a transition that applies and leaves no update pending succeeds and shows the server results |
| `BaseClient.BaseClient.ReceiveTransition` | baseclient/client_receive.go:32-49 | the field updates and loops make exactly the transition step, errors included |
| `BaseClient.BaseClient.ReceiveMutationResponse` | baseclient/client_receive.go:80-96 | the field updates make exactly the mutation-response step: unknown, completed, mismatched, failed, missing-timestamp and successful cases |
| `BaseClient.BaseClient.ReceiveActionResponse` | baseclient/client_receive.go:228-239 | the same for action responses |
| `BaseClient.BaseClient.OptimisticRequests` | baseclient/client_receive.go:145-157 | collecting in map order and sorting yields the pending updates in increasing id, the candidate included |
| `BaseClient.BaseClient.OptimisticResultsWith` | baseclient/client_receive.go:127-143 | replaying them on a copy of the server results gives the visible results, or fails |
| `BaseClient.BaseClient.CompleteMutationsThrough` | baseclient/client_receive.go:241-255 | completes exactly the answered mutations with timestamp at most ts, in increasing id |
| `BaseClient.BaseClient.RememberMutationResult` | baseclient/client_receive.go:267-278 | the in-place eviction loop leaves the last entries up to the limit, with exactly their results |
| `BaseClient.BaseClient.RememberActionResult` | baseclient/client_receive.go:280-301 | the same for actions |
| `BaseClient.BaseClient.CancelPendingActions` | baseclient/client_receive.go:322-334 | records the reconnect error for every pending action, in increasing id |
| `BaseClient.BaseClient.ReplayQueryAdds` | baseclient/client_receive.go:303-320 | one Add per active query by increasing id |
| `BaseClient.BaseClient.ReplayOngoingRequests` | baseclient/client_state.go:288-311 | the pending mutations' messages in comparator order |
| `BaseClient.BaseClient.RestartForReconnect` | baseclient/client_state.go:313-338 | one Restart step and its outcome |
| `BaseClient.BaseClient.GetQuery` | baseclient/client_state.go:340-346 | the visible result of the query; the activity test never hides one |
| `BaseClient.BaseClient.MutationResult` | baseclient/client_state.go:171-175 | present exactly for the most recent completions of the run, with the result they completed with |
| `BaseClient.BaseClient.ActionResult` | baseclient/client_state.go:177-181 | the same for actions |
| `LocalStore.OptimisticLocalStore.GetQuery` | baseclient/optimistic_updates.go:46-61 | the reply and unchanged results of the store's read operation |
| `LocalStore.OptimisticLocalStore.GetAllQueries` | baseclient/optimistic_updates.go:64-90 | the loop lists the matching queries in increasing id |
| `LocalStore.OptimisticLocalStore.SetQuery` | baseclient/optimistic_updates.go:95-110 | the in-place write is the store's write operation |
| `LocalStore.OptimisticLocalStore.SetQueryLoading` | baseclient/optimistic_updates.go:113-124 | the in-place delete is the store's loading operation |
| `LocalStore.SortedBaseQueries` | baseclient/optimistic_updates.go:143-152 | every registered query once, by increasing id |
| `LocalStore.ReplayUpdates` | baseclient/client_receive.go:133-142 | running callbacks in place one after the other is their fold over the server results |
| `QuerySnapshots.QueryResults.Iter` | baseclient/protocol_exports.go:179-200 | each subscriber exactly once in lexicographic order with what Get returns; subscribers of one query agree |
| `Values.ValidateObjectField` | internal/core/value.go:815-828 | accepts exactly the printable names of at most the maximum length that do not start with a dollar sign |
| `Values.EncodesExactlyWellFormed` | internal/core/value.go:152-215 | a value encodes if and only if all its field names, at every depth, are valid |
| `Values.ValueRoundTrip` | internal/core/value.go:452-540 | decoding the encoding of any well-formed value gives that value |
| `Values.NormalForm` | internal/core/value.go:187-215 | every accepted wire tree re-encodes to a tree that decodes to the same value, and to itself exactly when it is normal |
| `Values.ConvexJSONInjective` | internal/core/value.go:152-173 | well-formed values have equal encodings exactly when they are equal |
| `Values.DecodersAgree` | internal/core/value.go:699-777 | the typed decoder accepts exactly what the direct one accepts without a `$float` around an ordinary float, and then both give the same Go value |
| `Values.EncodersAgree` | internal/core/value.go:358-443 | encoding the Go form of a value is encoding the value, errors included |
| `WireGrammar.DecodesExactly` | internal/core/value.go:452-540 | the decoder gives a value for a tree if and only if the tree stands for that value in the format |
| `WireGrammar.EncodesCorrectly` | internal/core/value.go:152-215 | what the encoder writes stands for the value and is the only normal tree that does |
| `WireGrammar.CallersSeeTheValue` | internal/core/value.go:218-247 | a tree that stands for a value is decoded to the Go value that presents it, kind by kind, and re-encodes to a tree that stands for it |
| `NumberTheorems.TagsOnTheWire` | internal/core/value.go:202-215 | integers, byte strings and special floats are objects with the one key `$integer`, `$bytes` or `$float` and the text of their bytes; every other float is a bare number |
| `NumberCodecs.DecodeCompatInvertsEncode` | internal/core/value.go:864-873 | the two-alphabet decoder inverts base64 of sections 4 and 5 of RFC 4648 for every byte string |
| `NumberCodecs.AlphabetsAgree` | internal/core/value.go:864-873 | a text valid in both alphabets means the same bytes in both |
| `NumberCodecs.LineBreaksIgnored` | internal/core/value.go:864-873 | carriage returns and line feeds, alone or together, anywhere in the text do not change what it decodes to |
| `NumberCodecs.LittleEndianRoundTrip` | internal/core/value.go:830-845 | little-endian bytes give back every number that fits |
| `NumberCodecs.Int64RoundTrip` | internal/core/value.go:830-845 | every int64 survives, and distinct ones have distinct texts |
| `NumberCodecs.WordRoundTrip` | internal/core/value.go:847-862 | every 64-bit pattern, hence every float, survives |
| `NumberTheorems.EncodeFollowsRFC4648` | internal/core/value.go:213-215 | every three bytes are four digits of the alphabet of RFC 4648, most significant first, the last one or two padded |
| `NumberTheorems.WordsAreLittleEndian` | internal/core/value.go:847-862 | a word is written as the eight bytes that weigh as much, least significant first, and every text of eight bytes is read as their weight |
| `NumberTheorems.IntegersAreTwosComplement` | internal/core/value.go:830-845 | an int64 is written as its two's complement bytes, and every text of eight bytes is read as the int64 with those bits |
| `NumberCodecs.TimestampRoundTrip` | internal/syncprotocol/sync_protocol.go:35-73 | timestamps marshal exactly up to 2^63-1, survive, and larger ones are refused both ways |
| `NumberTheorems.TimestampsAreLittleEndian` | internal/syncprotocol/sync_protocol.go:35-62 | a timestamp is the eight bytes that weigh as much, and any text is read as the weight of its eight bytes up to 2^63-1 |
| `Paths.IsValidIdentifier` | internal/core/path.go:38-57 | the one-pass check accepts exactly the valid identifiers |
| `Paths.ValidateIdentifier` | internal/core/path.go:12-36 | accepts the same names, always with a reason otherwise: the last return is unreachable |
| `Paths.ValidatePathComponent` | internal/core/path.go:232-251 | the scan accepts exactly the valid components |
| `Paths.CleanIdempotent` | internal/core/path.go:83 | cleaning a cleaned path changes nothing |
| `Paths.ParseModulePathFixedPoint` | internal/core/path.go:76-100 | an accepted module path parses to itself |
| `Paths.CleanKeepsPlace` | internal/core/path.go:83 | cleaning changes neither the place a path names nor whether it is rooted |
| `Paths.ParseModulePathExactly` | internal/core/path.go:76-100 | a text is a module path if and only if it is relative, names something below its start by valid components and has no extension but `.js`; the module is the path of those components |
| `Paths.ParseUDFPathInvertsToString` | internal/core/path.go:151-175 | printing an accepted function path and parsing it again gives the same path |
| `Paths.CanonicalizeCollapses` | internal/core/path.go:127-187 | two paths canonicalize alike if and only if they differ at most in a left-out `.js` or a left-out `default` |
| `Spellings.CanonicalizeExample` | internal/core/path.go:177-187 | `a:list` and `a.js:list` parse to different paths with the same canonical form |
| `Spellings.TrimSourceExtensions` | internal/core/path.go:222-224 | the loop only shortens the file at its end, takes a source extension off a dot-free name and leaves a dot-free name alone |
| `Spellings.SpellingsCollapse` | internal/core/path.go:203-230 | every spelling of a function in a module with dot-free components gives the same wire path, except the two refused families, which are errors |
| `Spellings.WirePathsDistinct` | baseclient/canonical.go:64-67 | distinct functions keep distinct wire paths |
| `Spellings.DefaultSpelling` | internal/core/path.go:217-221 | a module alone, or with only blanks after the colon, names its default function |
| `Spellings.RefusedExample` | internal/core/path.go:204-208 | `api.js:list` is refused and `api:list` is accepted |
| `Spellings.RefusedLongExample` | internal/core/path.go:232-251 | a 62-letter module is refused with `.js` and accepted without |
| `Canonical.ReparseKeepsValue` | baseclient/canonical.go:92-98 | printing and re-reading an argument tree keeps the value it stands for |
| `Canonical.ArgValueOfGo` | baseclient/canonical.go:69-90 | absent arguments are the empty object; any other argument reaches the server as the value the caller passed, if that encodes to an object, and is refused otherwise |
| `Canonical.CanonicalQueryShape` | baseclient/canonical.go:12-50 | canonicalization fails only on a bad path or bad arguments; queries and requests agree on both |
| `Canonical.TokensAreExact` | baseclient/canonical.go:100-144 | tokens are equal if and only if path and argument value are |
| `Canonical.SubscriptionsShare` | baseclient/canonical.go:12-67 | two subscriptions in any accepted spellings share a query if and only if module, function and argument value are equal |
| `Masking.StripCommentsAndStrings` | internal/codegen/codegen.go:153-216 | the nested loops keep exactly the characters a one-character-at-a-time lexer puts outside comments and strings, blank the others, and add one blank exactly when the source ends in a dangling backslash inside a string |
| `Masking.MaskedTextIsCode` | internal/codegen/codegen.go:153-216 | nothing in masked text opens a comment or a string, so masking again changes nothing |
| `Masking.FindMatchingDelimiter` | internal/codegen/infer.go:118-135 | the first index at which the delimiter is balanced, or -1 exactly when there is none |
| `Masking.CallArguments` | internal/codegen/infer.go:11-17 | arguments are found exactly when the parenthesis closes in the masked text, they end at the first index where it does, and both slices are in bounds |
| `LatestChannel.LatestIsDelivered` | subscription_handles.go:140-154 | under any interleaving of consumer receives no send drops its value, values arrive in publish order, and between sends the buffer is empty or holds the last value published |

## Left out

- Counter widths: query ids, versions, request ids and timestamps are naturals; wrap-around of the uint32 and uint64 counters is not modelled. The 2^63-1 bound on timestamps is.
- JSON text: wire values are trees, so printing, parsing and key order are absent, and finite-float printing is taken to be exact. Duplicate keys do not arise.
- Strings are sequences of characters and the source masker reads characters; the code works on bytes.
- Error texts: outcomes are success, failure or the kind of failure.
- `ClientSteps` and `BaseClient`: the auth fetcher's answer is a parameter of the step that calls it; a missing callback passed to SetAuthCallback is the ClearAuth step.
- The retention limit is fixed when a client is created; the source reads a package variable that only its tests change.
- Pointer sharing: registered queries and tracked requests are values in maps, so aliasing of those records is not captured.
- Optimistic callbacks are deterministic and reach the client only through the store.
- Library code (`path.Clean`, `path.Ext`, `sort.Slice`, `base64`, `strings`) is modelled by its behaviour.
- `ReconnectLoop.RunLoopInv`: the writer of an abandoned connection is assumed to have stopped before the restart; the code cancels it without waiting. The loop must be given a client whose session has not been used, which `UsedBeforeRun` shows for every client that was only called.
- `ReconnectLoop`: session ids, close reasons, timers, contexts, connection-state observers and flush acknowledgements.
- `Spellings.SpellingsCollapse`: modules with dots inside components, for which repeated canonicalization is not stable.
- Sync-protocol message marshalling other than timestamps, and reassembly of transition chunks, which the client refuses.
- Go structs, typed references and other reflection in the Go-value encoder; only the shapes that decoding produces are encoded here.
- Type inference beyond the delimiter finder and the top-level slice.
- The subscription facade (`Subscribe`, `QueryValue`, `WatchAll`, closing of handles) around the latest-value channel, the HTTP client, options and URL handling: thin wrappers and I/O.
