# Verification of the AI proxy's core algorithms

A Dafny model of the algorithms that carry the logic of the proxy and of its browser interface, and proofs of what they
promise. `dafny verify dfyconfig.toml` checks everything.

| files | what they model |
|---|---|
| `Json`, `JsonText`, `JsonEquality`, `JsonReader`, `Sorting`, `Texts`, `Reals` | JSON values with ordered dictionaries, `json.dumps` with sorted keys, Python's stable sort, string operations |
| `MessageKey`, `ConversationHistory`, `ConversationForest`, `ConversationTree`, `ConversationBuild`, `ConversationListing` | the trie that merges stateless requests into a forest of messages |
| `ChatView` | the order in which the chat view shows that forest |
| `StreamMerge`, `StreamState`, `StreamSplit`, `StreamTexts`, `StreamFragments`, `StreamProjection`, `StreamResponse`, `StreamRaises`, `StreamCuts`, `StreamBoundaries`, `StreamCutExamples` | the reassembly of a streamed response from its deltas |
| `RateLimiter`, `RateLimiterRuns`, `RateLimiterSchedules` | the sliding-window limiter under every interleaving of requests and reloads |
| `CacheBoundary` | where the prompt cache ends among the messages of a request |
| `ToolArgs`, `ToolArgsRoundTrip`, `ToolArgsReader`, `FitText` | tool arguments printed by the backend and scanned by the browser, and the cut to a width |
| `ModelMappings`, `ModelCatalog`, `Routing`, `RouteSources`, `RouteLabels`, `CatalogRouting`, `RoutingConflicts`, `ConflictRows` | the mapping syntax, the catalog, the router, and the check of a configuration at load time |
| `CatalogFetch` | the cache of upstream listings and its locks |
| `LogQueue` | the log queue, its flush loop and the shutdown |

Code that updates objects step by step is modelled by classes and loops and proved equal to functions over values; the
theorems are about those functions. Concurrent code is a state machine whose steps are the stretches between two
suspension points and are made of the functions that the methods are proved against, so a theorem over all runs covers
every interleaving under asyncio. What these functions compute is stated once more in plain terms, with the constants
and keys written out, so that the theorems do not rest on the definitions alone. The clock never goes back and a
sleep never ends early. Where a property fails for some inputs, a lemma names such an input and another states exactly
when the property holds.

Where code and documentation differ, the code is followed:

- `backend/ai_proxy/core/rate_limiter.py:88` documents the rebuild for hot reloads; a provider that keeps its rpm also keeps its old
  `max_queue` (`QueueBoundAfterReload`).
- `backend/ai_proxy/core/rate_limiter.py:1-7` promises the rpm limit; a reload that changes the rpm forgets the window
  (`ChangedRpmForgets`, with the exact condition in `LimitHoldsIff`).
- `backend/ai_proxy/config/loader.py:170-179` describes the conflicts without regard to base keys that differ in case
  only; of those the last one hides the others from the check (`CollidingBasesEscape`, `CleanCheckAgreesIff`).
- `backend/ai_proxy/logging/service.py:59` says that the rest is flushed on shutdown; a cancellation after the commit of
  the current batch loses it (`CancelAfterCommitLosesQueue`), and so does one before the loop is reached
  (`NeverStartedLoses`); `CleanShutdownIff` has the exact condition.

Library behaviour enters as parameters: `fnmatch.fnmatch` is any predicate on names and patterns, the tokenizer any
count per message, the width of a text any function, and which characters beyond ASCII `repr` prints as they are any
predicate. The events of the state machines stand for the network, the database and the clock.

## Model

| member | source | states |
|---|---|---|
| `JsonText.TextUnique` | `backend/ai_proxy/db/repositories/chats.py:115` | compact JSON texts are self-delimiting: if text of `v` followed by `x` is text of `w` followed by `y`, and neither rest would extend a number, then `v == w` and `x == y`, whatever quotes, braces or escapes the strings hold |
| `JsonEquality.DumpsIff` | `backend/ai_proxy/db/repositories/chats.py:115` | `json.dumps` with sorted keys gives two well-formed values the same text exactly when they are equal as JSON, key order aside |
| `JsonReader.StringsReadBack` | `backend/ai_proxy/db/repositories/chats.py:115` | a string in the text, escapes and surrogate pairs included, reads back under the grammar of RFC 8259, section 7, whatever follows it |
| `JsonReader.TextForms` | `backend/ai_proxy/db/repositories/chats.py:115` | every form of value by its literals and separators, without blanks |
| `JsonReader.KeysInOrder` | `backend/ai_proxy/db/repositories/chats.py:115` | the keys of every sorted object come in code point order |
| `MessageKey.SignatureIff` | `backend/ai_proxy/db/repositories/chats.py:97-115` | two messages have the same signature exactly when they agree on role, content, tool calls, tool call id and, for tool messages, name; no other field and no key order can split a node |
| `MessageKey.NodeIdInjective` | `backend/ai_proxy/db/repositories/chats.py:251-252` | node ids are injective on paths: equal exactly when the whole signature sequences from the root are equal |
| `MessageKey.ChildIdLonger` | `backend/ai_proxy/db/repositories/chats.py:252` | a child id is strictly longer than its parent id, so the parent links cannot form a cycle |
| `ConversationTree.TreeBuilder.constructor` | `backend/ai_proxy/db/repositories/chats.py:238-241` | the empty builder represents the empty history of inserts |
| `ConversationTree.TreeBuilder.Insert` | `backend/ai_proxy/db/repositories/chats.py:243-276` | the stored nodes, root ids and ordinal become exactly those of the history extended by this insert, and the returned id is the id of the path |
| `ConversationTree.TreeBuilder.StoreNew` | `backend/ai_proxy/db/repositories/chats.py:259-274` | a message seen for the first time gets a fresh node and is linked once, under its parent or among the roots |
| `ConversationTree.TreeBuilder.Walk` | `backend/ai_proxy/db/repositories/chats.py:282-289` | from an unvisited node the walk lists exactly the preorder of its subtree; the `visited` guard never fires, and the depth bounds the recursion |
| `ConversationTree.TreeBuilder.ToList` | `backend/ai_proxy/db/repositories/chats.py:278-293` | the listing is the preorder of the whole forest, each entry with its parent, children, counts and first and last sighting |
| `ConversationForest.ForestExact` | `backend/ai_proxy/db/repositories/chats.py:278-293` | that preorder holds every inserted path once and no other, parents before children and siblings by first appearance |
| `ConversationHistory.CountsAddUp` | `backend/ai_proxy/db/repositories/chats.py:254-255` | the repeat counts of all nodes add up to the number of inserts |
| `ConversationBuild.InsertRequest` | `backend/ai_proxy/db/repositories/chats.py:308-316` | one request inserts its own messages under each other and then a non-empty assistant message, with the right origins and indices |
| `ConversationBuild.ClosedHistory` | `backend/ai_proxy/db/repositories/chats.py:308-316` | whatever the requests, a path is inserted only after its parent |
| `ConversationBuild.MessagesTell` | `backend/ai_proxy/db/repositories/chats.py:21-29` | a request inserts the objects of its `messages` list and then the `message` of its response's first choice, if that is there and not empty |
| `ConversationBuild.ObjectsSnoc` | `backend/ai_proxy/db/repositories/chats.py:29` | of a list, every item that is an object counts, in order, and no other |
| `ConversationBuild.PrefixTree` | `backend/ai_proxy/db/repositories/chats.py:296-318` | the nodes are exactly the non-empty prefixes of the request paths, each counts the requests that run through it, and the counts add up to the total length of the paths |
| `ConversationBuild.OrderIrrelevant` | `backend/ai_proxy/db/repositories/chats.py:302-305` | permuting the requests changes neither the nodes nor the counts, and without ties on time and id not even the listing |
| `ConversationBuild.ListedPrefixTree` | `backend/ai_proxy/db/repositories/chats.py:296-318` | the flat listing, entry by entry, is the prefix tree of the requests: one entry per prefix, with its id, its parent id and its count |
| `ConversationListing.Seen` | `backend/ai_proxy/db/repositories/chats.py:254-276` | a node keeps what the first request through its path says there, and the time of the last one |
| `ConversationListing.RankByTime` | `backend/ai_proxy/db/repositories/chats.py:302-305` | what was inserted earlier was first seen no later |
| `ConversationListing.EntryTells` | `backend/ai_proxy/db/repositories/chats.py:302-318` | an entry's first and last sighting are the least and the greatest time of the requests through its path; its request id, message, origin and index are those of such a request at the first, the one with the least id if several tie |
| `ConversationListing.ListingTells` | `backend/ai_proxy/db/repositories/chats.py:278-318` | the listing is depth first, `children` are the ids of the entries that name the node as parent, in listing order, and siblings come in order of their first sighting |
| `ConversationListing.BuildConversationMessages` | `backend/ai_proxy/db/repositories/chats.py:296-318` | for every request list the returned entries are the prefix tree and tell all of this |
| `ChatView.FollowChain` | `frontend/src/components/ChatView/ChatView.tsx:265-270` | from a node the chain loop collects the node and its only children down to a leaf or a fork, and a missing id never cuts it short |
| `ChatView.LinearChain` | `frontend/src/components/ChatView/ChatView.tsx:279-286` | a branch shows the preorder of its start node |
| `ChatView.TreeBranch` | `frontend/src/components/ChatView/ChatView.tsx:207-211` | the children of a node, alone or forked, are shown in the preorder of what lies below it |
| `ChatView.ForkContainer` | `frontend/src/components/ChatView/ChatView.tsx:213-263` | branches side by side show their subtrees one after the other |
| `ChatView.NodeMap` | `frontend/src/components/ChatView/ChatView.tsx:189-190` | with distinct ids every message can be looked up by its id |
| `ChatView.Timeline` | `frontend/src/components/ChatView/ChatView.tsx:189-195` | the view built from a listing shows the listed messages in exactly that order |
| `StreamStates.StreamState.constructor` | `backend/ai_proxy/api/proxy/streaming.py:26-31` | the state starts empty |
| `StreamStates.StreamState.CaptureStreamChunk` | `backend/ai_proxy/api/proxy/streaming.py:221-242` | capturing a chunk in place is one step of the pure fold, including the partial state left when a step raises |
| `StreamStates.StreamState.MergeDeltaInto` | `backend/ai_proxy/api/proxy/streaming.py:245-255` | the delta is folded into its choice field by field up to the field that raises, other choices untouched |
| `StreamStates.StreamState.MergeListField` | `backend/ai_proxy/api/proxy/streaming.py:261-282` | the first list is stored as it is, later items are appended or merged into the first entry with their index |
| `StreamStates.StreamState.DeepMergeItem` | `backend/ai_proxy/api/proxy/streaming.py:285-295` | the recursive in-place merge is the deep merge function: nulls skipped, dicts merged, the concatenated keys appended, anything else replaced |
| `StreamStates.StreamState.AssembledStreamResponse` | `backend/ai_proxy/api/proxy/streaming.py:369-389` | the response is the assembled one for the state, or none when nothing was captured |
| `StreamStates.StreamState.FinishEach` | `backend/ai_proxy/api/proxy/streaming.py:374-381` | each merged choice becomes a message with a role, its finish reason beside it |
| `StreamMerge.AscendingExact` | `backend/ai_proxy/api/proxy/streaming.py:374` | the order of the choices: strictly increasing, none missing, none twice |
| `StreamSplit.CutMerges` | `backend/ai_proxy/api/proxy/streaming.py:285-295` | deep-merging an item whose string fragment was cut in two, part after part, equals merging the whole item, at any nesting depth |
| `StreamTexts.CutListIff` | `backend/ai_proxy/api/proxy/streaming.py:266-295` | an item is cut in a list that is merged into one that is there, and other items follow it in this list and in later ones: merging the rest last gives the list of the whole if and only if no later item with its index overwrites the text, and what they append commutes with the rest; without the rest the lists agree if and only if one overwrites it |
| `StreamTexts.CutFirstListIff` | `backend/ai_proxy/api/proxy/streaming.py:263-295` | the same for the first list of a field, which is stored as it came: there, only items of later lists count, and a cut item behind another one with its index never recovers |
| `StreamRaises.RaisesIff` | `backend/ai_proxy/api/proxy/streaming.py:245-255` | a stream raises if and only if, in some string field of some choice, a string comes directly after a value that is not one, nulls aside |
| `StreamBoundaries.FragmentsMatterIff` | `backend/ai_proxy/api/proxy/streaming.py:221-295` | a non-empty rest is cut off a string field, or off a text at any depth of an indexed list item, and sent in a chunk of its own; whatever else the chunk carries, no continuation of the stream shows a difference in the response if and only if something raises up to the cut field, or nothing in the chunk raises and what it still carries for the text only appends to it and commutes with the rest, or something behind the cut raises and by then the text is overwritten |
| `StreamBoundaries.RaisingChunkIff` | `backend/ai_proxy/api/proxy/streaming.py:221-295` | where the chunk raises, that condition decides it for every single continuation |
| `StreamBoundaries.FragmentsOfStringsIff` | `backend/ai_proxy/api/proxy/streaming.py:250-251` | in a stream whose string fields carry strings or nulls, for every continuation: a cut string leaves the response unchanged if and only if what the chunk still carries for the field commutes with the rest, as it does when there is nothing |
| `StreamCutExamples.LaterEntryReorders` | `backend/ai_proxy/api/proxy/streaming.py:232-251` | a concrete chunk with two entries for one choice, nothing raises: cut in the first, the content reads `acb` instead of `abc` |
| `StreamCutExamples.LaterItemReorders` | `backend/ai_proxy/api/proxy/streaming.py:266-282` | two items with one index in a list: cut in the first, their texts change places, onto any list |
| `StreamCutExamples.FirstListMisplaces` | `backend/ai_proxy/api/proxy/streaming.py:263-265` | a first list that repeats an index: the rest of the second item goes to the first |
| `StreamCutExamples.RaiseKeepsOnlyTheHead` | `backend/ai_proxy/api/proxy/streaming.py:245-255` | a concrete stream where a later field of the delta raises: only the head of the fragment is stored, and every continuation shows it |
| `StreamProjection.ChoiceProjection` | `backend/ai_proxy/api/proxy/streaming.py:232-238` | each merged choice is the fold of the entries for that choice alone, and exists exactly when there is one |
| `StreamProjection.FieldProjection` | `backend/ai_proxy/api/proxy/streaming.py:247-255` | each field of a merged message is the fold of that field's values alone |
| `StreamProjection.ListProjection` | `backend/ai_proxy/api/proxy/streaming.py:266-282` | merging items keeps indices in order of first appearance, and each entry is the fold of the items with its index |
| `StreamProjection.UniqueIff` | `backend/ai_proxy/api/proxy/streaming.py:263-282` | indices in a merged list are unique exactly when they are in the first list, which is stored unmerged |
| `StreamProjection.ListReassembly` | `backend/ai_proxy/api/proxy/streaming.py:261-295` | in the merged message a list has one entry per index in order of first appearance, each the fold of that index's items, with its text the concatenation of that index's fragments |
| `StreamProjection.StringReassembly` | `backend/ai_proxy/api/proxy/streaming.py:250-251` | a string field is the concatenation of that choice's fragments |
| `StreamProjection.ResponseProjection` | `backend/ai_proxy/api/proxy/streaming.py:369-389` | the whole response: one choice per index that occurred, in increasing order, each made of the entries for that index alone; a lone empty message when none occurred |
| `StreamResponse.LastValueWins` | `backend/ai_proxy/api/proxy/streaming.py:247-255` | any field but the four text fields and lists holds the last value it was given that is not null |
| `StreamResponse.FirstListIsStored` | `backend/ai_proxy/api/proxy/streaming.py:252-265` | a list that comes first, or after something else, is stored as it is |
| `StreamResponse.ItemFieldTells` | `backend/ai_proxy/api/proxy/streaming.py:285-295` | what merging an item does to one key: nulls keep, `arguments`, `summary` and `text` are appended, objects merge, anything else replaces |
| `StreamResponse.PlainItemIsAppended` | `backend/ai_proxy/api/proxy/streaming.py:266-273` | a list item that is no object or has no index is appended |
| `StreamResponse.ResponseTells` | `backend/ai_proxy/api/proxy/streaming.py:229-242` | beside the choices: the last non-null value of every top-level field and the usage of the last chunk that has one; no response exactly when no chunk was captured |
| `StreamResponse.RaiseTells` | `backend/ai_proxy/api/proxy/streaming.py:227-242` | a chunk that raises leaves its top-level fields but not its usage |
| `StreamResponse.EntryRaiseTells` | `backend/ai_proxy/api/proxy/streaming.py:232-238` | a choice entry that raises leaves what its delta wrote before that and no finish reason, and no later entry of the chunk is captured |
| `StreamResponse.ChoiceTells` | `backend/ai_proxy/api/proxy/streaming.py:374-381` | a choice shows its merged fields, the role `assistant` when it was given none, and beside the message the last finish reason |
| `RateLimiter.ProviderRateLimiter.constructor` | `backend/ai_proxy/core/rate_limiter.py:25-31` | a fresh limiter has no timestamps and nobody pending |
| `RateLimiter.ProviderRateLimiter.EnterQueue` | `backend/ai_proxy/core/rate_limiter.py:38-39` | entering counts one more pending request and changes nothing else |
| `RateLimiter.TryTells` | `backend/ai_proxy/core/rate_limiter.py:43-57` | a try is granted if and only if fewer than rpm grants are less than 60 seconds old; otherwise there is room once the returned time has passed, and none before, from 0.05 seconds on |
| `RateLimiter.ProviderRateLimiter.TryAcquire` | `backend/ai_proxy/core/rate_limiter.py:43-57` | one pass under the lock does this to the limiter: expired timestamps go, then a grant at the present time or the exact time to sleep |
| `RateLimiter.ProviderRateLimiter.LeaveQueue` | `backend/ai_proxy/core/rate_limiter.py:67-70` | a cancelled request is no longer pending and nothing else changes |
| `RateLimiter.ProviderRateLimiter.QueueFull` | `backend/ai_proxy/core/rate_limiter.py:72-74` | full means more pending requests than `max_queue` |
| `RateLimiter.PruneCuts` | `backend/ai_proxy/core/rate_limiter.py:47-48` | pruning removes a prefix, all of it outside the window, and stops at the first timestamp inside |
| `RateLimiter.Registry.BuildRateLimiters` | `backend/ai_proxy/core/rate_limiter.py:85-107` | afterwards exactly the providers with a positive rpm have a limiter: the old object if its rpm is the same, otherwise a fresh and empty one with the new rpm and `max_queue` |
| `RateLimiterRuns.StepKeeps` | `backend/ai_proxy/core/rate_limiter.py:38-74` | every arrival, retry, cancellation, tick and reload keeps: sound timestamps, `_pending` equal to the entered and ungranted requests and at most `max_queue + 1`, sleepers that sleep long enough |
| `RateLimiterRuns.RunKeeps` | `backend/ai_proxy/api/proxy/request_flow.py:59-69` | so every reachable state of every interleaving satisfies it |
| `RateLimiterRuns.LetInIff` | `backend/ai_proxy/api/proxy/request_flow.py:59-69` | in every reachable state a request is let in if and only if its provider is limited and at most `max_queue` others are pending |
| `RateLimiterRuns.SleepIsExact` | `backend/ai_proxy/core/rate_limiter.py:42-66` | in every reachable state a try is granted exactly when there is room, and otherwise sleeps to the very time from which there is, but at least 0.05 seconds |
| `RateLimiterRuns.RetryFailsOnlyIfOvertaken` | `backend/ai_proxy/core/rate_limiter.py:42-66` | a woken request is turned away only if another one was granted since its last try |
| `RateLimiterRuns.WindowHoldsAtMost` | `backend/ai_proxy/core/rate_limiter.py:42-57` | grants spaced by rpm places put at most `rpm` of them in any window of 60 seconds |
| `RateLimiterRuns.ReloadRebuilds` | `backend/ai_proxy/core/rate_limiter.py:85-107` | the reload step does to the limiters in force exactly what the rebuild of the registry is proved to do |
| `RateLimiterSchedules.WindowBound` | `backend/ai_proxy/core/rate_limiter.py:42-107` | over every run a window of 60 seconds holds no more grants than the rpms of the provider's spells add up to; a spell is a stretch of reloads that keep its rpm, and counts if the `max_queue` it begins with lets anyone in |
| `RateLimiterSchedules.BoundIsMet` | `backend/ai_proxy/core/rate_limiter.py:42-107` | for every list of reloads some run reaches that bound |
| `RateLimiterSchedules.LimitHoldsIff` | `backend/ai_proxy/core/rate_limiter.py:95-107` | all runs of a list of reloads keep within the highest rpm of its spells, in every window, if and only if there is one spell at most, whenever that begins and ends |
| `RateLimiterSchedules.RateLimited` | `backend/ai_proxy/core/rate_limiter.py:42-57` | over every run with one spell for the provider, grant number k+rpm comes 60 seconds or more after grant number k, and no window of 60 seconds holds more than `rpm` grants |
| `RateLimiterRuns.QueueBoundAfterReload` | `backend/ai_proxy/core/rate_limiter.py:95-99` | a reload that keeps the rpm also keeps the old `max_queue` |
| `RateLimiterSchedules.ChangedRpmForgets` | `backend/ai_proxy/core/rate_limiter.py:95-99` | a concrete run in which changing the rpm from one to two and back puts four grants into a window at an rpm of one |
| `CacheBoundary.ScalingError` | `frontend/src/utils/cacheBoundary.ts:154-159` | for a positive total and a positive estimate, the scaled message counts and the scaled overhead add up to the total within (n+1)/2 |
| `CacheBoundary.ScalingTells` | `frontend/src/utils/cacheBoundary.ts:154-159` | each count plus 4 and the overhead are multiplied by total over estimate, or by 1, and rounded to the nearest, halves up |
| `CacheBoundary.FillUncached` | `frontend/src/utils/cacheBoundary.ts:150-152` | appends an uncached entry for every index from `from` up to `to` |
| `CacheBoundary.WalkMessages` | `frontend/src/utils/cacheBoundary.ts:175-199` | the scan with its two stops finds the first stop by the prefix sums and classifies every message by its place relative to it |
| `CacheBoundary.ComputeCacheBoundary` | `frontend/src/utils/cacheBoundary.ts:161-202` | the whole computation, early exit included, equals the attribution by the first stop |
| `CacheBoundary.AttributionTells` | `frontend/src/utils/cacheBoundary.ts:161-202` | the boundary is the first message at which the cached tokens less the scaled overhead end, or leave less than 0.15 (estimated counts 0.5) of it; messages before it are cached, those behind are not, and it shows its share, snapped within that tolerance |
| `CacheBoundary.Shape` | `frontend/src/utils/cacheBoundary.ts:175-201` | one entry per message in index order: cached ones, at most one of any status at the boundary, then uncached ones, fractions in [0,1] and in step with the status |
| `CacheBoundary.CharBasedIsAllOrNothing` | `frontend/src/utils/cacheBoundary.ts:144-148` | with the tolerance for estimated token counts no message is ever shown as partly cached |
| `CacheBoundary.AttributionError` | `frontend/src/utils/cacheBoundary.ts:179-199` | at a stop the attributed tokens differ from the cached ones by at most the tolerance times the message at the stop; without a stop they fall short |
| `CacheBoundary.RequestError` | `frontend/src/utils/cacheBoundary.ts:161-202` | for a request: at a boundary the tokens shown plus the scaled overhead are within 0.15 (estimated counts 0.5) of the boundary message of the cached tokens, or, when the overhead exceeds these, the tokens shown are within that; without a boundary all are shown and the cached tokens are more |
| `CacheBoundary.MonotoneAttribution` | `frontend/src/utils/cacheBoundary.ts:144-199` | raising `cachedTokens` never lowers any message's cached fraction, despite the gap rule and the snapping at both ends |
| `CacheBoundary.AllCachedIff` | `frontend/src/utils/cacheBoundary.ts:165-199` | for every request, all messages are shown as cached if and only if there are none, or tokens are cached, every message but the last leaves a positive rest of at least its tolerance, and the cache reaches the end of the last or near enough |
| `CacheBoundary.GapRuleCanStopEarly` | `frontend/src/utils/cacheBoundary.ts:186-190` | a request of 104 tokens, all cached, whose second message is shown as not cached |
| `CacheBoundary.RoundingCanHideTheEnd` | `frontend/src/utils/cacheBoundary.ts:154-159` | a request of 8 tokens, all cached, whose counts are rounded up to 9 and whose last message is shown as partly cached |
| `CacheBoundary.OverheadComesFirst` | `frontend/src/utils/cacheBoundary.ts:169-173` | a request with 100 tokens of tools and 200 cached: the first of two messages of 100 is cached, the second is not |
| `ToolArgs.SummarizeToolArgs` | `backend/ai_proxy/api/ui/requests.py:155-169` | the printed pairs joined by comma and blank; empty for text that is no JSON object |
| `ToolArgs.FindClosingQuote` | `frontend/src/components/RequestBrowser/RequestBrowserList.tsx:466-474` | the loop finds the closing quote the recursive scan finds, skipping whatever follows a backslash |
| `ToolArgsRoundTrip.ReprBodyFree` | `backend/ai_proxy/api/ui/requests.py:173-174` | inside Python's `repr` every quote of the enclosing kind stands behind a backslash, for all characters and both quote choices |
| `ToolArgsRoundTrip.QuoteScan` | `frontend/src/components/RequestBrowser/RequestBrowserList.tsx:466-474` | over such a text the scan ends exactly at the closing quote |
| `ToolArgs.TakeValue` | `frontend/src/components/RequestBrowser/RequestBrowserList.tsx:440-458` | the position after the value that starts at `i`, for quoted, bracketed and bare values |
| `ToolArgs.TakeParam` | `frontend/src/components/RequestBrowser/RequestBrowserList.tsx:435-461` | one round of the loop yields the parameter of the suffix and a strictly larger position |
| `ToolArgs.ParseParams` | `frontend/src/components/RequestBrowser/RequestBrowserList.tsx:432-464` | the index loop returns exactly the parameters of the text and ends on every input |
| `ToolArgsRoundTrip.ValueExtent` | `backend/ai_proxy/api/ui/requests.py:172-185` | a printed value, followed by nothing or by another pair, is taken as a whole |
| `ToolArgsRoundTrip.ScannedKeysAreClean` | `frontend/src/components/RequestBrowser/RequestBrowserList.tsx:435-439` | the scanner never yields a key with `=` or outer white space |
| `ToolArgsRoundTrip.RoundTripIff` | `backend/ai_proxy/api/ui/requests.py:155-185` | scanning the printed arguments gives back the same keys and printed values in order exactly when no key contains `=` or has outer white space |
| `ToolArgsReader.StringsPrint` | `backend/ai_proxy/api/ui/requests.py:173-174` | a printed string stands in the quotes Python prefers and reads back under the escapes of Python's string literals |
| `ToolArgsReader.OthersPrint` | `backend/ai_proxy/api/ui/requests.py:175-184` | truth values and null by their JSON names, numbers as they are, containers with the decimal number of their items or keys |
| `ToolArgsReader.ValueTells` | `frontend/src/components/RequestBrowser/RequestBrowserList.tsx:440-458` | in any text, a value without its closing quote or bracket goes to the end, one in brackets to the first closing one, a bare one to the first comma and blank |
| `ToolArgsReader.SpacesDiffer` | `frontend/src/components/RequestBrowser/RequestBrowserList.tsx:438` | the white space trimmed from a scanned key is what Python strips, but for U+001C to U+001F and U+0085, and with U+FEFF |
| `FitText.FitText` | `frontend/src/components/RequestBrowser/RequestBrowserList.tsx:419-428` | the search ends at an edge, where the kept characters fit and one more does not, for any width function; below the width of the ellipsis only that is shown |
| `FitText.EdgeIsLongest` | `frontend/src/components/RequestBrowser/RequestBrowserList.tsx:421-427` | where longer prefixes are never narrower, a fitting prefix is an edge exactly when no longer one fits |
| `ModelMappings.ParseInvertsFormatIff` | `backend/ai_proxy/core/model_mappings.py:12-31` | parsing the label of a target gives the target back exactly when it is well formed: no colon in the provider, clean slugs, no `+` in an unpinned model |
| `ModelMappings.NormalFormIff` | `backend/ai_proxy/core/model_mappings.py:56-60` | parse, print, parse equals parse exactly when the model part does not end in a slugless `+` with another `+` before it |
| `ModelMappings.LeavesPlusExample` | `backend/ai_proxy/core/model_mappings.py:25-29` | `p:a+b+` is such a mapping |
| `ModelMappings.ParsedShape` | `backend/ai_proxy/core/model_mappings.py:12-31` | every parsed target has a provider without colon, and pins that are non-empty, stripped and free of delimiters |
| `ModelMappings.StripUndoesAppend` | `backend/ai_proxy/core/model_mappings.py:34-43` | a list of slugs appended to any model text is stripped off again, whatever the model contains |
| `ModelMappings.StripIsSplit` | `backend/ai_proxy/core/model_mappings.py:34-43` | stripping loses nothing: the text is the base, or the base, a `+` and a list with exactly the returned slugs |
| `ModelMappings.BareMapping` | `backend/ai_proxy/core/model_mappings.py:19-22` | a mapping without colon names provider and model at once |
| `ModelMappings.HintsTell` | `backend/ai_proxy/core/model_mappings.py:63-82` | the hints are the non-empty strings of `provider.only`, or if there are none those of `provider.order` |
| `ModelMappings.NamedSnoc` | `backend/ai_proxy/core/model_mappings.py:78` | of a list of hints, every item that is a non-empty string counts, in order, and no other |
| `ModelCatalog.ExpandRow` | `backend/ai_proxy/services/model_catalog.py:122-148` | one wildcard row adds an entry for each listed model it matches, and never replaces one that is there |
| `ModelCatalog.ExpandWildcardCatalogEntries` | `backend/ai_proxy/services/model_catalog.py:111-150` | every id gets the entry of the first row that advertises it, and there are no other entries |
| `ModelCatalog.GetProxyModelCatalog` | `backend/ai_proxy/services/model_catalog.py:77-108` | for every id: the entry of its own literal key, or else the first wildcard expansion, or none |
| `ModelCatalog.AdvertisedTells` | `backend/ai_proxy/services/model_catalog.py:77-150` | a key that is no pattern stands for its target's model, or itself; any other id is advertised by the first row whose provider lists it, whose target pattern matches it, and whose key does too if it is a pattern |
| `ModelCatalog.TargetTells` | `backend/ai_proxy/core/routing.py:148-150` | a name has a row exactly when it is a configured key |
| `Routing.KeysIgnoringCase` | `backend/ai_proxy/core/routing.py:124` | the index gives for every lowered key the last configured key that equals it but for case |
| `Routing.ResolveProviderAware` | `backend/ai_proxy/core/routing.py:99-139` | the client's slugs are asked first, then the body's, and the first slug with a usable key wins |
| `Routing.ResolveWildcardMapping` | `backend/ai_proxy/core/routing.py:154-167` | the first row whose key matches and whose target can be used |
| `Routing.ResolveModel` | `backend/ai_proxy/core/routing.py:59-96` | the route found through the four sources in order, or none for the error |
| `RouteSources.QualifiedTells` | `backend/ai_proxy/core/routing.py:124-137` | a provider-aware route is that of the last key that is the base, a plus and the slug but for case, with the row's own pins only |
| `RouteSources.UnqualifiedTells` | `backend/ai_proxy/core/routing.py:130-135` | a slug with such a key has no route only if the target has no adapter or its pattern does not match the base |
| `RouteSources.AwareTells` | `backend/ai_proxy/core/routing.py:115-139` | of the client's slugs and then the body's, the first that has such a route gives it |
| `RouteSources.ResolveTells` | `backend/ai_proxy/core/routing.py:59-193` | a route comes from the first source that has one: a qualified key, the model's own row, its catalog entry, the first matching row that can be used; the pins of the row or entry come before the client's, and hints of the body fill in for a catalog entry only |
| `RouteLabels.ResolvedIsSound` | `backend/ai_proxy/core/routing.py:59-193` | whatever source a route comes from and whatever the body hints at, its provider has an adapter, its label is made of its own fields, and its pins are clean or are the hints themselves |
| `RouteLabels.CleanPinsIff` | `backend/ai_proxy/core/routing.py:63-89` | a route has pins that are no slugs if and only if the body's hints are none, the client and the catalog entry pin nothing, and the request gets as far as that entry |
| `RouteLabels.LabelReadsBackIff` | `backend/ai_proxy/core/routing.py:192` | for every request and every hint, parsing the label of the route gives back its provider, model and pins exactly when the request does not take such hints, and a route without pins has no `+` in its model |
| `RouteLabels.HintedPins` | `backend/ai_proxy/core/routing.py:78-88` | a concrete request with a hint that holds a comma is routed with that hint as its pin, which is not clean |
| `CatalogRouting.AdvertisedIsRoutedIff` | `backend/ai_proxy/core/routing.py:59-89` | an advertised id without client pins whose provider is registered is routed to exactly the provider, model and pins of its entry, raw patterns included, if and only if no wildcard or empty key of the same name leads elsewhere |
| `CatalogRouting.LiteralRowAgrees` | `backend/ai_proxy/services/model_catalog.py:219-226` | for a literal key the router and the catalog resolve the same target name, or the router finds none and falls back to the catalog |
| `CatalogRouting.ShadowedExample` | `backend/ai_proxy/services/model_catalog.py:86-88` | a concrete configuration where an advertised id is also a wildcard key and is routed to another provider |
| `RoutingConflicts.FileRows` | `backend/ai_proxy/config/loader.py:179-190` | qualified rows are filed under base and first slug without regard to case, base rows under their lowered key with the last one winning |
| `RoutingConflicts.GatewaysDiverge` | `backend/ai_proxy/config/loader.py:196-197` | more than one gateway in the set exactly when two rows differ |
| `RoutingConflicts.ReportClashes` | `backend/ai_proxy/config/loader.py:194-202` | one report per filing whose rows lead to different gateways |
| `RoutingConflicts.ReportBase` | `backend/ai_proxy/config/loader.py:204-218` | the reports of one base row: each pin with each qualified row on another gateway, ignoring case |
| `RoutingConflicts.DetectProviderRoutingConflicts` | `backend/ai_proxy/config/loader.py:167-220` | a conflict is reported if and only if the configuration has it |
| `ConflictRows.ClashTells` | `backend/ai_proxy/config/loader.py:194-202` | a clash is a conflict if and only if two rows with the same base and first slug, but for case, lead to different providers |
| `ConflictRows.ClashNames` | `backend/ai_proxy/config/loader.py:198-202` | it names the keys of all rows with that base and slug, and no others |
| `ConflictRows.PinClashTells` | `backend/ai_proxy/config/loader.py:204-218` | a pin is a conflict if and only if a base row, the last with its key but for case, pins a slug and a row for both leads to a different provider, ignoring case |
| `RoutingConflicts.PartsIffDiverted` | `backend/ai_proxy/core/routing.py:99-139` | for a base model that resolves by its own row, spelling out one of its pins reaches another gateway if and only if a usable key equal to base and pin but for case leads there |
| `RoutingConflicts.FiledUnlessLater` | `backend/ai_proxy/config/loader.py:190` | a base row is the one the check compares unless a later base key is equal to it but for case |
| `RoutingConflicts.CleanCheckAgreesIff` | `backend/ai_proxy/config/loader.py:204-218` | after a check without reports, spelling out a pin of such a base model reaches the same gateway if and only if it is not the case that the check filed another row for it and such a key leads elsewhere |
| `RoutingConflicts.CollidingBasesEscape` | `backend/ai_proxy/config/loader.py:190` | a concrete configuration with two base keys that differ in case only passes the check, meets that condition and disagrees at run time |
| `CatalogFetch.ModelCache.Lookup` | `backend/ai_proxy/services/model_catalog.py:181-184` | the cached listing exactly while it has not expired |
| `CatalogFetch.ModelCache.LockFor` | `backend/ai_proxy/services/model_catalog.py:186` | the provider keeps its lock, or gets one it has not had before; other providers unchanged |
| `CatalogFetch.ModelCache.Store` | `backend/ai_proxy/services/model_catalog.py:199-216` | the usable models in order, the last one per id for look-up, kept for 300 seconds; other providers unchanged |
| `CatalogFetch.UsableTells` | `backend/ai_proxy/services/model_catalog.py:201-208` | a listed model counts if and only if it has an id that is a non-empty string |
| `CatalogFetch.ModelCache.InvalidateModelCatalog` | `backend/ai_proxy/services/model_catalog.py:48-55` | listing and lock of one provider, or of all, are dropped together and nothing else |
| `CatalogFetch.SingleFlight` | `backend/ai_proxy/services/model_catalog.py:177-216` | in every interleaving, cancellations and invalidations included, each lock has at most one holder and the listings in flight are at most one more than the invalidations that met a caller holding or awaiting the lock |
| `CatalogFetch.StartsAreSpaced` | `backend/ai_proxy/services/model_catalog.py:188-191` | a caller that gets the lock starts a listing if and only if 300 seconds have passed since every listing stored since the last invalidation |
| `CatalogFetch.OneListingPerTtl` | `backend/ai_proxy/services/model_catalog.py:177-216` | without invalidation and cancellation listings alternate: at most one in flight, and each starts 300 seconds or more after the previous one finished, failed ones included |
| `CatalogFetch.InvalidationOverlapsIff` | `backend/ai_proxy/services/model_catalog.py:48-55` | while no dropped lock is in use, an invalidation lets two listings be in flight at once in some continuation if and only if it meets a caller holding or awaiting the lock |
| `CatalogFetch.InvalidationOverlaps` | `backend/ai_proxy/services/model_catalog.py:48-55` | a concrete run where an invalidation lets a second listing start beside the first |
| `LogQueue.Service.EnqueueLog` | `backend/ai_proxy/logging/service.py:19-27` | the entry is appended, or dropped when 10000 are queued; this is the enqueue step |
| `LogQueue.Service.EnterLoop` | `backend/ai_proxy/logging/service.py:30-34` | the task's first step: on to the loop, or back at once without a database |
| `LogQueue.Service.CollectBatch` | `backend/ai_proxy/logging/service.py:43-54` | the two loops make the take step: the batch is the longest prefix of the queue within the batch size, at least one entry, and the queue keeps the rest |
| `LogQueue.Service.EndWrite` | `backend/ai_proxy/logging/service.py:56-72` | the end of a write, raised or not, is the finish step |
| `LogQueue.Service.DrainQueue` | `backend/ai_proxy/logging/service.py:60-65` | a cancellation inside the loop is the cancel step: everything queued is appended to the batch at hand, and there is a closing write exactly when that is not empty |
| `LogQueue.StepKeeps` | `backend/ai_proxy/logging/service.py:38-72` | every step keeps the accounts of accepted, finished, current and queued entries and the primary key of the table |
| `LogQueue.Conservation` | `backend/ai_proxy/logging/service.py:23-72` | on every run the accepted entries are, in order, the finished batches, the batch at hand and the queue; the table is, in order, their written parts and holds no id twice |
| `LogQueue.LostOnlyInRaisedBatch` | `backend/ai_proxy/logging/service.py:71-72` | every accepted entry is in the table, under way, or in the unwritten part of a batch whose write raised |
| `LogQueue.CleanShutdownIff` | `backend/ai_proxy/logging/service.py:58-72` | after the task has ended, the table is exactly the entries accepted before that, in order, if and only if no step loses: no end before the loop with entries queued, and no write that ends uncommitted, other than a closing one that repeats a batch already in the table; after a loop, later entries are still queued |
| `LogQueue.NoFailureNoLoss` | `backend/ai_proxy/logging/service.py:58-70` | if the loop was reached and no write raised, nothing accepted before the end is missing |
| `LogQueue.NeverStartedLoses` | `backend/ai_proxy/logging/service.py:30-40` | a concrete run: the task is cancelled before its first step, an accepted entry is never written and no write raised |
| `LogQueue.CancelAfterCommitLosesQueue` | `backend/ai_proxy/logging/service.py:58-70` | from every reachable state, a cancellation that arrives after the commit of the batch loses the whole queue, because the repeated batch violates the primary key |
| `LogQueue.CancelAfterCommitRun` | `backend/ai_proxy/logging/service.py:58-70` | a concrete run: of two accepted entries only the first is written |

## Left out

- The aliasing between recorded chunks and merged state: the first list of a key and the nested values of its items are shared with the recorded chunk, so a later merge edits `chunks_collected` in place; the model only counts recorded chunks and claims nothing about their contents.
- Chunks that are not shaped like a stream chunk: choices arrive typed, with an integer index and a delta object; a missing index or delta is the default the code uses, and a malformed one is not modelled.
- StreamBoundaries.FragmentsMatterIff: a cut field is not named `finish_reason`, and a cut item has an index that is not null and not an object; the items of a list without an index are never merged.
- StreamStates.StreamState.MergeListField: indices are compared as JSON texts, so the numbers `1` and `1.0` and the boolean `true`, which Python takes for equal, are different indices here.
- The texts derived from a message for display (role, content, tool names, meta tags) and the model, latency and token fields of a listed entry: they are copied and take no part in the structure.
- Missing or mixed timestamps in the sort key of the requests; a request here has a timestamp and an id.
- JsonText.TextUnique: a lone surrogate is not a character of the model's strings.
- The group keys built in SQL, which concatenate unescaped texts.
- Rendering, colours, visibility and scrolling in the chat view; only the order of the messages is modelled.
- The choice of the tokenizer from the model name and the extraction of cached tokens from a request: case analysis.
- Rounding errors of floating-point numbers: cache arithmetic, times and widths are reals.
- ToolArgs.SummarizeToolArgs: decoding an argument text into JSON is a parameter, and a number is the text Python prints for it.
- The layout of a row around the scanned parameters, apart from the cut to a width.
- Routing.KeysIgnoringCase: lowering is per ASCII letter; Unicode case mapping is not part of this model.
- The adapter objects of the registry: a provider is registered or not.
- The metadata of catalog entries and the normalization of a provider's `created` field; the latter is a parameter of `CatalogFetch.ModelCache.Store`.
- ToolArgs.FindClosingQuote: positions count characters, not UTF-16 units; no delimiter is affected.
- The lookup and creation of provider rows while a batch is written, and masking.
- A second cancellation during the final write, and the internals of `asyncio.wait_for`, which is taken to hand over an entry or nothing.
- Access rules, header filtering, cost extraction, configuration parsing and file watching: case analysis or foreign code.
