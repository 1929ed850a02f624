# Echo Masque: verified models

Dafny models of five parts of the Echo Masque runtime, with proofs of what each part is there to guarantee.

* **Device authorization** (`CliAuthRows`, `CliAuthRuns`, `CliAuthSafety`, `CliAuth`, `CliClient`, `CliRooms`). The server of RFC 8628
  as a state machine in which every request is a read and a later guarded commit, over every interleaving; the service as a
  class over its two tables, each of its methods shown to be those steps; the client's polling loop run jointly with it, and
  what the client does with its token.
* **Debug capture** (`CaptureLog`, `CaptureIndex`, `CaptureSteps`, `DebugCapture`, `CaptureRuns`). The in-memory store as a
  class: six containers and two cached counters per session are views of one ghost log, and every method says what happens to
  that log; runs of the store compare its refusals with its documentation.
* **Wire and documents** (`Numerals`, `HttpMessage`, `HttpRoundTrip`, `HttpExact`, `HttpReader`; `HeadingTree`,
  `Markdown`, `Docx`, `Paragraphs`). The HTTP/1.1 response reader as loops over a stream that arrives in arbitrary pieces, its
  meaning as a function of bytes, the serializer it inverts, and that it accepts nothing else; the outline compilers with
  their heading stack.
* **Draft preflight** (`DraftFreshness`, `DraftRuns`, `OperationRuns`, `DraftHistory`, `OperationOrder`, `DraftRuntime`). The
  freshness policy, one persisted step under every interleaving of generations, preflights, delivery claims, cancellations,
  crashes and restarts, a whole operation with its cursor and all its steps, what is sent in terms of the events of a run,
  the order in which requests are served, and one preflight as it runs.
* **Search and evaluation** (`EvidenceJson`, `PromptHits`; `RankFusion`; `Metrics`, `JudgeEvaluation`, `Breakdown`). The
  evidence wrapper and the binary search that bounds it, reciprocal-rank fusion, and the evaluation report.

`dafny verify dfyconfig.toml` checks the whole project. Imperative code is modelled by methods and classes proved against
functions; what the code promises is proved about those functions and about runs.

Where the code does not do what was wanted of it, the model follows the code:

* A stopped debug-capture session is never evicted, however long ago it expired, because its status stays "stopped";
  `docs/discord-debug-capture.md` counts it only until its retention ends. `CaptureRuns.RefusedAfterExpiry` is the input,
  `CaptureSteps.RefusalAgainstDocumentation` the exact condition, and `CaptureRuns.Serve` shows that time never helps.
* A semantic judge that fails with an exception whose text is empty is taken by the hybrid judge for a success
  (`JudgeEvaluation.HybridAccounting`, `JudgeEvaluation.SilentFailureMiscounts`).
* The bound on pending answers survives a clock that runs back by five seconds in commit order, and not by a microsecond
  more (`CliAuthSafety.PendingWindowThreshold`).
* Overlapping revocations of one grant may move its stored revocation time (`CliAuthSafety.RevocationOverwritten`); it is
  final exactly once none of them is still to commit (`CliAuthSafety.RevocationTimeIsFinal`).
* A human request that is still pending is dropped when a generation ends the whole turn, after six visible replies or
  twelve attempts (`OperationOrder.EndedTurnLeavesNothing`); otherwise every request is served, in order
  (`OperationOrder.AskedTurnsAreServed`).
* Rank fusion respects dominance over candidates that no channel repeats, and one repetition is already too many
  (`RankFusion.DominanceThreshold`); it respects a single channel exactly if that repeats nobody (`RankFusion.SingleChannel`).

Assumptions: fresh identifiers, codes and tokens are parameters that do not collide with used ones; digests are injective,
so codes and tokens stand for their hashes; in the joint run client and server read one clock and a response is either lost
or handled before its timeout; the debug store's clock does not run backwards; `RoomRepository.focus` returns
distinct message ids around the message asked for; a newly generated reply carries neither a check time nor a refresh count,
and invitations made by a reply are optional turns; case ids of a dataset are distinct; one process runs preflights, so a
restart ends everything in flight. Each is a precondition or an event of the model where it is used, and nowhere else.

## Model

| member | source | states |
|---|---|---|
| CliAuthRuns.NextKeeps | src/echo_masque/cli_auth.py:68-297 | whatever request moves next, every committed row keeps agreeing with what really happened to its device: status, reviewer, poll count, interval, grant and token |
| CliAuthRuns.RunKeeps | src/echo_masque/cli_auth.py:68-297 | the same over every run of interleaved creations, reviews, decisions, exchanges, revocations and aborted transactions |
| CliAuthRuns.AdvanceKeepsTxns | src/echo_masque/cli_auth.py:225-250 | a request that only read a row cannot stop another transaction from advancing it, and what it remembers stays an earlier committed version of that row |
| CliAuthRuns.RedeemingFacts | src/echo_masque/cli_auth.py:254-297 | while a redemption holds its row lock its claim is still the current one and its grant is still that of the device and still without a token |
| CliAuthSafety.AtMostOneToken | src/echo_masque/cli_auth.py:254-297 | in every run at most one access token is ever issued per device and per grant, and no token twice |
| CliAuthSafety.RedeemedIffToken | src/echo_masque/cli_auth.py:263-297 | in every reachable state a device is redeemed exactly when its grant has a token hash, and that token was issued for this device and grant |
| CliAuthSafety.StepMoves | src/echo_masque/cli_auth.py:126-297 | one event moves a device only from pending to approved or denied, or from approved to redeemed; only a bound reviewer's decision decides, only a finished redemption redeems, only a review binds a reviewer |
| CliAuthSafety.RunMoves | src/echo_masque/cli_auth.py:126-297 | over any stretch of a run status never moves back and the reviewer is written once |
| CliAuthSafety.ResolveIsSound | src/echo_masque/cli_auth.py:312-336 | the principal of a token is the one account that reviewed and approved the device, with exactly the scopes and rooms asked for at creation, through a grant neither revoked nor expired |
| CliAuthSafety.TokensAreModest | src/echo_masque/cli_auth.py:68-90 | whatever was asked for in a run, a token opens some of the three scopes and between 1 and 32 rooms, each of 1 to 64 letters, digits, underscores and dashes and none beginning like a token |
| CliAuthSafety.DenialStands | src/echo_masque/cli_auth.py:174-186 | over runs: once a denial was answered its device is denied in every continuation, without a grant, and no token is ever issued for it |
| CliAuthSafety.ApprovalStands | src/echo_masque/cli_auth.py:164-212 | once an approval was answered its device is approved or redeemed in every continuation, by that reviewer and with that one grant |
| CliAuthSafety.ReviewStands | src/echo_masque/cli_auth.py:126-162 | once a review was answered the device is bound to that account in every continuation |
| CliAuthSafety.TokenWorks | src/echo_masque/cli_auth.py:263-336 | once a token was answered it resolves in every continuation to the reviewing account with the scopes and rooms of the device, exactly until its grant is revoked or expires |
| CliAuthSafety.ResolveIsUnique | src/echo_masque/cli_auth.py:312-336 | a token names at most one principal |
| CliAuthSafety.RevokedStaysRevoked | src/echo_masque/cli_auth.py:349-358 | once revoked, a grant stays revoked for the rest of the run |
| CliAuthSafety.GrantStep | src/echo_masque/cli_auth.py:164-358 | one event never takes back a revocation or a token of a grant and never changes its account, scopes, rooms or expiry; only a revocation that read the grant writes the time of its revocation |
| CliAuthSafety.RevocationOverwritten | src/echo_masque/cli_auth.py:349-358 | two revocations that both read before either commits both succeed and the later commit stands |
| CliAuthSafety.RevocationTimeIsFinal | src/echo_masque/cli_auth.py:349-358 | the stored time of a revoked grant stands in every continuation of a run if and only if no other revocation of it is between its read and its commit |
| CliAuthSafety.FinishFailsOnlyOnGrant | src/echo_masque/cli_auth.py:263-297 | after a won claim a redemption fails only because its grant was revoked or ran out in between |
| CliAuthSafety.PollAccounting | src/echo_masque/cli_auth.py:232-253 | the stored interval is 5 + 5 x (persisted slow answers), the poll version counts the committed polls, and the next allowed poll is the last committed one plus the interval |
| CliAuthSafety.PendingWindow | src/echo_masque/cli_auth.py:232-253 | if the clock runs back by at most five seconds in commit order, no window of T seconds, wherever it begins, holds more than 1 + T/5 pending answers |
| CliAuthSafety.PendingWindowInRuns | src/echo_masque/cli_auth.py:232-253 | so it is for every device in every run |
| CliAuthSafety.PendingWindowThreshold | src/echo_masque/cli_auth.py:232-253 | the exact condition: all runs whose clock runs back by at most B keep the bound if and only if B is at most five seconds; with one microsecond more two pending answers fall within less than five seconds |
| CliAuth.CliAuthService.CreateDevice | src/echo_masque/cli_auth.py:68-114 | creation checks client, scopes and rooms, refuses nothing else, and adds exactly one pending row with the requested scopes and rooms |
| CliAuth.CliAuthService.FindByUserCode | src/echo_masque/cli_auth.py:116-124 | finds the one row with the code, or that there is none |
| CliAuth.CliAuthService.FindByDeviceCode | src/echo_masque/cli_auth.py:219-224 | finds the one row with the device code, or that there is none |
| CliAuth.CliAuthService.Review | src/echo_masque/cli_auth.py:126-162 | an uninterrupted review binds the reviewing account to the open pending row with the code and changes nothing else; each refusal is given exactly in its own case |
| CliAuth.CliAuthService.Decide | src/echo_masque/cli_auth.py:164-212 | the answer is what the row now says: exactly this row became approved or denied, and only an approval adds a grant, with the account, scopes, rooms and lifetime of the device; each refusal is given exactly in its own case |
| CliAuth.CliAuthService.Exchange | src/echo_masque/cli_auth.py:214-297 | a token request: one more poll is stored with its interval and next time, or the device is redeemed and its grant holds the token, or nothing changes; every answer with its case |
| CliAuth.CliAuthService.Resolve | src/echo_masque/cli_auth.py:312-336 | the principal of a token if its grant is unrevoked and unexpired, its account active and its rooms still accessible, field by field; nobody otherwise |
| CliAuth.CliAuthService.RevokeGrant | src/echo_masque/cli_auth.py:349-358 | only the owner revokes, exactly this grant; of revocations that do not overlap the first time is kept |
| CliAuth.ReviewIsItsSteps | src/echo_masque/cli_auth.py:126-162 | the review method is its two steps of the state machine, one after the other |
| CliAuth.DecideIsItsSteps | src/echo_masque/cli_auth.py:164-212 | the decision method is its two steps of the state machine |
| CliAuth.ExchangeIsItsSteps | src/echo_masque/cli_auth.py:214-297 | the token request is its three steps of the state machine |
| CliAuth.RevokeIsItsSteps | src/echo_masque/cli_auth.py:349-358 | the revocation is its two steps of the state machine |
| CliClient.NewDeviceIsCalm | src/echo_masque/cli_auth.py:91-107 | a device just created is in the state the client relies on: interval 5, nobody polling, next poll allowed at once |
| CliClient.ForeignRun | src/echo_masque/cli_auth.py:126-358 | whatever other requests do, they do not change the pace of a device they do not poll |
| CliClient.HandleIsCalm | src/echo_masque/cli_auth.py:232-297 | a request sent no earlier than the server allows is never penalised; a slow_down then means that a decision was committed between its read and its claim |
| CliClient.PollLoop | src/echo_masque/cli_client.py:174-215 | the loop terminates, sends nothing at or after the deadline, waits out the interval before every request; in numbers, the interval is five more after slow_down, the smaller of twice and 600 after a timeout and unchanged after pending; the outcome is what the last answer says, and giving up means that no further request was possible |
| CliClient.PollForToken | src/echo_masque/cli_client.py:168-215 | joined with the server under lost responses: the stored interval stays 5, the client's stays at least 5, at most one slow_down arrives and only when a decision won the race, a sign-in is a token the server issued for this device, and the intervals and outcome are those of the loop |
| CliRooms.ReadRooms | src/echo_masque/cli_client.py:225-254 | no room is read unless the listed rooms are exactly the requested ones; rooms are then read in order and every reported count belongs to a valid, bounded snapshot of that room |
| CliRooms.OwnRoomsAreAccepted | src/echo_masque/cli_client.py:232-234 | joined with the server: in every run the rooms behind a token obtained for the client's own device are exactly the rooms it asked for, so an honest room list passes its check |
| CaptureLog.FitIsLongestFittingSuffix | src/echo_masque/discord_debug_capture.py:466-500 | front eviction keeps a suffix that fits, and no longer suffix fits |
| CaptureLog.DropOldestViews | src/echo_masque/discord_debug_capture.py:466-484 | evicting from one session shortens its list from the front and leaves every other list alone |
| CaptureIndex.RemovalKeepsSound | src/echo_masque/discord_debug_capture.py:502-517 | removing one record keeps table, global list, per-session lists and dedupe index views of one log |
| CaptureIndex.AppendKeepsSound | src/echo_masque/discord_debug_capture.py:371-391 | appending one record keeps them so |
| CaptureIndex.ClearingKeeps | src/echo_masque/discord_debug_capture.py:519-523 | clearing sessions keeps bounds, counters, scopes and the account of every accepted record |
| CaptureIndex.PruningKeeps | src/echo_masque/discord_debug_capture.py:457-464 | so does expiry |
| CaptureSteps.CaptureKeeps | src/echo_masque/discord_debug_capture.py:371-394 | accepting a record and enforcing both capacities keeps all four bounds, exact counters and the account: accepted = dropped + evicted + retained, with the retained ones the last accepted |
| CaptureSteps.CaptureAccounts | src/echo_masque/discord_debug_capture.py:387-394 | per session, what is retained stays a suffix of what was accepted and every eviction is charged to the session that lost the record |
| CaptureSteps.RetainedIsSuffix | src/echo_masque/discord_debug_capture.py:387-394 | session capacity and then global capacity retain of every session a suffix of what it had |
| CaptureSteps.EvictedCompose | src/echo_masque/discord_debug_capture.py:466-500 | charging evictions in two steps charges each exactly once |
| CaptureSteps.StopScopes | src/echo_masque/discord_debug_capture.py:304-320 | stopping frees the scope and no other |
| CaptureSteps.VacateKeeps | src/echo_masque/discord_debug_capture.py:246-256 | replacing the earlier sessions of a scope keeps every part of the invariant |
| CaptureSteps.RefusalExact | src/echo_masque/discord_debug_capture.py:238-257 | a start is refused for room exactly when the table is full with no session of the scope and none whose status is expired |
| CaptureSteps.StaysFull | src/echo_masque/discord_debug_capture.py:530-541 | making room forgets only expired sessions, oldest first, and never exceeds the maximum |
| CaptureSteps.RefusalAgainstDocumentation | docs/discord-debug-capture.md:37-39 | the store refuses whenever the documentation says so; where the table is full of sessions that may not be forgotten, its refusal is outside the documentation exactly when some stopped session has outlived its expiry |
| CaptureSteps.StoppedTableStaysFull | src/echo_masque/discord_debug_capture.py:530-541 | a full table of stopped sessions refuses exactly the scopes it does not hold, at every time; once one of them has expired the refusal is not the documented one |
| CaptureRuns.Perform | src/echo_masque/discord_debug_capture.py:223-452 | one call of any kind on a full table of stopped sessions: the table keeps its rows exactly unless the owner discards a session or starts one in a scope the table holds; a start is refused for room exactly when its scope is new to the table; nothing is captured |
| CaptureRuns.Serve | src/echo_masque/discord_debug_capture.py:223-541 | never evicted: through every run without such a freeing call, however much time passes, the table keeps its rows and every start of a new scope is refused |
| CaptureRuns.RefusedAfterExpiry | src/echo_masque/discord_debug_capture.py:530-541 | the failing input, for every table size: the store is filled with stopped sessions, their expiry passes, and the next scope is refused although the documentation admits it |
| CaptureRuns.StartAndUse | src/echo_masque/discord_debug_capture.py:223-320 | a session just started is the current one of its owner and profile, is found by its owner and by nobody else, and is stopped by its owner and by nobody else |
| CaptureIndex.FirstExpiredIsOldest | src/echo_masque/discord_debug_capture.py:530-541 | what makes room is the expired session that started first, and there is one exactly if some session has expired |
| CaptureSteps.NewestFirst | src/echo_masque/discord_debug_capture.py:407-426 | a listing shows the newest record first |
| CaptureSteps.PagesClamped | src/echo_masque/discord_debug_capture.py:407-426 | a page number outside the range selects the first or the last page, and every page but the last is full |
| CaptureSteps.PagesPartition | src/echo_masque/discord_debug_capture.py:407-426 | pages 1, 2, ... read in turn yield every record once, in order |
| DebugCapture.CaptureStore.constructor | src/echo_masque/discord_debug_capture.py:189-221 | an empty store with the given limits and codec, an empty history and no identifier issued |
| DebugCapture.CaptureStore.RemoveRecord | src/echo_masque/discord_debug_capture.py:502-517 | removes exactly the record with the id from every container |
| DebugCapture.CaptureStore.RefreshUsage | src/echo_masque/discord_debug_capture.py:543-556 | recomputes one session's counters from its retained records |
| DebugCapture.CaptureStore.ClearSessionRecords | src/echo_masque/discord_debug_capture.py:519-523 | removes exactly the records of one session and counts them as dropped |
| DebugCapture.CaptureStore.EvictOldest | src/echo_masque/discord_debug_capture.py:474-479 | removes the oldest record of one session and refreshes its counters |
| DebugCapture.CaptureStore.EnforceCapacity | src/echo_masque/discord_debug_capture.py:466-484 | cuts one session to the longest suffix within its limits and charges it with the difference |
| DebugCapture.CaptureStore.EnforceGlobalCapacity | src/echo_masque/discord_debug_capture.py:486-500 | cuts the global list to its longest fitting suffix and charges each session with what it lost |
| DebugCapture.CaptureStore.PruneExpired | src/echo_masque/discord_debug_capture.py:457-464 | expired sessions lose their records and their scope, nothing else changes |
| DebugCapture.CaptureStore.MakeSessionSlot | src/echo_masque/discord_debug_capture.py:530-541 | forgets the oldest expired session if the table is full, and says whether there is room |
| DebugCapture.CaptureStore.StartSession | src/echo_masque/discord_debug_capture.py:223-271 | refused exactly for a TTL other than 15, 60 or 1440 minutes, an active scope or a stuck table; otherwise the scope holds exactly the new session, whose owner, profile, scope, guild name, start and expiry are as asked and whose counters are zero |
| DebugCapture.CaptureStore.StopSession | src/echo_masque/discord_debug_capture.py:304-320 | only the owner stops, and the stop time is stored once, before expiry; the scope is free afterwards |
| DebugCapture.CaptureStore.DiscardSession | src/echo_masque/discord_debug_capture.py:322-333 | the session and exactly its records disappear |
| DebugCapture.CaptureStore.Capture | src/echo_masque/discord_debug_capture.py:335-394 | a record is accepted exactly for the live session of its scope and a new dedupe key; otherwise only expiry happens; the new log and counters are stated in full |
| DebugCapture.CaptureStore.Accept | src/echo_masque/discord_debug_capture.py:371-394 | append, session capacity, global capacity: the log is the trimmed log and the counters match it |
| DebugCapture.CaptureStore.MarkOutcome | src/echo_masque/discord_debug_capture.py:396-405 | changes the outcome of one record, element by element, and nothing else |
| DebugCapture.CaptureStore.ListRecords | src/echo_masque/discord_debug_capture.py:407-426 | the requested page of the owner's records, newest first, with their number |
| DebugCapture.CaptureStore.GetRecord | src/echo_masque/discord_debug_capture.py:428-442 | the record if its session is the owner's, nothing otherwise |
| DebugCapture.CaptureStore.ClearRecords | src/echo_masque/discord_debug_capture.py:444-452 | removes exactly the records of the owner's session and reports how many |
| DebugCapture.CaptureStore.CurrentSession | src/echo_masque/discord_debug_capture.py:273-288 | the most recently started session of the profile, whatever its status |
| DebugCapture.CaptureStore.GetSession | src/echo_masque/discord_debug_capture.py:290-302 | the owner's session after expiry was applied |
| Numerals.PyIntReads | src/echo_masque/knowledge_fabric_pinned_fetcher.py:236-241 | a rendered decimal or hexadecimal numeral is read back as its number |
| Numerals.PyIntMeans | src/echo_masque/knowledge_fabric_pinned_fetcher.py:302-313 | white space, an optional sign, digits in groups joined by single underscores and white space are read as the signed positional value of the digits |
| Numerals.PyIntExactly | src/echo_masque/knowledge_fabric_pinned_fetcher.py:236-241 | and nothing else is read, but for one hexadecimal prefix: exactly which texts are numbers, and which numbers |
| Numerals.StripPads | src/echo_masque/knowledge_fabric_pinned_fetcher.py:254-256 | stripping takes off any white space around a text and nothing of it |
| Numerals.FoldingIgnoresCase | src/echo_masque/knowledge_fabric_pinned_fetcher.py:254-266 | two ASCII names fold alike exactly when they differ at most in case, and a name without capitals folds to itself |
| HttpRoundTrip.LineReads | src/echo_masque/knowledge_fabric_pinned_fetcher.py:289-299 | a line without a newline and within the stream limit is read back, whatever follows |
| HttpRoundTrip.HeadersRead | src/echo_masque/knowledge_fabric_pinned_fetcher.py:242-261 | a written header block, with any white space or none around names and values, is accepted exactly when names are distinct after case folding, there are fewer than 100 headers and the bytes are within the limit; then its map is the folded names and the bare values |
| HttpRoundTrip.ChunksRead | src/echo_masque/knowledge_fabric_pinned_fetcher.py:302-328 | the chunk reader undoes chunked encoding for all nonempty chunks, spellings of their sizes, extensions and trailers within the bound, and is too large exactly beyond it (section 7.1 of RFC 9112) |
| HttpRoundTrip.OverflowStopsAtSizeLine | src/echo_masque/knowledge_fabric_pinned_fetcher.py:302-313 | an overflow fails at the first chunk that announces it: the answer does not depend on any byte after its size line |
| HttpRoundTrip.ChunksBounded | src/echo_masque/knowledge_fabric_pinned_fetcher.py:302-328 | every accepted chunked stream decodes to at most the maximum |
| HttpRoundTrip.ResponseReads | src/echo_masque/knowledge_fabric_pinned_fetcher.py:230-286 | the whole reader inverts the serializer under all three framings (section 6.3 of RFC 9112), with any protocol and reason, padding, order and case of headers and spelling of lengths: it rejects exactly the header blocks that do not fit, is too large exactly beyond the bound, and otherwise returns status, body, headers and the untouched rest |
| HttpRoundTrip.ResponseBounded | src/echo_masque/knowledge_fabric_pinned_fetcher.py:230-286 | whatever the bytes, an accepted response has a status in 100..599, fewer than 100 headers and a body within the bound |
| HttpRoundTrip.BothFramingsRejected | src/echo_masque/knowledge_fabric_pinned_fetcher.py:263-266 | a response with both a length and a transfer encoding is rejected |
| HttpRoundTrip.BadFramingRejected | src/echo_masque/knowledge_fabric_pinned_fetcher.py:263-279 | a length that is no numeral or negative is rejected, and so is any encoding but chunked |
| HttpExact.HeadersAccepted | src/echo_masque/knowledge_fabric_pinned_fetcher.py:242-261 | the other direction: a header block is accepted, with this map and this rest, if and only if it is a written one that fits |
| HttpExact.ChunksAccepted | src/echo_masque/knowledge_fabric_pinned_fetcher.py:302-328 | bytes are accepted as a chunked body with this content and this rest if and only if they are a chunked encoding of it within the bound |
| HttpExact.BodyAccepted | src/echo_masque/knowledge_fabric_pinned_fetcher.py:263-286 | a body is accepted if and only if it is within the bound and framed as its headers say |
| HttpExact.StatusAccepted | src/echo_masque/knowledge_fabric_pinned_fetcher.py:235-241 | a status line is accepted if and only if its second word is a number between 100 and 599 |
| HttpExact.ResponseAccepted | src/echo_masque/knowledge_fabric_pinned_fetcher.py:230-286 | the reader accepts exactly the responses made of such a line, block and body, with this status, content and map, and leaves the rest |
| HttpExact.SizeLineRefused | src/echo_masque/knowledge_fabric_pinned_fetcher.py:302-313 | a chunk size that is no numeral is a protocol error, a negative one counts as too large |
| HttpExact.LengthRefused | src/echo_masque/knowledge_fabric_pinned_fetcher.py:269-283 | how a declared length fails: no number, above the maximum, or more than there is |
| HttpReader.StreamReader.ReadResponseLine | src/echo_masque/knowledge_fabric_pinned_fetcher.py:289-299 | consumes one CRLF-terminated line within the limit, or fails |
| HttpReader.StreamReader.ReadUntilEof | src/echo_masque/knowledge_fabric_pinned_fetcher.py:331-341 | however the network cuts the stream, returns all bytes exactly when they are within the maximum, having consumed at most one byte more |
| HttpReader.StreamReader.ReadChunkedBody | src/echo_masque/knowledge_fabric_pinned_fetcher.py:302-328 | the loop agrees with the meaning of a chunked body on every byte stream; on an overflow nothing beyond the size line was consumed |
| HttpReader.StreamReader.ReadHeaderBlock | src/echo_masque/knowledge_fabric_pinned_fetcher.py:242-261 | the loop agrees with the meaning of a header block on every byte stream |
| HttpReader.StreamReader.ReadHttpResponse | src/echo_masque/knowledge_fabric_pinned_fetcher.py:230-286 | the reader agrees with the meaning of a response on every byte stream and leaves exactly the bytes it did not need |
| HeadingTree.CloseTo | src/echo_masque/knowledge_fabric_document_adapter.py:225-226 | popping the stack leaves on top the nearest earlier heading of strictly smaller level, and the stack stays the ancestor chain of the last heading |
| HeadingTree.NearestIsUnique | src/echo_masque/knowledge_fabric_document_adapter.py:225-233 | only one heading can be that parent |
| HeadingTree.SubtreeIsContiguous | src/echo_masque/knowledge_fabric_document_adapter.py:219-248 | the parents form a forest: the descendants of a heading are exactly those up to the next heading at its level or above |
| HeadingTree.DepthBelowLevel | src/echo_masque/knowledge_fabric_document_adapter.py:219-248 | a heading is never deeper than its level allows |
| Markdown.Compile | src/echo_masque/knowledge_fabric_document_adapter.py:179-255 | sections have the parent law, blocks are exactly the headings and the maximal body runs (with one trailing blank line), in order, with their lines, kind, path and the most recent heading as section |
| Markdown.Flush | src/echo_masque/knowledge_fabric_document_adapter.py:188-217 | closing a run adds one block for it, or nothing if all its lines are blank |
| Markdown.LineHasOneBlock | src/echo_masque/knowledge_fabric_document_adapter.py:188-255 | every non-blank line is in exactly one block |
| Markdown.PathsDistinct | src/echo_masque/knowledge_fabric_document_adapter.py:199-251 | no two blocks, no two sections, and no block and section share a structural path |
| Markdown.BlockKinds | src/echo_masque/knowledge_fabric_document_adapter.py:192-201 | told from the source lines alone: a heading line is a block of its own, a run is a list exactly if every non-blank line is an item, a table exactly if not and every one has a bar |
| Markdown.BlockLiesInSection | src/echo_masque/knowledge_fabric_document_adapter.py:188-255 | a block lies in the section of the nearest heading at or above its first line, and in none exactly if there is no such heading |
| Paragraphs.ParagraphGroups | src/echo_masque/knowledge_fabric_document_adapter.py:258-272 | groups are maximal runs of non-blank lines with their start numbers, in order, covering every non-blank line |
| Paragraphs.GroupsAreTheMaximalRuns | src/echo_masque/knowledge_fabric_document_adapter.py:258-272 | a range of lines is a group exactly when it is a maximal run |
| Paragraphs.TextStructure | src/echo_masque/knowledge_fabric_document_adapter.py:162-176 | one block per maximal run, with ordinals, distinct line ranges and the run's lines |
| Docx.Compile | src/echo_masque/knowledge_fabric_document_adapter.py:279-354 | the same parent law for DOCX; one block per table and per paragraph with text or images, in order, in the most recent section |
| Docx.BlockKinds | src/echo_masque/knowledge_fabric_document_adapter.py:297-352 | which child becomes a table, heading, list item, image reference or paragraph, and that it lies in the section of the nearest heading up to it |
| Docx.PathsDistinct | src/echo_masque/knowledge_fabric_document_adapter.py:325-352 | no two DOCX blocks share a path although tables are numbered apart |
| DraftFreshness.AssessDraft | src/echo_masque/draft_freshness.py:26-80 | the running policy is the specification: early answers in order, then the relevant sources in window order |
| DraftFreshness.ChangedIsExact | src/echo_masque/draft_freshness.py:55-75 | the reported ids are exactly those of altered sources and follow-ups |
| DraftFreshness.DroppingSourcesKeeps | src/echo_masque/draft_freshness.py:53-75 | sources missing from the window never turn keep into anything else |
| DraftFreshness.StopsAreRight | src/echo_masque/draft_freshness.py:34-80 | a direct request is never dropped, and a refreshed draft is never refreshed again |
| DraftFreshness.ReasonsAreRight | src/echo_masque/draft_freshness.py:26-80 | the exact condition of every reason, and which action each has |
| DraftFreshness.FollowUpAsksForRefresh | src/echo_masque/draft_freshness.py:55-75 | an unseen message of a human that answers an anchor, a correction by the requester and a remembered source with another fingerprint ask for a refresh, or stop a draft refreshed before; a bot's message and a seen one never do |
| DraftFreshness.RebuiltRemembers | src/echo_masque/draft_runtime.py:346-357 | a rebuilt trace keeps target, requester and origin, counts as refreshed once, and remembers revision and fingerprint of every source shown, of no other, and the room's revision |
| DraftFreshness.RebuiltKeeps | src/echo_masque/draft_runtime.py:346-357 | a trace rebuilt from a window is kept against that window and any part of it |
| DraftRuns.NextKeeps | src/echo_masque/draft_runtime.py:107-288 | every transaction, room read, model call, generation, cancellation, interruption, crash and restart keeps: one holder at a time and never beside a generation, the call budget of the step, honest checks, evidence for what is sendable |
| DraftRuns.RunKeeps | src/echo_masque/draft_runtime.py:107-288 | the same over every interleaving of them |
| DraftRuns.RefreshedAtMostOnce | src/echo_masque/persistence/runtime_durability_repository.py:362-400 | in every run the model is called for a refresh of one step at most once, through all generations of the step |
| DraftRuns.PublishedWasChecked | src/echo_masque/draft_runtime.py:185-288 | whatever a preflight lets through, and whatever is claimed or delivered, was assessed keep against a room read after its text was produced |
| DraftHistory.SentTextWasKept | src/echo_masque/draft_runtime.py:185-358 | in every run the reply that may be sent is, to the letter, the text of the generation or refresh event that wrote it; past a preflight a later event read the room writable and in time and kept the draft against what it showed; and a claimed or delivered one was kept against the room read by its claim |
| DraftHistory.EachSentTextWasKept | src/echo_masque/persistence/runtime_durability_repository.py:362-972 | the same for every step of every run of an operation, in terms of the events the step went through |
| DraftRuns.HolderCanSave | src/echo_masque/draft_runtime.py:122-183 | a preflight that reserved the draft never loses it: while the operation is publishable its save succeeds |
| DraftRuns.StatusMoves | src/echo_masque/persistence/runtime_durability_repository.py:931-972 | how a reachable row moves, and by what: a reservation ends only in its own save or a restart, a restart keeps nothing sendable of it and closes the operation, an uncertain step moves only by its own unfinished generation, only a cancellation fails a generated reply, and a step whose model was called is never generated again |
| DraftRuns.EveryMoveHappens | src/echo_masque/persistence/runtime_durability_repository.py:362-972 | each allowed move is made in some run, so the relation is exact |
| DraftRuns.SettledForGood | src/echo_masque/persistence/runtime_durability_repository.py:376-400 | over any further stretch of a run a silent or delivered step stays so, and a step refreshed once is neither generated nor refreshed again |
| OperationRuns.RunAllKeeps | src/echo_masque/persistence/runtime_durability_repository.py:362-972 | a whole operation, its cursor and all its steps: whatever steps, cancellations, interruptions, restarts and yields do, every step keeps its invariant and only the step at the checkpoint is unsettled |
| OperationRuns.EachStepRefreshedOnce | src/echo_masque/persistence/runtime_durability_repository.py:362-972 | in every run of an operation each of its steps is refreshed by the model at most once |
| OperationRuns.EachPublishedWasChecked | src/echo_masque/persistence/runtime_durability_repository.py:362-972 | and whatever may be sent of any step was kept against a room read after its text was produced |
| OperationRuns.OneStepOutstanding | src/echo_masque/api/routes/connectors.py:938-976 | at most one step is unsettled, it is the one at the checkpoint and its character is that of the turn there |
| OperationRuns.StalePrepareChangesNothing | src/echo_masque/api/routes/connectors.py:938-976 | a request prepares what it read of the cursor in an earlier transaction: if the checkpoint moved on meanwhile its step exists and is settled, and preparing it changes nothing |
| OperationRuns.TrimIsExact | src/echo_masque/draft_runtime.py:140-150 | a settling step keeps exactly the turns its cut allows |
| OperationOrder.AskedTurnsAreServed | src/echo_masque/orchestration/social_turn_graph.py:115-329 | in every run in which no generation ends the whole turn, whatever is invited, cancelled, restarted or yielded: the turns still to come of those a human asked for are exactly the ones behind the checkpoint, in the order asked; the step at each position is its character's; and a completed operation has settled every one of them |
| OperationOrder.EndedTurnLeavesNothing | src/echo_masque/orchestration/social_turn_graph.py:325-329 | once a generation has ended the whole turn nothing is proposed after its step, and nothing is pending when it settles |
| OperationRuns.OthersOnlyClose | src/echo_masque/persistence/runtime_durability_repository.py:832-849 | what happens outside an unsettled step leaves it and the checkpoint alone and at most closes the operation: nothing opens a closed operation under it |
| DraftRuntime.StepRow.Reserve | src/echo_masque/draft_runtime.py:107-120 | the guarded update succeeds exactly when the row is still generated with the snapshot's content |
| DraftRuntime.StepRow.Save | src/echo_masque/draft_runtime.py:122-183 | succeeds exactly on a reserved row of a publishable operation; a silent reply silences, any other is stamped with the time of the check |
| DraftRuntime.StepRow.Examine | src/echo_masque/draft_runtime.py:205-276 | what is to be saved: the draft itself exactly when it is kept, the model's own text with a trace rebuilt from the reading it was shown exactly when a permitted refresh is kept against a later reading, silence without a text otherwise |
| DraftRuntime.StepRow.RefreshOnce | src/echo_masque/draft_runtime.py:233-271 | the text the model answered, with the rebuilt trace, exactly when its answer has the required form, does not decline a direct request, and the room read afterwards keeps it |
| DraftRuntime.StepRow.Conclude | src/echo_masque/draft_runtime.py:205-288 | whatever the examination says is saved, and the reservation ends: kept, refreshed or silent, with text and trace of the reply stated |
| DraftRuntime.StepRow.Preflight | src/echo_masque/draft_runtime.py:185-288 | an uninterrupted preflight: exactly when it keeps, refreshes, drops, stops or is in progress, and what the row then holds: the old text, the visible text the model answered, or none |
| EvidenceJson.EscapeReads | src/echo_masque/knowledge_fabric_context.py:50-70 | an escaped string reads back as itself and ends where it was ended |
| EvidenceJson.BodyReads | src/echo_masque/knowledge_fabric_context.py:50-70 | the evidence object reads back field by field, whatever its untrusted text |
| EvidenceJson.BodyIsPrintable | src/echo_masque/knowledge_fabric_context.py:50-70 | it contains no control character and hence no line break |
| PromptHits.RenderGrows | src/echo_masque/knowledge_fabric_context.py:50-70 | one more character of text makes the wrapper strictly longer despite escapes and the change of the truncated flag |
| PromptHits.SearchLength | src/echo_masque/knowledge_fabric_context.py:74-80 | the binary search finds the same length as trying every prefix |
| PromptHits.BoundedHits | src/echo_masque/knowledge_fabric_context.py:48-88 | the emitted hits are those of the linear scan |
| PromptHits.AdmittedIsFiltered | src/echo_masque/knowledge_fabric_context.py:72-88 | exactly the hits whose empty wrapper overflows are skipped; the others keep their order, fit the limit and carry the longest fitting prefix |
| PromptHits.WrapperReadsBack | src/echo_masque/knowledge_fabric_context.py:38-70 | the first line break after the opening ends the object, the closing line follows, and the object reads back with unit and version of this hit in their fields, text, title, freshness and authority cut to their lengths, and the flag exactly if something was cut |
| RankFusion.Fuse | src/echo_masque/knowledge_fabric_query_policy.py:85-99 | the two dictionaries and the sort give the candidates by falling reciprocal-rank sum, then first appearance |
| RankFusion.FusedIsUnique | src/echo_masque/knowledge_fabric_query_policy.py:85-99 | that ranking is unique and lists every distinct candidate exactly once |
| RankFusion.OrderIsExact | src/echo_masque/knowledge_fabric_query_policy.py:94-99 | one candidate precedes another exactly when its score is higher, or equal with an earlier first appearance |
| RankFusion.DominanceIsKept | src/echo_masque/knowledge_fabric_query_policy.py:85-99 | who is ahead wherever the other occurs is ahead in the fusion, as long as no channel repeats the one behind; everybody else may be repeated |
| RankFusion.DominanceThreshold | src/echo_masque/knowledge_fabric_query_policy.py:85-99 | the exact condition: dominance over candidates listed at most m times in a channel is respected if and only if m is at most one |
| RankFusion.SingleChannel | src/echo_masque/knowledge_fabric_query_policy.py:85-99 | fusing one channel is the identity exactly when it has no duplicates |
| RankFusion.RepetitionOvertakes | src/echo_masque/knowledge_fabric_query_policy.py:90-93 | one repetition and both fail: a concrete channel in which the repeated candidate overtakes the one ahead of it |
| Metrics.CellsAddUp | src/echo_masque/evaluation_analytics.py:110-123 | every eligible prediction is in exactly one confusion cell |
| Metrics.CellCounts | src/echo_masque/evaluation_analytics.py:110-123 | a cell counts exactly the predictions without an error that have its two verdicts |
| Metrics.ReportedRates | src/echo_masque/evaluation_analytics.py:125-184 | what the numbers of a report are: every rate the nearest ten-thousandth of its two counts and 0 of nothing, every F1 nearest to 2pr/(p+r) of its own class, every macro number nearest to the mean of the three classes |
| Metrics.ErrorsBalance | src/echo_masque/evaluation_analytics.py:125-141 | class false positives and class false negatives both sum to eligible minus correct |
| Metrics.ClassificationMetrics | src/echo_masque/evaluation_analytics.py:106-184 | the report: table, rates, macro means and the four counts about FAIL, which are the class counts of FAIL |
| Metrics.Tally | src/echo_masque/evaluation_analytics.py:116-160 | the table and the counts are right after one pass |
| Metrics.F1Between | src/echo_masque/evaluation_analytics.py:139-141 | the rounded F1 of rounded precision and recall lies between them |
| Metrics.RatesAreRates | src/echo_masque/evaluation_analytics.py:139-184 | every reported rate and mean is within 0 and 1 |
| Metrics.RoundIsNearest | src/echo_masque/evaluation_analytics.py:275-284 | the reported number is the nearest ten-thousandth, the even one from half-way, and no other is both |
| Metrics.RoundWithin | src/echo_masque/evaluation_analytics.py:275-284 | rounding half to even never leaves whole bounds of the quotient |
| JudgeEvaluation.EffectiveModes | src/echo_masque/judge_evaluation.py:76-81 | the hybrid mode brings its dependencies, in order and without repetition, and nothing else |
| JudgeEvaluation.Evaluate | src/echo_masque/judge_evaluation.py:83-138 | the predictions of every case in order, the metadata of every case and the status |
| JudgeEvaluation.CaseIsJudged | src/echo_masque/judge_evaluation.py:101-129 | what each mode says of a case: one prediction for each, with the case's own expected verdict, the verdict of its judge or the text of its failure, and the hybrid verdict |
| JudgeEvaluation.EveryModeJudges | src/echo_masque/judge_evaluation.py:101-129 | no mode that was asked for is left out |
| JudgeEvaluation.FieldsRemember | src/echo_masque/judge_evaluation.py:90-96 | the metadata recorded under the id of a case is its own |
| JudgeEvaluation.StatusMeans | src/echo_masque/judge_evaluation.py:131-139 | completed without an error, failed with nothing but errors, partial with some of each |
| JudgeEvaluation.RulesSemanticAgreement | src/echo_masque/evaluation_analytics.py:198-225 | the dictionaries give the shared cases and the agreeing ones, and the rate is the nearest ten-thousandth |
| JudgeEvaluation.HybridVerdict | src/echo_masque/judge_evaluation.py:366-413 | the hybrid verdict is the common one, or review on a disagreement |
| JudgeEvaluation.HybridAccounting | src/echo_masque/judge_evaluation.py:366-413 | hybrid reviews = disagreements + silent failures and hybrid eligible = shared + silent failures, hence equal if and only if no semantic exception prints as the empty string |
| JudgeEvaluation.SilentFailureMiscounts | src/echo_masque/judge_evaluation.py:381-394 | one such exception and a review is counted that no disagreement explains |
| JudgeEvaluation.AllFailedExactly | src/echo_masque/judge_evaluation.py:132-139 | a run fails as a whole exactly when only the semantic judge was asked and judged nothing, and is complete exactly when it was not asked or judged everything |
| Breakdown.Breakdown | src/echo_masque/evaluation_analytics.py:238-272 | one report per value of the column and mode, of exactly the predictions of that value |
| Breakdown.PartIsExact | src/echo_masque/evaluation_analytics.py:248-268 | a part holds exactly the predictions of its mode and value, an empty value counting as unclassified |
| Breakdown.BreakdownAddsUp | src/echo_masque/evaluation_analytics.py:238-272 | each cell summed over the values is the cell of the mode, short of exactly the predictions without metadata |
| Breakdown.BreakdownConserves | src/echo_masque/evaluation_analytics.py:238-272 | a breakdown conserves every cell exactly when every eligible prediction of the mode has metadata |
| Breakdown.EvaluationConserves | src/echo_masque/judge_evaluation.py:87-131 | an evaluation always does |

## Left out

- Databases, sessions, HTTP clients, sockets, TLS, DNS and provider calls: their answers are parameters or events.
- Hashing, random codes, password and key handling: fresh opaque values.
- `CliAuthService.list_grants`, audit rows, the feature flag `cli_auth_enabled` and the normalisation of a typed user code.
- `cli_client._request` limits on redirects and sizes, transport errors other than timeouts, the identity request and the closing revocation.
- CliClient.PollForToken: a response that arrives after the client's own timeout but was already handled by the server is not part of the joint run; the loop alone (`CliClient.PollLoop`) has no such restriction on answers.
- The JSON codec of captured payloads: `encode` is any function to bytes; `decode_record` is not modelled.
- Thread locking in the debug store: each public method is one step.
- Request building, address policy and redirect handling of the pinned fetcher.
- The heading and list patterns, `str.splitlines`, XML and zip parsing, the PDF outline, link extraction, and the joining and stripping of a block's lines into its text: a block carries its source lines.
- The budgets, depths and repetition limits of invitations, the scrubbing of stored payloads once a step is acknowledged or its operation completed, token and latency counts, and the fifteen-second age limit of a check at a delivery claim.
- The correction pattern of the freshness policy: any predicate on message text.
- Admission of evidence into a character's context, retrieval channels and authorization.
- Floating point: fusion scores are exact rationals and reported rates are whole ten-thousandths rounded from exact quotients.
- Scores, confidences, dimensions and evidence of predictions, and the judges themselves.
- Lease workers, schedulers, ingestion, browser and image handling, authoring and calibration lifecycles: small steps or code behind repositories that are not part of this model.
