# NoblePay verification

A Dafny model of the parts of NoblePay that decide money, identity and access, with proofs of what they guarantee.
`dafny verify dfyconfig.toml` checks everything.

## What is modelled

* **Chain reads under reorgs** (`Chain`, `NetworkIdentity`, `CanonicalTransaction`, `BlockSnapshot`,
  `RegistryAuthorization`, `WalletSignature`). A run is any sequence of canonical views. Every awaited read is
  answered from some moment between its dispatch and its completion, so the reads of one `Promise.all` are answered in
  any order and chains may extend or reorganise between any two answers; the node counts the reads that failed.
  Methods promise only what they have observed, and an RPC failure exactly for a failed read; the assumptions about
  the world are preconditions of the lemmas: a view has a head and its blocks are numbered by position; block hashes
  are stored in lower case; a transaction is mined at most once in a view; a block hash determines its block; an
  orphan never becomes canonical again; and, for finality, a block of the configured depth is never dropped.
* **Wallet-challenge sessions** (`ChallengeSessions`, `SessionEvidence`). Any number of `/verify` requests, each with its
  own program counter, race on one table of challenges; other routes may consume challenges, and any await may fail. With
  answers taken from the chain checks above, every session rests on canonical blocks.
* **Durable rate limits** (`RateLimit`). The shared table is compared with a plain count over the history of commits by
  processes with different clocks.
* **The WebSocket client** (`WebSocketClient`), driven by events in any order, stale timers and stale closes included.
* **Printers, parsers and signed texts** (`Json`, `JsonGrammar`, `ChannelState`, `ChannelSigning`, `TravelRule`,
  `ChallengeText`, `WalletChallenge`). A full JSON parser proved against the grammar, the strict artifact schema,
  commitments and line-structured challenges in the shape of ERC-4361 "Message Format".
* **Decimal strings** (`FixedPoint`, `DecimalAmounts`), **the connect menu** (`WalletPicker`) and **payment recovery**
  (`Submissions`, `PaymentInitiation`, `PaymentLifecycle`), where the API may process a request whose reply is lost.
  `Text` and `Wrappers` hold what they share.

Hash functions, signature recovery, EIP-55 and Unicode library functions are uninterpreted. Their laws, where some are
needed, are part of the types: EIP-55 changes only the case of letters and ignores the case of its input, and a
signature verifier reads bytes, so the case of hexadecimal digits does not matter to it.

Code that changes state is a class whose methods equal one step of a specification function, on which the invariants
are proved. Code that only computes is functions with lemmas.

## Where the code does less than its documentation suggests

* `assertCanonicalChainSnapshot` reads the depth after the block, so a passed recheck alone is not final;
  `RecheckIsFinalIffBlockIsRereadable` gives the exact condition.
* The depth a transaction was returned with need not last when the head moves back (`DepthMayShrink`).
* `isWalletChallengeBound` does not separate purposes: it accepts the Travel Rule messages of its own relying party, and
  only those. Sign-in is kept apart by the purpose of the challenge row.
* The close event of an abandoned WebSocket stops the heartbeat of the open one and may schedule a reconnect.
  `RunsBeatExactly`, `RunsAreCalmExactly` and `RunsKeepTimersExactly` say for which runs "connected" implies a running
  heartbeat and no pending reconnect.
* The rate-limit cleanup tolerates clocks one window ahead and no more.
* `usePayment` records nothing until a receipt is read as a success, so an unread receipt allows a second submission;
  `SubmitsOnceExactlyUnlessUnread` gives the exact runs for payments and for lifecycle calls. Recovering a payment after a
  lost reply makes the API process the same record again, and nothing else does
  (`ProcessesOnceExactlyUnlessRecoveredAfterLoss`). An existing hash given to a lifecycle call overwrites an open record.
* A negative state epoch is refused by the artifact schema, not by a message of its own.

## Model

| member | source | states |
|---|---|---|
| Chain.SameHashPinsBlock | backend/src/lib/business-registry-authorization.ts:159-173 | If block hashes determine blocks and orphans never return, a block seen canonical at one moment and named by hash again later was canonical at every moment in between; every snapshot reader rests on this |
| CanonicalTransaction.ProbeReceipt | backend/src/lib/canonical-chain-transaction.ts:73-90 | Either the fault and the chain fact behind it, or evidence that a successful receipt was canonical and, later, deep enough; for every interleaving of chain changes with the two reads, and RPC_UNAVAILABLE exactly when a read failed |
| CanonicalTransaction.RefetchReceipt | backend/src/lib/canonical-chain-transaction.ts:92-108 | The second receipt and the transaction, read together in any order, both concern the requested successful transaction, or the fault says what the chain answered; RPC_UNAVAILABLE exactly when a read failed |
| CanonicalTransaction.ConfirmReceipt | backend/src/lib/canonical-chain-transaction.ts:110-142 | Depth, agreement of receipt and transaction, and the block at the receipt's number, each with the answer it was decided on; RPC_UNAVAILABLE exactly when a read failed |
| CanonicalTransaction.GetCanonicalTransaction | backend/src/lib/canonical-chain-transaction.ts:67-143 | Success means the second receipt's block held the requested successful transaction, its depth was counted afterwards, and its number last named the same hash; RPC_UNAVAILABLE means exactly that a read failed; every other reason is a fact about the chain, and the two mismatch reasons mean that the transaction's block was reorganised during the call |
| CanonicalTransaction.ResolvedBlockWasPinned | backend/src/lib/canonical-chain-transaction.ts:92-142 | The returned block was canonical and held the transaction at every moment from the second receipt read to the final block read |
| CanonicalTransaction.ResolvedTransactionIsFinal | backend/src/lib/canonical-chain-transaction.ts:61-66 | Finality over whole runs: with no reorg of blocks of the configured depth, the returned transaction is at that depth when counted and canonical at every later moment of the run |
| CanonicalTransaction.ResolvedDepthLasts | backend/src/lib/canonical-chain-transaction.ts:110-116 | The transaction stays at least as deep as it was returned at every later moment exactly while no later head falls below the head it was counted from |
| CanonicalTransaction.DepthMayShrink | backend/src/lib/canonical-chain-transaction.ts:227-230 | A lawful reorg to a shorter head leaves a final block canonical but with fewer confirmations, so lasting depth needs the extra assumption |
| CanonicalTransaction.SettledResolutionIsTheVerdict | backend/src/lib/canonical-chain-transaction.ts:67-143 | On a chain that stands still a call without a failed read succeeds exactly when a direct look at the chain says so, and otherwise gives exactly that reason |
| CanonicalTransaction.KeptTransactionResolves | backend/src/lib/canonical-chain-transaction.ts:67-143 | The chain need not stand still: while the block of a successful transaction stays canonical and no read fails, only a count below the minimum stops the call, and its resolution is that block |
| CanonicalTransaction.DisagreementMeansMotion | backend/src/lib/canonical-chain-transaction.ts:118-124 | A receipt and a transaction record that disagree mean that the receipt's block did not stay canonical |
| CanonicalTransaction.ReplacementMeansMotion | backend/src/lib/canonical-chain-transaction.ts:132-140 | A receipt's block that is missing or different at its number was reorganised away during the call |
| CanonicalTransaction.ReadSnapshot | backend/src/lib/canonical-chain-transaction.ts:187-201 | Five reads in flight together: each answer comes from some moment of the waiting time, in any order, and there is none exactly when one of them failed |
| CanonicalTransaction.SettledAnswersAgree | backend/src/lib/canonical-chain-transaction.ts:202-225 | On a chain that stands still the recheck's conditions hold exactly when the chain has the identity, the block and the successful transaction in it |
| CanonicalTransaction.KeptAnswersAgree | backend/src/lib/canonical-chain-transaction.ts:202-225 | While the chain holds the identity, the block and the successful transaction in it, the conditions hold, in whatever order the reads are answered and whatever else changes |
| CanonicalTransaction.AssertCanonicalChainSnapshot | backend/src/lib/canonical-chain-transaction.ts:170-242 | What a passed recheck has observed and when (depth strictly last); a mismatch means the chain did not hold the snapshot throughout, too little depth is the count, and RPC_UNAVAILABLE means exactly that a read failed |
| CanonicalTransaction.SettledRecheckIsTheVerdict | backend/src/lib/canonical-chain-transaction.ts:170-242 | On a chain that stands still a recheck without a failed read passes, and fails with each reason, exactly as the chain says |
| CanonicalTransaction.RecheckIsFinalIffBlockIsRereadable | backend/src/lib/canonical-chain-transaction.ts:202-240 | A passed recheck is final if and only if its block number still names the same hash at one moment from the depth reading on |
| CanonicalTransaction.RecheckAloneIsNotFinal | backend/src/lib/canonical-chain-transaction.ts:227-240 | Under any reorg that replaces the newest block by a longer fork between the reads and the depth count, a call on a faithful node passes on an orphaned block |
| BlockSnapshot.Open | backend/src/lib/business-registry-authorization.ts:55-68 | Entry reads in any order: an accepted head was canonical and the chain identity was seen; refusal means that some moment had no acceptable head, and an RPC failure exactly that a read failed |
| BlockSnapshot.Close | backend/src/lib/business-registry-authorization.ts:159-173 | Exit reads: success means the number named the same hash again and the identity was seen; refusal means that the head did not stay in place, and an RPC failure exactly that a read failed |
| BlockSnapshot.FramePinsBlock | backend/src/lib/business-registry-authorization.ts:55-173 | Between entry and exit every read by number hits the one block whose hash is returned |
| BlockSnapshot.ByteCodeIs | backend/src/lib/business-registry-authorization.ts:74-76 | The code check accepts exactly "0x" followed by one or more pairs of hexadecimal digits |
| RegistryAuthorization.ReadRegistry | backend/src/lib/business-registry-authorization.ts:70-157 | Code first, then three contract calls in any order: without a failed read the result is what the blocks at the header's number answered at those moments, with one it is an RPC failure |
| RegistryAuthorization.AuthorizeAt | backend/src/lib/business-registry-authorization.ts:70-186 | The state reads and the exit: without a failed read the result is what was answered, unless the head did not stay in place |
| RegistryAuthorization.GetCurrentAuthorization | backend/src/lib/business-registry-authorization.ts:47-194 | Every outcome accounted for: an authorization comes with the evidence of the whole frame, an RPC failure without a missing block or reverted call means exactly that a read failed, and a refusal is what was answered or a head that was not acceptable or did not stay |
| RegistryAuthorization.AuthorizationIsOneBlock | backend/src/lib/business-registry-authorization.ts:41-46 | Snapshot consistency: on a lawful run every returned field, status and tier in the contract's own numbers, is the registry's state at the one block whose hash is returned, canonical throughout the read |
| RegistryAuthorization.EvaluatesExactly | backend/src/lib/business-registry-authorization.ts:128-157 | An authorization is returned exactly for a registered wallet of its own address with status 0 to 3, tier 0 to 2 and an active flag that agrees with verification within 365 days; and then it describes the block |
| RegistryAuthorization.KeptHeadIsTheVerdict | backend/src/lib/business-registry-authorization.ts:47-194 | The chain need not stand still: while the head read first stays canonical and no read fails, the result is decided by that block alone |
| RegistryAuthorization.SettledAuthorizationIsTheVerdict | backend/src/lib/business-registry-authorization.ts:47-194 | On a chain that stands still a call without a failed read returns what its head says, refusals included |
| RegistryAuthorization.ReturningOrphanMixesBlocks | backend/src/lib/business-registry-authorization.ts:159-173 | If an orphaned block may return, entry and exit checks pass although one field comes from another block |
| WalletSignature.Judge | backend/src/lib/wallet-signature-authorization.ts:57-87 | Code and, for a contract wallet, its ERC-1271 answer, each with its moment: without a failed read the result is their verdict, with one it is an RPC failure |
| WalletSignature.VerdictIsSigned | backend/src/lib/wallet-signature-authorization.ts:57-87 | The verdict is true exactly when a plain wallet's signature recovers to a signer whose checksummed address is the wallet, or a contract wallet answers 0x1626ba7e in any case; it exists exactly for accounts without code and contracts that answer |
| WalletSignature.IsSignatureValid | backend/src/lib/wallet-signature-authorization.ts:32-110 | Every outcome accounted for: a verdict comes with the evidence of the whole frame, an RPC failure without a missing block means exactly that a read failed, and a refusal is what was answered or a head that was not acceptable or did not stay |
| WalletSignature.VerdictIsOneBlock | backend/src/lib/wallet-signature-authorization.ts:27-31 | On a lawful run account type and ERC-1271 answer belong to one block, canonical throughout the check, and the result is whether the wallet has signed by that block's state |
| WalletSignature.KeptHeadIsTheVerdict | backend/src/lib/wallet-signature-authorization.ts:32-110 | While the head read first stays canonical and no read fails, the result is whether the wallet has signed by that block alone, whatever is mined above it |
| WalletSignature.SettledSignatureIsTheVerdict | backend/src/lib/wallet-signature-authorization.ts:32-110 | On a chain that stands still a call without a failed read returns what its head says, refusals included |
| ChallengeSessions.StepKeepsInvariant | backend/src/routes/auth.ts:225-349 | Every handler segment, database update, failure or foreign consumption keeps the invariant behind the session theorem |
| ChallengeSessions.RunKeepsInvariant | backend/src/routes/auth.ts:225-349 | The invariant holds after every interleaving of any number of requests |
| ChallengeSessions.ChallengesMintAtMostOneSession | backend/src/routes/auth.ts:299-339 | In every run each challenge mints at most one session, and each session has an authentication challenge of the same address, a valid signature on the stored message, an active registry snapshot read by the same request that fixes tier and role, and a guard time before expiry |
| ChallengeSessions.WinningNeedsTheGuard | backend/src/routes/auth.ts:299-313 | A request wins only by an update that found the row unused and marks it used |
| ChallengeSessions.SpentChallengesStayDead | backend/src/routes/auth.ts:299-313 | A challenge used by anyone but a winning request never mints a session in any continuation |
| ChallengeSessions.StepGrows | backend/src/routes/auth.ts:299-306 | Rows never change except from unused to used, and answers are never forgotten |
| ChallengeSessions.UndisturbedRequestGetsItsVerdict | backend/src/routes/auth.ts:232-339 | Alone, the segments of a request end in exactly the outcome of the handler read top to bottom, and mint a session exactly when it says so |
| ChallengeSessions.LoadsExactly | backend/src/routes/auth.ts:238-259 | A request goes on to the signature check exactly with a row that is unused, unexpired on its clock, for its address, bound for the relying party and for authentication |
| ChallengeSessions.UndisturbedRequestMintsExactly | backend/src/routes/auth.ts:225-330 | Undisturbed, a request mints its session exactly with such a row, a valid signature, a known business, an active registry entry and a row unexpired at the consumption |
| ChallengeSessions.FreshChallengeSignsIn | backend/src/routes/auth.ts:225-330 | A challenge built for this relying party and stored for its address, verified alone, in time and with good answers, mints a session with the tier and role of the registry |
| SessionEvidence.SessionsRestOnCanonicalBlocks | backend/src/routes/auth.ts:261-339 | Over every interleaving and every lawful chain each session has a registry and a signature answer of its own request, and each rests on one block that was canonical while that check ran on the configured chain: there the wallet is active with the session's tier and role, and its signature on the stored challenge is valid |
| SessionEvidence.AskRegistry | backend/src/routes/auth.ts:289-289 | The registry check called by a sign-in gives exactly the evidence the theorem on sessions starts from |
| SessionEvidence.AskSignature | backend/src/routes/auth.ts:261-266 | So does the signature check |
| ChallengeSessions.AuthService.CreateChallenge | backend/src/routes/auth.ts:180-200 | A challenge row is inserted exactly when its id is new and it is unused |
| ChallengeSessions.AuthService.BeginVerify | backend/src/routes/auth.ts:225-236 | A new request waits for its challenge; a running one is left alone |
| ChallengeSessions.AuthService.ResumeWithChallenge | backend/src/routes/auth.ts:238-259 | A missing, used, expired, foreign or unbound challenge ends the request as invalid, a wrong purpose as such; otherwise it goes on with its own copy of the row |
| ChallengeSessions.AuthService.ResumeWithSignature | backend/src/routes/auth.ts:261-273 | The verdict on the stored message is logged and ends the request if it is negative |
| ChallengeSessions.AuthService.ResumeWithBusiness | backend/src/routes/auth.ts:275-284 | A wallet without a business ends the request |
| ChallengeSessions.AuthService.ResumeWithRegistry | backend/src/routes/auth.ts:289-306 | The snapshot is logged; an inactive business ends the request, an active one goes on with the guard time read now |
| ChallengeSessions.AuthService.UpdateChallenge | backend/src/routes/auth.ts:299-306 | One atomic guarded update marks the row used and reports one row, or changes nothing and reports none |
| ChallengeSessions.AuthService.FinishVerify | backend/src/routes/auth.ts:307-339 | A count of one mints a session with the snapshot's tier and role, anything else is refused as already used |
| ChallengeSessions.AuthService.AbortVerify | backend/src/routes/auth.ts:340-348 | Any unfinished request may end as unavailable, without touching the table or the sessions |
| RateLimit.RowsCountHitsSinceRemoval | backend/src/middleware/auth.ts:95-126 | A row exists exactly for slots hit since their last removal, and its count is the number of those hits |
| RateLimit.HitsSinceRemovalIsHits | backend/src/middleware/auth.ts:98-104 | That number equals all hits of the window exactly when no hit was forgotten |
| RateLimit.LimiterCountsExactlyUnlessForgotten | backend/src/middleware/auth.ts:95-126 | The returned count is the plain per-window count plus one if and only if no earlier hit of the window was swept by a hit more than one window ahead |
| RateLimit.LimiterRefinesPlainCounter | backend/src/middleware/auth.ts:454-492 | With no committed hit more than one window ahead, a request is admitted exactly when it is among the first `limit` of its window |
| RateLimit.TwoWindowsAheadForgets | backend/src/middleware/auth.ts:98-104 | One window of slack is all: after a hit two windows ahead the next request of this window counts as the first |
| RateLimit.WindowAdmitsTheFirst | backend/src/middleware/auth.ts:454-492 | Exactly the first `limit` requests of a window are admitted, also by clocks of which no earlier reading is more than one window ahead of a later one |
| RateLimit.IntervalAdmitsAtMostTwiceTheLimit | backend/src/middleware/auth.ts:454-492 | Any 60,000 ms interval admits at most twice the limit, under the same condition on the clocks |
| RateLimit.AtMostTwoRowsSurvive | backend/src/middleware/auth.ts:98-121 | After a request only the rows of its own and the previous window are left for its key and scope |
| RateLimit.WindowIsMinute | backend/src/middleware/auth.ts:456-459 | A window is the whole minute that holds a moment |
| RateLimit.SweptExactly | backend/src/middleware/auth.ts:89-130 | A cleanup keeps exactly the rows unexpired at the window's start, and one for its own key those of every other key |
| RateLimit.RowsLieInTwoWindows | backend/src/middleware/auth.ts:98-121 | Under one non-decreasing clock, at every moment and for every key and scope, all its rows lie in two consecutive windows |
| RateLimit.RetryAfterReachesNextWindow | backend/src/middleware/auth.ts:477-487 | Waiting Retry-After (section 10.2.3 of RFC 9110) always reaches the next window, with less than a second to spare |
| RateLimit.ReplyFollowsHistory | backend/src/middleware/auth.ts:461-492 | After any history the table, the count and the reply are those of the plain counter |
| RateLimit.WindowStore.Consume | backend/src/middleware/auth.ts:85-160 | One atomic transaction: cleanup, then create or increment, or no effect at all |
| RateLimit.TierRateLimit | backend/src/middleware/auth.ts:436-500 | Requests without tenant or already passed for the scope go through uncounted; otherwise one consumption with the tier's limit of 300, 1,000 or 5,000 or the override, the exact reply, headers and new table; the store is reported unavailable exactly when its transaction failed |
| RateLimit.CountedOncePerScope | backend/src/middleware/auth.ts:449-452 | A request that passed a scope is not counted again by a second limiter of the same scope |
| RateLimit.PublicRateLimit | backend/src/middleware/auth.ts:518-565 | The hashed-key limiter: one consumption, the same reply, and unavailable exactly when the transaction failed |
| WebSocketClient.StepKeepsInvariant | src/hooks/useWebSocket.ts:173-349 | Every handler, timer and user action keeps the one-live-socket, subscription and schedule invariants |
| WebSocketClient.RunKeepsInvariant | src/hooks/useWebSocket.ts:173-349 | They hold after every sequence of events |
| WebSocketClient.AtMostOneLiveSocket | src/hooks/useWebSocket.ts:173-196 | At most one socket is connecting or open, it is the current one, and none is after unmounting |
| WebSocketClient.OpenSocketCarriesSubscriptions | src/hooks/useWebSocket.ts:271-325 | The open socket carries exactly the subscribed channels, "system" aside, and no channel is kept without callbacks |
| WebSocketClient.CallbacksFollowEvents | src/hooks/useWebSocket.ts:271-331 | Over every run a callback is in its channel's set exactly when its last subscribe is later than its last unsubscribe |
| WebSocketClient.ReconnectsAreBounded | src/hooks/useWebSocket.ts:232-246 | Between resets at most ten reconnects are scheduled, 120,000 ms in total |
| WebSocketClient.ScheduleIsBounded | src/hooks/useWebSocket.ts:242-242 | The delays of any number of attempts: their count, a linear bound on their sum, and the exact sum from the fifth on |
| WebSocketClient.SchedulingSpendsBudget | src/hooks/useWebSocket.ts:232-246 | Only close events schedule automatic reconnects, each uses one unit of a budget, and only an open or a manual disconnect refills it |
| WebSocketClient.SchedulesExactly | src/hooks/useWebSocket.ts:223-249 | A close event schedules a reconnect exactly while mounted, not manually disconnected and with attempts left; the delay is 3,000 ms times the attempt, at most five, and its timer is the referenced, pending one |
| WebSocketClient.ConnectingConnects | src/hooks/useWebSocket.ts:173-190 | Mounting, and a pending timer while mounted, lead to a connecting or open socket unless the constructor throws |
| WebSocketClient.DisconnectStaysDown | src/hooks/useWebSocket.ts:333-343 | After a manual disconnect in any run the client stays disconnected, with no further socket, until it is mounted, told to reconnect, or an older timer fires |
| WebSocketClient.OnlyStaleCloseStopsHeartbeat | src/hooks/useWebSocket.ts:223-225 | An open current socket that stays loses its heartbeat in a step exactly when that step is the close event of another socket |
| WebSocketClient.StepBeatsExactly | src/hooks/useWebSocket.ts:192-225 | A step keeps "connected implies heartbeat" exactly unless it is the close event of another socket while the current one is open; in particular opening starts a heartbeat |
| WebSocketClient.RunsBeatExactly | src/hooks/useWebSocket.ts:208-260 | For every run: in all its states the open socket has its heartbeat and is shown as connected if and only if no other socket's close event arrives while it is open |
| WebSocketClient.RunsAreCalmExactly | src/hooks/useWebSocket.ts:223-246 | All states of a run are connected only without a pending reconnect if and only if no close event of another socket sets a timer while the current one is open and no socket opens with a timer left over; the second part is a condition on the state, and RunsKeepTimersExactly names the events that lead to it |
| WebSocketClient.RunsKeepTimersExactly | src/hooks/useWebSocket.ts:223-246 | The guard a caller can check: at most one timer is pending, referenced, and none beside a current socket, throughout a run if and only if no close event of another socket sets one over a current socket or a pending timer. Such a run is never connected with a reconnect pending; the converse is RunsAreCalmExactly |
| WebSocketClient.ConnectedWithoutHeartbeat | src/hooks/useWebSocket.ts:223-246 | A concrete run that ends connected, without heartbeat and with a reconnect pending |
| WebSocketClient.Client.ConnectNow | src/hooks/useWebSocket.ts:173-252 | Nothing while unmounted or while a socket is connecting or open; otherwise the referenced timer is cleared and a new socket becomes the current one, unless its constructor throws |
| WebSocketClient.Client.OnOpen | src/hooks/useWebSocket.ts:192-207 | An abandoned socket is closed again; the current one resets the attempts, starts the heartbeat and subscribes every channel of the map |
| WebSocketClient.Client.OnClose | src/hooks/useWebSocket.ts:223-247 | The reference and the heartbeat are dropped; unless unmounted, disconnected by hand or out of attempts, a reconnect is scheduled after 3,000 ms times the attempt, at most 15,000 ms |
| WebSocketClient.Client.OnPeerClosing | src/hooks/useWebSocket.ts:175-180 | A closing handshake begun by the server takes a socket out of the two ready states that `connect` looks at, and changes nothing else |
| WebSocketClient.Client.OnTimer | src/hooks/useWebSocket.ts:243-246 | A pending timer connects, a cleared or fired one does nothing |
| WebSocketClient.Client.OnMount | src/hooks/useWebSocket.ts:256-258 | Mounting connects |
| WebSocketClient.Client.OnUnmount | src/hooks/useWebSocket.ts:260-268 | Unmounting clears the referenced timer and the heartbeat and closes the current socket |
| WebSocketClient.Client.SubscribeTo | src/hooks/useWebSocket.ts:271-303 | The callback joins its channel; only a new channel is told to an open socket |
| WebSocketClient.Client.UnsubscribeFrom | src/hooks/useWebSocket.ts:305-325 | The callback leaves its channel; only the last one removes the channel and tells an open socket, never for "system" |
| WebSocketClient.Client.DisconnectManually | src/hooks/useWebSocket.ts:333-343 | Timer, heartbeat, attempts and current socket are dropped and later closes do not reconnect |
| WebSocketClient.Client.ReconnectManually | src/hooks/useWebSocket.ts:345-349 | A manual disconnect followed by one fresh timer |
| Json.ParseUndoesPrinting | backend/src/lib/travel-rule.ts:163-167 | Parsing undoes printing for every printable value, in both layouts, at any depth and before any following text |
| Json.PrintRoundTrips | src/lib/channel-state.ts:170-178 | `JSON.parse` after `JSON.stringify`, compact or indented, gives the value back; so printing is injective |
| JsonGrammar.ParsesExactlyJson | src/lib/channel-state.ts:155-160 | The parser decides the grammar of RFC 8259, stated as a relation between texts and values: it returns a value exactly for the JSON texts of it, so no text has two values and what it refuses is no JSON |
| Json.CharsUndone | backend/src/lib/travel-rule.ts:163-167 | String literals with every escape (section 7 of RFC 8259) are read back exactly |
| Json.PrintedSize | src/lib/channel-state.ts:170-178 | The length of a printed text as a function of its parts, and that it is ASCII when no character needs escaping |
| TravelRule.BuiltPayloadIsCanonical | backend/src/lib/travel-rule.ts:124-161 | Built payloads hold bounded, non-empty texts without control characters, no empty optional field, and a lower-case payment id and purpose hash |
| TravelRule.BuildsFieldByField | backend/src/lib/travel-rule.ts:124-161 | Each field of a built payload is the canonical form of the input's field of the same name |
| TravelRule.RebuildingChangesNothing | backend/src/lib/travel-rule.ts:124-161 | For idempotent library functions the built payloads are exactly those that building again returns unchanged |
| TravelRule.CanonicalTextIsInjective | backend/src/lib/travel-rule.ts:124-167 | Equal canonical texts come from equal payloads, with both optional fields present or absent |
| TravelRule.CanonicalTextSays | backend/src/lib/travel-rule.ts:124-167 | Reading the canonical text back finds each value of the payload under its own key, a missing optional field left out and a missing purpose hash as null |
| TravelRule.CommitmentBindsPayload | backend/src/lib/travel-rule.ts:169-173 | Equal payload commitment preimages mean the same business, payment and party data |
| TravelRule.OriginatorCommitmentBinds | backend/src/lib/travel-rule.ts:175-190 | Equal originator preimages mean the same payment id, colons and all, and the same originator data, an empty id counting as none |
| TravelRule.BeneficiaryCommitmentBinds | backend/src/lib/travel-rule.ts:191-203 | Equal beneficiary preimages mean the same payment id, colons and all, and the same beneficiary data, an empty institution counting as none |
| TravelRule.PartyCommitmentsBindBuiltData | backend/src/lib/travel-rule.ts:175-203 | Of built payloads the two party commitments together bind the payment id and all party data |
| TravelRule.PartyPreimagesSay | backend/src/lib/travel-rule.ts:175-203 | The party preimages are domain, payment id and an object with the party's data, each value under its own key |
| TravelRule.CommitmentKindsAreSeparate | backend/src/lib/travel-rule.ts:169-203 | Payload, originator and beneficiary commitments never share a preimage |
| TravelRule.AadIsInjective | backend/src/lib/travel-rule.ts:262-271 | For colon-free ids two additional-data strings are equal exactly when both ids and the commitment (up to hexadecimal case) are |
| TravelRule.AadSays | backend/src/lib/travel-rule.ts:262-271 | Read from the left, the additional data is the domain, the business id, the record id and the commitment in lower case |
| TravelRule.TravelRuleBindsExactly | backend/src/lib/travel-rule.ts:337-388 | A built message is accepted for exactly its own relying party, payment and commitment, up to hexadecimal case |
| TravelRule.TravelRuleMessageIsInjective | backend/src/lib/travel-rule.ts:337-366 | A message fixes every field it was built from, up to hexadecimal case |
| TravelRule.TravelRuleMessageSays | backend/src/lib/travel-rule.ts:337-366 | Line by line, a message says host, address, statement, origin, chain, nonce, both times, id, and as resources the purpose, the payment and the commitment |
| TravelRule.TravelRuleIsNeverRegistration | backend/src/lib/wallet-challenge.ts:161-185 | No Travel Rule message is ever accepted as a registration |
| TravelRule.WalletMessageIsNeverTravelRule | backend/src/lib/travel-rule.ts:368-388 | No wallet challenge is ever accepted as a Travel Rule authorization |
| TravelRule.WalletRecogniserAcceptsTravelRule | backend/src/lib/wallet-challenge.ts:187-199 | The wallet recogniser does not separate purposes: it accepts a Travel Rule message exactly for the relying party it was built for. What separates them at sign-in is the purpose of the challenge row (backend/src/routes/auth.ts, lines 252-259) |
| WalletChallenge.BuildWalletChallengeMessage | backend/src/lib/wallet-challenge.ts:110-158 | Succeeds exactly when a registration carries a bytes32 commitment, and then joins exactly the envelope and resource lines |
| WalletChallenge.WalletMessageSplits | backend/src/lib/wallet-challenge.ts:126-158 | Splitting a built message gives its lines back |
| WalletChallenge.WalletMessageSays | backend/src/lib/wallet-challenge.ts:110-159 | Line by line, a message says host, address, statement, origin, chain, nonce, both times, id, and as resources the purpose and, where they belong, transaction and commitment |
| WalletChallenge.ResourcesFound | backend/src/lib/wallet-challenge.ts:165-174 | The recogniser's filters find exactly the resource lines that were written |
| WalletChallenge.RegistrationBindsExactly | backend/src/lib/wallet-challenge.ts:161-185 | A built message is registration-bound exactly for a registration with a transaction, and for exactly that transaction and commitment, up to hexadecimal case |
| WalletChallenge.WalletBindsExactly | backend/src/lib/wallet-challenge.ts:187-199 | A built message is accepted by exactly the relying party it was built for: host, origin and chain id |
| WalletChallenge.WalletMessageIsInjective | backend/src/lib/wallet-challenge.ts:110-158 | A message fixes every field it was built from, up to hexadecimal case |
| ChallengeText.EnvelopeHasNoResources | backend/src/lib/wallet-challenge.ts:126-139 | No envelope line starts like a resource, whatever the fields are |
| ChallengeText.EnvelopeIsInjective | backend/src/lib/wallet-challenge.ts:126-139 | Equal envelopes come from equal fields and equal relying parties |
| ChallengeText.MessageNamesParty | backend/src/lib/wallet-challenge.ts:187-199 | The host, origin and chain lines found in a message are exactly those of its relying party |
| ChannelState.CreatesExactly | src/lib/channel-state.ts:113-145 | Creation succeeds exactly for a positive chain id and nonce, unsigned balances and epoch and well-formed hexadecimal values; the result is in normal form, unsigned, and has exactly the given numbers |
| ChannelState.RefusesExactly | src/lib/channel-state.ts:113-145 | What creation refuses, and for which reason: the first that applies |
| ChannelState.NormalFormIsStable | src/lib/channel-state.ts:89-111 | Normal forms satisfy the schema and are their own normal form |
| ChannelState.ArtifactIsRead | src/lib/channel-state.ts:62-87 | The strict schema reads a valid artifact back from its JSON value |
| ChannelState.SerializeRoundTrips | src/lib/channel-state.ts:147-178 | Parsing a serialized artifact gives its normal form exactly when the text has at most 16,384 bytes, the size error otherwise; serializing the normal form gives the same text |
| ChannelState.SerializedSize | src/lib/channel-state.ts:170-178 | The exact byte length of a serialized artifact: 392 plus its digits plus its signatures |
| ChannelState.WhatFits | src/lib/channel-state.ts:55-60 | Two signatures of 4,096 bytes never fit; two of up to 3,900 bytes fit with up to 380 digits |
| ChannelState.ParsedIsNormal | src/lib/channel-state.ts:147-168 | Whatever was pasted, a parsed artifact is schema-valid, in normal form, and its own text parses to itself if it fits |
| ChannelState.AcceptsExactly | src/lib/channel-state.ts:62-87 | Acceptance on any JSON value: exactly the objects of the second format with the expected properties and no others, each with an allowed value, are read, as they say |
| ChannelState.ParsesExactly | src/lib/channel-state.ts:147-168 | Acceptance on any pasted text, in whatever layout: not blank, at most 16,384 bytes, JSON and an allowed artifact; every other text is refused for the first of these that fails |
| ChannelState.EitherLayoutParses | src/lib/channel-state.ts:147-168 | A valid artifact is accepted from its JSON value in either layout |
| ChannelSigning.TypedDataIsTheState | src/lib/channel-state.ts:180-202 | The signed data never depends on a signature slot: equal states give equal data, and with distinct type hashes equal data means equal states |
| ChannelSigning.TypedDataNamesFields | src/lib/channel-state.ts:180-202 | Every field of the signed data is the number or text of the artifact's field of the same name, the state type as the hash of its name |
| ChannelSigning.CreatedDataIsTheInput | src/lib/channel-state.ts:113-145 | What is signed on a created artifact are the very numbers it was created from |
| ChannelSigning.NormalFormIsSameState | src/lib/channel-state.ts:180-202 | Normalizing changes neither the state nor the signed data |
| ChannelSigning.ValidatesExactly | src/lib/channel-state.ts:267-330 | Validation succeeds exactly for the expected state, a newer nonce, balances that add up to the escrow, and genuine signatures; it names exactly the parties that signed |
| ChannelSigning.RefusalsAreTrue | src/lib/channel-state.ts:267-330 | A refusal of a valid artifact names something that is indeed wrong |
| ChannelSigning.AttachesExactly | src/lib/channel-state.ts:332-362 | Attaching succeeds exactly for a valid artifact, a channel party and that party's signature, and fills that party's slot |
| ChannelSigning.AttachKeepsValidity | src/lib/channel-state.ts:332-362 | A successful attach keeps the state and the other slot; the result validates again exactly when the signature fits the schema, with the old signers and the new one |
| ChannelSigning.AttachesCommute | src/lib/channel-state.ts:332-362 | Two distinct parties attach schema-valid signatures in either order with the same success and the same result |
| ChannelSigning.ExchangeEndsDoublySigned | src/lib/channel-state.ts:147-362 | Create, sign, serialize, parse, countersign: from a creatable state that agrees with the chain, genuine signatures on the input's own numbers and a text that fits, every step succeeds and ends with both signatures on those numbers, a split of the whole escrow |
| FixedPoint.GroupedIsThousands | src/lib/fixed-point.ts:21-21 | The regular expression places separators exactly every three digits from the right |
| FixedPoint.ThousandsUndone | src/lib/fixed-point.ts:16-24 | Deleting the commas gives the digits back |
| FixedPoint.GroupDigitsOfPlain | src/lib/fixed-point.ts:16-24 | Grouping puts separators into the whole part of a decimal and changes nothing else |
| FixedPoint.GroupDigitsOfNegative | src/lib/fixed-point.ts:16-24 | A leading sign stays in front of the grouped digits |
| FixedPoint.GroupingUndone | src/lib/fixed-point.ts:16-24 | Deleting the commas undoes `groupDigits` on every decimal |
| FixedPoint.PointTruncates | src/lib/fixed-point.ts:49-54 | Placing the point and cutting the fraction gives a value at most the amount and less than one last place below it |
| FixedPoint.BelowSmallestExactlyForDust | src/lib/fixed-point.ts:56-63 | The "<" form is displayed exactly for a non-zero amount below one unit in the last shown place, with its sign and the text of exactly that unit; never when all places are shown |
| FixedPoint.DisplayTruncates | src/lib/fixed-point.ts:35-66 | The magnitude read back from the text satisfies m <= &#124;raw&#124;/10^d < m + 10^-min(d,max), and is zero only for a zero amount |
| DecimalAmounts.DecimalReads | backend/src/lib/production-config.ts:351-356 | The accepted strings are exactly the texts of plain decimals, and splitting at the point finds their parts |
| DecimalAmounts.ConvertsExactly | backend/src/lib/production-config.ts:350-369 | The result is n exactly when the string is a decimal whose value times 10^d is the positive integer n; the format and zero errors are raised exactly when they apply |
| DecimalAmounts.TooPreciseExactly | backend/src/lib/production-config.ts:357-361 | The precision error is raised exactly for decimals that are no whole number of units |
| DecimalAmounts.ConversionUndoesDisplay | backend/src/lib/production-config.ts:350-369 | With every place shown, converting a displayed positive amount without its commas gives the amount back |
| DecimalAmounts.DisplayUndoesConversion | src/lib/fixed-point.ts:35-66 | Displaying a converted amount with every place shown gives the same value back |
| WalletPicker.HasDiscovered | src/config/wallet-picker.ts:62-62 | Finds a discovered wallet exactly when there is one |
| WalletPicker.DropRepeatedNames | src/config/wallet-picker.ts:69-74 | The loop over `seenWallets` keeps exactly the first connector of each name |
| WalletPicker.OrderWalletConnectors | src/config/wallet-picker.ts:59-75 | Returns the specified menu |
| WalletPicker.SortSorts | src/config/wallet-picker.ts:66-68 | Sorting is a permutation into (rank, position) order |
| WalletPicker.OrderIsUnique | src/config/wallet-picker.ts:66-68 | Only one permutation is in that order, so any correct sort gives it |
| WalletPicker.MenuIsTheLeaders | src/config/wallet-picker.ts:59-75 | The menu is sorted by rank and stable, and shows exactly the kept connectors that no kept connector of the same name precedes |
| WalletPicker.MenuIsByKind | src/config/wallet-picker.ts:9-15 | The menu by kind: Aethelred first, then MetaMask by id or name, then the other wallets, the generic entry last, and within each kind in the order of the kept connectors |
| WalletPicker.NamesAreDistinct | src/config/wallet-picker.ts:69-74 | Names in the menu are pairwise distinct |
| WalletPicker.EveryNameIsShown | src/config/wallet-picker.ts:69-74 | Every kept connector's name is in the menu |
| WalletPicker.GenericKeptUnlessDiscovered | src/config/wallet-picker.ts:62-65 | All connectors are kept, except that generic entries go exactly when a wallet was discovered |
| WalletPicker.OrderingIsIdempotent | src/config/wallet-picker.ts:59-75 | Ordering a menu again changes nothing |
| PaymentInitiation.StoredIsLoaded | src/hooks/usePayment.ts:191-219 | A stored record survives a reload exactly when it is a valid pending record |
| PaymentInitiation.EveryEntryWasAsked | src/hooks/usePayment.ts:235-355 | Over every run each approval is zero or the exact amount of a call, each submission is a payable order of a call with its recipient, token, purpose hash and amount in millionths, and each record follows the submission and the successful receipt it is of and holds that call's hash, recipient, amount, currency and purpose hash |
| PaymentInitiation.ReachesExactly | src/hooks/usePayment.ts:236-341 | A call submits exactly for a payable payment (supported currency, another non-zero recipient, at most six places, a positive amount, a purpose of 3 to 500 characters, nothing pending) whose allowance is made and which the wallet sends |
| PaymentInitiation.ApprovalsKeepRules | src/hooks/usePayment.ts:289-323 | Allowances change only from or to zero, and a completed approval phase leaves exactly the amount |
| PaymentInitiation.StepKeepsInvariant | src/hooks/usePayment.ts:177-367 | Initiating, recovering and reloading at any moment keep the discipline, the stored text and the record in step; a reload changes nothing |
| PaymentInitiation.EveryRecordIsReconciledOnce | src/hooks/usePayment.ts:347-367 | Over every sequential run every recorded payment is acknowledged to the browser exactly once and in order, except the last one that may still be pending in memory and storage |
| PaymentInitiation.ProcessedBeforeNextSubmission | src/hooks/usePayment.ts:262-266 | When a payment is submitted, nothing is open and the API has processed every recorded payment at least once |
| PaymentInitiation.OnlyTheOpenRecordIsSent | src/hooks/usePayment.ts:221-232 | Whatever is sent to, processed by or acknowledged by the API is the last record not acknowledged since, unchanged |
| PaymentInitiation.ProcessedOncePerAcknowledgementAndLoss | src/hooks/usePayment.ts:221-232 | Over every run the API processes records exactly as often as they are acknowledged and replies are lost, in total |
| PaymentInitiation.ProcessesOnceExactlyUnlessRecoveredAfterLoss | src/hooks/usePayment.ts:221-232 | Over every run the API processes no record twice if and only if no recovery reaches it while the pending record has already had a lost reply |
| PaymentInitiation.RecoveryAfterLossProcessesTwice | src/hooks/usePayment.ts:360-367 | The witness: the reply to a payment is lost and recovery makes the API process the same record again |
| PaymentInitiation.PendingBlocksPayments | src/hooks/usePayment.ts:262-266 | With a pending record another payment leaves no trace, and recovery sends exactly that record |
| PaymentInitiation.PendingSurvivesUntilAcknowledged | src/hooks/usePayment.ts:191-232 | A pending record survives every run of payments, recoveries and reloads in which no recovery sees an answer, and meanwhile only this record is sent |
| PaymentInitiation.SubmitsOnceExactlyUnlessUnread | src/hooks/usePayment.ts:342-354 | Over every run no payment is submitted while an earlier submission is unsettled if and only if no submitting call comes after one whose receipt stayed unread; every submission is settled if and only if no receipt stayed unread |
| PaymentInitiation.UnknownReceiptAllowsResubmission | src/hooks/usePayment.ts:342-354 | The witness: after an unread receipt the same payment is submitted again |
| PaymentInitiation.Hook.Initiate | src/hooks/usePayment.ts:235-358 | Performs the Initiate step, and succeeds exactly for a payable payment whose allowance is made, whose transaction is sent and succeeds, and which the API acknowledges |
| PaymentInitiation.Hook.ApproveExactly | src/hooks/usePayment.ts:289-323 | Exactly the approvals of the specification are sent, and success means the allowance is the amount |
| PaymentInitiation.Hook.Recover | src/hooks/usePayment.ts:360-367 | Sends the pending record and succeeds exactly when there is one and the answer is seen |
| PaymentInitiation.Hook.Load | src/hooks/usePayment.ts:191-207 | Takes the stored record if it is valid and removes it otherwise |
| PaymentLifecycle.StoredIsLoaded | src/hooks/usePayment.ts:419-453 | A stored record survives a reload exactly when both values are 32-byte hexadecimal |
| PaymentLifecycle.CallSubmitsExactly | src/hooks/usePayment.ts:455-500 | A call submits exactly for an eligible payment of which no hash is given or pending, through an available wallet |
| PaymentLifecycle.CallRecordsExactly | src/hooks/usePayment.ts:455-520 | A call records and sends exactly one pair: its payment with the given hash, else the pending one, else that of its own transaction once successful |
| PaymentLifecycle.StepIsDisciplinedExactly | src/hooks/usePayment.ts:455-527 | A call submits nothing and replaces no record while one is open if and only if it respects the open record; memory, storage and log always agree |
| PaymentLifecycle.RunsAreDisciplinedExactly | src/hooks/usePayment.ts:455-527 | Over every run the discipline holds exactly when every call respects the open record, in particular when no call gives an existing hash |
| PaymentLifecycle.ExistingHashOverridesRecord | src/hooks/usePayment.ts:482-507 | A call with another existing hash for the same payment overwrites the open record |
| PaymentLifecycle.SubmitsOnceExactlyUnlessUnread | src/hooks/usePayment.ts:482-505 | For every payment and every run no transaction is submitted while an earlier one for it is unsettled if and only if no submitting call for it comes after one whose receipt stayed unread |
| PaymentLifecycle.Hook.Execute | src/hooks/usePayment.ts:455-525 | Performs the Execute step, and succeeds exactly for an eligible call with a known hash or a successful transaction of its own that the API acknowledges; success leaves nothing pending |
| PaymentLifecycle.Hook.Load | src/hooks/usePayment.ts:419-441 | Takes the stored record if it is valid and removes it otherwise |

## Left out

- FixedPoint.FormatBaseUnits: `maxFractionDigits` is a natural number; a negative one, which slices from the end, does not occur.
- DecimalAmounts.DecimalToSmallestUnits: `decimals` is a natural number; token configuration only admits 6.
- ChannelState.ParseArtifact: the text of the first schema issue is not modelled, only that the schema refuses.
- Schema refusals: a refinement that also runs on a string of the wrong form may end in another exception, such as `BigInt` of a chain id that is no number; the model only says that both refuse.
- ChannelSigning.Validate: verification is a function, so a contract wallet that changes its mind between two calls is not covered.
- PaymentInitiation.Loaded: extra properties of a foreign stored record are dropped; the code would send them along.
- PaymentInitiation.Step: storage works and calls are sequential; blocked storage, double clicks and a browser that dies before the receipt are not covered.
- ChallengeSessions.Step: the time written to `usedAt` is the guard's reading; the code reads the clock a second time for it.
- Chain.Node: an RPC may fail or answer from any moment of the wait; with `misdirects` it may also answer about another transaction or block, and nothing else.
- Lone UTF-16 surrogates: strings are sequences of Unicode scalar values, so escapes that denote a lone surrogate are refused by the model's parser, and lengths (the 3 to 500 characters of a purpose) count scalar values instead of UTF-16 units.
- Cryptography (keccak, ECDSA, AES-GCM, JWT, EIP-55): uninterpreted; binding results speak about preimages. The other parts of encryption are not modelled.
- Decimal amounts of Travel Rule payloads: Prisma's decimal printing is a parameter, and no positivity is derived from `isPositive()`.
- Strict block calls: an RPC call by block number either answers from the block canonical there or fails; the helper's own checks are not modelled.
- `/challenge` before its insert, cookies, CSRF tokens and JWT contents: only the challenge row and the minted session matter to the theorems.
- `authenticateAPIKey`, role tables, the registration route, key-ring loading, thresholds and environment parsing: one-branch checks and configuration.
- Provider caching and RPC configuration loading: the node is a parameter.
- WebSocket message dispatch and URL building: no effect on sockets, timers or subscriptions. A pending timer may fire at any time, whatever its delay. `send` is assumed not to carry raw subscribe or unsubscribe frames.
- React rendering, query caches and display state such as `txHash`: user interface only.
- Solidity contracts, the Go gateway, the Rust engine, deployment scripts: outside this model.
