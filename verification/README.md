# LeadSignal: proofs about its concurrent protocols, its printer and its loops

LeadSignal finds buying signals in Reddit posts. Its server keeps sessions, invitations, device pairings, login
tickets, replay nonces, an email outbox, a pool of LLM accounts and a rate limiter in Postgres and Redis, shared by
many requests and workers at once. This project models those protocols, the canonical JSON printer behind every
signed message, and the crawl, detail and ingestion loops, and proves what they keep over every run.

How the models are built:

- **Protocols.** One statement, transaction or Redis script is one `Action` on a `State`; a request keeps in the
  state what it read between two of them. A run is any sequence of actions, and an action that cannot happen leaves
  the state alone, so a statement about `Exec(INITIAL, run)` covers every interleaving. Beside each machine stands a
  class with the rows as fields, whose methods are the statements of the service and are proved to be the steps.
- **Histories.** What a guard or a constant means is stated apart from the steps that use it: over the actions of a run
  (a ticket needs an earlier signed proof of its own challenge, a failed email waits out its delay), and as the outcome
  of one whole operation with nothing in between (exactly when a refresh, a login, an acceptance or a pairing succeeds).
- **Loops.** The router, the route synchronisation, the crawl, the worker pool and the ingestion loop are methods
  with loops, proved against a specification function whose own meaning is then proved as lemmas.
- **Oracles.** Replies of providers and mail servers, page contents, signature checks, collation and lower-casing are
  arbitrary functions or parameters. Hashes are injective: a token or nonce is identified with its hash. Fresh ids
  are required to be new.
- **Time** is an integer number of milliseconds. Where a proof needs it (slots, nonces, rate limiter)
  the state holds one clock that does not run backwards; elsewhere statements carry whatever times they read. A Redis
  key is gone once the clock is past its expiry.

Some properties one would like hold only under a condition. For these the exact condition is proved:

- `stableStringify` sorts keys with `localeCompare`, which can find two different keys equal: U+00E9, and e followed
  by U+0301 (`KeyOrder.AccentsPrintTwoWays`). Its text is independent of key order if and only if no object has such
  a pair of keys other than array indices, which a JavaScript object always lists first
  (`KeyOrder.OrderIrrelevantIffNoTies`). An undefined item prints as nothing, so `[undefined]` and `[]` share a text.
- A signed message has a second reading if and only if its timestamp or nonce holds a newline
  (`SigningMessages.AmbiguousIffNewline`), whatever payload that reading has; with a newline-free timestamp its parts
  are determined all the same among messages whose timestamps have none (`SigningMessages.BodyDetermines`).
- A replayed nonce needs a request that inserts it after the window it checked has closed. Bounding how far past the
  end of their windows accepted inserts may come excludes replays in all runs if and only if none may come later
  (`ReplayNonces.NoReplayIffNeverLate`); bounding only the time between check and insert, if and only if that bound is
  zero (`ReplayNonces.NoReplayIffInstant`). The code awaits other statements between the two.
- Every script of the slot semaphore reads the true number of leases if and only if each finds the latest acquire at
  most 120000 ms old, or nobody holding one (`SlotSemaphore.CounterIsHolders`). Bounding how long single leases are held
  keeps the limit in all runs if and only if the bound is at most that (`SlotSemaphore.LimitHoldsIffPrompt`).
- An email is accepted at most once unless another claim takes over a lock on that very email
  (`EmailOutbox.AcceptedAtMostOnce`). If claims never meet a lock on it older than a bound, it is accepted twice in no
  run if and only if the bound is at most five minutes (`EmailOutbox.NeverTwiceIffLocksOutliveDelivery`).
- After a failed attempt the next one waits out its delay (`OutboxHistory.NextAttemptWaits`). All later ones do, too, in
  all runs whose times run backwards by at most d, if and only if d is at most thirty seconds
  (`OutboxHistory.EveryAttemptWaitsIffClocksAgree`).
- With at most k pairings of a workspace past the capacity check at once, the member limit holds in all runs if and only
  if k is at most 1 (`Pairing.LimitHoldsIffSequential`); for every k, limit + k - 1 members are reached.
- A discovery row is enqueued twice if and only if a lookup finds no row while another that found none has not stored it
  yet (`DiscoveryLedger.EnqueuedTwiceIffRaced`).
- In a window more than `limit` requests are allowed if and only if more are made and one of them finds the window's key
  expired (`RateLimit.AllowedPerWindow`). An increment made up to the end of its window never does, however long it was
  delayed (`RateLimit.InTimeNeverExpired`). The bound for longer intervals, under the same condition, is attained.
- A model route is tried if and only if it has something to try and every enabled rule route has a larger tier; a tie can
  go either way (`RouteSync.RouteIsTriedIff`, `RouteSync.TieGoesEitherWay`). Synchronising creates routes that are never
  tried: from a top tier of 998 with two new models, or with more than 999 new models at the first synchronisation
  (`RouteSync.SyncPassesTheRule`, `RouteSync.FirstSyncNumbersModels`).
- From any moment on, a revoked device is given no further challenge, ticket or session in any run if and only if none
  of its requests past their checks can still write: none is creating a challenge, verifying an open challenge or
  spending an open ticket (`Handshake.RevocationIsFinalIff`). It is given at most as many as it had requests past
  their checks (`Handshake.RevocationDrains`), and a ticket can indeed be spent after the revocation
  (`Handshake.RevokedTicketIsSpent`).
- The collector's refresh of a post without body erases the stored body, ingestion's does not
  (`DiscoveryLedger.BodyIsLostIff`).

Files: `JsonText`, `CanonicalJson`, `ShortestText`, `KeyOrder`, `CredentialFields` and `SigningMessages` are the printer
and the signed messages; `SessionFamilies`, `Invitations`, `Handshake`, `ReplayNonces` and `Pairing` the access
protocols; `PoolRouter`, `RouterPlan`, `RouteSync` and `SlotSemaphore` the LLM pool; `EmailOutbox` and `RateLimit` the
outbox and the limiter; `SessionHistory`, `InvitationHistory`, `HandshakeHistory`, `NonceHistory`, `PairingHistory` and
`OutboxHistory` say what a run's outcomes owe to its actions and what each operation does on its own; `FirstSeen`,
`RedditCards`, `Crawl`, `DetailPool` and `DiscoveryLedger` are the collection of posts.
`dafny verify dfyconfig.toml` checks all of them.

## Model

| member | source | states |
|---|---|---|
| `JsonText.QuoteRoundTrip` | apps/api/src/extension-auth/extension-crypto.ts:89-97 | a quoted string or key, followed by anything, reads back as that string, lone surrogates included |
| `JsonText.QuotedHasNoControl` | apps/api/src/extension-auth/extension-crypto.ts:89-97 | quoted text holds no code unit below 0x20, so no raw newline |
| `CanonicalJson.RoundTrip` | apps/api/src/extension-auth/extension-crypto.ts:88-99 | in front of any delimiter, reading the printed text of a value yields its canonical form and leaves the rest |
| `CanonicalJson.PrintThenParse` | apps/api/src/extension-auth/extension-crypto.ts:88-99 | for every value and collation the printer is undone by a parser, up to the canonical form |
| `ShortestText.QuoteIsShortest` | apps/api/src/extension-auth/extension-crypto.ts:89-97 | quoting writes the only shortest text that reads back as the string, among those without control characters and lone surrogates |
| `ShortestText.StringifyIsShortest` | apps/api/src/extension-auth/extension-crypto.ts:88-99 | every other such text that reads back as the canonical form of a value is longer than the printed one |
| `KeyOrder.SortIsStable` | apps/api/src/extension-auth/extension-crypto.ts:93-95 | the entry sort keeps an entry in front of every later one that does not sort strictly before it |
| `KeyOrder.SameTextIffSameCanon` | apps/api/src/extension-auth/extension-crypto.ts:88-99 | two values print the same text if and only if they have one canonical form |
| `KeyOrder.SameTextIffEquivalent` | apps/api/src/extension-auth/extension-crypto.ts:88-99 | equal texts come only from values equal up to key order and undefined entries; without tied keys the converse holds too |
| `KeyOrder.TieShows` | apps/api/src/extension-auth/extension-crypto.ts:95 | a value with two tied keys anywhere inside has an equivalent twin that prints differently |
| `KeyOrder.AccentsPrintTwoWays` | apps/api/src/extension-auth/extension-crypto.ts:95 | for any collation that ties U+00E9 with e and U+0301, one object with both keys prints in two ways |
| `KeyOrder.OrderIrrelevantIffNoTies` | apps/api/src/extension-auth/extension-crypto.ts:88-99 | the text is independent of key order if and only if no object in the value has two keys that localeCompare cannot tell apart, array indices aside, whose place in an object is fixed |
| `CredentialFields.CredentialsAreRefused` | apps/api/src/extension-auth/extension-crypto.ts:101-110 | a payload is refused if and only if some field at some depth is a credential name up to case, dashes and underscores; the reported path leads to one |
| `CredentialFields.WithoutDashesIs` | apps/api/src/extension-auth/extension-crypto.ts:104 | the dashes and underscores of a key are left out, all of them and nothing else, and the order is kept |
| `CredentialFields.CredentialNames` | apps/api/src/extension-auth/extension-crypto.ts:13-26 | what is left of a key is compared, in lower case, with twelve names |
| `SigningMessages.CanonicalTextIsOneLine` | apps/api/src/extension-auth/extension-crypto.ts:88-99 | canonical text never holds a raw newline |
| `SigningMessages.SamePayloadIffSameCanon` | apps/api/src/extension-auth/extension-crypto.ts:116-122 | payload texts inside a template, undefined included, agree if and only if the canonical forms do |
| `SigningMessages.MessagesAreLines` | apps/api/src/extension-auth/extension-crypto.ts:112-122 | a login message has three lines and a signed payload four: its own header, then each part in turn |
| `SigningMessages.BodyDetermines` | apps/api/src/extension-auth/extension-crypto.ts:121 | with newline-free timestamps, timestamp, nonce and payload are determined even if the nonces hold newlines |
| `SigningMessages.IngestionDetermines` | apps/api/src/extension-auth/extension-crypto.ts:116-122 | an ingestion message stands for one timestamp, nonce and batch |
| `SigningMessages.SourceConfigDetermines` | apps/api/src/reddit-sources/application/extension-source-config.service.ts:168-174 | a source-config message stands for one timestamp, nonce and context |
| `SigningMessages.LoginDetermines` | apps/api/src/extension-auth/extension-crypto.ts:112-114 | a login message stands for one challenge id and nonce |
| `SigningMessages.KindsNeverCoincide` | apps/api/src/reddit-sources/application/extension-source-config.service.ts:173 | no login, ingestion or source-config message equals one of another kind |
| `SigningMessages.AmbiguousIffNewline` | apps/api/src/extension-auth/extension-crypto.ts:121 | a message can be read as another timestamp, nonce or payload, up to the canonical form of the payload, if and only if its timestamp or nonce holds a newline |
| `SessionFamilies.FamiliesAreChains` | apps/api/src/production/production.service.ts:202-304 | in every reachable state a family is one chain of replacements whose tip alone is unreplaced and alone may be unrevoked |
| `SessionFamilies.DeadForever` | apps/api/src/production/production.service.ts:289-304 | a family with no live session never has one again |
| `SessionFamilies.TokenRotatesOnce` | apps/api/src/production/production.service.ts:238-262 | each refresh token is exchanged by at most one request |
| `SessionFamilies.TokenPresentedTwice` | apps/api/src/production/production.service.ts:221-268 | once two requests with one token have finished, the family is revoked, the successor included, forever |
| `SessionFamilies.RequestsKeepTheirToken` | apps/api/src/production/production.service.ts:238-268 | a request that reached the claim ends as a rotation or as detected reuse of its own token |
| `SessionFamilies.RacingClaimsKillTheFamily` | apps/api/src/production/production.service.ts:238-268 | when two refreshes of one token both reach the claim, the whole family ends revoked once both finish |
| `SessionHistory.FamiliesHaveOneUser` | apps/api/src/production/production.service.ts:245-258 | over every run the sessions of a family have one user, for whom a login opened it, and each the expiry its login or claim gave it |
| `SessionHistory.RotationKeepsTheUser` | apps/api/src/production/production.service.ts:238-262 | a rotated token is revoked and its successor belongs to the same user and family |
| `SessionHistory.RevokedIff` | apps/api/src/production/production.service.ts:221-304 | over every run a session is revoked if and only if its token was exchanged, its own user logged out of it, or a reuse was detected in its family |
| `SessionHistory.RefreshAlone` | apps/api/src/production/production.service.ts:202-268 | an undisturbed refresh rotates exactly a live unexpired token; a revoked token kills its family only; a missing or expired one changes nothing |
| `SessionHistory.ClaimAlone` | apps/api/src/production/production.service.ts:238-268 | whatever happened since its read, a claim rotates a token that is still unrevoked and otherwise kills the family |
| `SessionHistory.LoginThenRefresh` | apps/api/src/production/production.service.ts:156-262 | a login can be refreshed, for its user, exactly until it expires |
| `SessionFamilies.SessionService.IssueSession` | apps/api/src/production/production.service.ts:156-173 | inserting a login session is the Login step |
| `SessionFamilies.SessionService.ReadSession` | apps/api/src/production/production.service.ts:210-230 | the read and its three verdicts are the Read step |
| `SessionFamilies.SessionService.Rotate` | apps/api/src/production/production.service.ts:238-259 | the claiming transaction is the Claim step |
| `SessionFamilies.SessionService.RevokeFamily` | apps/api/src/production/production.service.ts:289-295 | revoking the family is the RevokeAll step |
| `SessionFamilies.SessionService.LogoutSession` | apps/api/src/production/production.service.ts:297-304 | logout is the Logout step |
| `Invitations.AcceptanceHasOneOwner` | apps/api/src/production/production.service.ts:349-395 | acceptedAt is set if and only if exactly one claimant in flight or one completed grant accounts for it |
| `Invitations.OneGrantPerInvitation` | apps/api/src/production/production.service.ts:349-395 | an invitation grants at most one membership, to an account with the invited email |
| `Invitations.SeatsComeFromGrants` | apps/api/src/production/production.service.ts:386-393 | every seat comes from a grant on an invitation to its workspace |
| `Invitations.MismatchUndoesItsClaim` | apps/api/src/production/production.service.ts:378-384 | whatever other requests do between the claim of a mismatching acceptor and its undo, the invitation grants nothing meanwhile, and the undo adds no member and restores the invitation, a withdrawal in between aside |
| `InvitationHistory.InvitationsFollowHistory` | apps/api/src/production/production.service.ts:360-377 | an invitation says what its first Invite said and is revoked exactly once withdrawn |
| `InvitationHistory.GrantsAreClaimedInTime` | apps/api/src/production/production.service.ts:349-395 | behind every grant is an invitation of the address of that user, claimed by that user before it expired and before any withdrawal, and decided later by the same request |
| `InvitationHistory.RolesComeFromTheLatestGrant` | apps/api/src/production/production.service.ts:386-393 | the role of a member is that of the latest invitation granted to the seat |
| `InvitationHistory.AcceptAlone` | apps/api/src/production/production.service.ts:349-395 | an undisturbed acceptance grants exactly to the invited address while the invitation is unused, not withdrawn and unexpired, and otherwise leaves invitations and members alone |
| `Invitations.InvitationDesk.ClaimInvitation` | apps/api/src/production/production.service.ts:360-377 | the conditional update is the Claim step |
| `Invitations.InvitationDesk.Settle` | apps/api/src/production/production.service.ts:378-394 | the undo or the upsert after the claim is the Decide step |
| `Handshake.TicketsMatchUsedChallenges` | apps/api/src/extension-auth/extension-auth.service.ts:180-258 | tickets are in bijection with used challenges of the same device in every interleaving |
| `Handshake.SpendsAreTimely` | apps/api/src/extension-auth/extension-auth.service.ts:180-302 | a ticket is spent at most 179998 ms after the creation of a challenge of its device |
| `Handshake.SpendsAreUnique` | apps/api/src/extension-auth/reddit-session-sync.service.ts:45-55 | a challenge leads to at most one spend across exchangeTicket and sync |
| `HandshakeHistory.DevicesFollowHistory` | apps/api/src/extension-auth/extension-auth.service.ts:430-457 | a device belongs to the workspace that paired it and is active exactly until an owner or admin of it revokes it |
| `HandshakeHistory.TicketsAreProven` | apps/api/src/extension-auth/extension-auth.service.ts:180-258 | behind every ticket the run created its challenge for the trusted device, met a valid signature with the device and nonce of the challenge while it was open and the device trusted, and issued the ticket in time |
| `HandshakeHistory.SpendsAreLookedUp` | apps/api/src/extension-auth/extension-auth.service.ts:260-302 | behind every spend is a lookup by the same request for the same consumer, in time and while the device was trusted |
| `HandshakeHistory.LoginAlone` | apps/api/src/extension-auth/extension-auth.service.ts:180-302 | an undisturbed login ends in one spend exactly when an active device signs its own challenge with its nonce within 120 s and spends the ticket within 60 s |
| `Handshake.ShutOutForever` | apps/api/src/extension-auth/extension-auth.service.ts:430-457 | after revocation, once no earlier request is in flight, the device gets no challenge, ticket or session |
| `Handshake.RevocationDrains` | apps/api/src/extension-auth/extension-auth.service.ts:430-457 | from a revocation on no request gets past its checks, and the device is given at most as many challenges, tickets and spends together as it had requests past theirs |
| `Handshake.RevocationIsFinalIff` | apps/api/src/extension-auth/extension-auth.service.ts:180-302 | from a moment on, a revoked device is given nothing more in any run if and only if none of its requests past their checks is creating a challenge, verifying an open challenge or spending an open ticket |
| `Handshake.RevokedTicketIsSpent` | apps/api/src/extension-auth/extension-auth.service.ts:260-302 | a ticket looked up before the revocation is spent after it, 179998 ms after its challenge: both bounds are real |
| `Handshake.HandshakeService.RevokeDevice` | apps/api/src/extension-auth/extension-auth.service.ts:430-457 | only owners and admins, only an active device of that workspace; otherwise forbidden or not found; the update is the Revoke step |
| `Handshake.HandshakeService.InsertChallenge` | apps/api/src/extension-auth/extension-auth.service.ts:182-189 | creating the challenge is the CreateChallenge step |
| `Handshake.HandshakeService.CheckChallenge` | apps/api/src/extension-auth/extension-auth.service.ts:199-227 | the checks on the challenge, in their order, are the ReadChallenge step |
| `Handshake.HandshakeService.VerifyChallenge` | apps/api/src/extension-auth/extension-auth.service.ts:230-255 | the verifying transaction is the ConsumeChallenge step |
| `Handshake.HandshakeService.FindTicket` | apps/api/src/extension-auth/extension-auth.service.ts:265-283 | the ticket lookup is the ReadTicket step |
| `Handshake.HandshakeService.ConsumeTicket` | apps/api/src/extension-auth/reddit-session-sync.service.ts:45-55 | the conditional spend is the SpendTicket step |
| `ReplayNonces.ReplayNeedsALateInsert` | apps/api/src/extension-auth/extension-auth.service.ts:306-347 | a replay is accepted only by a request that checked its timestamp in time and inserted after the window had closed |
| `ReplayNonces.OneMillisecondSuffices` | apps/api/src/extension-auth/extension-auth.service.ts:307-347 | a run with one millisecond between check and insert accepts one nonce twice |
| `ReplayNonces.NoReplayIffNeverLate` | apps/api/src/reddit-sources/application/extension-source-config.service.ts:45-80 | if accepted inserts come at most so many milliseconds after the window of their timestamp has closed, nothing is accepted twice in any run if and only if that number is not positive |
| `ReplayNonces.NoReplayIffInstant` | apps/api/src/reddit-sources/application/extension-source-config.service.ts:45-80 | no device, timestamp and nonce is ever accepted twice by ingest and resolve together if and only if window check and insert happen at one instant |
| `NonceHistory.AcceptancesArePresentedInTime` | apps/api/src/extension-auth/extension-auth.service.ts:306-347 | every accepted request was presented within five minutes of its timestamp, before its nonce was stored |
| `NonceHistory.RequestAlone` | apps/api/src/extension-auth/extension-auth.service.ts:306-347 | after a collection, an undisturbed request is accepted exactly when its timestamp is within five minutes and the device has not used the nonce for ten |
| `ReplayNonces.NonceStore.CheckTimestamp` | apps/api/src/extension-auth/extension-auth.service.ts:306-314 | the window check is inclusive on both sides and is the Check step |
| `ReplayNonces.NonceStore.RecordNonce` | apps/api/src/reddit-sources/application/extension-source-config.service.ts:70-80 | the insert guarded by the unique key is the Insert step |
| `ReplayNonces.NonceStore.CollectExpired` | apps/api/src/extension-auth/extension-auth.service.ts:398-400 | the garbage collection is the Collect step |
| `Pairing.CodeMakesOneDevice` | apps/api/src/extension-auth/extension-auth.service.ts:131-168 | a code is used if and only if exactly one user, membership and device came from it |
| `Pairing.MembersStayBounded` | apps/api/src/extension-auth/extension-auth.service.ts:119-168 | with at most k pairings past the capacity check at once, members never exceed limit + k - 1 |
| `Pairing.BoundIsAttained` | apps/api/src/extension-auth/extension-auth.service.ts:119-168 | for every k, k overlapping pairings take an almost full workspace to limit + k - 1 members |
| `Pairing.LimitHoldsIffSequential` | apps/api/src/extension-auth/extension-auth.service.ts:536-546 | the member limit holds in every run with at most k overlapping pairings if and only if k is at most 1 |
| `PairingHistory.PairingsAreCheckedInTime` | apps/api/src/extension-auth/extension-auth.service.ts:119-168 | behind every pairing are an offer of its code for its workspace, a lookup in time, a capacity check that found room and a commit in time, in this order |
| `PairingHistory.PairAlone` | apps/api/src/extension-auth/extension-auth.service.ts:119-168 | an undisturbed pairing makes its user, seat and device exactly when the code is unused and unexpired and the workspace has room, and otherwise leaves everything alone |
| `Pairing.PairingService.FindCode` | apps/api/src/extension-auth/extension-auth.service.ts:119-127 | the lookup is the Lookup step |
| `Pairing.PairingService.AssertCapacity` | apps/api/src/extension-auth/extension-auth.service.ts:536-546 | the capacity check is the CheckCapacity step |
| `Pairing.PairingService.ClaimCode` | apps/api/src/extension-auth/extension-auth.service.ts:131-167 | the pairing transaction is the Commit step |
| `PoolRouter.LlmPoolRouter.Record` | apps/api/src/llm/llm-pool-router.service.ts:132-203 | a row written RUNNING ends SUCCEEDED or FAILED, and a failure is listed once |
| `PoolRouter.LlmPoolRouter.TryAccount` | apps/api/src/llm/llm-pool-router.service.ts:131-206 | the retry loop walks the tries of one connection in the plan |
| `PoolRouter.LlmPoolRouter.TryConnection` | apps/api/src/llm/llm-pool-router.service.ts:101-211 | a granted lease is released exactly once, whatever happens in between |
| `PoolRouter.LlmPoolRouter.TryRoute` | apps/api/src/llm/llm-pool-router.service.ts:92-212 | the connection loop walks the plan of one route |
| `PoolRouter.LlmPoolRouter.Classify` | apps/api/src/llm/llm-pool-router.service.ts:56-217 | the three loops answer, record rows and credit health as the first success of the flat plan does, and lease exactly the connections with a slot up to it |
| `PoolRouter.PriorityBands` | apps/api/src/llm/llm-pool-router.service.ts:233-238 | the priority is critical from 80 points on, high from 60, medium from 40 |
| `PoolRouter.CreditStaysInRange` | apps/api/src/llm/llm-pool-router.service.ts:181 | a success raises the health of its connection by one, up to 100, and no other |
| `PoolRouter.GivenBack` | apps/api/src/llm/llm-pool-router.service.ts:101-211 | whatever the answer, every lease taken is given back before the next is taken |
| `RouterPlan.PlanIsOrderedAndComplete` | apps/api/src/llm/llm-pool-router.service.ts:56-212 | the plan holds exactly the reachable events, each once, by route, connection and retry |
| `RouterPlan.AnswerIsFirstSuccess` | apps/api/src/llm/llm-pool-router.service.ts:56-217 | the answer names the first success in that order; ALL_LLM_ROUTES_FAILED if and only if nothing planned succeeds |
| `RouterPlan.RuleRouteNeverFails` | apps/api/src/llm/llm-pool-router.service.ts:57-74 | with an enabled rule route classification always answers |
| `RouterPlan.RetryFollowsRetryableFailure` | apps/api/src/llm/llm-pool-router.service.ts:204 | a retry directly follows a retryable failure of the same connection |
| `RouterPlan.AttemptsAreBounded` | apps/api/src/llm/llm-pool-router.service.ts:131 | there are at most maxRetries + 1 attempts per leased connection of each route before the rule route |
| `RouterPlan.RowsAndFailuresMatch` | apps/api/src/llm/llm-pool-router.service.ts:132-208 | each attempt has its own row, with its connection, model, tier and place in the route, FAILED with its own code exactly when it failed, and then its own label in the list; no row stays RUNNING and there are no other failures |
| `RouterPlan.FallbackReasonIsPreviousFailure` | apps/api/src/llm/llm-pool-router.service.ts:146 | each row stores the failure immediately before it |
| `RouteSync.SyncCovers` | apps/api/src/llm/llm.service.ts:114-150 | every enabled model of every pooled connection is routed, old routes are untouched, a rule route exists |
| `RouteSync.NewTiersAreDistinctAndLater` | apps/api/src/llm/llm.service.ts:106-134 | new model routes get consecutive tiers above every earlier tier below 999, only for unserved models |
| `RouteSync.SyncIsIdempotent` | apps/api/src/llm/llm.service.ts:114-150 | a second run adds nothing |
| `RouteSync.NeedsAreTheModels` | apps/api/src/llm/llm.service.ts:102-122 | what is to be routed is each model of each connection under its provider |
| `RouteSync.AddedRoutesAreEnabled` | apps/api/src/llm/llm.service.ts:124-150 | every added route is enabled and may retry once, except the rule route, which comes last, at tier 999, and only if there was none |
| `RouteSync.SyncKeepsRuleLast` | apps/api/src/llm/llm.service.ts:136-150 | rule routes stay at tier 999 or later unless a connection claims to be the rule engine |
| `RouteSync.ModelRoutesComeFirst` | apps/api/src/llm/llm-pool-router.service.ts:50-74 | an enabled model route below tier 999 is reached before any rule route |
| `RouteSync.RoutesPastTheRuleAreDead` | apps/api/src/llm/llm-pool-router.service.ts:50-74 | a route with a tier past an enabled rule route is never tried |
| `RouteSync.ReachedIff` | apps/api/src/llm/llm-pool-router.service.ts:50-74 | without ties a model route is reached if and only if every enabled rule route has a larger tier |
| `RouteSync.RouteIsTriedIff` | apps/api/src/llm/llm-pool-router.service.ts:56-212 | without ties something may be tried on a model route if and only if it offers a connection and every enabled rule route has a larger tier |
| `RouteSync.TieGoesEitherWay` | apps/api/src/llm/llm-pool-router.service.ts:50 | a model route tied with the rule route may come before or after it |
| `RouteSync.SyncPassesTheRule` | apps/api/src/llm/llm.service.ts:106-134 | from a top tier of 998 two new models get tiers 999 and 1000, and the second is never tried |
| `RouteSync.FirstSyncNumbersModels` | apps/api/src/llm/llm.service.ts:106-150 | the models of a first connection get tiers 1, 2, ...; those past 999 are never tried, those below 999 are reached |
| `RouteSync.ClassifyAlwaysAnswers` | apps/api/src/llm/llm-pool-router.service.ts:214-217 | with the rule route enabled, classification after a synchronisation never ends in ALL_LLM_ROUTES_FAILED |
| `RouteSync.LlmService.FindRoute` | apps/api/src/llm/llm.service.ts:116-122 | the lookup finds a route of the provider and model if there is one |
| `RouteSync.LlmService.SyncRoutes` | apps/api/src/llm/llm.service.ts:102-150 | the loops leave exactly the synchronised routes |
| `SlotSemaphore.CounterNeverOvershoots` | apps/api/src/llm/slot-manager.service.ts:9-18 | with no timing assumption the counter lies between 0 and min(limit, holders) |
| `SlotSemaphore.CounterIsHolders` | apps/api/src/llm/slot-manager.service.ts:9-18 | every script reads the number of leases out if and only if each finds the latest acquire at most 120000 ms old or nobody out, and then the limit holds |
| `SlotSemaphore.GrantedIffRoom` | apps/api/src/llm/slot-manager.service.ts:9-14 | while the key lives an acquire is granted exactly when fewer than limit leases are out |
| `SlotSemaphore.ReleaseMakesRoom` | apps/api/src/llm/slot-manager.service.ts:9-18 | a released lease is gone and its room can be taken |
| `SlotSemaphore.HeldTooLongBreaksTheLimit` | apps/api/src/llm/slot-manager.service.ts:12 | leases held for 120001 ms allow limit + 1 of them |
| `SlotSemaphore.LimitHoldsIffPrompt` | apps/api/src/llm/slot-manager.service.ts:9-18 | bounding the time leases are held keeps them within the limit in every run if and only if the bound is at most 120000 ms |
| `SlotSemaphore.SlotManager.TryAcquire` | apps/api/src/llm/slot-manager.service.ts:9-14 | the acquire script is the Acquire step |
| `SlotSemaphore.SlotManager.ReleaseSlot` | apps/api/src/llm/slot-manager.service.ts:16-18 | the release script is the Release step |
| `EmailOutbox.DelayDoublesUpToAnHour` | apps/api/src/production/email-outbox.service.ts:23-25 | the back-off is 15 s, doubles per attempt, and is one hour if and only if the attempt is at least the ninth |
| `EmailOutbox.AttemptsAreClaims` | apps/api/src/production/email-outbox.service.ts:66-86 | attempts equal claims and never exceed maxAttempts |
| `EmailOutbox.CallsNeverExceedAttempts` | apps/api/src/production/email-outbox.service.ts:90-110 | transport calls never exceed attempts |
| `EmailOutbox.UnexpiredLockIsRespected` | apps/api/src/production/email-outbox.service.ts:72 | until it is five minutes old a lock is lifted only by its own worker |
| `EmailOutbox.LostLockChangesNothing` | apps/api/src/production/email-outbox.service.ts:93-107 | a worker that lost the lock on an item never gets it back for that item, and its update after the transport call changes no row, whatever happens in between |
| `OutboxHistory.ClaimsAreFair` | apps/api/src/production/email-outbox.service.ts:66-86 | a claim takes only due emails, at most its size; one that is due and left behind is no older than any taken, and the claim is full |
| `OutboxHistory.FairClaimsAreTaken` | apps/api/src/production/email-outbox.service.ts:66-86 | any choice of due emails that is fair in this sense can be claimed, and the claim changes only their rows |
| `OutboxHistory.NextAttemptWaits` | apps/api/src/production/email-outbox.service.ts:99-107 | after a failed attempt recorded under its own lock, the next attempt of the email starts no sooner than the delay of the failed one later |
| `OutboxHistory.EveryAttemptWaitsIffClocksAgree` | apps/api/src/production/email-outbox.service.ts:65-112 | every later attempt waits out the delay of a failed one, in all runs whose times run backwards by at most d ms, if and only if d is at most thirty seconds |
| `OutboxHistory.BatchAlone` | apps/api/src/production/email-outbox.service.ts:65-112 | an undisturbed batch hands each claimed email to the transport once and in order, marks the accepted ones sent, puts the others off by the delay of the attempt, and leaves every other row |
| `EmailOutbox.LockBelongsToCurrentAttempt` | apps/api/src/production/email-outbox.service.ts:93-107 | the lock a worker still has belongs to the attempt it is working on |
| `EmailOutbox.SentIsFrozen` | apps/api/src/production/email-outbox.service.ts:66-98 | a sent row is unlocked and never changes again |
| `EmailOutbox.SentMeansDelivered` | apps/api/src/production/email-outbox.service.ts:92-98 | a row is marked sent only after the transport accepted one of its attempts |
| `EmailOutbox.BatchAddsUp` | apps/api/src/production/email-outbox.service.ts:88-111 | each completed batch has claimed = sent + failed, under every interleaving |
| `EmailOutbox.AcceptedAtMostOnce` | apps/api/src/production/email-outbox.service.ts:65-112 | an email is accepted at most once in every run in which no claim takes over a lock on that email, whatever happens to others |
| `EmailOutbox.ExpiredLockCanDeliverTwice` | apps/api/src/production/email-outbox.service.ts:65-112 | for every email, a lock on it one millisecond too old lets two workers deliver it |
| `EmailOutbox.NeverTwiceIffLocksOutliveDelivery` | apps/api/src/production/email-outbox.service.ts:65-112 | for every email: if claims meet no lock on it older than a bound, it is accepted twice in no run if and only if the bound is at most five minutes |
| `EmailOutbox.EmailOutboxService.ClaimBatch` | apps/api/src/production/email-outbox.service.ts:66-86 | the claiming statement is the Claim step |
| `EmailOutbox.EmailOutboxService.DeliverHead` | apps/api/src/production/email-outbox.service.ts:92 | the transport call is the Deliver step |
| `EmailOutbox.EmailOutboxService.MarkHead` | apps/api/src/production/email-outbox.service.ts:93-108 | the guarded update after it is the Mark step |
| `EmailOutbox.EmailOutboxService.ProcessBatch` | apps/api/src/production/email-outbox.service.ts:65-112 | undisturbed, the loop delivers and marks row by row, and its counts are those of the replies |
| `FirstSeen.FirstsKeys` | apps/api/src/reddit-public/reddit-public-collector.service.ts:305-306 | keeping first occurrences keeps every key exactly once |
| `FirstSeen.FirstsArePositions` | apps/api/src/reddit-public/reddit-public-collector.service.ts:305-306 | an element survives if and only if it is the first with its key, and the order is kept |
| `RedditCards.LongestRunDecides` | apps/api/src/reddit-public/reddit-public-collector.service.ts:403 | the id pattern matches at a position only with the longest run of letters and digits |
| `RedditCards.CommentsIdIsLeftmost` | apps/api/src/reddit-public/reddit-public-collector.service.ts:403 | an id is found if and only if the pattern matches somewhere, and it is the leftmost capture |
| `Crawl.HeldIsShown` | apps/api/src/reddit-public/reddit-public-collector.service.ts:296-311 | the crawl holds only posts of cards that it was shown and that are promoted, pinned or adult only if the source asks for that; below the target it misses none that has an id |
| `RedditCards.NormalizedId` | apps/api/src/reddit-public/reddit-public-collector.service.ts:397-422 | a card is dropped if and only if neither its id nor its link names a post; otherwise its id is the prefixed one and the other fields are the card's or their defaults |
| `Crawl.LimitsAreInRange` | apps/api/src/reddit-public/reddit-public-collector.service.ts:280-282 | each configured number is used as it is inside its range and moved to the nearer end outside, 1 below it |
| `Crawl.HeldIsExact` | apps/api/src/reddit-public/reddit-public-collector.service.ts:300-308 | after n rounds the posts are distinct, come from wanted cards of those rounds, miss nothing below the target, and only grow |
| `Crawl.HeldIsFirstSeen` | apps/api/src/reddit-public/reddit-public-collector.service.ts:300-308 | the posts are the earliest accepted card of each id, in reading order, cut at the target |
| `Crawl.RoundsAreBounded` | apps/api/src/reddit-public/reddit-public-collector.service.ts:292-296 | the number of rounds is determined and at most maxScrolls + 1 |
| `Crawl.FallbackIff` | apps/api/src/reddit-public/reddit-public-collector.service.ts:311-317 | the old listing is tried at most once, exactly when two rounds gave nothing, a subreddit is set, one empty round is not the stall limit and the first page was no dead end |
| `Crawl.StreakIsMaximal` | apps/api/src/reddit-public/reddit-public-collector.service.ts:319-320 | the stall counter is the length of the last unbroken streak of rounds that added nothing |
| `Crawl.AfterRound` | apps/api/src/reddit-public/reddit-public-collector.service.ts:310-333 | a round either falls back, ends the crawl for a stated reason, or leads to the next with the right counters |
| `Crawl.ReadCards` | apps/api/src/reddit-public/reddit-public-collector.service.ts:297-308 | one round reads its cards up to the target |
| `Crawl.Decide` | apps/api/src/reddit-public/reddit-public-collector.service.ts:310-333 | after the cards of a round: fall back once, end for a stated reason, or go on, each time as the stopping rules say |
| `Crawl.Scroll` | apps/api/src/reddit-public/reddit-public-collector.service.ts:284-354 | the loop reads exactly the rounds up to the first stopping one and holds their first target distinct posts |
| `Crawl.CollectSource` | apps/api/src/reddit-public/reddit-public-collector.service.ts:276-367 | the outcome is the status of a navigation answered with 400 or more, or posts, enriched if asked, that the rounds showed on admissible cards, all of them below the target |
| `DetailPool.EveryInterleavingIsTheMap` | apps/api/src/reddit-public/reddit-detail-enricher.ts:20-40 | in every interleaving, once all workers have finished the results are the sequential map |
| `DetailPool.AtMostFourInFlight` | apps/api/src/reddit-public/reddit-detail-enricher.ts:17-39 | at most max(1, min(maxParallel, 4)) fetches are in flight, each for another index |
| `DetailPool.ConcurrencyIs` | apps/api/src/reddit-public/reddit-detail-enricher.ts:17 | one to four workers start as configured, otherwise the nearer of one and four |
| `DetailPool.EachIndexClaimedOnce` | apps/api/src/reddit-public/reddit-detail-enricher.ts:21-24 | indices are claimed in order, none twice, all by the end, after one step per post and worker |
| `DetailPool.EnrichKeepsIdentity` | apps/api/src/reddit-public/reddit-detail-enricher.ts:26-36 | enrichment keeps order and identity, never empties a body, and leaves at most twenty distinct media, the own ones first |
| `DetailPool.WorkerPool.Resume` | apps/api/src/reddit-public/reddit-detail-enricher.ts:20-37 | one stretch of a worker between awaits is one step of the machine |
| `DetailPool.EnrichRedditPostDetails` | apps/api/src/reddit-public/reddit-detail-enricher.ts:10-41 | running the workers in any order until all finish returns the sequential map |
| `RateLimit.KeyOutlivesItsWindow` | apps/api/src/production/rate-limit.service.ts:22-25 | however requests are delayed, a key never expires inside its own window |
| `RateLimit.KeysExpire` | apps/api/src/production/rate-limit.service.ts:24-25 | no key is left without an expiry: a request is about to set it, or it lies at most windowSeconds seconds ahead |
| `RateLimit.WindowsAreAligned` | apps/api/src/production/rate-limit.service.ts:22 | window n lasts windowSeconds seconds from n times as many after the epoch |
| `RateLimit.AllowedPerWindow` | apps/api/src/production/rate-limit.service.ts:18-33 | more than limit requests of a window are allowed if and only if more are made and an increment finds the key expired; without that exactly the first limit are |
| `RateLimit.InTimeNeverExpired` | apps/api/src/production/rate-limit.service.ts:22-25 | an increment made up to the end of its window, however long after its clock reading, never finds the key expired |
| `RateLimit.AllowedPerInterval` | apps/api/src/production/rate-limit.service.ts:18-33 | unless an increment of a window it meets finds the key expired, a half-open interval as long as n windows sees at most (n + 1) * limit allowed requests of a subject |
| `RateLimit.IntervalBoundIsAttained` | apps/api/src/production/rate-limit.service.ts:22 | for every n a run in which no key is found expired attains (n + 1) * limit |
| `RateLimit.LimitHoldsIffDelayAtMostOne` | apps/api/src/production/rate-limit.service.ts:22-25 | among uniform bounds on the delay between clock and increment, one millisecond is the largest that keeps the limit in every run, unless the limit is 0 |
| `RateLimit.RateLimitService.Begin` | apps/api/src/production/rate-limit.service.ts:22-23 | the clock reading and the key are the ReadClock step |
| `RateLimit.RateLimitService.Incr` | apps/api/src/production/rate-limit.service.ts:24 | INCR is the Increment step |
| `RateLimit.RateLimitService.Finish` | apps/api/src/production/rate-limit.service.ts:25-32 | EXPIRE is the SetExpiry step, and the answer follows from the count and the TTL |
| `DiscoveryLedger.BatchLeaves` | apps/api/src/extension-auth/extension-auth.service.ts:354-391 | a batch leaves its posts written in order, a row per key and one enqueue per new key, as many as rows were added |
| `DiscoveryLedger.BatchKeepsConsistent` | apps/api/src/extension-auth/extension-auth.service.ts:354-391 | batch after batch, rows and enqueues are in bijection, and a post has a job in a workspace if and only if some source found it there |
| `DiscoveryLedger.BodyIsLostIff` | apps/api/src/reddit-public/reddit-public-collector.service.ts:428-450 | a stored body is lost if and only if the writer is the collector and its last record of the post has none |
| `DiscoveryLedger.WrittenIsLatest` | apps/api/src/reddit-public/reddit-public-collector.service.ts:428-450 | a batch leaves each mentioned post with the columns of its last record and the body of its last record, or for ingestion of its last record with one, and leaves the others |
| `DiscoveryLedger.RequestAlone` | apps/api/src/extension-auth/extension-auth.service.ts:376-390 | an undisturbed request leaves its row there and enqueues it exactly if it was new |
| `DiscoveryLedger.EveryRowIsEnqueued` | apps/api/src/reddit-public/reddit-public-collector.service.ts:461-477 | in every interleaving each row is enqueued or about to be; with no request open, exactly the rows are |
| `DiscoveryLedger.EnqueuedTwiceIffRaced` | apps/api/src/extension-auth/extension-auth.service.ts:376-390 | with no request on it open, a row was enqueued more than once if and only if a lookup found no row while another that found none had not stored it |
| `DiscoveryLedger.RaceEnqueuesTwice` | apps/api/src/extension-auth/extension-auth.service.ts:376-390 | two requests that look before either stores enqueue one row twice |
| `DiscoveryLedger.EnqueuedOnceIffSequential` | apps/api/src/extension-auth/extension-auth.service.ts:376-390 | a row is enqueued at most once in every run with at most n requests on it at a time if and only if n is at most 1, whatever happens on other rows |
| `DiscoveryLedger.Ledger.Persist` | apps/api/src/reddit-public/reddit-public-collector.service.ts:424-478 | recording one post, with its answer whether the discovery is new |
| `DiscoveryLedger.Ledger.RecordPosts` | apps/api/src/extension-auth/extension-auth.service.ts:354-391 | the loop records the posts one by one up to the first that fails validation, and discovered counts its enqueues |
| `DiscoveryLedger.Ledger.IngestPosts` | apps/api/src/extension-auth/extension-auth.service.ts:354-407 | discovered + refreshed counts the posts taken, discovered is the growth of the rows, and a post that fails validation ends the request and leaves the earlier ones |

## Left out

- Database and Redis failures, crashes of the server between two statements, and isolation anomalies below a transaction: every action happens as a whole or not at all. A server that stops between a discovery row and its enqueue leaves the row without one.
- Cryptography and random generation: signatures are a verdict, hashes are injective, ids and tokens are fresh.
- Controllers, modules, commands and adapters, the web application and the extension's user interface: they only delegate. The extension's own printer is the same function as the server's.
- The browser: navigation, the in-page card parser, visibility of the next link and the wait between rounds are given by the round; a throwing card extraction ends the crawl and is not modelled.
- Credential names are compared after `toLowerCase` and canonical keys by `localeCompare`: both are parameters, and only their being a function and a total preorder is used.
- JSON numbers stand for their decimal text; functions, symbols, bigint, NaN and infinities, `toJSON` and cyclic values are not values of the printer.
- Columns no proof depends on: `lastUsedAt`, `lastSeenAt`, `cooldownUntil`, token counts, latencies, user agents, error messages.
- `Invitations`: the account's email is stored in lower case already, and withdrawing stands for whatever sets `revokedAt`, which the code only reads.
- `Pairing`: bootstrap pairing, invitations and registration also add members but do not use the capacity check; a `MAX_PRIVATE_USERS` that is not a number switches the check off in the code and is not modelled.
- `Handshake`: what `exchangeTicket` and `sync` do after the spend (issuing a session, storing cookies) and the cookie filter.
- `ReplayNonces`: nonce length limits, device checks and the lookup before the insert appear only as a rejection.
- `PoolRouter`: the query that selects and orders connections; a route meets whatever list of accounts it returns. Whether a slot is granted, with the connection's limit behind it, is given with the account. A failing write after a successful reply would count as a failed attempt in the code.
- `RouteSync`: creating a missing policy, and the time-outs of routes.
- `EmailOutbox`: a claim skips rows another claim has locked at that very moment; claims being atomic here, there are none. Composing and sending the mail are an oracle: the transport accepts or fails, and outside production a missing configuration counts as accepted in the code.
- `RateLimit`: the policy table and the floating-point quotient, taken as exact division.
- `DiscoveryLedger`: validating a post is an oracle; job ids are remembered forever, while the queue forgets old finished jobs; `mediaUrls`, `topComments` and timestamps of a post.
- `DetailPool`: clipping of comments inside the page; a detail is whatever the page yields.
- OAuth, provider credentials, registration, source normalisation, lead status and scoring: mostly single-branch facts.
