# AnonRouter: a verified model of its hard core

This project models the parts of AnonRouter in which a mistake would cost money, lose a
response or accept a forged document, and proves what they promise.

- **The inference billing ledger.** Every exported operation of `src/metering/billing.ts` that
  moves money or a reservation is one atomic transaction over maps of rows: wallets, balance
  events, reservations, usage events, v1 trial entitlements, pool days and pool user-days.
  `LedgerTransactions` says what each transaction does to the tables; the class
  `LedgerService.BillingLedger` does it statement by statement and is proved equal to that. A *run* is any list of transactions, in any order, with
  any arguments. Money is a whole number of micro-USD. `LedgerAnswers` says, of one call and in
  terms of the request and the rows alone, when it succeeds, which refusal it gives otherwise, and
  what it writes. The main results are conservation of wallet money, the pool, day and trial
  budgets, a key's limit, exactly-once finalization, and no free provider work.
- **The worker stream.** A writer that adds metadata events to a provider's frames, and an
  incremental reader with a buffer. Chunking is invisible, reading inverts writing, and a cut is
  never silent.
- **Gateway attestation.** Event-log replay, the canonical binding text and the check list of the
  verifier. `GatewayPolicy` says of each named check what it asks of the document and when the
  policy insists on it; `ok` is given exactly to documents in which every check insisted on finds
  what it asks, and all documents accepted for one TDX quote tell the same story.
- **Debian version comparison**, as a loop proved equal to the lexicographic order of sort keys,
  and the search for the newest candidate.
- **Five small machines**: the circuit breaker, the one-time-use capability log, the content
  receipt store, the concurrency gate and the receipt-id encoder.

## How it is laid out

Classes and methods with loops follow the source where it works by changing state; each such
method's contract equates its result with a function of the old state, and the promises are
lemmas about that function: over whole runs, and for single calls in terms that do not mention
the function's own helpers (the lemmas named `...Answers` and `...Means` say so branch by branch
and field by field; not all of them have a row below). `Wrappers`, `Sums`, `Decimal`, `Text` and
`Json` are shared helpers.

## What turned out false

- **A negative output count breaks the ledger's replay.** The settle schema
  (`src/routes/internal/rpcSchemas.ts:113-121`) accepts any number for `outputTokens`. A count
  below zero can price a settlement below zero; the wallet row is then credited with money that
  no balance event records. `LedgerReplay.NegativeOutputPartsRowFromEvents` gives such a run.
  `LedgerReplay.ReplayHoldsUnlessPaidOut` says, for every run, by how much a wallet row exceeds
  the replay of its events, and that the two are equal if and only if no committed wallet
  settlement of the account was priced below zero. Everything else about the ledger (no wallet
  overdrawn, conservation, the pool, trial and key limits, the clamps) holds in every run.
- **The legacy reconciliation heeds no fence.** `reconcileReservedBalance` can release a
  delivered hold at any cost its caller names, zero included
  (`LedgerHistory.ReconcileReleasesDeliveredHold`); nothing in the source but tests calls it.
  `LedgerHistory.NoFreeProviderWork` gives the exact list of steps that end a fenced hold
  uncharged.
- **The rounding-up conversion can round down.** It subtracts 10^-9 micro before taking the
  ceiling, so it gives less than the dollars exactly when what exceeds a whole micro is positive
  and at most that (`Money.CeilRoundsUpOutsideEpsilon`).
- **The stream reader's CRLF handling can depend on chunking.** It replaces `\r\n` in its buffer
  on every chunk, so `\r\r\n` may be replaced once or twice
  (`StreamChunks.StrayExample`). `StreamChunks.ChunkFreeUnlessStray` shows the exact
  condition: every chunking of a text leaves the same events and buffer if and only if no
  carriage return stands before a CRLF in it. The round-trip results are about such text; text
  without carriage returns is a special case.
- **A colon in an event name makes V1 event digests ambiguous.** Another V1 event with a shorter
  name hashes the same bytes as a given one if and only if the given name has a colon
  (`GatewayEventLog.ShorterNameUnlessNoColon`). An event without a colon can still share its
  bytes with one of a longer name that has a colon, so the hashed bytes determine the event only
  between events neither of whose names has one (`GatewayEventLog.PreimageDetermines`). The
  uniqueness result is about logs whose RTMR3 names have no colon.

## Assumptions

- Each exported ledger operation is atomic (one database transaction with row locks).
- `billing.trial_pool_admit` and `billing.trial_pool_release_unused` are SQL functions whose
  bodies are not part of this model. They have the contracts their callers rely on: admission
  commits an account's frozen allowance to a day once (`src/metering/billing.ts:348-364`), and
  release gives back only what is neither reserved nor spent (`src/metering/billing.ts:1215-1229`).
- A settle call carries measured usage (`src/inference/rpc.ts:231-233`); without it a settlement
  charges nothing, which `LedgerHistory.EndsUncharged` lists.
- The results on key limits suppose that a separate metering call, when it writes an event,
  meters a finalized request under its key and within its charge
  (`LedgerKeyLimit.MetersWithinCharge`); what a key's requests were charged is bounded when such
  an event records exactly the charge, as succeeded (`LedgerKeyLimit.MetersExactly`).
  `recordUsageEvent` (`src/metering/usage.ts:8-67`), which
  would take any cost, has no caller in the source; finalization meters in its own transaction.
- Clocks, random bytes, what the provider and grant tables answer, the database's batch of stale
  rows, and failures of file writes are parameters.
- JSON, UTF-8, URLs and digests are parameters of the modules that use them. `Json.Lawful` and
  `GatewayHost.HostOk` list what is used: a value without fractions parses back from its printed
  text, which is one trimmed line; digests have their lengths; UTF-8 is one-to-one, encodes text
  piece by piece, keeps ASCII and uses the colon's byte only for colons; an origin has no
  trailing slash. That nothing collides is assumed only of
  the finitely many inputs hashed while the documents in question are verified
  (`GatewayVerify.NothingCollides`).

## Model

| member | source | states |
|---|---|---|
| Pricing.PromptBuckets | src/metering/billing.ts:92-110 | the three buckets are never negative, add up to the input tokens, and hold no more cache reads and writes than were reported, for malformed counts too |
| Pricing.MaximumPromptPrice | src/metering/billing.ts:77-85 | the rate is one of the three prompt rates and at least each of them |
| Pricing.BucketsPriceEachToken | src/metering/billing.ts:92-110 | pricing the buckets is pricing every prompt token once: writes first, then reads, then the rest |
| Pricing.CostIsNearest | src/metering/billing.ts:87-116 | the cost is within half a micro of the per-token price of the prompt plus the price of the output, a negative output count included |
| Pricing.CostMonotone | src/metering/billing.ts:92-116 | more input or more output never costs less, whatever the cache counts |
| Pricing.CostWithinAuthorization | src/metering/billing.ts:77-116 | usage within the authorized token ceilings costs at most input at the maximum prompt price plus output at the output price, rounded the same way |
| Pricing.CostNonNegative | src/metering/billing.ts:92-116 | nonnegative prices and a nonnegative output count never price below zero |
| Money.SettledAmountsConvertExactly | src/metering/billing.ts:87-90 | an amount rounded to six decimals is a whole number of micros, and the rounding-up conversion takes exactly that many |
| Money.MoneyUsdIsNearest | src/metering/billing.ts:87-90 | the amount kept of a dollar value is the nearest whole micro, a negative value counting as none |
| Money.CeilRoundsUpOutsideEpsilon | src/metering/money.ts:89-97 | dollars to micros is over by less than one micro, and below the dollars if and only if the excess over a whole micro is positive and within the epsilon |
| Money.MicrosRoundTrip | src/metering/money.ts:89-121 | micros to dollars and back changes nothing |
| Money.ReadPrintRoundTrip | src/metering/money.ts:66-74 | every amount in range survives its text column |
| Money.ReadMicrosMeans | src/metering/money.ts:66-74 | a text column is read if and only if it is decimal digits, perhaps after one minus, of at most 10^12 micros |
| Decimal.FirstDigitWeighsMost | scripts/provenance/pin-debian-packages.ts:100-107 | read from the front, each decimal digit counts as many times as its place is worth |
| LedgerService.BillingLedger.CreditBalance | src/metering/billing.ts:147-180 | the tables after a credit: the row and its event move together, an amount of zero or less only ensures the row |
| LedgerService.BillingLedger.ReserveBalance | src/metering/billing.ts:246-636 | the tables and the answer of every branch of a reservation: retries and reuse of an id, the three fundings, the grant and key limit, and every refusal leaving no trace but the ensured row |
| LedgerService.CheckKey | src/metering/billing.ts:490-568 | the grant and key-limit refusal computed from the two sums over usage events and reservations |
| LedgerService.BillingLedger.FinalizeInferenceReservation | src/metering/billing.ts:1046-1355 | the tables and the settlement of every outcome: capture rule, charge, the three fundings, status, metering, and the refusals that roll back |
| LedgerService.BillingLedger.ReconcileReservedBalance | src/metering/billing.ts:638-772 | the wallet-only settlement: its refusals, its charge, its idempotence |
| LedgerService.BillingLedger.ReleaseStaleBalanceReservations | src/metering/billing.ts:1359-1441 | the sweep loop's three counters and tables, with any transactions of others before each row, and when it raises |
| LedgerAnswers.RetryAnswers | src/metering/billing.ts:268-289 | a reservation under a known id: the original hold for the same account and key while open, a refusal otherwise, and no table moves |
| LedgerAnswers.FreshReservationAnswers | src/metering/billing.ts:246-636 | a fresh reservation succeeds if and only if its funding allows the amount and its key and grant do; otherwise the funding's refusal comes before the key's |
| LedgerAnswers.KeyAnswers | src/metering/billing.ts:490-568 | which requests the key check passes: with an active grant its cap, absent or present, is the limit whatever the key's own limit says; without a grant the key's own limit is; and what each refusal means |
| LedgerAnswers.FundingAnswers | src/metering/billing.ts:290-489 | when each of the three fundings admits an amount, and what each of its refusals means |
| LedgerAnswers.AdmissionAnswers | src/metering/billing.ts:348-364 | the pool admits an account once a day, for its whole allowance, if the day's budget has room |
| LedgerAnswers.FreshReservationHolds | src/metering/billing.ts:290-489 | what a reservation takes from the wallet, trial or pool that funds it, and that it moves nothing else |
| LedgerAnswers.AttemptAnswers | src/metering/billing.ts:821-908 | when the dispatch fence is set, that the first instant stays, and what each refusal means |
| LedgerAnswers.DeliveryAnswers | src/metering/billing.ts:910-930 | when the delivery fence is set, that it sets the dispatch fence too, and that the first instants stay |
| LedgerAnswers.FinalizeAnswers | src/metering/billing.ts:1093-1132 | the charge of a settle, abort or capture, its status, the reported cost and overage, and the metering event, from the row and the request alone |
| LedgerAnswers.WalletFinalizeMoves | src/metering/billing.ts:1265-1320 | closing a wallet-funded row gives back what was held and not charged, and records the release and the charge |
| LedgerAnswers.TrialFinalizeMoves | src/metering/billing.ts:1230-1264 | closing a trial-funded row moves the hold to spending and counts the tokens and the reply |
| LedgerAnswers.PoolFinalizeMoves | src/metering/billing.ts:1145-1229 | closing a pool-funded row does so on the day it was reserved, and gives back the unused allowance after the last reply |
| LedgerAnswers.ReconcileAnswers | src/metering/billing.ts:638-772 | when the legacy settlement is refused, and with which error; otherwise its charge, clamped to the hold |
| LedgerAnswers.DispatchedWorkIsCharged | src/metering/billing.ts:821-908 | work whose dispatch was allowed is paid for whatever runs until its reservation closes, up to the listed uncharged endings |
| LedgerRuns.WalletsBalance | src/metering/billing.ts:147-180 | in every reachable state of every run a wallet holds exactly its open reservations, is never overdrawn, and available + reserved + charged = credited |
| LedgerRuns.PoolStaysWithinBudget | src/metering/billing.ts:348-484 | in every reachable state of every run each day's counters are sums over its user-days, each user-day's are sums over its reservations, and reserved + spent <= committed <= budget |
| LedgerRuns.TrialStaysWithinCeiling | src/metering/billing.ts:290-347 | in every reachable state of every run the trial's counters are sums over its reservations and reserved + spent <= ceiling |
| LedgerRuns.ClampsNeverBind | src/metering/billing.ts:1145-1264 | in every run the `GREATEST(0, ...)` clamps never bind, on whatever day a settlement falls |
| LedgerReplay.ReplayHoldsUnlessPaidOut | src/metering/billing.ts:1265-1320 | after any run a wallet row is the replay of its append-only events plus exactly what settlements priced below zero paid to it, and equals the replay if and only if there was none |
| LedgerReplay.ChargesAreNonNegativeUnlessPaidOut | src/metering/billing.ts:1128-1132 | every recorded charge is nonnegative if and only if no settlement along the run was priced below zero |
| LedgerReplay.SpendingIsNonNegative | src/metering/billing.ts:1145-1264 | without such a settlement trial and pool spending is never negative |
| LedgerReplay.NonNegativeUsageNeverPaysOut | src/metering/billing.ts:92-116 | nonnegative prices and a nonnegative output count never price a settlement below zero |
| LedgerReplay.NegativeOutputPartsRowFromEvents | src/routes/internal/rpcSchemas.ts:113-121 | a reservation and a settlement with three negative output tokens leave three micro-USD no event accounts for |
| LedgerPreservation.FinalizeKeeps | src/metering/billing.ts:1046-1355 | a settlement, abort or capture at any price keeps the whole ledger invariant |
| LedgerPreservation.ReserveKeeps | src/metering/billing.ts:246-636 | a reservation of any funding keeps the whole ledger invariant |
| LedgerKeyLimit.AuthorizedCountsEachRequestOnce | src/metering/billing.ts:521-568 | the two sums of the key check, over usage events and over reservations, count every request exactly once |
| LedgerKeyLimit.MeteringMovesTheCharge | src/metering/billing.ts:1309-1345 | metering a settled charge moves it from one sum to the other and changes neither total |
| LedgerKeyLimit.OnlyReservingCountsMore | src/metering/billing.ts:1128-1132 | no step but a reservation makes a key count for more, whatever a settlement's price |
| LedgerKeyLimit.ReserveCountsItsAmount | src/metering/billing.ts:519-568 | a fresh reservation adds exactly its amount to its key, and only if that fits the limit the request comes with: the cap of an active grant, or without a grant the key's own limit |
| LedgerKeyLimit.KeyNeverExceedsItsLimit | src/metering/billing.ts:521-568 | in every run with a fixed limit, refused attempts under an inactive grant included, metered cost plus open holds plus settled, unmetered charges never exceed the limit |
| LedgerKeyLimit.FinalizeMetersTheCharge | src/metering/billing.ts:1309-1345 | a finalization that meters records exactly what it charged, under the row's key, as succeeded if that is positive |
| LedgerKeyLimit.KeyTakesNoMoreThanItsLimit | src/metering/billing.ts:519-568 | in every run with a fixed limit the holds and charges of a key's wallet-funded requests sum to at most the limit |
| LedgerHistory.RowEvolves | src/metering/billing.ts:191-229 | all a transaction can do to an existing reservation: nothing, a reroute or a fence while open, or closing it once |
| LedgerHistory.FinalizedForever | src/metering/billing.ts:1121-1127 | no later run changes a finalized reservation |
| LedgerHistory.LaterCallsReportTheFirstCharge | src/metering/billing.ts:1121-1127 | after any run, finalizing or reconciling a finalized request again changes no table and reports the first charge, and its id cannot be reserved again |
| LedgerHistory.ChargeNeverExceedsHold | src/metering/billing.ts:1128-1132 | over any run, reroutes included, the charge is at most the amount first reserved |
| LedgerHistory.NoFreeProviderWork | src/metering/billing.ts:1093-1132 | the step that closes a fenced reservation charges its ceiling, its measured cost or the reconciled cost, and charges nothing if and only if nothing was held, the settlement's usage costs nothing or is missing, an abort attests a rejection before delivery, or it is a reconciliation at no cost |
| LedgerHistory.ReconcileReleasesDeliveredHold | src/metering/billing.ts:638-772 | a reconciliation at no cost releases a delivered hold uncharged |
| LedgerHistory.StaleSweepStillCaptures | src/metering/billing.ts:1359-1417 | a sweeper that decided on an abort from a read before the fence still leaves the row closed at the whole hold |
| LedgerSweep.SweepIsARun | src/metering/billing.ts:1359-1441 | a sweep among other callers is a run, so the results about runs hold of it |
| LedgerSweep.SweepCountsEveryTurn | src/metering/billing.ts:1386-1418 | every row of the batch is counted as finalized or listed as a failure |
| LedgerSweep.TurnAnswers | src/metering/billing.ts:1386-1418 | one turn over an open row: charged its whole hold if it was fenced when read or since, released otherwise, and how it is counted |
| LedgerSweep.NoHeadOfLineBlock | src/metering/billing.ts:1359-1441 | a row that metering can accept ends finalized whatever the other rows do |
| StreamCodec.SerializeWorkerStream | src/inference/workerClient.ts:458-487 | the written pieces: every chunk that is not the end marker between white space, in order, then the metadata of each way to end; and which failures are rethrown |
| StreamCodec.DoneIsMarker | src/inference/workerClient.ts:63-65 | a chunk is dropped if and only if it is `data: [DONE]` between any white space |
| Text.TrimRemoves | src/inference/workerClient.ts:63-65 | trimming takes exactly the white space off both ends |
| StreamCodec.DeserializeWorkerStream | src/inference/workerClient.ts:833-922 | the incremental reader equals the fold of its one-chunk step, stopping at the first event that ends it |
| StreamCodec.FirstBlank | src/inference/workerClient.ts:851-854 | the first position of a blank line, or that there is none |
| StreamChunks.ChunkingIsInvisible | src/inference/workerClient.ts:846-854 | for text without a carriage return before a CRLF, every chunking leaves the reader in the state of reading it in one piece |
| StreamChunks.ChunkFreeUnlessStray | src/inference/workerClient.ts:849-854 | every chunking of a text leaves the same events and buffer if and only if no carriage return stands before a CRLF |
| StreamChunks.StrayExample | src/inference/workerClient.ts:849-854 | the text `a\r\r\n\r\r\n` yields no event in one chunk and one event with an empty chunk after it |
| StreamRoundTrip.WrittenStreamsReadBack | src/inference/workerClient.ts:458-487 | under every chunking, reading what was written gives the frames without the end marker in order, the usage with a missing cache-write count as zero, the signature binding, and the way the stream ended |
| StreamRoundTrip.WireFormat | src/inference/workerClient.ts:458-487 | the metadata events as they stand on the wire, name, data and order, for each way a stream ends |
| StreamRoundTrip.UsageOfEitherForm | src/inference/workerClient.ts:924-936 | usage in the worker's own form keeps its members with a missing or null cache-write count as zero; any other is translated |
| StreamRoundTrip.MalformedBindingEndsReading | src/inference/workerClient.ts:855-873 | a signature binding that cannot be read ends the stream as incomplete |
| StreamRoundTrip.OtherStreamErrorsFail | src/inference/workerClient.ts:884-902 | an error event of any other code fails the stream |
| StreamRoundTrip.NormalOfPlain | src/inference/workerClient.ts:849-850 | frames without carriage returns are yielded unchanged |
| StreamRoundTrip.CutsAreNeverSilent | src/inference/workerClient.ts:846-922 | text cut anywhere before its end yields a beginning of the frames, the right usage or none, and an error, never completion |
| StreamRoundTrip.CompletionNeedsUsage | src/inference/workerClient.ts:875-884 | for any chunks, the reader completes if and only if there is a terminal event with a usage event before it and nothing before it that stops the reader |
| StreamRoundTrip.BrokenStreamsReadAsErrors | src/inference/workerClient.ts:465-466 | a stream broken by any other failure reads as its frames and an error |
| GatewayEventLog.ParseEventLog | src/gateway/eventLog.ts:61-102 | an accepted log is bounded and every entry has a register from 0 to 3 and an even lower-case hex digest of at most 48 bytes |
| GatewayEventLog.ReplayRegister | src/gateway/eventLog.ts:105-115 | the loop computes the hash chain, each digest padded to 48 bytes |
| GatewayEventLog.ReplayRtmrs | src/gateway/eventLog.ts:129-136 | each of the four registers is the replay of its own entries in log order |
| GatewayEventLog.SingleEventPayload | src/gateway/eventLog.ts:254-264 | a payload is returned only from a consistent RTMR3 event of that name, and nothing only if there is no such event |
| GatewayEventLog.SingleEventMeans | src/gateway/eventLog.ts:254-264 | a payload is returned if and only if it is that of the only event of the name, and that one is a consistent RTMR3 event |
| GatewayEventLog.ConsistentV1Means | src/gateway/eventLog.ts:154-231 | a consistent V1 event has no digest or that of its type, name and payload |
| GatewayEventLog.ConsistentV2Means | src/gateway/eventLog.ts:178-211 | a consistent V2 event has the digest of its preimage, and the preimage names its event, payload and type |
| GatewayEventLog.V1PreimageMeans | src/gateway/eventLog.ts:154-164 | the hashed bytes: the type in four bytes, the lowest first, the name and the payload, with colons between |
| GatewayEventLog.RegisterKeepsOrder | src/gateway/eventLog.ts:129-136 | the entries of one register are taken in log order |
| GatewayEventLog.PreimageDetermines | src/gateway/eventLog.ts:154-164 | between V1 events neither of whose names has a colon, the hashed bytes determine type, name and payload |
| GatewayEventLog.ShorterNameUnlessNoColon | src/gateway/eventLog.ts:154-164 | another V1 event with a shorter name hashes the same bytes if and only if the name has a colon |
| GatewayEventLog.ReplayDetermines | src/gateway/eventLog.ts:105-136 | two RTMR3 lists that reproduce one register show the same types, names and payloads in the same order, for lists of any length |
| GatewayBinding.NormalizeBinding | src/gateway/binding.ts:187-256 | what is accepted has lower-case hex fields of the required lengths, a known algorithm and transport, and a certificate digest exactly when the TD ends TLS |
| GatewayBinding.HexFieldsMean | src/gateway/binding.ts:187-256 | each hex field of an accepted binding spells the digits of the field it is read from |
| GatewayBinding.OnlyKnownFields | src/gateway/binding.ts:187-199 | an accepted binding has no field but the eleven |
| GatewayBinding.OriginMeans | src/gateway/binding.ts:152-172 | which texts are origins: an http or https URL with nothing but its origin, at most 269 characters, with or without one trailing slash |
| GatewayBinding.NormalizeTwice | src/gateway/binding.ts:263-269 | normalizing a normalized binding gives it back whenever its origin is still accepted |
| GatewayBinding.CanonicalTextDetermines | src/gateway/binding.ts:263-269 | two bindings with one canonical text are the same binding |
| GatewayVerify.VerifyGatewayAttestation | src/gateway/verify.ts:163-462 | `ok` is given if and only if every required check passes, the checks are those of the list, and otherwise the reason names the first required one that failed; with `ok`, a policy that requires hardware verification gets a hardware-verified verdict, and the binding and the manifest obey every pin and switch of the policy |
| GatewayVerify.AcceptsExactly | src/gateway/verify.ts:163-462 | `ok` means that the document parses, its log can be read, and every check the policy insists on finds what it asks of the document, in terms of the document, the quote, the log and the policy; nothing is waived, nothing else is asked |
| GatewayChecks.EveryCheckSays | src/gateway/verify.ts:163-462 | in the verdict every check, failed and optional ones included, reports whether it finds what it asks, and is required exactly when insisted on |
| GatewayDocuments.OsImageHashMeans | src/gateway/verify.ts:58-71 | the image hash read of a VM configuration: 64 hex digits, however written, with white space around them |
| Text.HexEqualMeans | src/providers/attestation/checks.ts:43-53 | two texts are hex-equal if and only if they spell the same digits, whatever the case or a leading 0x |
| GatewayVerify.CheckLog | src/gateway/verify.ts:219-257 | the log's checks pass if and only if it replays to the four registers, commits to its payloads, and shows each of the five named events at most once, in RTMR3 |
| GatewayVerify.OneQuoteOneStory | src/gateway/verify.ts:163-462 | all documents accepted for one quote have the same normalized binding, RTMR3 sequence and app-compose text |
| GatewayVerify.ManifestIsMeasured | src/gateway/verify.ts:326-338 | in an accepted document a measured compose-hash event is the digest of the served manifest |
| DebianVersions.CmpPart | scripts/provenance/pin-debian-packages.ts:89-108 | the two-index loop terminates and computes the lexicographic comparison of the two sort keys |
| DebianVersions.CompareDebianVersions | scripts/provenance/pin-debian-packages.ts:71-116 | the comparison is epoch, then upstream, then revision, of any two versions with decimal epochs |
| DebianVersions.SplitReads | scripts/provenance/pin-debian-packages.ts:72-81 | a version is cut at its first colon and at its last dash after that; a missing epoch is 0, a missing revision empty |
| DebianVersions.EpochThenUpstreamThenRevision | scripts/provenance/pin-debian-packages.ts:71-116 | between versions written out of their parts a higher epoch wins, then the upstream part, then the revision |
| DebianVersions.FirstNonDigitDecides | scripts/provenance/pin-debian-packages.ts:82-99 | where two parts first differ in a non-digit: a tilde before everything, the end or a number before the rest, letters before other marks, each kind by code |
| DebianVersions.NumbersCompareByValue | scripts/provenance/pin-debian-packages.ts:100-107 | where two parts have numbers, the values decide whatever their leading zeros; equal ones leave it to what follows |
| DebianVersions.ComparisonIsSymmetric | scripts/provenance/pin-debian-packages.ts:71-116 | the comparison is reflexive and antisymmetric in sign, hence total |
| DebianVersions.ComparisonIsTransitive | scripts/provenance/pin-debian-packages.ts:71-116 | the comparison is transitive, strictly if either step is strict |
| DebianVersions.TildeSortsBeforeTheEnd | scripts/provenance/pin-debian-packages.ts:82-87 | appending a tilde sorts before the end of the string, appending any other non-digit after it |
| DebianPins.ResolvePins | scripts/provenance/pin-debian-packages.ts:205-240 | each package gets what some block of some suite offers, no block offers a newer version, and no earlier block one as new; otherwise exactly the packages that no block offers are named |
| CircuitBreaker.HalfOpenIsOneProbe | src/providers/circuitBreaker.ts:47-127 | over all runs, half-open holds exactly while one unsettled current probe exists, and open means no unsettled current permit exists |
| CircuitBreaker.StepIsSafe | src/providers/circuitBreaker.ts:47-127 | every acquire and every outcome, duplicate, late or stale, keeps the safety invariant |
| CircuitBreaker.StaleOutcomesAreIgnored | src/providers/circuitBreaker.ts:59-105 | outcomes of older generations and second outcomes change nothing but the settled set |
| CircuitBreaker.CancelledProbeIsRetried | src/providers/circuitBreaker.ts:98-105 | after a neutral probe the next acquire is a probe at once |
| CircuitBreaker.OpenIntervalHolds | src/providers/circuitBreaker.ts:47-127 | in every run, after a counted failure opens the circuit no acquire gets a permit until the open interval is over, whatever outcomes arrive, and the first one then gets a probe |
| CircuitBreaker.ProbeDecides | src/providers/circuitBreaker.ts:59-96 | a successful probe closes the circuit with nothing counted, a failed one opens it anew from that instant |
| CircuitBreaker.TripsExactlyOnTheFullHistory | src/providers/circuitBreaker.ts:59-91 | with lazily pruned counters, a closed circuit trips exactly when the full history since the last recovery reaches a threshold |
| CircuitBreaker.OperationalCircuitBreaker.RecordOperationalFailure | src/providers/circuitBreaker.ts:74-96 | the state after a failure: ignored, tripped or counted |
| CircuitBreaker.OperationalCircuitBreaker.RecordSuccess | src/providers/circuitBreaker.ts:59-72 | the state after a success: ignored, recovered or pruned |
| ConsumedCapabilities.ParseState | src/credentials/consumedCapabilities.ts:43-63 | exactly the printed forms of allowed states (distinct ids, bounded length, valid fields) are accepted, and they read back |
| ConsumedCapabilities.ConsumedCapabilityLog.Consume | src/credentials/consumedCapabilities.ts:80-97 | file, memory and answer of a call under every write failure |
| ConsumedCapabilities.ConsumedCapabilityLog.Load | src/credentials/consumedCapabilities.ts:103-124 | an absent file is an empty log only to a process that never saw one; an unreadable one is an error |
| ConsumedCapabilities.PersistedStatesAreAccepted | src/credentials/consumedCapabilities.ts:88-96 | every state written is one the parser accepts and reads back |
| ConsumedCapabilities.FirstUsesAreFarApart | src/credentials/consumedCapabilities.ts:80-137 | over any run of calls, failed writes and restarts, a capability is answered as a first use at most once until 24 hours after its expiry |
| ConsumedCapabilities.FileStaysReadable | src/credentials/consumedCapabilities.ts:43-137 | no run turns an absent or readable log into one the parser refuses |
| ConsumedCapabilities.ReplaysAreReported | src/credentials/consumedCapabilities.ts:80-137 | over any run, until then every call for a used capability is answered as a replay, not as an error, whatever its other arguments |
| ConsumedCapabilities.ConsumeAnswers | src/credentials/consumedCapabilities.ts:80-97 | a call is a replay if and only if its id is in the log, and a first use if and only if it is not, its arguments are well formed, fewer than 10,000 entries are still kept, and the write holds |
| ConsumedCapabilities.ConsumeWrites | src/credentials/consumedCapabilities.ts:88-137 | the file changes if and only if a first use gets past its rename, and then holds that use and every entry not long expired |
| ConsumedCapabilities.UnreadableLogIsAnError | src/credentials/consumedCapabilities.ts:103-124 | a log gone after it was seen, or unreadable, is an error to every call and is left as it is |
| ReceiptStore.ContentReceiptStore.Put | src/inference/contentReceipts.ts:151-175 | the entries after a write: refused for a malformed digest, else swept, re-inserted at the tail and evicted from the head |
| ReceiptStore.ContentReceiptStore.Get | src/inference/contentReceipts.ts:137-145 | what a read returns, and that an expired entry is removed |
| ReceiptStore.SweepRemovesExactlyTheExpired | src/inference/contentReceipts.ts:182-188 | over all runs the entries stay ordered by expiry, so the early-stopping sweep removes exactly the expired ones |
| ReceiptStore.FetchFindsTheLatestBinding | src/inference/contentReceipts.ts:106-175 | a read returns the latest binding of the id exactly when it is unexpired and fewer than the maximum of distinct ids were recorded after it |
| ReceiptStore.RecordedBindingIsFetched | src/inference/contentReceipts.ts:106-175 | in terms of the calls: the last binding recorded under an id is found until its clock reading plus the lifetime, not then or later, while fewer than the maximum of other ids were recorded since |
| ReceiptStore.StoreStaysSmall | src/inference/contentReceipts.ts:137-188 | in every run a write leaves at most the maximum of entries and no expired one but its own, and a read drops an expired entry of its id and nothing else |
| ConcurrencyGate.NoSlotLostOrDuplicated | src/roles.ts:317-333 | in every run the slots in use are the running and handed-off tasks, never more than the limit, and a waiter implies a full gate |
| ConcurrencyGate.EveryTaskIsInOnePlace | src/roles.ts:317-333 | everyone who arrived waits, holds a slot, runs or is done, exactly once, throwing tasks included |
| ConcurrencyGate.WaitersStartInArrivalOrder | src/roles.ts:317-333 | waiters start in the order they queued |
| ConcurrencyGate.IdleGateHasNoWaiters | src/roles.ts:326-331 | when nothing runs or was handed a slot, nobody is left waiting |
| ConcurrencyGate.GateCell.Finish | src/roles.ts:326-331 | the gate after a task ends: the slot goes to the first waiter or is freed |
| OpaqueReceipts.Mint | src/inference/opaqueReceipt.ts:58-70 | the body read in base 32 is 16 times the big-endian input, and the id has the minted format |
| OpaqueReceipts.EncodingIsInjective | src/inference/opaqueReceipt.ts:58-70 | two draws with one id are the same 32 bytes |
| OpaqueReceipts.LastSymbolIsOneOfTwo | src/inference/opaqueReceipt.ts:38-74 | the last symbol is one of two values |
| OpaqueReceipts.OpaqueReceiptIdsAre | src/inference/opaqueReceipt.ts:38-74 | an id is `arcpt_` and 52 digits or lower-case letters other than i, l, o and u |

## Left out

- SQL text, row locking and isolation: each operation is atomic; concurrency is the order of operations.
- The bodies of the pool's SQL functions, `account_daily_budget_usage`, `reserveDailyBudget` and the provider emergency switch: answers are parameters or absent.
- `assertPositiveAvailableBalance`, `apiKeySpentUsd`, `recordSettlementReceipt` and the latency, surcharge and receipt columns of usage events: they decide nothing modelled here.
- LedgerTransactions.ReserveTx: does not model empty-string grant ids apart from a missing grant, or dates other than as numbers.
- Pricing.CostMonotone: does not model JavaScript floating point or fractional token counts; amounts are reals rounded once to whole micros.
- Money.ReadMicros: does not model the number and null forms of a column; text is taken as trimmed.
- StreamCodec.DeserializeWorkerStream: does not model bytes, the decoder's byte-order mark, abort signals or a consumer that stops early; chunks are text, a transport failure is an end of input, and usage that is not in the worker's own form goes to an unspecified reader.
- StreamCodec.SerializeWorkerStream: usage and binding promises that fail are absent values, as in the source.
- GatewayEventLog.ReplayDetermines: V2 entries are checked as the source does but are outside the uniqueness result, and so are names with a colon and types beyond 32 bits.
- GatewayBinding.NormalizeBinding: does not model which error text is thrown; text lengths count characters, not UTF-16 units.
- GatewayVerify.VerifyGatewayAttestation: does not model the detail texts of checks; quote parsing, the DCAP chain verifier, image scanning and URL parsing are parameters.
- Lower-casing is modelled on ASCII letters. Text is well-formed Unicode: lone surrogates, which Node encodes all alike, cannot occur in it.
- DebianVersions.CompareDebianVersions: epochs are decimal digit runs and numbers are unbounded; epochs JavaScript would read in another way, or as NaN, are excluded.
- DebianPins.ResolvePins: does not model fetching, index signatures or the regular expressions that read a package block; blocks are their fields.
- CircuitBreaker: the scoped registry, `snapshot` and the defaults of options.
- ConsumedCapabilities: modes, temporary names and directory creation; a write fails before or after its rename, or not at all.
- ReceiptStore: `size` and the option defaults; the digests' letter case is accepted as the source does.
- OpaqueReceipts: the random source; the 32 bytes are a parameter.
- Configuration, HTTP clients and routes, tickets, reasoning, privacy tiers and the other provenance scripts: I/O, or shallow condition lists.
