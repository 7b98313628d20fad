# Verified model of the device enrollment and lease protocol

This project models, in Dafny 4.11, how a device is enrolled with the broker and kept supplied with short-lived
Drive leases, together with the algorithms that the broker and the plugin rest on:

- **The broker as one step machine** (`Protocol*.dfy`). An operator mints a code for one device key; the device
  redeems it for a pairing; the provider's callback consumes a one-time state and later authorizes the pairing;
  the device claims once; a durable record then authorizes nonces and leases across restarts until it is
  revoked. Every handler is cut at the awaits that leave the process, so any interleaving of handlers, of store
  writes that succeed or fail, and of restarts is a list of events. Each step appends what it did to a log of
  facts, and the theorems are about the log of every run. `ProtocolVisit.dfy` and `ProtocolCompletion.dfy` go
  the other way: an honest device gets its lease, whatever other devices do between its steps. The steps call
  the stores' own operations, which are specified as functions on values and implemented by classes that update
  their maps in place. `BrokerHandlers.dfy` puts those classes together: each handler method, between two
  awaits, makes exactly the step of its event, so that the state of a process is always that of a run and every
  theorem about runs holds of it. `ProtocolFrames.dfy` says what each step leaves alone, `ProtocolFacts.dfy`
  which fact it adds and when, and `ProtocolLosses.dfy` what can be lost and exactly when.
- **The stores**: pairings (`PairingStore.dfy`; `PairingRuns.dfy` for what one operation hands out and another
  accepts), enrollment codes (`EnrollmentStore.dfy`), durable records and their encrypted file
  (`EnrollmentRecords.dfy`), durable nonces and the pairing rate limit (`BrokerServer.dfy`, `RateLimit.dfy`).
  Every refusal is told apart by its own condition.
- **The client**: the lease manager with interleaved enrollments, renewals and `clear` (`LeaseManager.dfy`), the
  claim polling loop (`ClaimPolling.dfy`), the settings write queue (`WriteQueue.dfy`), concurrent cache
  publishing (`CachePublish.dfy`), the browsable root (`RootScope.dfy`).
- **Codecs and parsers** (`Sequences.dfy` holds what several files need about lists): base32 enrollment codes
  (`EnrollmentCodes.dfy` over the 32-bit arithmetic of `Int32.dfy`), unpadded base64url (`Base64Url.dfy`), the
  batch object stream (`BatchObjects.dfy`).

A class method is proved against a function of the old state; the properties are lemmas about that function and
about runs of it.

## Assumptions

- Random draws are fresh: a step that would repeat a draw does not happen (`Protocol.Fresh`).
- Hashes are injective, a signature verifies for its own key and message alone, and an AES-256-GCM box opens for
  its own key, nonce and header alone (`Terms.dfy`, `EnrollmentRecords.Open`). A digest is a symbolic term, so a
  hex digest is never an arbitrary text.
- Store writes do not overlap. `persist` takes its snapshot and renames without a lock
  (`broker/src/enrollment-record-store.ts:318-348`); a claim that would be opened or a revocation of a stored
  record, which would start a second write while one is pending, does not happen in `Protocol.dfy`. Refused
  claims and revocations of pairings without a record start no write and happen at any time.
- The record store is loaded before requests arrive (`broker/src/index.ts:88-89`), so opening a claim, filling
  the record in memory and starting its write are one step, and so are `find` and what follows it.
- Clock readings are arbitrary integers, one for each call of `now()`, unless a lemma says otherwise.
- In `CachePublish.dfy` no destination has the shape of a temporary name, code outside the module only creates
  files that are absent, and a copy that reports success has stored at least a prefix.
- In `BatchObjects.dfy` what `bytes.decode` makes of a header and what `int` makes of a text beyond ASCII are
  parameters; printing and parsing rest on UTF-8 leaving ASCII as it is.
- The callback `onEnrollment` and the code around the queue and the manager do not call back into them from
  within a step.

## What the proofs found

- `openClaim` on an expired pairing forgets the record but not its callback handle
  (`broker/src/pairing-store.ts:194-199`), so a handle can outlive its record
  (`ProtocolLosses.HandleLeftBehind`). Every handle leads to a held pairing exactly when no claim comes at or
  after the expiry between the callback and its approval (`ProtocolLosses.StepKeepsHandlesIff`,
  `ProtocolLosses.AlwaysHeldIff`); no other step leaves a handle behind.
- A code is burned before the pairing is created (`broker/src/server.ts:375-392`), so it can be lost for nothing
  (`ProtocolLosses.WrongKeyWastesCode`): exactly when it opens while the lifetime, the room in the store or one
  of the two keys does not allow the pairing (`ProtocolLosses.CodeWastedIff`).
- A revoke stops callbacks, approvals and claims from its first step on (`ProtocolTheorems.BegunRevokeStops`),
  but not renewals: a restart before its record is written leaves the device able to renew
  (`ProtocolLosses.RestartOvertakesRevoke`). After the first step a nonce is issued exactly when the pairing is
  no longer held and its record is still unrevoked and unexpired (`ProtocolTheorems.NonceAfterBegunRevokeIff`).
- When `chmod` fails after `rename`, `persist` reports an error although the file is already new
  (`EnrollmentRecords.FailedRecordIsKept`); an operation fails and changes the file exactly then, unless the map
  is the one the file held (`EnrollmentRecords.ErrorsAndTheFile`). So a failed revoke may still be durable
  (`ProtocolTheorems.RevokeSurvivesRestartIff`).
- "A lease is held only with a pairing" fails when a renewal or a claim is answered after `clear`
  (`LeaseManagers.LateLease`) and when a claim expires while an earlier lease is held
  (`LeaseManagers.ExpiredClaimKeepsLease`); it holds exactly when no such step occurs
  (`LeaseManagers.AlwaysHasPairingIff`).
- "Between two clears all callers share one exchange" fails when the `finally` callback of an exchange begun
  before the last `clear` empties the slot of the present one; it holds exactly when no such exchange is left
  (`LeaseManagers.AlwaysSharedIff`), and a run from construction leaves one
  (`LeaseManagers.StaleExchangeHappens`).
- "Consent is pending while the newest enrollment polls for its claim" fails, for instance, when a renewal of
  the old pairing is answered meanwhile (`LeaseManagers.WaitCutShort`); it holds over a run exactly when no
  `clear`, no applied or ending renewal and no end of an earlier enrollment comes in between
  (`LeaseManagers.WaitAlwaysPendingIff`).
- Claim polling can give up before the pairing expires when a sleep advances the clock by less than its
  interval, or when the clock goes back by more than an interval before the first attempt
  (`ClaimPolling.PollingGivesUpEarly` shows both); exactly when is part of `ClaimPolling.ClaimUntilAuthorized`.
- Listing a folder under itself or below itself takes registered ids out of scope
  (`RootScope.SelfListingLosesScope`); a listing keeps all of them in scope exactly when it does not
  (`RootScope.ListingKeepsScopeIff`). Two first lookups that overlap and answer with different folders replace
  the root (`RootScope.SecondLookupReplacesRoot`); everything registered stays in scope exactly when the new
  root is the old one or above it, or between the old one and every registered id
  (`RootScope.LookupKeepsScopeIff`). Over a run the two conditions together are necessary and sufficient
  (`RootScope.AlwaysInScopeIff`).

## Model

| member | source | states |
|---|---|---|
| `ProtocolSteps.StepKeepsInv` | broker/src/server.ts:329-498 | every handler step, restart and write outcome keeps the invariant that backs each stored item by the facts that led to it |
| `ProtocolSteps.RunKeepsInv` | broker/src/server.ts:329-498 | the invariant holds after every run, however the handlers interleave |
| `ProtocolTheorems.LeaseProvenance` | broker/src/server.ts:375-486 | every lease ever sealed goes to the encryption key of a pairing created with an operator's code for its signing key, called back, authorized and claimed in that order with proofs by that key, and a renewal used a nonce issued to it in the same process |
| `ProtocolTheorems.ClaimBacked` | broker/src/server.ts:426-449 | every claim has its mint, creation, callback and approval before it, of the same pairing and before its expiry |
| `ProtocolTheorems.AuthorizationBacked` | broker/src/server.ts:288-320 | an approval belongs to the pairing whose own callback state was consumed to obtain its handle |
| `ProtocolTheorems.UseBacked` | broker/src/server.ts:230-262 | a used nonce was issued after the claim of the same pairing, with no restart in between, and is used before it expires |
| `ProtocolTheorems.NoRepeats` | broker/src/pairing-store.ts:149-208 | no pairing is created, called back, authorized or claimed twice, no code redeemed twice, no nonce issued or used twice |
| `ProtocolTheorems.RevocationIsPermanent` | broker/src/admin-server.ts:125-132 | after an answered revoke the pairing is never again called back, authorized, claimed, given a nonce or renewed, across evictions and restarts |
| `ProtocolTheorems.BegunRevokeStops` | broker/src/pairing-store.ts:266-276 | from the first step of a revoke on, whether its record is ever written or not, the pairing is never again created, called back, authorized or claimed |
| `ProtocolTheorems.RevokeBindsAtOnce` | broker/src/admin-server.ts:125 | the same in terms of events: nothing after the revoke of a held pairing, in any continuation of any run, is a callback, approval or claim of it |
| `ProtocolTheorems.NonceAfterBegunRevokeIff` | broker/src/server.ts:211-223 | after a revoke has begun a nonce is issued exactly when the pairing is no longer held and its record is held unrevoked and unexpired |
| `ProtocolLosses.RestartOvertakesRevoke` | broker/src/admin-server.ts:125-130 | a run in which a restart between the two steps of a revoke lets the device renew |
| `ProtocolTheorems.RevokeSurvivesRestartIff` | broker/src/enrollment-record-store.ts:289-296 | a revoke refuses the device after a restart exactly when its rename was done or the file already held it |
| `ProtocolTheorems.ClaimExactlyOnce` | broker/src/pairing-store.ts:189-208 | a claim of a pairing happens at most once, with exactly one earlier callback and one earlier approval, each before the expiry, and with no revoke before it, neither completed nor only begun |
| `ProtocolTheorems.RedemptionInjective` | broker/src/server.ts:375-392 | pairings map injectively into minted codes, and each code approves the fingerprint of the pairing's signing key |
| `ProtocolTheorems.NonceSingleUse` | broker/src/server.ts:211-262 | a durable nonce is used at most once, by the pairing it was issued to, before its expiry and before any restart |
| `ProtocolTheorems.CodesStayUsed` | broker/src/enrollment-store.ts:131-186 | no step makes a held used code unused, and the code store never exceeds its capacity |
| `ProtocolTheorems.IndexesAgree` | broker/src/pairing-store.ts:73-107 | the four maps of the pairing store agree after every run |
| `ProtocolTheorems.AttemptsAreLimited` | broker/src/server.ts:148-162 | in every run, however other steps interleave, pairing attempts are admitted as the rate limit decides over the attempts since the last restart |
| `ProtocolFrames.GrantIsNewIff` | broker/src/server.ts:433-484 | a handler may mint a lease from a step on exactly when its record's write has just been completed or its nonce just accepted |
| `ProtocolFrames.DiskMoves` | broker/src/enrollment-record-store.ts:318-348 | the disk changes exactly by a write that gets as far as its rename, to the snapshot taken when the write began |
| `ProtocolFacts.MintedIff` | broker/src/admin-server.ts:87-108 | a code is told to be minted exactly for a good fingerprint in a good time with room |
| `ProtocolFacts.StateConsumedIff` | broker/src/server.ts:288-292 | a callback is told exactly when a pairing waits for its state |
| `ProtocolFacts.AuthorizedIff` | broker/src/server.ts:294-326 | an approval is told exactly after a successful exchange for a pairing that awaits it; a failed one leaves every pairing as it is |
| `ProtocolFacts.ClaimedIff` | broker/src/server.ts:426-432 | a claim is told exactly when the pairing is authorized, in time and proved, with the pairing's own keys |
| `ProtocolFacts.NonceIssuedIff` | broker/src/server.ts:456-465 | a nonce is told exactly for a device that is neither refused nor waiting |
| `ProtocolFacts.NonceUsedIff` | broker/src/server.ts:472-481 | a nonce's use is told exactly when it is good and proved with the key of the device's record |
| `ProtocolFacts.SealedIff` | broker/src/server.ts:169-193 | a lease is sealed exactly when a handler told to mint one ends with it |
| `ProtocolFacts.RevokeToldIff` | broker/src/admin-server.ts:125-132 | a revoke begins exactly for a held pairing, and is completed exactly by the write of its record, or at once without one |
| `ProtocolLosses.ClaimKeepsHandlesIff` | broker/src/pairing-store.ts:189-208 | a claim keeps every callback handle leading to a held pairing exactly when it is not a late claim of a pairing that waits for its approval |
| `ProtocolLosses.StepKeepsHandlesIff` | broker/src/pairing-store.ts:86-276 | any step keeps that exactly when it is not such a claim |
| `ProtocolLosses.AlwaysHeldIff` | broker/src/pairing-store.ts:86-276 | over a run it always holds exactly when no such claim occurs |
| `ProtocolLosses.HandleLeftBehind` | broker/src/pairing-store.ts:194-199 | a run in which a handle outlives its record |
| `ProtocolLosses.CodeWastedIff` | broker/src/server.ts:375-392 | a request creates its pairing exactly when its code opens and the pairing fits the store, and burns its code for nothing exactly when the code opens and the pairing does not fit |
| `ProtocolLosses.WrongKeyWastesCode` | broker/src/pairing-store.ts:109-146 | a run in which a key of the wrong kind costs the code and leaves no pairing |
| `ProtocolLosses.EnrolledWithoutRecordIff` | broker/src/server.ts:433-443 | a claim that opens begins to write its record exactly when the record store takes it; otherwise the pairing stays enrolled without one |
| `ProtocolVisit.OwnEventAdvances` | broker/src/server.ts:288-449 | each of an honest device's eight events, from minting over the admitted attempt to sealing, takes its enrollment one step further from any state it has reached |
| `ProtocolVisit.PollingIsToldToWait` | broker/src/pairing-store.ts:189-208 | a claim in time before consent is given is told to wait, whatever its proof, and changes nothing |
| `ProtocolCompletion.OthersLeaveVisit` | broker/src/server.ts:288-498 | every event of another code, pairing, callback or grant, at a time before this one's expiry and other than a restart, and the device's own polling before consent, leave an enrollment under way as far as it has got |
| `ProtocolCompletion.HonestDeviceIsLeased` | broker/src/server.ts:329-449 | from any reachable state, with any events of others before, between and after its own in-time steps that leave it room and an attempt of its address, an honest device ends with a sealed lease and its record on disk |
| `ProtocolCompletion.HonestVisitExists` | broker/src/server.ts:375-449 | such a device and such a run exist for every configuration with lifetimes in range and room for one |
| `ProtocolCompletion.RenewalAfterRestart` | broker/src/server.ts:456-486 | a device whose unrevoked, unexpired record is on disk renews its lease after a restart |
| `BrokerHandlers.BrokerProcess.constructor` | broker/src/index.ts:80-95 | a process starts with the records on disk and nothing else, as the run that leads there |
| `BrokerHandlers.BrokerProcess.HandleMint` | broker/src/admin-server.ts:87-108 | minting through the code store is the protocol's mint step, and the operator is shown the code drawn or the reason of the refusal |
| `BrokerHandlers.BrokerProcess.HandlePairAttempt` | broker/src/server.ts:346-351 | the rate limit's decision is the protocol's step, and the request waits to be heard exactly when it is admitted |
| `BrokerHandlers.BrokerProcess.HandlePair` | broker/src/server.ts:368-401 | redeeming a code and then creating the pairing, each through its store, is the protocol's pair step, and the answer is that of the first store that refuses, or the new pairing |
| `BrokerHandlers.PairAnswers` | broker/src/server.ts:368-401 | exactly which answer a pairing request gets: the code is asked first, the pairing store only if it opens |
| `BrokerHandlers.BrokerProcess.HandleCallback` | broker/src/server.ts:288-292 | consuming the state is the protocol's callback step, and gives the exchange the pairing's own verifier |
| `BrokerHandlers.BrokerProcess.FinishCallback` | broker/src/server.ts:294-320 | the callback after a successful exchange is the protocol's approval step |
| `BrokerHandlers.BrokerProcess.FailCallback` | broker/src/server.ts:294-326 | the callback after an exchange that failed, or left no stored token, is the protocol's step for that |
| `BrokerHandlers.BrokerProcess.HandleClaim` | broker/src/server.ts:421-443 | opening the claim and starting the record's write is the protocol's claim step, and each refusal is told under its own condition |
| `BrokerHandlers.BrokerProcess.FinishWrite` | broker/src/enrollment-record-store.ts:328-347 | each outcome of a write is the protocol's step for that outcome |
| `BrokerHandlers.BrokerProcess.HandleNonce` | broker/src/server.ts:456-465 | a nonce request is the protocol's step, and each refusal is told under its own condition |
| `BrokerHandlers.BrokerProcess.HandleLease` | broker/src/server.ts:472-481 | a lease request up to its minting is the protocol's step, and each refusal is told under its own condition |
| `BrokerHandlers.BrokerProcess.FinishMint` | broker/src/server.ts:169-193 | a mint that ends, with a sealed lease or without, is the protocol's step |
| `BrokerHandlers.BrokerProcess.HandleRevoke` | broker/src/admin-server.ts:125 | revoking in the pairing store is the protocol's first revoke step |
| `BrokerHandlers.BrokerProcess.RevokeRecord` | broker/src/admin-server.ts:129-132 | flagging the record and starting its write is the protocol's second revoke step |
| `BrokerHandlers.PairByStores` | broker/src/server.ts:375-392 | the pair step in terms of the two stores' operations: a refused code changes the code store alone, a refused creation still costs the code |
| `BrokerHandlers.EnrollIsRecord` | broker/src/enrollment-record-store.ts:282-287 | filling a claimed record and the end of its write are together one `record` of the encrypted store, for every way the write can end |
| `BrokerHandlers.RevokeIsRevoke` | broker/src/enrollment-record-store.ts:289-296 | flagging a stored record and the end of its write are together one `revoke` of the encrypted store |
| `Pairings.CreateKeepsConsistent` | broker/src/pairing-store.ts:109-146 | creating a pairing keeps the maps in agreement and the capacity |
| `Pairings.ConsumeKeepsConsistent` | broker/src/pairing-store.ts:149-162 | consuming a callback state keeps the maps in agreement |
| `Pairings.AuthorizeKeepsConsistent` | broker/src/pairing-store.ts:169-180 | authorizing keeps the maps in agreement |
| `Pairings.ClaimKeepsConsistent` | broker/src/pairing-store.ts:189-208 | claiming keeps the maps in agreement, also when it forgets an expired record |
| `Pairings.IssueKeepsConsistent` | broker/src/pairing-store.ts:219-233 | every stored nonce belongs to a present, enrolled record |
| `Pairings.UseKeepsConsistent` | broker/src/pairing-store.ts:240-258 | burning a nonce keeps the maps in agreement |
| `Pairings.RevokeKeepsConsistent` | broker/src/pairing-store.ts:266-276 | revoking keeps the maps in agreement |
| `Pairings.EvictKeepsConsistent` | broker/src/pairing-store.ts:86-95 | evicting expired records keeps the maps in agreement |
| `Pairings.CreateKeepsOthers` | broker/src/pairing-store.ts:109-146 | every other pairing still held after creating one is exactly as it was |
| `Pairings.RevokeKeepsOthers` | broker/src/pairing-store.ts:266-276 | revoking leaves every other pairing exactly as it was |
| `Pairings.ConsumeOnlyForward` | broker/src/pairing-store.ts:149-162 | a callback moves no status back and changes no other field but the handle |
| `Pairings.AuthorizeOnlyForward` | broker/src/pairing-store.ts:169-180 | an approval moves no status back |
| `Pairings.ClaimOnlyForward` | broker/src/pairing-store.ts:189-208 | a claim moves no status back and never leaves revoked, whatever the clock says |
| `Pairings.RevokeOnlyForward` | broker/src/pairing-store.ts:266-276 | a revoke moves no status back |
| `Pairings.PairingStore.constructor` | broker/src/pairing-store.ts:79-84 | a new store is empty and in agreement |
| `Pairings.PairingStore.DropNoncesFor` | broker/src/pairing-store.ts:103-107 | the loop drops exactly the nonces of one pairing |
| `Pairings.PairingStore.EvictExpired` | broker/src/pairing-store.ts:86-95 | the loop removes exactly the expired records and everything that points at them, in any order |
| `Pairings.PairingStore.EvictExpiredNonces` | broker/src/pairing-store.ts:97-101 | the loop drops exactly the expired nonces |
| `Pairings.PairingStore.CreatePairing` | broker/src/pairing-store.ts:109-146 | refuses a bad lifetime before evicting, then a full store, then the wrong key kinds, each told apart; otherwise adds one pending pairing under its hash and hands out its id, state, message to sign and expiry; all four maps after the call are determined and agree |
| `Pairings.PairingStore.ConsumeState` | broker/src/pairing-store.ts:149-162 | a state is answered exactly when a held, unexpired pairing waits for it, with the new handle and that pairing's own verifier and expiry; the pairing alone changes, the state entry is gone and its handle is indexed, and the maps agree |
| `Pairings.PairingStore.Authorize` | broker/src/pairing-store.ts:169-180 | succeeds exactly when a held, unexpired pairing awaits its approval with this handle, which is gone afterwards; the maps agree |
| `Pairings.PairingStore.Claim` | broker/src/pairing-store.ts:189-208 | exactly which claim is answered unknown, revoked, expired, not authorized yet or with a bad proof, and which opens with the pairing's two keys, in terms of the records found; the maps agree also after the expired branch |
| `Pairings.PairingStore.Issue` | broker/src/pairing-store.ts:219-233 | exactly which request is refused and why, and which is given the nonce, after expired nonces are dropped; the maps agree |
| `Pairings.PairingStore.Consume` | broker/src/pairing-store.ts:240-258 | exactly which attempt is refused and why, and which opens; a nonce of this pairing is burned before its proof is looked at, any other is kept; the maps agree |
| `Pairings.PairingStore.RevokePairing` | broker/src/pairing-store.ts:266-276 | a present pairing becomes revoked and loses its state, handle and nonces; an absent one changes nothing; the maps agree |
| `Pairings.CreateAnswers` | broker/src/pairing-store.ts:109-146 | each refusal of a creation exactly under its own condition on lifetime, live records and keys, and what a creation hands out |
| `Pairings.ConsumeAnswers` | broker/src/pairing-store.ts:149-162 | a state is answered exactly when a pairing waits for it, with the handle and that pairing's verifier in their places |
| `Pairings.AuthorizeAnswers` | broker/src/pairing-store.ts:169-180 | a handle authorizes exactly when a pairing awaits its approval with it |
| `Pairings.ClaimAnswers` | broker/src/pairing-store.ts:189-208 | the five refusals of a claim and its success, each exactly under its condition on the record found |
| `Pairings.IssueAnswers` | broker/src/pairing-store.ts:219-233 | each refusal of a nonce, and its issue, exactly under its condition |
| `Pairings.UseAnswers` | broker/src/pairing-store.ts:240-258 | each refusal of a nonce's use, and its success, exactly under its condition |
| `Pairings.EvictedIndexes` | broker/src/pairing-store.ts:86-95 | eviction leaves exactly the index entries and nonces of the records in time, and handles whose record was gone before |
| `Pairings.NoncesLeft` | broker/src/pairing-store.ts:219-258 | which nonces a request or an attempt leaves: the unexpired ones, with the new one or without the one that got as far as its proof |
| `PairingRuns.StateRoundTrip` | broker/src/pairing-store.ts:109-162 | whatever other operations come in between, the state handed out at a creation is answered with that creation's verifier while its pairing waits |
| `PairingRuns.HandleRoundTrip` | broker/src/pairing-store.ts:149-180 | whatever comes in between, the handle handed out at a callback authorizes its pairing while that awaits it |
| `PairingRuns.ClaimRoundTrip` | broker/src/pairing-store.ts:109-208 | whatever comes in between, the id handed out at a creation claims the authorized pairing with a proof over the very message handed out and with no other, and gives the keys of its creation |
| `PairingRuns.NonceRoundTrip` | broker/src/pairing-store.ts:219-258 | whatever comes in between, a nonce handed out opens for its own pairing alone, in time, with a proof by its key, while it is unused |
| `Enrollment.MismatchChangesNothing` | broker/src/enrollment-store.ts:171-175 | a missing or other fingerprint neither opens nor burns a code |
| `Enrollment.RedeemedIff` | broker/src/enrollment-store.ts:160-186 | a code redeems exactly when it is held unused and unexpired for the approved device |
| `Enrollment.RedeemedOnce` | broker/src/enrollment-store.ts:131-186 | once redeemed, a code never redeems again, whatever is minted or redeemed by anyone at any time in between, unless the same code is drawn again |
| `Enrollment.ConsumeKeepsOthers` | broker/src/enrollment-store.ts:160-186 | presenting one code does nothing to any other |
| `Enrollment.IssueKeepsSound` | broker/src/enrollment-store.ts:131-152 | minting keeps the store within its capacity |
| `Enrollment.IssueChanges` | broker/src/enrollment-store.ts:131-152 | minting leaves every other code it keeps as it was and adds its own unused, bound to the approved fingerprint |
| `Enrollment.ConsumeKeepsSound` | broker/src/enrollment-store.ts:160-186 | redeeming keeps the store within its capacity |
| `Enrollment.UsedStaysUsed` | broker/src/enrollment-store.ts:131-186 | neither minting another code nor redeeming any makes a used code unused |
| `Enrollment.EnrollmentStore.EvictExpired` | broker/src/enrollment-store.ts:121-125 | the loop removes exactly the expired codes |
| `Enrollment.EnrollmentStore.IssueCode` | broker/src/enrollment-store.ts:131-152 | refusals in the order time, lifetime, fingerprint, capacity, each told apart; otherwise the code shown reads back as the one drawn, whose hash the store holds with the expiry returned |
| `Enrollment.MintAnswers` | broker/src/enrollment-store.ts:131-152 | each refusal of a mint exactly under its condition, live codes counted |
| `Enrollment.RedeemAnswers` | broker/src/enrollment-store.ts:160-186 | each of the five answers to a presented code exactly under its condition |
| `Enrollment.RedeemingLeaves` | broker/src/enrollment-store.ts:160-186 | a redeemed code stays used, an expired one goes, and any other answer changes nothing |
| `Enrollment.ShownCodeIsStored` | broker/src/enrollment-store.ts:144-151 | the code shown reads back as the drawn one, stored unused with the expiry returned and for the approved fingerprint |
| `Enrollment.MintedCodeRedeems` | broker/src/enrollment-store.ts:131-186 | whatever else is minted and redeemed in between, any retyping of a shown code redeems it exactly while it is held unused and unexpired and for the device it was minted for |
| `Enrollment.EnrollmentStore.ConsumeCode` | broker/src/enrollment-store.ts:160-186 | any retyping of a held code redeems it once for the approved device; a wrong device is refused before expiry and use are looked at; the store stays sound |
| `EnrollmentCodes.EncodeBase32` | broker/src/enrollment-store.ts:47-61 | for byte strings of any length the loop writes the base-32 digits of the whole number they stand for, although its accumulator wraps at 32 bits |
| `EnrollmentCodes.CodeOfDraw` | broker/src/enrollment-store.ts:47-61 | 20 bytes give 32 symbols whose base-32 value is the base-256 value of the bytes |
| `EnrollmentCodes.DistinctDrawsDistinctCodes` | broker/src/enrollment-store.ts:146-148 | distinct draws give distinct codes |
| `EnrollmentCodes.AlphabetIsSymbols` | broker/src/enrollment-store.ts:47-61 | the arithmetic symbols are the entries of the alphabet |
| `EnrollmentCodes.Group` | broker/src/enrollment-store.ts:63-69 | the loop cuts the code into groups joined by dashes |
| `EnrollmentCodes.GroupedShape` | broker/src/enrollment-store.ts:63-69 | in a grouped code every fifth character is a dash and the others are the symbols in order |
| `EnrollmentCodes.NormaliseReadsRetypings` | broker/src/enrollment-store.ts:72-80 | any text is read as a code exactly when it retypes that code, in any case and with any separators |
| `EnrollmentCodes.ShownCodeRoundTrip` | broker/src/enrollment-store.ts:63-80 | a shown code is read back as the code it shows |
| `EnrollmentRecords.StoredRoundTrip` | broker/src/enrollment-record-store.ts:154-191 | a list of records survives printing and parsing exactly when every one of them is storable |
| `EnrollmentRecords.FileRoundTrip` | broker/src/enrollment-record-store.ts:318-326 | what is written decodes to the same map under its key and fails under any other |
| `EnrollmentRecords.DecodedWellKept` | broker/src/enrollment-record-store.ts:241-274 | whatever decodes is keyed by its own hashes and storable |
| `EnrollmentRecords.StepRefines` | broker/src/enrollment-record-store.ts:276-296 | one operation, whether its load succeeds or fails, answers as the in-memory store does behind a door that the first load of a process opens or shuts |
| `EnrollmentRecords.EncryptedRefinesInMemory` | broker/src/enrollment-record-store.ts:194-217 | from any file that decodes, or from none at all, over any operations, failed loads, failed writes and restarts, the encrypted store answers as the in-memory store does in every process that loads it and with the load's error in every other, and its file decodes to the last saved map |
| `EnrollmentRecords.FirstStart` | broker/src/enrollment-record-store.ts:241-296 | with no file yet nothing is found or revoked, and a first record is recorded and alone in the file |
| `EnrollmentRecords.MemoryLaws` | broker/src/enrollment-record-store.ts:194-217 | a record is found exactly as given until it is given again, and a revoke flags it and changes nothing else |
| `EnrollmentRecords.ParsedIff` | broker/src/enrollment-record-store.ts:154-191 | an entry is read as a device exactly when the device is storable and the entry has the six fields that printing it writes |
| `EnrollmentRecords.StoredListIff` | broker/src/enrollment-record-store.ts:154-191 | a decrypted text holds a list of devices exactly when it is an object whose `records` all read as those devices |
| `EnrollmentRecords.LaterEntriesWin` | broker/src/enrollment-record-store.ts:273 | of several entries for one pairing the last one counts |
| `EnrollmentRecords.DecodeAnswers` | broker/src/enrollment-record-store.ts:241-274 | exactly which files load, a missing one as an empty store, and which error each other file gives |
| `EnrollmentRecords.FailsWithFirstError` | broker/src/enrollment-record-store.ts:235-296 | an operation fails exactly when its input, its load or its write does, with the error of the first of them |
| `EnrollmentRecords.FailedLoadStaysShut` | broker/src/enrollment-record-store.ts:235-274 | after a failed load no operation of that process reads a record, succeeds or touches the file |
| `EnrollmentRecords.UndecodableFileIsKept` | broker/src/enrollment-record-store.ts:241-296 | a file that does not decode is never overwritten, over any operations and restarts |
| `EnrollmentRecords.ErrorsAndTheFile` | broker/src/enrollment-record-store.ts:328-347 | the file becomes the new map exactly at a rename; an operation reports an error and yet changes the file exactly when what fails comes after the rename of a map the file did not hold |
| `EnrollmentRecords.FailedRecordIsKept` | broker/src/enrollment-record-store.ts:328-347 | the first record of an empty store is on disk although the operation failed |
| `EnrollmentRecords.EncryptedEnrollmentRecordStore.Load` | broker/src/enrollment-record-store.ts:235-274 | the map becomes exactly what the file decodes to, or stays empty and the store is shut with the error of the failing check |
| `EnrollmentRecords.EncryptedEnrollmentRecordStore.Values` | broker/src/enrollment-record-store.ts:319 | the list written holds exactly the records of the map |
| `EnrollmentRecords.EncryptedEnrollmentRecordStore.PersistFile` | broker/src/enrollment-record-store.ts:318-348 | the file then decodes to exactly the map, or is as it was when the write fails before its rename |
| `EnrollmentRecords.EncryptedEnrollmentRecordStore.FindDevice` | broker/src/enrollment-record-store.ts:276-280 | the answer and the state are those of the abstract store, loading included |
| `EnrollmentRecords.EncryptedEnrollmentRecordStore.RecordDevice` | broker/src/enrollment-record-store.ts:282-287 | the answer, the map and the decoded file are those of the abstract store for every outcome of load and write; a failed load leaves the file alone |
| `EnrollmentRecords.EncryptedEnrollmentRecordStore.RevokeDevice` | broker/src/enrollment-record-store.ts:289-296 | the same for a revoke, which writes only if the record is known |
| `BrokerServer.DurableNonceIssue` | broker/src/server.ts:211-223 | exactly when a nonce is issued, what is stored then, that a refusal stores nothing, and which refusal tells the device to wait |
| `BrokerServer.IssuedNonceOpensIff` | broker/src/server.ts:211-262 | a nonce just issued opens a lease exactly for its own pairing, in time, with a proof by the device's key, while the device is enrolled |
| `BrokerServer.DurableNonceUse` | broker/src/server.ts:230-262 | exactly when a nonce opens a lease; an attempt in another pairing's name leaves it, one that reaches the proof burns it |
| `BrokerServer.NonceAnswers` | broker/src/server.ts:211-223 | a nonce is refused as revoked, or the device told to wait, exactly under the stated conditions on the handshake and the record |
| `BrokerServer.LeaseAnswers` | broker/src/server.ts:230-262 | each refusal of a renewal, and its success with the device's encryption key, exactly under its condition |
| `BrokerServer.LeaseAttemptLeaves` | broker/src/server.ts:230-262 | an attempt burns its nonce exactly when the device is enrolled and the nonce is its own |
| `BrokerServer.BrokerServer.AllowPairAttempt` | broker/src/server.ts:149-162 | the loop and the counter decide as `Allow`, for which the bounds per window are proved |
| `BrokerServer.BrokerServer.IssueNonceFor` | broker/src/server.ts:211-223 | a nonce is issued to durably enrolled, unrevoked, unexpired devices alone, whatever order the checks see them in |
| `BrokerServer.BrokerServer.ConsumeNonceFor` | broker/src/server.ts:230-262 | the closure decides and burns as `ConsumeDurableNonce`, characterised by `DurableNonceUse` |
| `RateLimit.AdmittedPerWindow` | broker/src/server.ts:148-162 | on a clock that never runs back any interval of the window's length holds at most twice the limit less one admitted attempts of an address |
| `RateLimit.BoundIsMet` | broker/src/server.ts:148-162 | for every limit and window a run reaches that bound |
| `RateLimit.RefusalEarned` | broker/src/server.ts:154-161 | an attempt is refused only after the limit was admitted less than a window ago |
| `RateLimit.OthersDoNotCount` | broker/src/server.ts:148-162 | on a clock that never runs back an attempt is admitted exactly as if its address were alone |
| `LeaseManagers.StepKeepsInv` | src/auth/lease-manager.ts:130-233 | every step keeps the fields coherent |
| `LeaseManagers.EveryInterleavingIsCoherent` | src/auth/lease-manager.ts:130-233 | in every interleaving a token is held iff a lease is, the lease names the configured root and shares the token's expiry, and consent is pending iff a pairing expiry is known, with a pairing |
| `LeaseManagers.HeldValuesComeFrom` | src/auth/lease-manager.ts:130-233 | after every interleaving the held token, its expiry and scope are those of the lease last taken over since the last `clear`, and the pairing and its expiry those of the pairing last begun |
| `LeaseManagers.RenewalKeepsItsPairing` | src/auth/lease-manager.ts:191-208 | a renewal asks for the pairing held when it began, whatever is held when it goes on |
| `LeaseManagers.LeaseKeepsPairingIff` | src/auth/lease-manager.ts:184-187 | a step parts a held lease from its pairing exactly when a lease arrives after the pairing was dropped or a claim expires under a held lease |
| `LeaseManagers.AlwaysHasPairingIff` | src/auth/lease-manager.ts:130-233 | over a run a held lease always has a pairing exactly when no such step occurs |
| `LeaseManagers.LateLease` | src/auth/lease-manager.ts:130-204 | a renewal answered after `clear` leaves a lease without a pairing |
| `LeaseManagers.ExpiredClaimKeepsLease` | src/auth/lease-manager.ts:183-187 | a claim that expires while an earlier lease is held leaves that lease without a pairing |
| `LeaseManagers.AlwaysSharedIff` | src/auth/lease-manager.ts:191-195 | until the next `clear` all overlapping callers share one exchange exactly when no exchange outside the slot is still to run its `finally` |
| `LeaseManagers.SharedUntilFirstClear` | src/auth/lease-manager.ts:191-195 | from construction to the first `clear` no two exchanges are ever in flight together |
| `LeaseManagers.Unsharing` | src/auth/lease-manager.ts:191-195 | with a stale exchange left, a continuation without `clear` puts two exchanges of one session in flight |
| `LeaseManagers.StaleExchangeHappens` | src/auth/lease-manager.ts:130-208 | a run from construction leaves a stale exchange and ends with two exchanges of one session in flight |
| `LeaseManagers.OverlappingCallsJoin` | src/auth/lease-manager.ts:191-195 | with none stale, a caller joins the exchange in flight |
| `LeaseManagers.ReportIsCoherent` | src/auth/lease-manager.ts:98-114 | awaited consent is reported with its expiry and pairing, and a device not enrolled reports no expiry |
| `LeaseManagers.WaitStaysPendingIff` | src/auth/lease-manager.ts:26-29 | a step ends the wait of a newest enrollment that still polls exactly when it is one of those named in `CutsShort` |
| `LeaseManagers.WaitAlwaysPendingIff` | src/auth/lease-manager.ts:26-29 | over a run consent is pending whenever the newest enrollment polls exactly when no such step occurs |
| `LeaseManagers.WaitCutShort` | src/auth/lease-manager.ts:203-230 | a renewal of the old pairing answered while a new one waits for consent reports the device as enrolled |
| `LeaseManagers.LeaseManager.ClearAll` | src/auth/lease-manager.ts:130-139 | `clear` resets every field |
| `LeaseManagers.LeaseManager.ApplyLease` | src/auth/lease-manager.ts:220-233 | a lease for another root changes nothing; one for this root sets the token, its expiry and the view to those of the payload and ends the wait for consent |
| `LeaseManagers.LeaseManager.Paired` | src/auth/lease-manager.ts:148-156 | a pairing reply starts the wait for consent |
| `LeaseManagers.LeaseManager.GiveUpClaiming` | src/auth/lease-manager.ts:183-187 | an expired claim drops the pairing and keeps the lease |
| `LeaseManagers.LeaseManager.Claimed` | src/auth/lease-manager.ts:157-168 | a claimed lease is applied or everything is cleared |
| `LeaseManagers.LeaseManager.AbortEnroll` | src/auth/lease-manager.ts:161-168 | an enrollment that aborts after pairing clears |
| `LeaseManagers.LeaseManager.RefreshLease` | src/auth/lease-manager.ts:191-200 | a caller joins the promise in the slot or starts an exchange and puts it there |
| `LeaseManagers.LeaseManager.LeaseArrived` | src/auth/lease-manager.ts:203-204 | a lease reply is applied whatever has happened to the pairing meanwhile |
| `LeaseManagers.LeaseManager.RenewalFailed` | src/auth/lease-manager.ts:205-208 | a renewal refused as revoked or expired clears, any other failure changes no field |
| `LeaseManagers.LeaseManager.RenewalFinally` | src/auth/lease-manager.ts:193 | the callback empties the slot, whoever holds it |
| `LeaseManagers.LeaseManager.HeldToken` | src/auth/lease-manager.ts:212-215 | a token handed out without a renewal belongs to a held lease on the configured root that outlasts the lead time |
| `ClaimPolling.ClaimUntilAuthorized` | src/auth/lease-manager.ts:171-188 | the loop never claims at or after the expiry nor more often than its bound, gives up early exactly when all bounded attempts were pending, and never so when every sleep advances the clock by its interval and the clock had gone back by at most one interval before the first attempt |
| `ClaimPolling.BoundIsLeast` | src/auth/lease-manager.ts:172 | the bound on attempts is the least number, at least one, whose sleeps in between cover the time left until the expiry |
| `ClaimPolling.PollingGivesUpEarly` | src/auth/lease-manager.ts:171-188 | clocks exist on which polling gives up before the expiry: one that sleeps do not advance, and one that advances but was set back before the first attempt |
| `WriteQueue.StepKeepsInv` | src/settings-write-queue.ts:14-24 | every step keeps the queue in order and the newest revision undropped |
| `WriteQueue.WritesAreSerial` | src/settings-write-queue.ts:14-24 | writes never overlap and start in the order of their revisions |
| `WriteQueue.IdleMeansNewestWritten` | src/settings-write-queue.ts:14-24 | whenever the queue is idle the last write started is that of the newest snapshot, and if it succeeded that snapshot is stored |
| `WriteQueue.DroppedOnlyForNewer` | src/settings-write-queue.ts:20 | a dropped revision had its turn when a newer one was already enqueued |
| `WriteQueue.NewestIsWritten` | src/settings-write-queue.ts:20-21 | a newest revision whose turn comes is written |
| `WriteQueue.WrittenIffNewest` | src/settings-write-queue.ts:19-21 | a revision is written exactly when it is the newest at its turn and dropped otherwise |
| `WriteQueue.LastWrittenIsStored` | src/settings-write-queue.ts:14-24 | what is stored is always the snapshot of the last write that succeeded |
| `WriteQueue.NeverStuck` | src/settings-write-queue.ts:17-22 | while a job is unsettled some job up to it can run or settle |
| `WriteQueue.FailuresStayAlone` | src/settings-write-queue.ts:18 | whether writes fail changes nothing else: the same events stay possible and the same revisions are started and dropped |
| `WriteQueue.LatestWriteQueue.Chain` | src/settings-write-queue.ts:14-24 | enqueueing takes the next revision and chains one waiting job behind all others |
| `WriteQueue.LatestWriteQueue.Continue` | src/settings-write-queue.ts:19-21 | a turn starts the write exactly when its revision is still the latest |
| `WriteQueue.LatestWriteQueue.Finish` | src/settings-write-queue.ts:21 | a write settles its own job alone |
| `CachePublish.Base36Injective` | src/core/atomic-cache-write.ts:30 | distinct serial numbers print differently in base 36 |
| `CachePublish.Base36Reads` | src/core/atomic-cache-write.ts:30 | the digits printed are 0 to 9 and a to z and stand for the number |
| `CachePublish.TemporaryIsBeside` | src/core/atomic-cache-write.ts:24-33 | a temporary file is a hidden one in the directory of its destination, with its name in it |
| `CachePublish.TemporaryPathsDiffer` | src/core/atomic-cache-write.ts:24-33 | temporary paths of distinct serial numbers differ, whatever their destinations and clocks |
| `CachePublish.StepKeepsInv` | src/core/atomic-cache-write.ts:41-72 | every step of every publisher keeps all publishers' files apart |
| `CachePublish.NothingIsClobbered` | src/core/atomic-cache-write.ts:53-58 | a file under an ordinary name keeps its bytes for the rest of the run |
| `CachePublish.PublishingIsExclusive` | src/core/atomic-cache-write.ts:41-72 | a successful publisher has exactly its bytes at its destination, no two make the same destination, and an ended one leaves no temporary file unless its removal failed |
| `CachePublish.UndisturbedPublishSucceeds` | src/core/atomic-cache-write.ts:41-63 | where nothing fails, publishing ends with the bytes at the destination and every other file as it was |
| `CachePublish.PublishSucceedsPastTakenPaths` | src/core/atomic-cache-write.ts:24-63 | however many temporary paths are taken, the loop finds a free one and publishing succeeds where nothing fails |
| `CachePublish.TakenDestinationIsRefused` | src/core/atomic-cache-write.ts:42-55 | a publisher that finds its destination taken ends at once at its first check, and at its second cleans up without asking for the copy |
| `CachePublish.Publishing.NextTemporaryPath` | src/core/atomic-cache-write.ts:28-31 | each pass of the loop takes a new serial number |
| `CachePublish.Publishing.ResumeProbe` | src/core/atomic-cache-write.ts:41-46 | a step up to a free temporary path is that of the interleaving model: an existing destination or a failing adapter ends it with nothing to clean |
| `CachePublish.Publishing.ResumeWrite` | src/core/atomic-cache-write.ts:47-71 | a step of the try block or its cleanup is that of the interleaving model, for every way the adapter can fail or stop short |
| `RootScope.DriveRootScope.IsWithinRoot` | src/drive/root-scope.ts:75-87 | the walk ends on every map and answers exactly whether the root is on the chain of parents of a valid id |
| `RootScope.DriveRootScope.AssertWithinRoot` | src/drive/root-scope.ts:89-92 | exactly the ids in scope pass |
| `RootScope.DriveRootScope.RegisterChildren` | src/drive/root-scope.ts:67-73 | nothing changes under a folder out of scope; otherwise each child before the first invalid id gets the folder as parent and every other entry is as it was; an error tells exactly that something was refused |
| `RootScope.ListingRegisters` | src/drive/root-scope.ts:67-73 | the same of the specified step, in terms of the list of children alone |
| `RootScope.DriveRootScope.FinishResolve` | src/drive/root-scope.ts:57-63 | the root is set exactly when one valid folder matches |
| `RootScope.RootOfIff` | src/drive/root-scope.ts:57-61 | a lookup yields a root exactly when one entry and no other matches by name and type and its id is valid; not found, ambiguous and invalid are each told exactly when they apply |
| `RootScope.NeverReaches` | src/drive/root-scope.ts:82 | a repeated id on the walk means that the root is never met |
| `RootScope.ListingKeepsTreeIff` | src/drive/root-scope.ts:67-73 | a list of children keeps everything registered under the root exactly when it puts no folder under itself or below itself |
| `RootScope.ListingKeepsScopeIff` | src/drive/root-scope.ts:67-87 | a listing of an in-scope folder keeps every registered id in scope exactly when it is orderly in that sense |
| `RootScope.LookupKeepsScopeIff` | src/drive/root-scope.ts:55-87 | a lookup answered while a root is known keeps everything in scope exactly when its folder is the root or above it, or lies between the root and every registered id |
| `RootScope.StepKeepsScopeIff` | src/drive/root-scope.ts:55-87 | any event keeps everything in scope exactly under the condition of its kind |
| `RootScope.AlwaysInScopeIff` | src/drive/root-scope.ts:55-87 | over a run everything registered stays in scope exactly when every event meets its condition |
| `RootScope.RegisteredStaysInScope` | src/drive/root-scope.ts:55-87 | an id once registered is still registered and in scope after any further events that meet their conditions |
| `RootScope.SecondLookupReplacesRoot` | src/drive/root-scope.ts:55-64 | when two first lookups overlap, the later answer can replace the root and put a registered id out of scope |
| `RootScope.SelfListingLosesScope` | src/drive/root-scope.ts:67-73 | a folder listed under itself goes out of scope |
| `Base64Url.ToBase64Url` | src/auth/device-identity.ts:52-66 | for every byte string the loop writes the text whose sextets carry the bits of the bytes |
| `Base64Url.FromBase64Url` | src/auth/device-identity.ts:68-85 | every text outside the alphabet is refused and every other one gives the bytes its sextets carry, although the accumulator wraps at 32 bits |
| `Base64Url.ReadSymbols` | src/auth/device-identity.ts:74-84 | over a text of the alphabet the loop ends with the bytes its sextets carry: the 32-bit accumulator loses old bits alone |
| `Base64Url.Accumulate` | src/auth/device-identity.ts:77-82 | one pass pushes the byte that the last two sextets complete, whatever older bits the word holds |
| `Base64Url.DecodeInvertsEncode` | src/auth/device-identity.ts:52-85 | every byte string survives encoding and decoding |
| `Base64Url.EncodeInvertsDecodeIff` | src/auth/device-identity.ts:52-85 | a text survives decoding and encoding exactly when its length is not 1 modulo 4 and its unused bits are zero |
| `Base64Url.SextetsCarryTheBits` | src/auth/device-identity.ts:56-64 | the encoding carries the very bits of the bytes and as few zeros after them as sixes allow |
| `Base64Url.OctetsCarryTheBits` | src/auth/device-identity.ts:74-83 | the decoded bytes carry the very bits of the text from the first on, with less than a byte left over |
| `Base64Url.AlphabetIsSymbols` | src/auth/device-identity.ts:49 | the arithmetic symbols are the entries of the alphabet |
| `BatchObjects.BatchObjects` | scripts/identity_scan.py:160-174 | on every stream, whatever its headers decode to, the method gives the objects at the front up to the end or the first header without three fields, raises exactly where a size is no number, and tells a size that moves it back |
| `BatchObjects.ReadAll` | scripts/identity_scan.py:162-174 | the loop does the same for any way of reading the entry at a position that agrees with the one at the front of a stream |
| `BatchObjects.ReadEntry` | scripts/identity_scan.py:162-172 | one pass finds at its position what the front of the remaining stream holds: header fields cut at Python's white space, a size with sign and underscores, the payload and the next position |
| `BatchObjects.ParseInvertsPrint` | scripts/identity_scan.py:160-174 | parsing what git prints for any objects returns exactly those objects, whatever their payloads contain |
| `BatchObjects.StopsAtMissing` | scripts/identity_scan.py:167-169 | a two-field header ends the parse with exactly the objects before it |
| `BatchObjects.StopsAtOtherHeader` | scripts/identity_scan.py:162-169 | any other header that is not of three fields, and a last line that is cut short, end the parse with exactly the objects before them |
| `BatchObjects.PrintIsInjective` | scripts/identity_scan.py:160-174 | distinct lists of objects have distinct streams |
| `BatchObjects.SizeRoundTrip` | scripts/identity_scan.py:170 | a printed size is read back |
| `BatchObjects.WordThenBlanks` | scripts/identity_scan.py:165 | white space of any length and kind separates the fields of a header and is part of none |
| `BatchObjects.DigitsIff` | scripts/identity_scan.py:170 | exactly the non-empty texts of digits with single inner underscores are numbers, and the underscores do not matter |
| `BatchObjects.SignedSize` | scripts/identity_scan.py:170 | one sign before the digits is read, a second is refused |
| `BatchObjects.OddSizes` | scripts/identity_scan.py:166-173 | after any objects, a size that is no number raises, one beyond the end takes what there is, and a negative one that leads back to its header is told |

## Left out

- HTTP servers, routing, limits on the size and type of requests, file modes, directory ownership and fetch transports: their outcomes are parameters of the steps, or absent.
- Google's replies and the refresh-token store: a token exchange succeeds or fails, and a mint delivers or does not, freely.
- A lease that is already being minted when a revoke lands may still be delivered; revocation is stated for callbacks, approvals, claims, nonces and renewals.
- Overlapping `persist` calls, where an older snapshot could be renamed last.
- ProtocolTheorems.RevocationIsPermanent: speaks of a revoke from the moment its record write has completed, before the refresh-token store is cleared, so it also covers a revoke whose clearing then fails.
- ProtocolCompletion.HonestDeviceIsLeased: no restart falls into the visit, since a restart forgets codes and pairings; renewals are carried across restarts by `ProtocolCompletion.RenewalAfterRestart`.
- Status codes and error texts: the handlers return the stores' answers, and what is sent for a failed write or mint is left out.
- A failing `authorizationUrlFor` callback after the pairing has been stored.
- The client signs the text of a nonce while the broker verifies over its decoded bytes; each side keeps its own message, and renewal with client and broker joined is not stated.
- Case mapping and separators outside ASCII in retyped codes are a parameter of `EnrollmentCodes.Normalise`.
- The calls of `onEnrollment`, the settings tab, the browser view and everything in `main.js`, which is not part of this model.
- ClaimPolling.ClaimUntilAuthorized: expiries and clock readings are finite reals; NaN and infinities are left out.
- BatchObjects.BatchObjects: a negative size that moves the parser back is told as `Rewinds`; what the source goes on to do there, which may be to repeat an entry forever, is not followed. The limit that newer Python versions put on the digits `int` accepts is left out.
- `resolveRelativePath`, `describeRejection`, PEM wrapping, key generation and sealing, the admin token check and the metadata counters add no hard property.
