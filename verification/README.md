# A model of SAG, the Smart Access Gateway

SAG is a stateless OpenID Connect gateway. The browser carries the state of a sign-in in sealed
tokens; the server keeps a small claim-and-counter store and, optionally, a directory of local
identity records. This project models the parts whose correctness is hard to see from one function
and proves what they promise, for all inputs and all runs.

`dafny verify dfyconfig.toml` checks everything.

**The sign-in protocol** (`Protocol`, `ProtocolInvariant`, `ProtocolStore`, `ProtocolSafety`,
`ProtocolDecoys`, `ProtocolRuns`, `ProtocolProgress`, with `Acr`, `Session`, `Transaction`,
`Identity`, `Otp`, `OtpDigestInput`). A transition system: the state records every transaction, upstream state, session and code ever
sealed, and a step may present any of them, in any order and any number of times. Few handlers look at the stage of a transaction, so
the theorems rest on an invariant over every sealed value; one part of it is that a code screen
whose acr demand rules codes out is always a decoy. Evidence (codes mailed, provider answers,
passwords) is recorded as history, and codes are related to it. What the flow must let happen is
stated too, from the request to the exchanged code with anything in between, since safety alone
would hold of a gateway that refuses everybody.

**The store** (`ClaimStore`, `CounterStore`, `MemoryStore`, `Limits`, `Backends`, `ClaimUses`). The memory store
is a class whose loops are proved against specification functions; attempt limits are proved over
runs with arbitrary other traffic; memory, DynamoDB and Durable Objects refine one claim promise,
from which follows exactly when a code or an assertion could be used a second time.

**Local identities** (`LocalRecords`, `RecordSize`, `RetainedTokens`, `Totp`, `SecondFactor`,
`RecordStore`, `RecordHistory`, `RecordSafety`, `LocalSignIn`, `Semaphore`, `Rekey`,
`RekeyDirectory`). The strict parser and the
stored form; the promise-chain lock and the revision compare-and-swap as tasks that interleave at
each `await`; flow, record and limits run together; the permit-passing semaphore; re-sealing of
retained credentials.

**Caches and codecs** (`Peers`, `ClientCache`, `Bits`, `Rfc4648`, `Base64Url`, `Base32`, `UpperCase`, `Der`,
`QuotedPrintable`, `Releases`).

## What is idealised

- Sealing: only values that were sealed can be opened, for the purpose they were sealed for. Keyed
  digests and subject derivations are injective; random identifiers are new.
- Each protocol handler is one step at one clock reading. The record store and the caches, where
  interleaving is the point, are modelled at each `await`, and `ClaimUses` takes the readings before
  a claim apart.
- In honest runs a one-time code is new when generated and, once generated, known only from a mail.
- The clock does not run backwards.
- What the model cannot compute (DNS hints, mail acceptance, provider replies, Argon2 verification,
  HMAC codes, disk errors) is an input or a function parameter, and theorems hold for all of it.

## Where the code is not what one might expect

- An authenticator secret is bounded as written, before `toUpperCase`, which turns one sharp s into
  two letters and a ligature into two or three. The canonical form that is stored can then be longer
  than the parser accepts: the first update of the record, or a re-sealing sweep, makes it
  unreadable. `LocalRecords.ParseStoreParse` gives the exact condition (257 cleaned characters),
  `LongSecretIsLost` the inputs, and the rekey theorems say which records a sweep loses.
- A refresh credential is bounded by 16384 characters when stored, the file by 64 KiB when written,
  and the ciphertext by 32768 characters when parsed. A credential that passes the first two and not
  the third makes its own record unreadable (`RetainedTokens.RetainedTokenReadsBackIff`,
  `QuotesLoseTheRecord`).
- A peer's key is dropped for a `d` or a `k` only. An RSA entry that carries `p`, `q` or `dp` without
  a `d` is passed on (`Peers.PassedOnIff`).
- A hard-broken quoted-printable line may have 77 characters, one more than section 6.7 of RFC 2045
  allows: exactly when a line of the input ends in a space in column 75 (`QuotedPrintable.OverlongIff`).
- A sign-out in the very second of a session's absolute cap writes no marker
  (`ProtocolSafety.SignOutEndsSessionIff`).
- A client assertion is validated, its claim measured and the claim made at three readings of the
  clock. It can be accepted twice exactly when the second acceptance was validated in time and
  reaches the store after the window (on Durable Objects, in its last second already):
  `ClaimUses.SecondAcceptanceIff`. For a code the same needs a whole minute
  (`ClaimUses.SecondExchangeIff`).
- A deployment that keeps quiet about addresses nothing serves shows them a code screen whatever the
  request demands, and a guessed code is taken. Every code meets its acr demand in every run exactly
  when no address gets such a decoy (`ProtocolDecoys.DemandsAlwaysMetIff`); when codes are not
  guessed it does anyway (`ProtocolSafety.HonestRunsMeetEveryDemand`).
- docs/state-and-limits.md describes second-factor attempts as limited by address only; the code
  counts the network bucket for them too, and the model follows the code.
- A peer's back-off counts from the start of the failed fetch, not from its failure
  (`Peers.SecondFetchIff`).

## Model

| member | source | states |
|---|---|---|
| `Acr.RequiresFederationIffOtpFails` | src/acr.js:108-119 | for every list of requested values, federation is required exactly when an email-code context would not satisfy the list |
| `Acr.OtpSatisfiesIff` | src/acr.js:87-106 | exactly which lists an email-code context satisfies |
| `ClaimStore.ClaimKeepsBound` | src/store/index.js:58-75 | the claims map never exceeds maxEntries |
| `ClaimStore.ClaimFrame` | src/store/index.js:58-75 | a claim drops only expired records and writes only its own |
| `ClaimStore.HasFrame` | src/store/index.js:76-85 | a lookup drops only an expired record |
| `ClaimStore.FullMeansLive` | src/store/index.js:58-75 | the store reports being full only when maxEntries live records remain after sweeping |
| `CounterStore.VictimIsOldestUnprotected` | src/store/index.js:86-122 | the eviction loop picks the oldest counter that is not fail-closed, skipping protected ones, and fails only if all are protected |
| `CounterStore.MakeRoomKeeps` | src/store/index.js:86-122 | sweeping and eviction keep every live protected counter and invent nothing |
| `CounterStore.IncrementKeepsBound` | src/store/index.js:86-122 | the counters map never exceeds maxEntries |
| `CounterStore.ProtectedSurvives` | src/store/index.js:86-122 | a live protected counter survives every increment of any other key, with its count |
| `CounterStore.NothingInvented` | src/store/index.js:86-122 | an increment changes no other counter |
| `CounterStore.ThrowsIff` | src/store/index.js:86-122 | increment throws exactly when the key is not live and the map is full of live protected counters |
| `MemoryStore.SweepTable` | src/store/index.js:48-57 | the in-place sweep loop leaves exactly the live records |
| `MemoryStore.MemoryStore.constructor` | src/store/index.js:41-47 | an empty store |
| `MemoryStore.MemoryStore.SweepClaims` | src/store/index.js:48-57 | the claims map becomes its live part |
| `MemoryStore.MemoryStore.Claim` | src/store/index.js:58-75 | outcome and new map equal the claim specification; counters untouched |
| `MemoryStore.MemoryStore.Has` | src/store/index.js:76-85 | answer and new map equal the specification |
| `MemoryStore.MemoryStore.SweepCounters` | src/store/index.js:48-57 | the counters map becomes its live part |
| `MemoryStore.MemoryStore.EvictOldest` | src/store/index.js:100-115 | the loop removes exactly the oldest unprotected counter, or reports that there is none |
| `MemoryStore.MemoryStore.Increment` | src/store/index.js:86-122 | count, error and new map equal the counter specification; claims untouched |
| `Limits.CheckLocalAuthAllowed` | src/store/limits.js:105-140 | network bucket first, then the address bucket; a full store denies; new counters equal the specification |
| `Limits.AllowedBound` | src/store/limits.js:105-140 | from any bounded table, allowed attempts plus the count used never pass the limit |
| `Limits.AllowedIff` | src/store/limits.js:105-140 | an attempt is allowed exactly when the network bucket, if counted, and then the address bucket have room |
| `Limits.AttemptsAreLimited` | src/store/limits.js:105-140 | over every run with arbitrary other traffic, at most maxAttempts attempts are allowed per mailbox, factor and window bucket |
| `Backends.MemoryRefines` | src/store/index.js:58-85 | every run of the memory store keeps two successful claims of one id strictly more than ttl apart |
| `Backends.DynamoRefines` | src/store/index.js:205-278 | the same for the conditional writes, with counters in the same table and lazy deletion |
| `Backends.DurableRefines` | adapters/cloudflare/state-do.js:33-70 | the same, at least ttl apart, for identifiers that are never counted, with the one alarm of each object firing at any allowed moment |
| `Backends.CountingLosesAClaim` | adapters/cloudflare/state-do.js:41-66 | the restriction is needed: a first count on a claimed object replaces its alarm and the claim is lost |
| `Backends.MemoryRefusalsHaveACause` | src/store/index.js:58-75 | the memory store calls an id taken only while an earlier successful claim of it has not run out |
| `Backends.DynamoRefusalsHaveACause` | src/store/index.js:205-235 | the same for DynamoDB, with its minute at the low end |
| `Backends.EveryBackendSpacesClaims` | src/store/index.js:135-278 | all three backends, started empty, keep the one claim promise over every run |
| `ClaimUses.MemorySecondUseIff` | src/store/index.js:58-75 | with readings of the clock at opening, measuring and claiming, some run uses a value twice if and only if the second use was opened in time and reached the store after the claim ran out |
| `ClaimUses.DynamoSecondUseIff` | src/store/index.js:205-235 | the same condition for DynamoDB |
| `ClaimUses.DurableSecondUseIff` | adapters/cloudflare/state-do.js:57-70 | the same for Durable Objects, where the due second itself is late enough because the alarm may fire first |
| `ClaimUses.SecondExchangeIff` | src/oauth/code.js:74-114 | exactly when a code can be exchanged again with each backend; it needs the whole minute of slack between opening and claiming |
| `ClaimUses.SecondAcceptanceIff` | src/oauth/clientauth.js:160-190 | exactly when an assertion can be accepted again with each backend: validated in time, in the store after exp + skew |
| `OtpDigestInput.JoinIsInjective` | src/otp.js:67-70 | the hashed text determines transaction, address and code, whatever the address contains |
| `Otp.Consume` | src/otp.js:39-43 | one batch of random bytes, cut off at the wanted length |
| `Otp.GenerateCode` | src/otp.js:35-46 | the nested loops yield the first accepted symbols |
| `Otp.SamplingIsUnbiased` | src/otp.js:28-46 | every symbol is selected by equally many accepted byte values |
| `Otp.DisplayedCodeReadsBack` | src/otp.js:119-124 | a generated code survives folding, as generated and as displayed |
| `ProtocolInvariant.RespondOk` | src/endpoints/authorize.js:113-1063 | whatever sealed values are presented, in any order, a handler seals only values that keep the invariant |
| `ProtocolInvariant.DecideOk` | src/endpoints/authorize.js:113-155 | a session answers a request only if fresh enough and strong enough |
| `ProtocolInvariant.SendOtpOk` | src/endpoints/authorize.js:434-521 | every branch of sending a code, the rate-limited one included, seals a transaction in order |
| `ProtocolInvariant.StartUpstreamOk` | src/endpoints/authorize.js:798-811 | an unreachable provider falls back to a code only where codes can satisfy the request |
| `ProtocolInvariant.OtpSubmitOk` | src/endpoints/authorize.js:541-602 | a completing code was generated for this transaction and address; a failed one changes the attempt count and nothing else |
| `ProtocolInvariant.CompleteLocalOk` | src/endpoints/authorize.js:735-761 | a local sign-in carries exactly its own identity, claims and context, keeps the cap of a reused session |
| `ProtocolInvariant.PasswordOk` | src/endpoints/authorize.js:612-674 | a password leads to a second-factor screen or a code only if the resulting context meets the request |
| `ProtocolInvariant.MfaOk` | src/endpoints/authorize.js:676-733 | a second factor completes only after a password for the same identity in the same transaction |
| `ProtocolInvariant.CallbackOk` | src/endpoints/authorize.js:831-962 | an upstream answer completes only with a sufficient context, and never inherits another principal's session |
| `ProtocolInvariant.FallbackOk` | src/endpoints/authorize.js:974-1016 | each recovery screen after a failed provider keeps the request and its deadline, and drops code state and local identity |
| `ProtocolInvariant.ContinueOk` | src/endpoints/authorize.js:773-796 | continuing re-checks freshness and context |
| `ProtocolInvariant.NewCodeGood` | src/endpoints/authorize.js:1025-1050 | a minted code shows exactly the evidence and the request it rests on |
| `ProtocolInvariant.StepKeepsInv` | src/endpoints/authorize.js:69-1070 | every step of the flow keeps the invariant over all sealed values |
| `ProtocolStore.TokenKeepsStore` | src/oauth/code.js:74-114 | a redemption leaves its claim alive for as long as the code could be presented again |
| `ProtocolStore.LogoutKeepsStore` | src/endpoints/logout.js:146-160 | a completed sign-out leaves a marker that lives as long as any copy of the session |
| `ProtocolStore.RevokeEachMarks` | src/session.js:161-177 | revoking every presented session marks each one that is still readable, and disturbs no other record |
| `ProtocolStore.FreshMeansUnredeemed` | src/oauth/code.js:104-112 | if the store grants the claim, that code was never redeemed before |
| `ProtocolStore.StepKeepsStore` | src/endpoints/token.js:9-75 | every step keeps single use and revocation |
| `ProtocolStore.StepKeepsRedemptions` | src/oauth/code.js:74-107 | every step keeps each redemption tied to a minted code whose checks passed, with or without a store |
| `ProtocolSafety.CodesMeetTheirDemand` | src/endpoints/authorize.js:113-1063 | in every run each code meets the acr demand and max_age of its own request, or rests on the decoy screen of an address nothing serves |
| `ProtocolDecoys.DemandsAlwaysMetIff` | src/endpoints/authorize.js:405-427 | over all runs, whatever is guessed, every code meets its demand if and only if no address the form passes on is shown a decoy |
| `ProtocolDecoys.DemandsAlwaysMetForAddressesIff` | src/endpoints/authorize.js:338-352 | the same with the form of the gateway: unless decoys are off, if and only if every address that looks like one is served |
| `Identity.AddressIff` | src/identity.js:17-81 | the form passes on exactly the addresses in normal form that look like one |
| `ProtocolDecoys.GuessedDecoyMissesItsDemand` | src/endpoints/authorize.js:338-427 | for every other configuration, a run that mints a code below its demand, through an address the form accepts |
| `ProtocolDecoys.ExplainingIsEnough` | src/endpoints/authorize.js:417-427 | explaining unknown addresses, or switching codes off, rules that out |
| `ProtocolSafety.HonestRunsMeetEveryDemand` | src/endpoints/authorize.js:434-602 | if codes are learnt only from mail, every code meets its demand, and an email-code sign-in was mailed to that address |
| `ProtocolSafety.FederationScreensAreDecoys` | src/endpoints/authorize.js:369-521 | a code screen whose demand rules codes out is always an undelivered decoy |
| `ProtocolSafety.CodesTraceToEvidence` | src/session.js:57-110 | each code speaks for exactly the principal of one recorded authentication; verified email needs a code or a provider; two factors need the password first |
| `ProtocolSafety.CodesAnswerTheirRequest` | src/oauth/transaction.js:37-129 | client, redirect URI, scope, nonce, challenge and more reach the code unchanged along every path |
| `ProtocolSafety.SessionsShareOneCap` | src/session.js:87-125 | all copies of one session share one absolute cap and expire by it |
| `ProtocolSafety.SignOutIsFinal` | src/endpoints/logout.js:146-160 | after a completed sign-out no copy of that session is ever read again |
| `ProtocolSafety.SignOutEndsSessionIff` | src/session.js:161-177 | a sign-out ends a readable session exactly when it comes before the very second of the cap |
| `ProtocolSafety.CodesAreSingleUse` | src/oauth/code.js:74-114 | over a whole run no code is exchanged twice |
| `ProtocolSafety.RedemptionsAreBound` | src/endpoints/token.js:22-52 | with or without a store, an exchange comes from the client and redirect URI that asked, with a verifier hashing to the challenge, in time |
| `ProtocolSafety.LocalCodesNeedCurrentRecord` | src/endpoints/token.js:36-52 | a disabled, deleted or re-versioned account neither gains nor redeems a code |
| `Protocol.RevokeCookies` | src/endpoints/logout.js:146-160 | the loop over cookies computes the specification; a full store stops it with an error |
| `ProtocolRuns.UnpresentedIsUnspent` | src/oauth/code.js:108-111 | whatever else happens, only presenting a code spends it |
| `ProtocolRuns.UnsignedOutIsUnmarked` | src/session.js:161-177 | whatever else happens, only signing a session out marks it |
| `ProtocolProgress.UnspentIsExchanged` | src/endpoints/token.js:22-52 | whatever happens after minting, the first timely presentation by the client is honoured |
| `ProtocolProgress.PasswordSignInWorks` | src/endpoints/authorize.js:612-674 | request, address, password, exchange, with anything in between, for an account that needs one factor |
| `ProtocolProgress.SecondFactorSignInWorks` | src/endpoints/authorize.js:612-761 | request, address, password, second factor, exchange, while the record stays the same |
| `ProtocolProgress.ProviderSignInWorks` | src/endpoints/authorize.js:798-962 | request, address, redirect, provider's answer, exchange |
| `ProtocolProgress.SilentSignInWorks` | src/endpoints/authorize.js:113-148 | any session not signed out answers a silent request within its lifetimes, and the code is exchanged |
| `ProtocolProgress.SignedInOnceAnswersSilently` | src/endpoints/authorize.js:541-602 | a sign-in by code, then anything but a sign-out, then a silent request for the same person, exchanged |
| `ProtocolProgress.ContinueSignInWorks` | src/endpoints/authorize.js:773-796 | consent request, shown account, continue, exchange, with anything but a sign-out in between |
| `ProtocolProgress.EmailCodeSignInWorks` | src/endpoints/authorize.js:338-602 | request, address, mailed code, exchange, with anything in between |
| `LocalRecords.ParsedIsWellFormed` | src/local-identities/index.js:87-258 | what every accepted record satisfies; its canonical secrets are not bounded, because upper case may lengthen what was written |
| `LocalRecords.StoredFormParsesBack` | src/local-identities/index.js:261-279 | a written record reads back as itself, or not at all exactly when a retained credential or a canonical secret is too long |
| `LocalRecords.ParseStoreParse` | src/local-identities/index.js:192-279 | parsing the stored form of anything parsed gives it back if and only if every secret, cleaned, has at most 257 characters; otherwise nothing |
| `LocalRecords.LongSecretIsLost` | src/local-identities/index.js:105-111 | a secret of 129 to 256 sharp s is accepted and its stored form never is |
| `LocalRecords.UpdateKeepsShape` | src/local-identities/index.js:363-374 | every update keeps the account, its policy flag and every structural rule |
| `LocalRecords.UpdateReadsBackIff` | src/local-identities/index.js:363-374 | after an update the file reads back exactly, unless an over-long credential was retained or a secret had outgrown its bound |
| `LocalRecords.UpdatesKeepRecord` | src/local-identities/index.js:363-416 | over any sequence of updates id, security version, password and claims stay, and a second-factor requirement is never lost; whether the file reads back is decided by the secrets at the start |
| `RetainedTokens.RetainedTokenReadsBackIff` | src/local-identities/index.js:441-460 | storing a refresh credential makes a readable record unreadable if and only if the document is small enough to be written and the ciphertext, or a secret it already held, too long to be read |
| `RetainedTokens.QuotesLoseTheRecord` | src/local-identities/index.js:441-460 | for every small account with one plain link, a token of 16384 quotation marks is accepted, written, and the record lost |
| `RetainedTokens.HugeTokenChangesNothing` | adapters/node/local-identities.js:302-320 | 16384 control characters make a file the adapter refuses, and the old record stays |
| `RecordSize.TokenIsPartOfFile` | adapters/node/local-identities.js:302-320 | a retained credential is no longer than the file that holds it |
| `RetainedTokens.AcceptedTokenMayNotFit` | src/local-identities/index.js:441-460 | the writer's bound does not imply it: 16384 quotation marks are accepted and never fit |
| `RetainedTokens.PlainTokensFit` | src/local-identities/index.js:441-460 | with plain ASCII in every part an accepted credential always fits |
| `Totp.VerifyTotp` | src/local-identities/totp.js:86-102 | the loop returns the greatest matching unused step of the window |
| `Totp.Latest` | src/local-identities/totp.js:93-101 | the greatest acceptable step, or none if there is none |
| `Totp.AcceptedStep` | src/local-identities/totp.js:86-102 | an accepted step is in the window, produced the code and is above the marker |
| `SecondFactor.ChoiceIsJustified` | src/local-identities/index.js:376-416 | only factors the record holds and steps above the marker are chosen |
| `SecondFactor.RecoveryNeedsItsVerifier` | src/local-identities/index.js:376-393 | a code naming a recovery code is tried only as that one, with its own verifier |
| `SecondFactor.TotpChosenIff` | src/local-identities/index.js:395-414 | exactly which authenticator and step are chosen: the first, in order, that settles |
| `RecordStore.StepKeepsLock` | adapters/node/local-identities.js:515-530 | every interleaving keeps the order and exclusiveness of the promise chain |
| `RecordHistory.StepKeepsHistory` | adapters/node/local-identities.js:560-578 | every interleaving keeps the version chain, the file and the snapshots in agreement |
| `RecordHistory.WriterIsCurrent` | adapters/node/local-identities.js:564-566 | a task that passes the revision test holds the newest version |
| `RecordSafety.MutualExclusion` | adapters/node/local-identities.js:515-530 | at most one task is between entering and releasing, in every schedule |
| `RecordSafety.LockServesInOrder` | adapters/node/local-identities.js:515-530 | whoever entered was preceded only by tasks that have released |
| `RecordSafety.LockTableIsTight` | adapters/node/local-identities.js:526-529 | the shared lock table has an entry exactly while a task has not released |
| `RecordSafety.NoDeadlock` | adapters/node/local-identities.js:515-530 | while anybody waits, somebody can move |
| `RecordSafety.NoLostUpdate` | adapters/node/local-identities.js:560-578 | each version is its predecessor with one justified update and the next revision, written by a task that had read it |
| `RecordSafety.RefusedOnlyIfStale` | adapters/node/local-identities.js:564-566 | the compare-and-swap is refused only if a newer version exists |
| `RecordSafety.UncontendedUpdateSucceeds` | adapters/node/local-identities.js:560-578 | a request that meets nobody else succeeds and leaves the lock free |
| `RecordSafety.AccountOutlivesEveryRun` | src/local-identities/index.js:363-416 | no schedule changes the account or drops its second-factor requirement |
| `RecordSafety.RecoveryCodesWorkOnce` | src/local-identities/index.js:376-393 | under every schedule a recovery code is accepted at most once |
| `RecordSafety.StepsStrictlyIncrease` | src/local-identities/index.js:395-413 | accepted steps per seed strictly increase, under whichever credential id |
| `RecordSafety.StepsWorkOnce` | src/local-identities/index.js:395-413 | no two requests are accepted for one authenticator and step |
| `LocalSignIn.SubmissionsAreLimited` | src/endpoints/authorize.js:612-700 | over every run of flow, record and limits together, at most maxAttempts passwords or second factors of one mailbox and window reach their handler with the limits' consent |
| `LocalSignIn.OneFactorOneSignIn` | src/endpoints/authorize.js:676-733 | over every run of the three together, each second-factor authentication of a mailbox rests on its own accepted update, no two on the same recovery code or authenticator and step |
| `Semaphore.Semaphore.constructor` | adapters/node/local-identities.js:69-76 | all permits free, nobody waiting |
| `Semaphore.Semaphore.Acquire` | adapters/node/local-identities.js:87-98 | granted, queued or busy, with the whole new state; permits conserved |
| `Semaphore.Semaphore.Release` | adapters/node/local-identities.js:100-104 | the permit goes to the first waiter, or is returned |
| `Semaphore.RunKeepsInv` | adapters/node/local-identities.js:68-105 | every run keeps active equal to the holders and within the limit; waiting implies all permits are out; waiters woken in order |
| `Semaphore.WaiterServedInTurn` | adapters/node/local-identities.js:87-104 | the waiter in place k is handed a permit by release k + 1, not sooner |
| `Rekey.RekeyLinks` | src/local-identities/index.js:462-480 | fails exactly if some credential does not open; otherwise each link is rekeyed and changed says whether any was stale |
| `Rekey.RekeyLinkKeeps` | src/local-identities/index.js:281-303 | a rekeyed link keeps its token, its size and everything but the ciphertext, and opens with the current secret |
| `Rekey.RekeyedRecordKeeps` | src/local-identities/index.js:462-485 | the rekeyed record is well formed, equivalent, and current |
| `RekeyDirectory.Directory.RekeyRecord` | src/local-identities/index.js:462-485 | one file is replaced exactly when something was stale; an error leaves it |
| `RekeyDirectory.Directory.RekeyNext` | src/local-identities/index.js:491-496 | one file of the sweep and its counter |
| `RekeyDirectory.Directory.RekeyAll` | src/local-identities/index.js:487-498 | files and report equal the sweep specification; the first error stops it |
| `RekeyDirectory.NothingIsLost` | src/local-identities/index.js:487-498 | at every point of the sweep each sound record (short secrets, or nothing to re-seal) is equivalent and every token opens under the configured secrets; any other is untouched or lost |
| `RekeyDirectory.CompletedNeedsOnlyTheCurrentSecret` | src/local-identities/index.js:487-498 | on completion every token of a sound record opens under the current secret alone, and every other listed record is lost |
| `RekeyDirectory.SweepCompletesIff` | src/local-identities/index.js:487-498 | the sweep completes exactly when every listed file can be handled, counts each once, and touches no other |
| `RekeyDirectory.SecondSweepReportsZero` | src/local-identities/index.js:487-498 | a second sweep completes if and only if every listed record was sound, and then reports zero changed, even without the previous secret |
| `Peers.SingleFlight` | src/keys/peers.js:294-300 | at most one resolution per peer is open |
| `Peers.FailuresHoldBack` | src/keys/peers.js:313-333 | after a failed fetch no later one starts within the back-off, counted from its start |
| `Peers.SecondFetchIff` | src/keys/peers.js:310-333 | after a failure that took d seconds, a request g seconds later fetches if and only if d + g reach the back-off |
| `Peers.GracePeriodHolds` | src/keys/peers.js:303-346 | after a good answer at f, every resolution reading the clock before f + staleTtl contributes keys, whatever fails |
| `Peers.EmptyAnswerIff` | src/keys/peers.js:303-346 | exactly when a peer contributes nothing, and which keys it contributes otherwise |
| `Peers.OnlyOfferedKeysArePassedOn` | src/keys/peers.js:79-101 | every key ever contributed was listed by the peer in the same run and has neither a d nor a k |
| `Peers.PassedOnIff` | src/keys/peers.js:82-91 | exactly which keys some run passes on: those without d and k, whatever other private members they carry |
| `Peers.StepKeepsInv` | src/keys/peers.js:294-341 | every interleaving keeps the cache, the flight table and the retry marker in agreement |
| `Peers.CollectHoldsEveryPeer` | src/keys/peers.js:245-255 | the collected document holds every key each peer contributed |
| `Peers.CompleteIff` | src/keys/peers.js:245-255 | it is reported complete exactly when it holds a key of every configured peer |
| `Peers.MergeJwks` | src/keys/peers.js:354-364 | the loop computes the merge |
| `Peers.MergeIsLossless` | src/keys/peers.js:354-364 | own keys stay in front, every id is published, nothing appended repeats an id |
| `ClientCache.DropExpired` | src/clients/store.js:83-92 | deleting while iterating leaves exactly the live entries |
| `ClientCache.Cache.constructor` | src/clients/store.js:98-99 | an empty cache |
| `ClientCache.Cache.Lookup` | src/clients/store.js:102-103 | the live entry for the id, if there is one |
| `ClientCache.Cache.Evict` | src/clients/store.js:83-95 | the expired entries go, or the oldest if none was expired |
| `ClientCache.Cache.Store` | src/clients/store.js:104-113 | new table equals the specification; bound and distinct keys kept |
| `ClientCache.StoredMembers` | src/clients/store.js:104-113 | the new entry is in, nothing is invented, at most 500 remain |
| `ClientCache.LiveEvictedOnlyWhenAllLive` | src/clients/store.js:83-112 | a live entry is dropped only from a full table in which nothing was expired, and is the oldest |
| `ClientCache.TableStaysBounded` | src/clients/store.js:98-115 | under every interleaving of loads the table stays within 500 entries |
| `ClientCache.CachedAnswersAreRecent` | src/clients/store.js:98-115 | every cached answer is that of the latest finished load for the id, within ttl, within ten seconds for a miss |
| `Rfc4648.RoundTrip` | src/util/bytes.js:12-48 | grouping bits and ungrouping them is the identity on bytes, for any symbol width |
| `Base64Url.EncodeBytes` | src/util/bytes.js:12-29 | the three-bytes-at-a-time loop spells the bit groups |
| `Base64Url.B64u` | src/util/bytes.js:12-29 | the text is the unpadded section 5 encoding |
| `Base64Url.DecodeSymbols` | src/util/bytes.js:36-47 | the never-masked wrapping 32-bit accumulator yields the right bytes |
| `Base64Url.Unb64u` | src/util/bytes.js:31-48 | result or error equals the bit-stream specification |
| `Base64Url.DecodeInvertsEncode` | src/util/bytes.js:12-48 | decoding inverts encoding for all byte strings |
| `Base32.DecodeSymbols` | src/local-identities/totp.js:18-26 | the never-masked wrapping 32-bit accumulator yields the right bytes |
| `Base32.DecodeBase32` | src/local-identities/totp.js:11-28 | result or error equals the bit-stream specification, with upper case (which may lengthen the text), stripping and the 80-bit minimum |
| `Base32.EmitWholeGroups` | src/local-identities/totp.js:37-43 | the inner loop emits exactly the complete groups |
| `Base32.EncodeBase32` | src/local-identities/totp.js:31-46 | the text is the unpadded section 6 encoding |
| `Base32.DecodeInvertsEncode` | src/local-identities/totp.js:11-46 | decoding inverts encoding for all byte strings of at least 10 bytes |
| `Base32.EncodeAfterDecodeIsIdempotent` | src/local-identities/totp.js:11-46 | re-encoding a decoded secret is a fixed point |
| `Base32.CanonicalLength` | src/local-identities/totp.js:11-46 | the exact length of the canonical form in terms of the cleaned text |
| `Der.ReadInt` | src/crypto/jose.js:198-208 | equals the cursor specification, truncated input and undefined lengths included |
| `Der.SkipHeader` | src/crypto/jose.js:190-197 | short and long sequence lengths are stepped over, whatever they say |
| `Der.DerToRawEcdsa` | src/crypto/jose.js:186-215 | equals the specification for every input |
| `Der.FitsIff` | src/crypto/jose.js:203-204 | an integer is refused as too large exactly when its value does not fit the coordinate |
| `Der.SignatureConverts` | src/crypto/jose.js:186-215 | for any two encoded integers, leading zeros or not, conversion succeeds exactly when both fit, and keeps both values |
| `Der.ConversionKeepsBothNumbers` | src/crypto/jose.js:184-215 | for all r and s below 256^size the DER form becomes fixed-width r then s with both values |
| `Der.LongFormOccurs` | src/crypto/jose.js:192-197 | on P-521 the long form of the sequence length is needed |
| `QuotedPrintable.NormalisingTwice` | src/email/mime.js:28 | line-end normalisation is idempotent |
| `QuotedPrintable.QuotedPrintable` | src/email/mime.js:27-58 | the loop computes the encoding |
| `QuotedPrintable.DecodeInvertsEncode` | src/email/mime.js:27-58 | decoding gives back the CRLF-normalised bytes of every input |
| `QuotedPrintable.LinesAreShaped` | src/email/mime.js:27-58 | soft lines at most 76, hard lines at most 77 and beyond 75 only after a rewritten trailing space, none ending in raw white space |
| `QuotedPrintable.HardLinesExactly` | src/email/mime.js:31-50 | the hard lines of the output are exactly the lines of the input, each as long as its column, and two more after a space |
| `QuotedPrintable.OverlongIff` | src/email/mime.js:27-58 | the encoding has a line over 76 characters if and only if some line of the input ends in a space in column 75 |
| `QuotedPrintable.SeventySevenOccurs` | src/email/mime.js:42-47 | an input that does |
| `Releases.EqualTextIffEqualNumber` | tools/release/policy.js:19-28 | without leading zeros, equal text is equal number |
| `Releases.NewerIffGreater` | tools/release/policy.js:138-141 | the mixed text and number comparison is numeric order |
| `Releases.AliasTakenIff` | tools/release/policy.js:135-147 | a release takes an alias exactly when no newer stable release of that scope is published |
| `Releases.AliasesNameTheGreatest` | tools/release/workflow.js:207-227 | after any publications in any order each alias exists exactly when its scope has a stable release, and names the greatest |
| `Releases.OrderDoesNotMatter` | tools/release/policy.js:135-147 | the same releases in another order give the same aliases |
| `Releases.PrereleaseMovesNothing` | tools/release/policy.js:135-137 | a prerelease never moves an alias |

## Left out

- Cryptographic primitives (AES-GCM, HMAC, HKDF, Argon2id, signatures) and timingSafeEqual: foreign calls, used only through what they promise.
- HTTP, routing, rendering, mail transport, DNS lookups, key services and filesystem calls: only success, failure and the atomic effect appear.
- Configuration parsing: its checked bounds are preconditions (a positive window, positive limits, at least one secret).
- amr values, upstream labels, response modes and the remember-me cookie: they do not influence any modelled decision.
- Sessions sealed by releases that did not record email verification: they would only add a default.
- Unicode case mapping beyond what can reach ASCII: lower case is folded for ASCII letters, upper case also where the result contains ASCII letters; other characters are left alone.
- Lengths of labels, subjects and issuers count characters; they differ from UTF-16 units only beyond the basic plane.
- Concurrency between two protocol handlers within one handler's awaits: each handler is one step; the store operations they share are atomic in the source as well.
- Several processes replacing one identity file: the adapter documents a single writer; provisioning with revision zero is not modelled.
- Reading a record file above 64 KiB that somebody else wrote: it counts as unreadable.
- OTP send limits as a bound: their counters are evictable and fail open on purpose.
- That prompt=login or prompt=consent forces a screen over a whole run: continuing does not look at prompt again.
- Profile guessing and provider tables: heuristics without a run-level property.
- The randomness of codes: the model shows that sampling is even over byte values, not that bytes are random.
- Shared peer caches (KV, DynamoDB): the grace period is proved for the memory cache, whose writes cannot fail.
- Several peers, or several identity records, at once: their table entries and files are keyed apart and do not interact, so one stands for each.
- Interrupted publications: a promotion that fails half way is retried as a draft; only completed publications are steps.
- Floating-point rounding of the current TOTP step: the quotient is taken exactly.
- ProtocolSafety.CodesAreSingleUse: takes each exchange at one clock reading, because a handler is one step; ClaimUses.SecondExchangeIff gives the exact condition for an exchange slower than the code's minute of slack.
