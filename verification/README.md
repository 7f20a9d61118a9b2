# SynaMCPs server: a verified model

A Dafny 4.11 model of the state machines at the centre of the SynaMCPs server, with
proofs about every input, every reachable state and every run of them.

| modules | what they model |
|---|---|
| `Canonical`, `PyCanonical`, `GoNumbers`, `ShortestDecimal`, `ServerAgreement` (`Decimal`, `TextOrder`) | canonical JSON on the Go server and in the Python client, and the server's float64 numbers |
| `Crypto`, `AgentKeys`, `Policy`, `Filter`, `Topic` | the secure bus: envelopes, agent keys, policies, conditions, one topic |
| `TopicLaws`, `Delivery`, `MatchLaws` | what appending and consuming keep, what a condition means |
| `Protocol`, `ProtocolSafety`, `BusTheorems` | the secure bus with calls in flight, one step per lock region |
| `SecureBus`, `SecureBusRuns`, `ServiceRuns`, `NamingRuns` | the service class, its calls as runs of the protocol, and three runs that lose a message |
| `JobStore`, `Ingest`, `Chunking` | the ingest job machine, worker and splitter |
| `Access`, `Catalog`, `Knowledge` | storage access, the document catalog, Get, List and Search |
| `OAuth`, `OAuthRuns` | the token endpoint, and its steps interleaved between requests |
| `Bus`, `RateLimit`, `Git` (`Consumers`, `Wrappers`) | the plain bus and the Kafka client, rate limits, the git object store |

Reading the model:

- Every store modelled is the in-memory one. Objects the source updates in place are
  classes; protocols with several lock regions per call are state machines whose steps
  are those regions, and theorems quantify over all interleavings.
- Times are integers or formatted strings, and randomness, clocks, signatures and foreign
  calls are parameters. Random ids (nonces, token ids, codes, document ids) are taken to
  be fresh: that is the `requires` or enabling condition on them.
- Cryptography is idealised. `HashesNonEmpty` says that an encoded digest is not the empty
  string, `CollisionFree` that the digest has no collisions; only the theorems that name
  them use them.
- Go ranges over maps in no fixed order. Loops over maps take any next key, and
  `AgentNameForKey` may give any holder of a shared key; theorems hold for all choices.

Facts about the code that a reader may not expect, each proved below:

- A condition's `mode` has no effect: both branches of MatchCondition that read it return
  true (`Filter.MatchCondition`).
- CanAccessStorage accepts an expired binding; the candidate index does not. Where the
  direct check allows, the two differ exactly when all the caller's bindings on the storage
  have expired and the caller is not a platform admin without a token
  (`Access.IndexExact`, `Access.ExpiredBindingDiffers`).
- No-lost-delivery is not unconditional. A Consume can lose a message if and only if the
  document it reads may give a key that signed something in the topic another name
  (`Delivery.ConsumeKeepsExactly`). That happens when a policy renames a key, and under
  one unchanged policy when two of its agents share a key, which ValidateDocument accepts
  (`Delivery.RenamingExactly`, `Delivery.SharingExactly`). A policy can also give the
  condition a consumer asks for by name another meaning; that loses nothing if and only if
  the new meaning selects no view the old one did not (`MatchLaws.RedefiningExactly`).
  `NamingRuns` has a run from the empty service for each of the three, in which the
  consumer passes the same arguments in every call. Otherwise nothing is lost: as long as
  what the consumer asks for resolves to the same condition, policies may add agents, change
  public keys, rules and other conditions (`BusTheorems.RunLosesNothing`).
- Client and server do not sign and check the same text for every number. They agree if
  and only if each whole number is the shortest decimal of its float64 and below 10^21,
  there is no -0.0, and fractions print alike (`ServerAgreement.AgreementExactly`). All
  integers up to 2^53 qualify; 2^53 + 1 is the first that does not
  (`GoNumbers.SmallKept`, `GoNumbers.FirstNotKept`).
- RecoverStale keeps the job store in order exactly if no running job had used up its
  attempts (`JobStore.RecoveredOk`); a job claimed for its last attempt would sit pending
  for ever (`JobStore.LastAttemptSticks`).
- A refused rate-limit attempt counts like an accepted one (`RateLimit.Service.IncrementWindow`).
- Two tokens have counters of their own if and only if neither id goes on as the other id
  with a colon behind it (`RateLimit.OwnCountersExactly`); generated ids have no colon.

## Model

| member | source | states |
|---|---|---|
| Canonical.EscapeGoString | examples/securebus/synamcps_securebus/canonical.py:38-71 | the loop's text is the character-wise escape of the string, for every string |
| Canonical.EscapeCharCode | examples/securebus/synamcps_securebus/canonical.py:38-71 | the escape of a character can be read back from the front of any text that starts with it, so no two characters' escapes are confused |
| Canonical.JsonPrefix | internal/securebus/canonical.go:18-66 | unique decodability: two values printed in front of delimited text are the same value in front of the same text, for every number text |
| Canonical.CanonicalJsonInjective | internal/securebus/canonical.go:18-66 | two normalised values with the same canonical JSON are equal, whatever characters their strings hold; numbers, whole or not, are known by their text |
| PyCanonical.SortSorts | examples/securebus/synamcps_securebus/canonical.py:93-97 | the sort of a dict's fields by key is in order |
| PyCanonical.Agreement | examples/securebus/synamcps_securebus/canonical.py:19-105 | the Python client prints for every value the canonical text of what the value means to it, with its own number texts |
| ServerAgreement.AgreementExactly | examples/securebus/synamcps_securebus/canonical.py:103-105 | client and server print the same text for a value if and only if every number in it is kept by the server's float64 |
| GoNumbers.NumbersAgreeExactly | internal/securebus/canonical.go:32-41 | the two sides print a whole number alike if and only if it is the shortest decimal of its float64 and below 10^21 |
| GoNumbers.SmallKept | internal/securebus/canonical.go:32-41 | every integer from -2^53 to 2^53 is kept |
| GoNumbers.FirstNotKept | internal/securebus/canonical.go:32-41 | 2^53 + 1 is not: the server prints 2^53 |
| GoNumbers.HugeNotKept | internal/securebus/canonical.go:32-41 | 10^21 is not: the server prints an exponent |
| ShortestDecimal.PrintedIsShortest | internal/securebus/canonical.go:32-41 | what is printed reads back as the float64, and no decimal that does ends in more zeros |
| ShortestDecimal.PrintedIsNearest | internal/securebus/canonical.go:32-41 | of those that end in as many zeros it is the nearest |
| GoNumbers.SameTextIffSameFloat | internal/securebus/canonical.go:32-41 | the server prints two integers alike if and only if they are the same float64 |
| PyCanonical.SameTextIffSameMeaning | examples/securebus/synamcps_securebus/canonical.py:103-105 | two client values print alike if and only if they mean the same, integers of any size and fractions included |
| PyCanonical.InsertionOrderIgnored | examples/securebus/synamcps_securebus/canonical.py:28-29 | dicts with the same fields inserted in any order print alike |
| Crypto.MessageHashInjective | internal/securebus/canonical.go:83-90 | with a collision-free digest the hash of a message envelope determines every field of it |
| Crypto.CanonicalHashesDetermine | internal/securebus/service.go:357-374 | the same for all pairs of message envelopes, as the chain theorem needs it |
| Policy.AgentNameForKey | internal/securebus/policy.go:145-152 | answers with an agent that holds the key if there is one, and with not found only if there is none |
| Policy.NameIsUnique | internal/securebus/policy.go:145-152 | with distinct key ids the answer is the same whatever order the map is ranged in |
| Filter.CollectLatest | internal/securebus/filter.go:36-39 | the map holds each agent's last status |
| Filter.CountStatuses | internal/securebus/filter.go:40-49 | the count is the number of agents whose status is ok, and the flag says whether some agent denies |
| Filter.MatchCondition | internal/securebus/filter.go:24-71 | decides the condition on the latest statuses; the mode never matters |
| Filter.LatestIsGraph | internal/securebus/filter.go:36-39 | with one entry per agent the latest map is exactly the entries |
| Filter.MatchIgnoresOrder | internal/securebus/filter.go:24-71 | with one entry per agent the answer does not depend on the order of attestations |
| AgentKeys.Store.CreateChallenge | internal/agentkeys/store.go:58-82 | a challenge is bound to its binder and expiry, five minutes if no lifetime is given; a missing binder is refused |
| AgentKeys.Store.ConsumeChallenge | internal/agentkeys/store.go:84-118 | succeeds if and only if the challenge is open, unexpired and of that binder, and then it is spent for ever |
| AgentKeys.Store.Register | internal/agentkeys/store.go:139-196 | a key enters the registry if and only if the input is well formed and carries a signature by that key over an open challenge; the challenge is spent even if the signature fails; otherwise the registry is unchanged |
| AgentKeys.Store.Revoke | internal/agentkeys/store.go:305-317 | marks the owner's key revoked and changes nothing else |
| TopicLaws.AppendPolicyKeeps | internal/securebus/service.go:151-168 | installing a policy keeps the topic consistent and the versions dense |
| TopicLaws.AppendMessageKeeps | internal/securebus/service.go:401-408 | appending a message keeps ids dense, the log exact, live attestations latest and cursors within the log |
| TopicLaws.AppendAttestationKeeps | internal/securebus/service.go:529-544 | so does superseding and appending an attestation |
| TopicLaws.AttestationStaysLatest | internal/securebus/service.go:529-537 | after it each message and key has at most one live attestation and it is the latest |
| TopicLaws.LogCounts | internal/securebus/service.go:401-406 | the log has as many events as there are messages and attestations |
| Delivery.ConsumeOutcome | internal/securebus/consume.go:36-82 | one Consume: the cursor moves forward within the log, the batch is new to the consumer and matched, every event passed is settled, a short batch means the log was read to its end |
| Delivery.MessageLosesNothing | internal/securebus/service.go:401-406 | publishing loses no delivery |
| Delivery.AttestationLosesNothing | internal/securebus/service.go:529-542 | attesting loses no delivery, though it changes which messages match |
| Delivery.ConsumeLosesNothing | internal/securebus/consume.go:55-80 | consuming loses no delivery of that consumer, with any document that names the keys used in the topic alike |
| Delivery.OthersLoseNothing | internal/securebus/consume.go:36-82 | another consumer's Consume loses none either |
| Delivery.ShortBatchMeansCaughtUp | internal/securebus/consume.go:55-80 | after a batch below max every message a full scan matches has been delivered |
| Delivery.ConsumeKeepsExactly | internal/securebus/consume.go:55-80 | for any two documents and set of keys: every Consume with the one loses nothing of what the other's naming selects if and only if it has no other answer for these keys |
| Delivery.RenamingExactly | internal/securebus/consume.go:55-80 | replacing one document by another loses nothing, on topics signed with given keys, if and only if it leaves their names alone |
| Delivery.SharingExactly | internal/securebus/policy.go:80-152 | under one unchanged document nothing is lost on any topic if and only if no two agents share a key |
| MatchLaws.RedefiningExactly | internal/securebus/consume.go:55-80 | replacing one condition by another loses nothing, on any topic and document with distinct keys, if and only if every view the new one selects the old one selected |
| NamingRuns.PassedUnderAnotherName | internal/securebus/consume.go:16-83 | for any two installable documents that may name a key differently and any message signed with it: a run with just these two policies, in which the consumer asks for the second name in every call, and which ends in a short Consume with the message matching and undelivered |
| NamingRuns.RenamingCanLose | internal/securebus/consume.go:16-83 | such a run from the empty service whose first policy calls the key's one holder a and whose second calls it b, ending behind the plain scan, for any two names |
| NamingRuns.SharingCanLose | internal/securebus/policy.go:80-152 | such a run from the empty service with one valid policy, put once, whose two agents share the key |
| NamingRuns.RedefiningCanLose | internal/securebus/consume.go:16-83 | such a run in which the agents stay the same and the consumer passes one condition name in every call, for any two meanings of it that a bare message tells apart |
| MatchLaws.LiveIsStatusBy | internal/securebus/consume.go:162-173 | the live attestations of a message are one per key that attested it, with the status that key gave last |
| MatchLaws.ViewIsStatusNow | internal/securebus/consume.go:162-173 | the view holds one entry per agent that attested, with that agent's last status |
| MatchLaws.MatchMeansHolds | internal/securebus/filter.go:24-71 | on a stored message MatchCondition decides the condition over what the agents said last, and its ok count is the number of agents whose last status is ok |
| ProtocolSafety.StepSafe | internal/securebus/service.go:318-545 | every step of every call in flight keeps the safety invariant |
| ProtocolSafety.ReachableSafe | internal/securebus/service.go:318-545 | every state any interleaving reaches satisfies it |
| BusTheorems.RunLater | internal/securebus/service.go:127-545 | over any run policies, messages and events are only appended, attestations only superseded, keys only revoked, cursors only advance, deliveries are never taken back |
| BusTheorems.AtMostOnce | internal/securebus/consume.go:36-82 | over any mix of calls no message reaches a consumer twice, what was handed out is the delivered set, cursors stay within the log, and the log is dense and exact |
| BusTheorems.DeliveredMatched | internal/securebus/consume.go:55-80 | each message handed out was undelivered and matched the condition at that moment, and no more than max are |
| BusTheorems.RunLosesNothing | internal/securebus/consume.go:55-80 | for a consumer that always asks for the same condition, under policies that give each key used so far the same one name, each undelivered message that matches now still has an event above its cursor, in every state of every run |
| BusTheorems.CaughtUp | internal/securebus/consume.go:55-80 | so a Consume that returns fewer than max leaves every message a full scan matches delivered |
| BusTheorems.MessageVerifiesForever | internal/securebus/service.go:350-408 | an accepted message stays stored unchanged and its hash and signature verify in every later state, even after its key is revoked |
| BusTheorems.AttestationVerifiesForever | internal/securebus/service.go:503-544 | the same for attestations, superseded or not; the message hash in them is still the message's hash |
| BusTheorems.OnlyAuthorised | internal/securebus/service.go:308-349 | versions are dense, and every stored message and attestation names a version in which an agent holding its key may act, which was the newest or one behind when checked |
| BusTheorems.RevokedKeyIsOut | internal/agentkeys/store.go:329-343 | after a revocation no call begins with the key; what is stored under it later is at most one item per call then in flight |
| BusTheorems.TamperEvident | internal/securebus/service.go:383-406 | two histories published under chaining, equally long and with the same last hash, have the same envelope at every position |
| SecureBus.FindMsg | internal/securebus/consume.go:153-160 | finds the first stored message with the id |
| SecureBus.Service.PutPolicy | internal/securebus/service.go:127-170 | succeeds if and only if the document is valid and all its keys are usable, and appends the next version |
| SecureBus.Service.LoadPolicyVersion | internal/securebus/service.go:279-289 | returns the policy with that version if there is one |
| SecureBus.Service.GetPolicy | internal/securebus/service.go:204-228 | the newest policy for version 0 or less, otherwise that version; not found if there is none |
| SecureBus.Service.GetMessage | internal/securebus/service.go:568-578 | returns the stored message with that id if there is one |
| SecureBus.Service.Publish | internal/securebus/service.go:318-409 | its result and the new topic are those of the publish specification, for some answer about the key's agent; errors change nothing, other topics never change |
| SecureBus.Service.SupersedeAll | internal/securebus/service.go:529-535 | marks exactly the live attestations of that key on that message |
| SecureBus.Service.Attest | internal/securebus/service.go:454-545 | its result and the new topic are those of the attest specification, for some answer about the key's agent |
| SecureBus.Service.MessageViewLocked | internal/securebus/consume.go:162-173 | builds a view of the message's live attestations, oldest first |
| SecureBus.Service.ListAttestations | internal/securebus/service.go:658-669 | all attestations of the message in order, superseded ones too |
| SecureBus.Service.Verify | internal/securebus/service.go:606-656 | reports hash and signature checks of the message and of each attestation |
| SecureBus.Service.Consume | internal/securebus/consume.go:16-83 | returns the batch and leaves the cursor and delivered set of the consume specification, for some views the code could build |
| SecureBusRuns.PublishIsRun | internal/securebus/service.go:318-409 | a successful Publish is a four-step run of the protocol that appends its message and nothing else |
| SecureBusRuns.AttestIsRun | internal/securebus/service.go:454-545 | a successful Attest is a five-step run |
| SecureBusRuns.ConsumeIsRun | internal/securebus/consume.go:16-83 | a successful Consume is a two-step run that hands out what it returns |
| SecureBusRuns.PutPolicyIsRun | internal/securebus/service.go:127-170 | a successful PutPolicy is a two-step run that appends exactly its policy |
| SecureBusRuns.VerifyPasses | internal/securebus/service.go:606-656 | in every safe state Verify passes on each stored message and all its attestations, and finds no other message |
| ServiceRuns.CallsAreRun | internal/securebus/service.go:127-545 | any sequence of successful calls (Register, Revoke, PutPolicy, Publish, Attest, Consume), one after the other, is a run of the protocol to the same state |
| ServiceRuns.CallsKeepVerifying | internal/securebus/service.go:606-656 | so after any such calls from the empty service Verify passes on every stored message |
| JobStore.InMemoryJobStore.Enqueue | internal/knowledge/ingest/jobstore.go:82-107 | returns the pending or running job of that document and kind if there is one, else adds a pending one; the store stays in order |
| JobStore.InMemoryJobStore.Claim | internal/knowledge/ingest/jobstore.go:109-130 | takes an oldest claimable job, marks it running with one attempt more, or reports that none is claimable |
| JobStore.InMemoryJobStore.MarkCompleted | internal/knowledge/ingest/jobstore.go:132-145 | only that job changes, to completed |
| JobStore.InMemoryJobStore.MarkFailed | internal/knowledge/ingest/jobstore.go:147-166 | failed if and only if the attempts are used up, else pending again; says which |
| JobStore.InMemoryJobStore.HasPending | internal/knowledge/ingest/jobstore.go:182-191 | true if and only if some job is claimable |
| JobStore.InMemoryJobStore.RecoverStale | internal/knowledge/ingest/jobstore.go:168-180 | running jobs become pending; the store stays in order if and only if none of them had used up its attempts |
| JobStore.RecoveredOk | internal/knowledge/ingest/jobstore.go:168-180 | that condition, on the job table |
| JobStore.LastAttemptSticks | internal/knowledge/ingest/jobstore.go:168-180 | any job claimed for its last attempt is in order while running, and recovered is pending, not claimable and out of order |
| JobStore.LastAttemptExists | internal/knowledge/ingest/jobstore.go:82-107 | a table with such a job exists |
| JobStore.LeftAfterUpdate | internal/knowledge/ingest/jobstore.go:109-130 | how the sum of remaining attempts changes with one job |
| Ingest.Worker.Save | internal/knowledge/ingest/pipeline.go:83-95 | a prepared document enters the catalog as processing, with exactly one new ingest job; an error in preparing changes nothing |
| Ingest.Worker.EnqueueDelete | internal/knowledge/ingest/worker.go:83-86 | afterwards an active delete job for the document exists and no old job changed |
| Ingest.Worker.Delete | internal/knowledge/service.go:250-262 | removes the document and leaves an active delete job; documents and jobs stay linked |
| Ingest.Worker.HandleJob | internal/knowledge/ingest/worker.go:144-169 | one attempt: the new catalog and job are those of the specification, for every outcome |
| Ingest.Worker.ProcessIngest | internal/knowledge/ingest/pipeline.go:145-228 | a missing document is an error, a ready or deleting one is left alone, otherwise it becomes ready or the outside error is returned |
| Ingest.Worker.OnJobTerminalFailure | internal/knowledge/ingest/pipeline.go:247-261 | only an ingest job's existing document changes, to failed |
| Ingest.HandledLinked | internal/knowledge/ingest/worker.go:144-169 | each attempt keeps every document's status in agreement with its job's |
| Ingest.HandledProgress | internal/knowledge/ingest/worker.go:144-169 | each attempt uses up at least one remaining attempt |
| Ingest.Worker.ProcessUntilIdle | internal/knowledge/ingest/worker.go:89-113 | ends within the sum of remaining attempts whatever each attempt brings; then every job not running before is completed or failed, and each document in the catalog is ready exactly if its job completed and failed exactly if it failed |
| Chunking.SplitText | internal/knowledge/ingest/pipeline.go:390-419 | for every text, size and overlap: the tokens of the chunk texts come in runs of at most the size, neighbours share exactly the overlap in force, and dropping the shared part gives back the tokens of the text |
| Chunking.FieldsOfJoined | internal/knowledge/ingest/pipeline.go:398-413 | joining words by blanks and cutting at white space gives back the words |
| Chunking.Chunks | internal/knowledge/ingest/pipeline.go:405-417 | the same for the loop, with the step as given |
| Access.EvaluateStorageAccess | internal/access/service.go:123-180 | allowed if and only if a binding grants the permission and, with a token, its mode there and its own list admit it, or without one the caller is a platform admin with nothing granted; the permission set is exact |
| Access.Store.AclForSubject | internal/access/store.go:895-920 | exactly the bindings of the given subjects, expired or not |
| Access.OrderOfBindings | internal/access/service.go:123-180 | the decision does not depend on the order in which bindings are listed |
| Access.Store.ListAccessibleStorages | internal/access/store.go:633-717 | exactly the existing storages that are candidates |
| Access.Store.CanAccessStorage | internal/access/service.go:108-118 | an empty id is an error; otherwise the direct decision, the exact permissions in effect and the mode |
| Access.Store.ReadableStorageIds | internal/access/service.go:202-237 | exactly the existing candidate storages whose documents the direct check lets the caller read |
| Access.IndexExact | internal/access/service.go:216-237 | what the direct check allows is a candidate if and only if the caller is an admin without a token or has a binding there still in force |
| Access.IndexComplete | internal/access/service.go:202-237 | with no binding expired the index misses nothing, for every principal, token, scope list and ACL |
| Access.ExpiredBindingDiffers | internal/access/store.go:895-920 | with one expired reader binding the direct check allows and the index does not |
| Catalog.SortNewestFirst | internal/storage/meta/postgres/store.go:146-146 | a permutation of the documents in falling order of update time |
| Catalog.Store.Save | internal/storage/meta/postgres/store.go:55-67 | stores the document under its id, with storage "legacy" if it names none |
| Catalog.Store.GetMany | internal/storage/meta/postgres/store.go:79-95 | exactly the existing documents among those asked for |
| Catalog.Store.List | internal/storage/meta/postgres/store.go:108-172 | a page of some newest-first layout of exactly the selected documents, each once, with the right total and next flag |
| Catalog.ListingUnique | internal/storage/meta/postgres/store.go:146-146 | with distinct update times that layout is the same in every call |
| Catalog.PagesHoldEverything | internal/storage/meta/postgres/store.go:148-171 | the pages read until none follows hold every document exactly once |
| Knowledge.OwnerIdentifiers | internal/knowledge/service.go:219-233 | the caller's non-empty identifiers, each once |
| Knowledge.SameVisibility | internal/knowledge/service.go:361-379 | the filter given to the catalog says the same as the check Get makes |
| Knowledge.Service.Get | internal/knowledge/service.go:167-179 | not found, forbidden or the document, exactly by whether it exists and may be read |
| Knowledge.Service.List | internal/knowledge/service.go:181-217 | forbidden for an unreadable storage filter, otherwise a page of exactly the asked, readable and visible documents |
| Knowledge.Service.Search | internal/knowledge/service.go:265-338 | forbidden for an unreadable storage filter, otherwise the records of shown documents in order |
| Knowledge.ListedExactly | internal/knowledge/service.go:181-205 | an unfiltered List holds a document if and only if Get returns it, its storage exists, and the caller is an admin without a token or has a binding there in force |
| Knowledge.PagesAgreeWithGet | internal/knowledge/service.go:167-233 | with storages present, no binding expired and distinct update times, the pages of List until none follows hold each document Get would return exactly once and nothing else |
| Knowledge.HitsAgreeWithGet | internal/knowledge/service.go:293-338 | every hit is a document with status ready or none that Get would return, shown with its own fields, and no record of such a document is dropped |
| OAuth.Server.ConsumeAuthorizationCode | internal/auth/oauthas/store.go:194-209 | refuses an unknown, used or expired code and changes nothing; otherwise marks it used, after which it is refused at every time |
| OAuth.Server.ConsumeRefreshToken | internal/auth/oauthas/store.go:259-274 | the same for refresh tokens |
| OAuth.Server.MintTokens | internal/auth/oauthas/server.go:551-614 | adds the access token and then the refresh token that names it, as far as the outside lets it |
| OAuth.Server.TokenAuthorizationCode | internal/auth/oauthas/server.go:486-514 | succeeds if and only if the code is fresh and client, redirect and verifier match; a mismatch still uses up the code |
| OAuth.Server.TokenRefresh | internal/auth/oauthas/server.go:516-549 | succeeds if and only if the token is live and the client, if given, matches; revokes the old access token before minting |
| OAuthRuns.StepKeeps | internal/auth/oauthas/server.go:486-614 | every step of every request in flight keeps a family in one pair of hands |
| OAuthRuns.OneLivePair | internal/auth/oauthas/server.go:516-614 | in every reachable state each family that descends from one code has at most one live refresh token and one unrevoked access token, and the one names the other |
| OAuthRuns.OneDirectMint | internal/auth/oauthas/server.go:486-514 | each code is minted from directly at most once, by a request with its client, redirect and PKCE verifier |
| OAuthRuns.ClientsStay | internal/auth/oauthas/server.go:551-614 | every refresh token belongs to the client its code was issued to |
| OAuthRuns.SpentStaysSpent | internal/auth/oauthas/store.go:194-274 | a consumed code or refresh token is refused at every later time after any further steps |
| OAuthRuns.CodeGrantIsRun | internal/auth/oauthas/server.go:486-514 | the code handler is a run of the steps with the effect it promises |
| OAuthRuns.RefreshGrantIsRun | internal/auth/oauthas/server.go:516-549 | so is the refresh handler; revocation of the old token included |
| Bus.ReceivedIsPrefix | internal/bus/service.go:102-122 | what a consumer received over any run is the log up to its position, and the log is what was produced: exactly once, in order |
| Bus.Service.Produce | internal/bus/service.go:55-62 | appends the payload under the next id; the logs of other objects stay as they are and in order |
| Bus.EventsAfter | internal/bus/service.go:106-115 | the loop returns exactly the next events after the last id, at most max |
| Bus.Service.Consume | internal/bus/service.go:79-122 | returns the next batch and moves the consumer's position past it; other objects as for Produce |
| Bus.KafkaClient.Produce | internal/bus/kafka.go:27-32 | appends the payload to the topic |
| Bus.KafkaClient.Consume | internal/bus/kafka.go:34-53 | returns the next batch and moves the consumer's index past it; asked for none it returns none |
| Bus.Mirror | internal/bus/kafka.go:27-53 | for the same requests, unnamed consumers and any max included, the id-cursor bus and the index-offset client deliver the same payloads |
| RateLimit.Service.IncrementWindow | internal/usage/service.go:296-303 | counts the attempt in its bucket whether or not it passes, and passes if and only if the new count is within the limit |
| RateLimit.Service.Allow | internal/usage/service.go:153-186 | runs its checks in order up to the first that fails |
| RateLimit.AllowIsRun | internal/usage/service.go:153-186 | Allow leaves the counters its increments leave, answers yes only if all its checks passed and no only if the last one was refused |
| RateLimit.AtMostLimitPerBucket | internal/usage/service.go:153-186 | for every interleaving of the increments of any Allow calls by any tokens, at most the limit of one token's calls succeed in each minute, hour or day bucket, and likewise per storage |
| RateLimit.AtMostTwiceLimitInSpan | internal/usage/service.go:296-303 | and at most twice the limit in any span of one window length |
| RateLimit.RefusedExactlyWhenFull | internal/usage/service.go:296-303 | an increment is refused if and only if at least the limit of attempts on the same meter came before it in the same bucket, for token ids that are apart: neither goes on as the other with a colon behind it |
| RateLimit.CounterKeyInjective | internal/usage/service.go:296-317 | meters of tokens that are apart have counters of their own |
| RateLimit.ColonsCollide | internal/usage/service.go:296-317 | whatever stands on either side of a colon in a token id, its storage meters share counters with the shorter token's |
| RateLimit.OwnCountersExactly | internal/usage/service.go:296-317 | two tokens never share a counter if and only if they are apart |
| Git.ReachableWellFormed | internal/gitstore/service.go:105-188 | in every reachable repository parents are strictly older existing commits and branches and tags name commits or nothing |
| Git.Walk | internal/gitstore/service.go:136-147 | the log walk ends and returns the commits back along first parents |
| Git.LogAfterCommit | internal/gitstore/service.go:115-147 | the log after a commit is the new commit followed by the old log |
| Git.CommitsNeverChange | internal/gitstore/service.go:115-133 | no sequence of commands changes a commit, its tree included |
| Git.CheckoutRestores | internal/gitstore/service.go:158-178 | checking out a branch with a commit puts exactly that tree into index and files; without one both stay |
| Git.CommitThenReturn | internal/gitstore/service.go:115-178 | commit, do anything, come back: while the branch names that commit, checkout gives back the committed index |
| Git.Repo.Add | internal/gitstore/service.go:105-114 | the new state is that of the add command |
| Git.Repo.Commit | internal/gitstore/service.go:115-133 | the new state is that of the commit command; an empty message is refused |
| Git.Repo.Log | internal/gitstore/service.go:136-147 | returns the log of the current branch |
| Git.Repo.Branch | internal/gitstore/service.go:150-157 | without a name all branches in order, otherwise the new state of the branch command and the commit it names |
| Git.Repo.Checkout | internal/gitstore/service.go:158-178 | the new state is that of the checkout command |
| Git.Repo.Tag | internal/gitstore/service.go:181-188 | without a name all tags, otherwise the new state of the tag command |

## Left out

- All Postgres and Redis branches, their SQL, transactions and expiry. The Postgres branch of Consume moves its cursor differently.
- Real cryptography, base64 and random generation: they are functions and parameters, with the hypotheses named above.
- SecureBus.Service.PutPolicy: the policy's signature and signer id are not modelled, and no theorem says that a message's policy hash is the policy's: acceptPolicyVersion allows an empty hash, or any hash in the grace period.
- ServerAgreement.AgreementExactly: how the server prints a float that is not whole is a parameter; NaN, infinities and values that are not JSON, for which the client raises or falls back, are not modelled. Numbers beyond the largest float64, which the server refuses, count as not kept.
- Crypto.MessageHashInjective: versions are printed as decimal digits, which is what the server does below 2^53; they count up from 1. The UTF-8 bytes of the text are not modelled: it is a sequence of characters.
- Ad-hoc conditions that are not well-formed JSON objects, and the Filter field of subscriptions: a condition arrives decoded.
- HTTP handlers, MCP transport, object scopes and permissions of the bus endpoints, streaming Subscribe, web interface, configuration, language-model clients, metrics and blob storage.
- Several topics in one protocol run: topics are independent, so the protocol has one; the service class has all of them.
- Installing a policy in the protocol demands only that its keys exist. PutPolicy demands that they are not revoked, so the protocol has more runs, not fewer.
- Several ingest workers, RecoverStale after a claim, a Delete that overlaps ProcessIngest of the same document, catalog errors and cancelled contexts.
- Ingest.Worker.Save: takes what prepareDocument returned, so its checks of the source address and the write of large bodies are outside.
- Ingest.Worker.Delete: starts after the permission checks that Service.Delete makes.
- Ingest.Worker.ProcessIngest: summary, embeddings and vector records are one outside outcome, any success or any failure.
- Knowledge.Service.Search: starts from the records the vector store returned; its own filters, snippets and the computation of scores are not modelled.
- Access.Store.ListAccessibleStorages: a set, without the order by update time, since the readable set built from it has none.
- SubjectKeys and the subject keys of users and groups: the list of keys is part of the principal.
- evaluateObjectAccess and object-level token scopes, which have a fallback of their own.
- OAuth.Server.MintTokens: the owner, mode, scopes and expiry of the minted access token are not modelled.
- OAuth.Server.TokenRefresh: the principal looked up for the refreshed token is not modelled.
- Login sessions, client registration and redirect patterns.
- 64-bit overflow of page numbers, counters and event ids.
- The queue service, a plain first-in first-out list, and git's show, status, diff, remotes, pack protocol and blob persistence, none of which touches the commit graph.
