# Verification of the PeerLink servers

A Dafny model of the stateful cores of the servers, and proofs about every run of them. `dafny verify
dfyconfig.toml` checks all of it.

## What is modelled

**Relay.** The handlers of `relay-data-routes.js` and the sweeps of `relay-lifecycle.js` run
synchronously, so each request is one atomic step. `RelayMachine` puts them into one transition system
over queues, tombstones, group memberships, blobs and upload sessions; `RelayMailRuns`,
`RelayGroupLaws`, `RelayDelivery` and `RelayPlainRuns` prove laws about all its runs, and `RelayAnswers`
says which answer each request gets. `RelayServer.Relay` is the
process itself: maps updated in place, each method proved to take exactly the step of the transition
system. Each method is proved to make durable only states that lie between the one before and the one
after (`RelayWrites`), one change of one map at a time; `RelayDisks` shows that a crash anywhere in such
a chain of changes, the file-system steps of each included, reloads one of those states, and
`RelayLives` that any number of lives on disk is a run with crashes. `RelayCrashRuns` and
`RelayCrashLaws` prove the run laws for runs in which the process dies anywhere and is started again;
`RelayPlainRuns` draws the laws of plain runs from them. `RelayCrash` is about a group store that was
interrupted, `RelayRetry` about repeating it once the relay has been started again, `RelayPermissionRun`
shows that the permission of a token decides, and `RelayCommaRun` how commas in ids defeat the check of
an administrator's update.

**Storage.** `FileSystem` gives each name its current entry and the entries a crash may bring back;
a file that was not synced may come back with any content. On top of it are the snapshot map
(`Storage`, `PersistentMap`, `StorageCodecs`) and the upload store with one file per chunk
(`UploadStorage`, `UploadCrashes`, `UploadLives`, `UploadMigration`, `UploadStore`), with a crash
possible between any two file-system steps; `UploadMissing` is about an index that names missing files.

**Push device registry.** `RegistryState` has the records and the token index, `RegistryLaws` and
`RegistryRuns` when they agree, `DeviceRegistry` the tables updated in place.

**Replay guards and presence.** `SignedRequests` and `RegisterNonces` are the two sliding-window
tables; `Presence` and `SignalServer` the sessions of the signaling server.

**Invites and policies.** `JsonText` and `CanonicalJson` print and read JSON, `Manifests` and
`Invites` use it, `InviteWrites` and `InviteFile` are about the overlapping writes of its file;
`AccessPolicy` and `PolicyStore` are the in-memory policy snapshots.

JavaScript strings are sequences of UTF-16 units (`JsText`). A run is a sequence of events with clock
readings; where a law needs a clock that does not run backwards it says so.

## Conditions that the code needs

Some promises hold only under a condition. Each is stated as an equivalence, or with a lemma that
shows the failure.

- Tombstone keys join recipient and id with `|`: `RelayMailLaws.AckKeepsUntombstonedIff`.
- The member delta of an administrator compares `join(',')` texts. `docs/public/RELAY.md:263-267` promises
  an exact delta and no change to a protected peer. The delta is exact, and the peers not named keep their
  membership, exactly when the members listed are the set asked for; for comma-free lists, exactly when the
  set asked for has no comma: `RelayGroupLaws.DelegatedDelta`, `RelayGroupLaws.OthersKeptIff`. A protected
  peer is safe then (`RelayGroupLaws.ProtectedUntouched`), and `RelayCommaRun.CommaFoolsRelay` is a run in
  which one becomes a member otherwise. The owner is safe in any case: `RelayGroupLaws.OwnerUntouched`.
- Upload keys join id, sender and group with `|`: `JsText.UploadKeyIff`.
- A reader's cursor must not be stored anew: `RelayMailRuns.ReentryHides`.
- Repeating an interrupted group store is admitted, and then converges, exactly while the group is open:
  unknown, with an outlived tombstone, or active within its lifetime. `RelayRetry.RepeatIsAdmittedIff`,
  `RelayRetry.RetrySettles` and `RelayRetry.RetryConverges` allow any starts, sweeps and further deaths in
  between, and the requests that each names; `RelayRetry.RetryTimeline` and
  `RelayRetry.LateRepeatIsRefused` show the repeats that come too late.
- An ACK during which the process died may leave the message queued beside its tombstone, so the law on
  acknowledged messages speaks of ACKs that removed it: `RelayCrashRuns.UnansweredAck`.
- Migration of old upload snapshots survives a crash exactly when every legacy session but the first
  already has its chunk files: `UploadMigration.MigrationCrashSafeIff`. `docs/public/RELAY.md:51`
  promises no loss of data.
- Eviction of a push device compares device ids only: `RegistryLaws.RegisterKeepsIndexIff`.
- The push replay guard needs an id lifetime above twice the skew: `SignedRequests.NeverReplaysIff`.
- Policies converge when the greatest version carries its date and stands for one policy:
  `AccessPolicy.ConvergentIff`.
- Writes of the invite file keep every answered invite exactly as long as none begins while another is
  pending, which the service does not prevent: `InviteWrites.GuardKeeps`, `InviteWrites.BeginCanLoseIff`,
  `InviteFile.OverlapLosesInvite`.

`docs/public/RELAY.md:282-284` and `README.md:27-28` say that the relay neither stores nor compares the
delegation version. The code stores it with the token and compares it (`relay-data-routes.js:269-273`
and `292-298`); the model follows the code.

## Model

| member | source | states |
|---|---|---|
| `JsText.NormalizePeerIds` | relay-validation.js:7-10 | the result is strictly increasing, and a string is in it exactly when it is the non-empty trim of some input |
| `JsText.AscendingUnique` | relay-validation.js:9 | a sorted list without duplicates is determined by its elements, so normalized lists are equal exactly when they are equal as sets |
| `JsText.TrimIs` | relay-validation.js:9 | trimming takes white space off both ends and nothing else |
| `JsText.LessIff` | relay-validation.js:9 | the order of sorted ids is that of the first unit in which they differ |
| `JsText.Separators` | relay-validation.js:12-13 | the characters between the parts of joined lists and of keys |
| `JsText.JoinInjective` | relay-data-routes.js:311 | joining with commas forgets nothing about lists of non-empty comma-free ids |
| `JsText.JoinWithCommaCollides` | relay-data-routes.js:311 | two different normalized lists, one with a comma in an id, that join to one text |
| `JsText.EnvelopeKeyInjective` | relay-validation.js:12 | a tombstone key names one recipient and message when recipients have no separator |
| `JsText.UploadKeyInjective` | relay-validation.js:13 | an upload key names one (id, sender, group) when id and sender have no separator |
| `JsText.UploadKeyIff` | relay-validation.js:13 | a key belongs to its triple alone, among triples without separator in id and sender, exactly when its own id and sender have none; any other triple shares its key with one of those |
| `RelayMail.AckCrash` | relay-data-routes.js:663-680 | whatever an interrupted ACK left durable, the message is queued as before or its tombstone exists, and repeating the ACK reaches the queues of the uninterrupted one |
| `RelayMail.AckRetry` | relay-data-routes.js:663-680 | the same with the sweep of the start before the repeated ACK: the message is queued, expired or has its tombstone, and later fetches find what they would find after the uninterrupted ACK |
| `RelayMailLaws.AckKeepsUntombstonedIff` | relay-validation.js:12 | an ACK keeps 'no queued message has a tombstone' in every state exactly when its recipient has no separator; otherwise a stored message of another recipient is hit |
| `RelayMailLaws.PageAdvances` | relay-data-routes.js:614-622 | a page continues where the reader stood: with the returned cursor, everything up to it has been returned |
| `RelayMailLaws.PageIsFilled` | relay-data-routes.js:606-621 | for every limit, a page holds what was asked for (50 by default, 500 at most), a negative limit counting back from the end of the queue as slice does, or everything left after the cursor |
| `RelayMailLaws.ShortPageCompletes` | relay-data-routes.js:614-622 | a page shorter than its positive limit completes the queue for a reader that was caught up |
| `RelayMailLaws.LostCursorRestarts` | relay-data-routes.js:616-619 | a cursor that has left the queue gives the page of a reader without a cursor |
| `RelayMailRuns.ReachableMail` | relay-data-routes.js:44-57 | in every reachable state a queue holds one envelope per id at most, and none whose tombstone exists, provided ACKs name recipients without a separator |
| `RelayMailRuns.StepAcked` | relay-lifecycle.js:28-35 | tombstones appear by a signed ACK only and disappear only once their time is over |
| `RelayMailRuns.AckedNeverFetched` | relay-data-routes.js:663-680 | from an accepted ACK until its tombstone expires no fetch returns the message, in any run from any state |
| `RelayMailRuns.NothingSkipped` | relay-data-routes.js:599-625 | a reader that starts without a cursor and passes back what it is given has been given every queued message once a page is shorter than its limit, under any interleaving in which the id it holds is not stored anew |
| `RelayMailRuns.ReentryHides` | relay-data-routes.js:616-619 | that hypothesis is needed at every point: if the held id is stored anew while a message is unread, the next page is empty and the message is still there |
| `RelayMailRuns.FanOutStaysInGroup` | relay-data-routes.js:124-149 | an accepted group store involves members only: sender and recipients belong to the group afterwards and the queue of anybody else is untouched |
| `RelayDelivery.StorePuts` | relay-data-routes.js:27-59 | a store puts the envelope, whole and at the end, into its recipient's queue exactly if the sender's key signed it and there is neither a tombstone in force nor an unexpired copy; nothing else enters a queue |
| `RelayDelivery.GroupStorePuts` | relay-data-routes.js:122-186 | an accepted group store puts a copy with every field of the request, the payload included, into the queue of each recipient without tombstone or copy, and nothing else into any queue |
| `RelayDelivery.QueuedUntilExpiry` | relay-data-routes.js:599-612 | over any run with crashes, a queued message that is not acknowledged is in the queue that a fetch at t reads exactly if t is at most the time of insertion plus the seconds to live times 1000 |
| `RelayDelivery.StoredIsFetched` | relay-data-routes.js:27-625 | from store to fetch: a signed envelope is what later fetches find, whole, exactly until its time is over, unless it is acknowledged |
| `RelayDelivery.GroupStoredIsFetched` | relay-data-routes.js:122-625 | the same for the copy of each recipient of a group store |
| `RelayDelivery.QueuedWasSent` | relay-data-routes.js:44-57 | whatever is ever queued, over any run with crashes, was sent by a request whose text, field by field, is signed under the key it carries |
| `RelayDelivery.AckAnswer` | relay-data-routes.js:648-682 | a signed ACK takes the message out of its recipient's queue and leaves a tombstone for the lifetime of tombstones; an unsigned one changes nothing |
| `RelayDelivery.FetchReads` | relay-data-routes.js:612-624 | a fetch returns a page of what it reads, and leaves to the next one what it read itself |
| `RelayDelivery.NthPage` | relay-data-routes.js:614-624 | with nothing in between, the k-th fetch of a reader that passes its cursor back returns the k-th slice of the queue, as long as was asked for |
| `RelayDelivery.PagesCover` | relay-data-routes.js:614-624 | so enough fetches return every unexpired message exactly once and in order, and the next one returns nothing and leaves the cursor where it is |
| `RelayFanOut.FanOutEffect` | relay-data-routes.js:154-186 | each recipient without a tombstone is served once, with its own copy, and no other queue and no tombstone changes |
| `RelayFanOut.FanOutCounts` | relay-data-routes.js:151-193 | the number reported as stored is the number of recipients that had neither the message nor a tombstone |
| `RelayFanOut.FanOutRefinesStores` | relay-data-routes.js:141-186 | the fan-out ends in the state of single-recipient stores made one after the other |
| `RelayFanOut.RepeatSettles` | relay-data-routes.js:141-186 | after a crash at any point of the loop, repeating the request leaves each recipient with a tombstone or exactly one copy |
| `RelayFanOut.RepeatConverges` | relay-data-routes.js:141-186 | and every queue with the messages, every tombstone as if the first attempt had completed |
| `RelayRetry.RepeatIsAdmittedIff` | relay-data-routes.js:122-149 | whatever restarts, sweeps, deaths and requests about other things come between the crash and the repeat, it is accepted exactly if the group then is unknown, has an outlived tombstone, or is active within its lifetime, and is otherwise refused with 409 |
| `RelayRetry.RetrySettles` | relay-data-routes.js:122-186 | after any turns since the crash an accepted repeat leaves each recipient with a tombstone or exactly one copy, and a refused one leaves every queue as it was |
| `RelayRetry.RetryConverges` | relay-data-routes.js:122-186 | crash and retry against completion and retry, after any requests, restarts and sweeps in between, the same in both and group stores with the same answers: if both repeats are accepted, the tombstones agree, recipients without one have the same messages, and every queue has the same unexpired messages in the same order, the repeated one aside where the first attempt was to deliver it |
| `RelayRetry.RestartConverges` | relay.js:74 | when only the sweep of the start comes in between, every queue ends with the same messages as if the first attempt had completed, expired leftovers included |
| `RelayRetry.RetryTimeline` | relay-lifecycle.js:37-46 | for the first store of a group, every number of recipients served and every time of start and repeat: accepted until the lifetime of the first attempt is over if the start found it in force; otherwise refused until the tombstone made at the start is outlived, and then accepted again |
| `RelayRetry.LateRepeatIsRefused` | relay-data-routes.js:122-149 | while it is refused, recipients not served before the crash have neither copy nor tombstone, and those served have their copy until it expires |
| `RelayCrashRuns.SoundAcrossCrashes` | relay-data-routes.js:44-57 | in every run in which the process may die at any write and start again on what was durable: one envelope per id and queue, owners are members, upload sessions within range |
| `RelayCrashRuns.AckedNeverFetchedAcrossCrashes` | relay-data-routes.js:663-680 | from an ACK that removed a message, answered or cut short by a crash, until its tombstone expires no fetch returns the message, however often the process dies in between |
| `RelayCrashRuns.UnansweredAck` | relay-data-routes.js:663-680 | an ACK in which the process died leaves the message queued, or gone beside a tombstone of full lifetime |
| `RelayCrashRuns.DelegatedIffPublishedAcrossCrashes` | relay-data-routes.js:292-298 | revocation survives crashes: the equivalence for delegated updates holds in every run with crashes |
| `RelayCrashLaws.NothingSkippedAcrossCrashes` | relay-data-routes.js:599-625 | a reader misses no message although the process dies and is started again between its pages |
| `RelayCrashLaws.OwnerIsStableAcrossCrashes` | relay-data-routes.js:230-233 | an owned group has one owner until it expires, over any run with crashes |
| `RelayCrashLaws.BlobReadAcrossCrashes` | relay-data-routes.js:576-597 | a stored blob is what every read returns until its time to live is over, over any run with crashes |
| `RelayCrashLaws.ChunkHoldsLastWriteAcrossCrashes` | relay-data-routes.js:451-478 | a chunk holds some bytes exactly when the last request for it that took effect carried them, over any run with crashes and restarts |
| `RelayCrashLaws.CompletionAcrossCrashes` | relay-data-routes.js:524-573 | after any order, repetition and restart, completion is the single-shot upload of the concatenation by index of the bytes written last |
| `RelayWrites.StepIsBetween` | relay-data-routes.js:7-683 | a finished request is a state the crash laws cover |
| `RelayWrites.GroupStoreIsBetween` | relay-data-routes.js:122-186 | so is every state an interrupted group store leaves: each queue untouched, swept or served, each tombstone and group old or new |
| `RelayWrites.SweepIsBetween` | relay-lifecycle.js:48-51 | so is every state an interrupted timer sweep leaves |
| `RelayGroupLaws.StepGroup` | relay-lifecycle.js:37-46 | for each group a step is an accepted update, a sweep, the bootstrap of an absent group, or nothing |
| `RelayGroupLaws.ReachableGroups` | relay-data-routes.js:322-330 | in every reachable state the owner is a member, provisional groups have no administrators, and updated groups hold normalized ids |
| `RelayGroupLaws.OwnedStep` | relay-lifecycle.js:42-44 | an owned group keeps its owner or expires; it expires only after its lifetime without an accepted update, and changes only by one |
| `RelayGroupLaws.ExpiredStep` | relay-data-routes.js:291 | an expired group leaves that state only by an update its owner signed or by deletion of an outlived tombstone; neither fan-out nor an administrator revives it |
| `RelayGroupLaws.BootstrapStep` | relay-data-routes.js:141-149 | a provisional group appears only where none was known |
| `RelayGroupLaws.OwnerIsStable` | relay-data-routes.js:230-233 | over any run in which it does not expire, an owned group has one owner |
| `RelayGroupLaws.UpdateTokens` | relay-data-routes.js:325-327 | only publication changes the token set of an owned group, and a takeover without publication starts with none |
| `RelayGroupLaws.DelegatedHoldsToken` | relay-data-routes.js:291-298 | an accepted delegated update presents an unexpired token that the group holds for that administrator and owner |
| `RelayGroupLaws.PublishedEntries` | relay-data-routes.js:253-275 | the tokens kept are exactly those the owner's key granted in the request, the last one for each administrator |
| `RelayGroupLaws.AllReissued` | relay-data-routes.js:255-273 | the published list passes exactly when every token in it was reissued for this group, version and key and has not expired |
| `RelayGroupLaws.OwnerAcceptedIff` | relay-data-routes.js:222-275 | exactly when an owner's update is accepted: the group is free or already theirs, they list themselves, they signed it, and every token with it was reissued |
| `RelayAnswers.UpdateAnswer` | relay-data-routes.js:215-320 | every update is answered by the first of its checks that fails, each check spelled out with its status, the signed texts and the names of the permissions |
| `RelayAnswers.GroupStoreAnswer` | relay-data-routes.js:88-140 | every group store is answered by the first of its checks that fails, with its status and signed text |
| `RelayAnswers.RecipientsAre` | relay-data-routes.js:88-96 | the recipients are the listed ids, trimmed, apart from the sender |
| `RelayAnswers.AcceptedIsPermitted` | relay-data-routes.js:289-290 | an accepted addition shows a token with 'members:add', an accepted removal one with 'members:remove' |
| `RelayAnswers.PermissionDecides` | relay-data-routes.js:289-290 | when every other check passes, the named permission decides between acceptance and 403 |
| `RelayPermissionRun.PermissionRun` | relay-data-routes.js:276-320 | a run for each action in which the permission alone decides: accepted with the one it needs, refused with 403 with any other |
| `RelayPermissionRun.CastsExist` | relay-data-routes.js:276-320 | such runs exist for additions and for removals |
| `RelayGroupLaws.DelegatedDelta` | relay-data-routes.js:309-313 | for a request with comma-free ids, the accepted member set is exactly old plus or minus the changed peers if and only if the set asked for has no comma |
| `RelayGroupLaws.OthersKeptIff` | relay-data-routes.js:299-313 | whatever the ids are, the peers that an accepted delegated update does not name keep their membership exactly when the members listed are the set asked for; with a comma-free list, exactly when the set asked for has no comma |
| `RelayGroupLaws.ProtectedUntouched` | relay-data-routes.js:299-313 | by the law on unnamed peers, a protected peer keeps its membership whenever the members listed are the set asked for, as they are when neither has a comma; single peers otherwise exactly if listed as asked for |
| `RelayGroupLaws.OwnerUntouched` | relay-data-routes.js:299-311 | the owner stays owner and member through every accepted delegated update, whatever the ids are |
| `RelayGroupLaws.CommaMemberDrops` | relay-data-routes.js:309-313 | a member with a comma in its id drops out of every accepted comma-free list, protected or not |
| `RelayGroupLaws.CommaFoolsDeltaCheck` | relay-data-routes.js:311 | the comparison takes the normalized list a, b and the owner for the set of 'a,b' and the owner |
| `RelayCommaRun.CommaFoolsRelay` | relay-data-routes.js:276-330 | a run in which an administrator's update is accepted although its list, free of commas, is not the set asked for; what is listed becomes the group, protected peers that the request does not name included |
| `RelayCommaRun.FoolingListExists` | relay-data-routes.js:311 | such a case exists: a, b and the owner for an added peer 'a,b', with a protected |
| `RelayGroupRuns.ViewStep` | relay-data-routes.js:235-330 | one step changes who administers a group only by publication, by takeover of a group that is not owned, or by expiry |
| `RelayPlainRuns.DelegatedOnlyByLastPublication` | relay-data-routes.js:292-298 | over any run, a delegated update is accepted only with a token of the last published list of the present owner, with no expiry since |
| `RelayPlainRuns.DelegatedIffPublished` | relay-data-routes.js:276-320 | both ways: a delegated update that is proper by itself is accepted exactly when it shows a token of the last list its owner published, with no expiry since |
| `RelayGroupRuns.PublicationGrants` | relay-data-routes.js:254-274 | and that list was granted, token by token, by an accepted owner update of that group |
| `RelayPlainRuns.RevokedStaysRevoked` | relay-data-routes.js:292-298 | a token left out of a published list is refused until another list is published |
| `RelayUploads.CountImpliesAll` | relay-data-routes.js:516-531 | when the request repeats the session's chunk count, equal size leaves no index missing, so that branch is unreachable |
| `RelayUploads.OtherCountCanMiss` | relay-data-routes.js:524-529 | with another count the branch is reachable |
| `RelayUploads.CompleteIsSingleShot` | relay-data-routes.js:510-573 | completing answers and stores what a single-shot upload of the assembled bytes does, under the same signature check, and consumes the session unless refused |
| `RelayAnswers.UploadAnswer` | relay-data-routes.js:359-411 | a single-shot upload is refused with 401 exactly if its signature over every field fails, and otherwise stored whole under its id unless that is taken |
| `RelayAnswers.ChunkAnswer` | relay-data-routes.js:436-478 | a chunk is refused by the first check that fails, or put into its session, which the first chunk opens with its own fields and time |
| `RelayAnswers.CompleteAnswer` | relay-data-routes.js:501-573 | completion is refused by the first check that fails; otherwise the session is gone and the bytes of its chunks are stored under every field of the request, unless the id is taken |
| `RelayAnswers.SessionLifetime` | relay-lifecycle.js:23-26 | a session lasts for its lifetime in milliseconds from its first chunk on |
| `RelayUploadRuns.ReachableSessions` | relay-data-routes.js:442-457 | in every reachable state the indexes of a session are below its chunk count |
| `RelayPlainRuns.ChunkHoldsLastWrite` | relay-data-routes.js:451-478 | a chunk holds some bytes exactly when the last accepted request for that index in that session carried them |
| `RelayPlainRuns.CompletionOfLastWrites` | relay-data-routes.js:524-573 | after any order and repetition of chunks, completion is the single-shot upload of the concatenation by index of the bytes written last |
| `RelayPlainRuns.BlobReadWhileAlive` | relay-data-routes.js:576-597 | over any run, a blob stored at once or in chunks is what every read of its id returns until its time to live is over, whatever is uploaded meanwhile, and then no more |
| `RelayServer.Relay.PruneRecipient` | relay-lifecycle.js:8-14 | leaves the messages within their lifetime in order, with one write exactly if something changed |
| `RelayServer.Relay.PruneAckTombstones` | relay-lifecycle.js:28-35 | every state on the way has lost only tombstones that are due |
| `RelayServer.Relay.PruneGroupMemberships` | relay-lifecycle.js:37-46 | every state on the way has each group as before or as after the sweep |
| `RelayServer.Relay.PruneBlobs` | relay-lifecycle.js:16-21 | removes exactly the blobs that are due |
| `RelayServer.Relay.PruneUploads` | relay-lifecycle.js:23-26 | removes exactly the sessions that are due |
| `RelayServer.Relay.constructor` | relay.js:43-47 | the process starts on what its five stores reload, whatever was found |
| `RelayServer.Relay.CrashInRequest` | relay-storage.js:23-84 | a crash before, between or during the writes of any request reloads a state that the crash laws cover, and the next process starts settled on it |
| `RelayServer.Relay.RequestIsTurn` | relay-storage.js:31-84 | a request that ran to its end is a turn of the runs on disk |
| `RelayServer.Relay.PruneAllRecipients` | relay-lifecycle.js:49 | every state on the way has each queue as before or swept |
| `RelayServer.Relay.PruneStores` | relay-lifecycle.js:49-50 | the first three sweeps pass through states the crash laws cover |
| `RelayServer.Relay.PrunePersistentState` | relay-lifecycle.js:48-51 | the five sweeps together are the timer step of the transition system, and what they make durable on the way is covered by the crash laws |
| `RelayServer.Relay.PutEnvelope` | relay-data-routes.js:154-186 | one recipient's turn; between the sweep of its queue and the write no other state is durable |
| `RelayServer.Relay.HandleStore` | relay-data-routes.js:27-59 | is the store step; a copy is put exactly when the signature holds and the recipient had neither message nor tombstone |
| `RelayServer.Relay.HandleFetch` | relay-data-routes.js:599-625 | is the fetch step and returns the page and cursor the paging laws speak of |
| `RelayServer.Relay.HandleAck` | relay-data-routes.js:648-682 | is the ACK step, and the first durable state already has the tombstone |
| `RelayServer.Relay.RemoveAcked` | relay-data-routes.js:672-680 | drops the message from its queue and nothing else |
| `RelayServer.Relay.SweepForGroup` | relay-lifecycle.js:28-46 | the two sweeps before admission pass only through states the retry law covers |
| `RelayServer.Relay.CheckMembers` | relay-data-routes.js:124-140 | an expired group, then a sender, then a recipient outside the members is refused; an unknown group is not |
| `RelayServer.Relay.AdmitGroup` | relay-data-routes.js:122-149 | after the sweeps, admits or refuses; every durable state on the way is one the retry law covers |
| `RelayServer.Relay.ServeRecipient` | relay-data-routes.js:154-186 | one turn of the loop lengthens the fan-out by one recipient, counted as stored exactly if a copy was put |
| `RelayServer.Relay.FanOutLoop` | relay-data-routes.js:151-186 | after each turn the queues are those of a shorter fan-out, and stored plus duplicate is the number of recipients |
| `RelayServer.Relay.HandleGroupStore` | relay-data-routes.js:62-195 | is the group store step, and every state it makes durable is one the retry law covers |
| `RelayServer.Relay.CheckOwner` | relay-data-routes.js:236-275 | the loop over the published tokens stops at the first that fails |
| `RelayServer.Relay.CheckDelegate` | relay-data-routes.js:276-320 | refuses with the status of the first check that fails |
| `RelayServer.Relay.HandleUpdate` | relay-data-routes.js:197-338 | is the update step; one durable write if accepted, none if refused |
| `RelayServer.Relay.CheckUpdate` | relay-data-routes.js:218-320 | the verdict is that of the first check that fails, and the tokens are those the group will hold |
| `RelayServer.Relay.HandleUploadBlob` | relay-data-routes.js:340-412 | is the single-shot step |
| `RelayServer.Relay.HandleUploadChunk` | relay-data-routes.js:414-479 | is the chunk step and reports how many chunks the session has |
| `RelayServer.Relay.HandleCompleteUpload` | relay-data-routes.js:481-574 | is the completion step, the bytes gathered by the loop in index order |
| `RelayServer.Relay.HandleReadBlob` | relay-data-routes.js:576-597 | returns a blob exactly while it is not due |
| `FileSystem.ReplaceTarget` | relay-storage.js:59-84 | through temporary file, fsync, rename and directory fsync, the target has only its old durable entry, then either, then only the new one, complete and synced |
| `Storage.SaveIsAtomic` | relay-storage.js:59-84 | a crash at any step of a save reloads the map before or the map after, and the one after once the save has returned |
| `Storage.LifeIsAtomic` | relay-storage.js:31-84 | a crash anywhere in a run of set and delete keeps every completed operation, and the interrupted one wholly or not at all |
| `Storage.LivesAreAtomic` | relay-storage.js:23-97 | the same across any number of crashes and restarts |
| `RelayDisks.WriteCrash` | relay-storage.js:31-84 | a crash while one of the five stores is written reloads the relay as before or after that change |
| `RelayDisks.DeathIsOnTrail` | relay-storage.js:31-84 | wherever a chain of changes is cut short, the reloaded state is one of those made durable |
| `RelayDisks.CrashIsBetween` | relay-storage.js:31-84 | so if the states a request makes durable are covered by the crash laws, what is reloaded after a crash is |
| `RelayDisks.DeathSettles` | relay-storage.js:23-97 | wherever the process dies, the next one starts settled on what it reloads |
| `RelayLives.LivesArePossible` | relay-storage.js:23-97 | any number of lives on disk, from empty disks on, is a run that the crash laws speak of, and each process starts settled on the state that run has reached |
| `PersistentMap.PersistentRelayMap.constructor` | relay-storage.js:23-57 | startup discards temporary snapshots and loads what the snapshot holds, nothing if it is missing or unreadable; a crash during it changes nothing |
| `PersistentMap.PersistentRelayMap.Set` | relay-storage.js:31-35 | whatever state the save passes through reloads the map before or after |
| `PersistentMap.PersistentRelayMap.Delete` | relay-storage.js:37-41 | likewise, and deleting a missing key touches no file |
| `PersistentMap.PersistentRelayMap.Save` | relay-storage.js:59-84 | the same for one replacement of the snapshot, which ends with nothing in flight |
| `StorageCodecs.MembershipRoundTrip` | relay-storage.js:112-128 | decoding inverts encoding on every membership, active or expired |
| `StorageCodecs.TombstoneRoundTrip` | relay-storage.js:130-156 | decoding inverts encoding on every tombstone |
| `StorageCodecs.LegacyTombstoneIff` | relay-storage.js:135-143 | an old numeric entry is read back for its recipient and message exactly when the recipient has no separator |
| `StorageCodecs.OlderMembership` | relay-storage.js:112-128 | records of older versions: without provisional mark or tokens a group is owned and has no administrators; a time of expiry goes before everything else |
| `StorageCodecs.OlderTombstone` | relay-storage.js:130-157 | what older tombstones mean: the text up to the first separator is the recipient, without one there is none; in an object the names may be missing, but not the time |
| `StorageCodecs.MembershipCodecIsLawful` | relay-storage.js:112-128 | whatever record was decoded, even of an older form, can be written and read back |
| `StorageCodecs.TombstoneCodecIsLawful` | relay-storage.js:130-156 | likewise for tombstones, legacy entries included |
| `UploadCrashes.ChunkFileCrash` | relay-storage.js:223-247 | a crash while a chunk file is written leaves the sessions before, or, if the chunk was already named, possibly after, and every named chunk complete |
| `UploadCrashes.ChunkIndexCrash` | relay-data-routes.js:474-476 | a crash while the index is saved leaves the sessions before or after, and every named chunk complete, because the file came first |
| `UploadCrashes.DeleteIndexCrash` | relay-storage.js:209-213 | a crash while a session is deleted leaves it with all its chunks or not at all |
| `UploadCrashes.UnlinkingRemoves` | relay-storage.js:209-213 | the files listed for the session are gone, and no others |
| `UploadCrashes.DeleteFilesGood` | relay-storage.js:209-213 | wherever the removal of its files stops, the other sessions are intact |
| `UploadStorage.ReloadReads` | relay-storage.js:176-197 | what is loaded for each session of the snapshot: embedded chunks as they are, the others from the files that exist |
| `UploadStorage.LooseBoots` | relay-storage.js:187-191 | a startup on an index that names missing files has the chunks that are there, each with its file |
| `UploadMissing.ChunkFileLoose` | relay-storage.js:223-247 | from there too, a crash while a chunk file is written leaves the sessions before or after |
| `UploadMissing.ChunkIndexLoose` | relay-data-routes.js:474-476 | likewise while the index is saved |
| `UploadLives.SavedIsSettled` | relay-storage.js:205-213 | and the first operation that saves the index ends settled |
| `UploadLives.CrashAnywhere` | relay-storage.js:158-247 | a crash anywhere in any run of chunks and deletions reloads the sessions after the completed operations or one more, even if the index named missing files at the start |
| `UploadLives.CrashIsComplete` | relay-storage.js:158-247 | if it named none, every chunk the durable index names has a complete file after the crash, and the next process starts settled |
| `UploadLives.LivesAreAtomic` | relay-storage.js:158-247 | the same across any number of crashes and restarts: the sessions are what the operations that took effect, in order, make of the first ones |
| `UploadLives.LivesStart` | relay-storage.js:158-203 | each life starts on what it found, and settled if the first one was |
| `UploadMigration.MigrationKeepsAll` | relay-storage.js:196-202 | without a crash, migrating any number of legacy sessions ends on exactly what was loaded, missing chunk files or not |
| `UploadMigration.MigrationCrashSafeIff` | relay-storage.js:196-202 | with chunk files missing or not, no crash loses anything exactly when the embedded chunks of every session but the first to be migrated already have files with their bytes; so for one legacy session always |
| `UploadMigration.DeathsLoseNothing` | relay-storage.js:196-202 | under that condition any number of startups that die in the migration, each on what the last one left, lose nothing |
| `UploadStore.RelayBlobUploadStore.constructor` | relay-storage.js:159-203 | startup, with an index of any age or none, chunk files missing or not, ends on exactly the sessions it loaded, and passes only through states of the migration crash law; settled unless it saved nothing and a named file was missing |
| `UploadStore.RelayBlobUploadStore.MigrateSession` | relay-storage.js:197-202 | one session's turn passes only through the states the migration crash law speaks of |
| `UploadStore.RelayBlobUploadStore.WriteChunk` | relay-storage.js:223-247 | one replacement of a chunk file, every state on the way a step of it |
| `UploadStore.RelayBlobUploadStore.StoreChunk` | relay-storage.js:205-247 | passes only through states the crash laws cover |
| `UploadStore.RelayBlobUploadStore.PutChunk` | relay-data-routes.js:459-476 | session, file and index together: every state on the way is covered, and the store ends settled, missing files at the start or not |
| `UploadStore.RelayBlobUploadStore.Delete` | relay-storage.js:209-213 | index first, files after: every state on the way is covered, the listed files are gone at the end, and an unknown session touches nothing |
| `RegistryLaws.RegisterEnabled` | devices/registry.js:157-197 | a registration enables the device under its token, disables the token's previous holder, removes the evicted record, and leaves every other device as it was |
| `RegistryLaws.RegisterRecord` | devices/registry.js:157-197 | the record entered has every field of the registration, is enabled, and keeps the time of its first entry; any other record stays as it was, is switched off, or is the evicted one |
| `RegistryLaws.RegisterOwns` | devices/registry.js:177-196 | the token now names the device registered; no other entry changes but that of the evicted record's token |
| `RegistryLaws.RegisterKeepsIndexIff` | devices/registry.js:170-182 | records and token index stay in agreement exactly when the eviction does not hit a token enabled on another user's device of the same id |
| `RegistryLaws.RegisteredTakesOver` | devices/registry.js:158-197 | the device just registered takes pushes under the token and is the only one, even if the token moved or the evicted record held it |
| `RegistryLaws.UnregisterKeepsIndex` | devices/registry.js:228-241 | unregistering keeps the agreement, whatever the ids |
| `RegistryLaws.UnregisterEnabled` | devices/registry.js:228-241 | unregistering switches off exactly the named device, if it carries the token |
| `RegistryLaws.UnregisterRecord` | devices/registry.js:228-241 | the named record, if it carries the token, is switched off at this time and keeps its other fields; every other record stays |
| `RegistryLaws.UnregisterOwns` | devices/registry.js:237-239 | the token leaves the index if the index gave it to that device; no other token does |
| `RegistryLaws.RegisterFits` | devices/registry.js:168-182 | no user ever holds more than max(1, limit) records |
| `RegistryLaws.EvictsOldest` | devices/registry.js:168-177 | a record disappears only when a new id meets a full list, and is then the one seen least recently, first of several |
| `RegistryLaws.ActiveTokensExact` | devices/registry.js:256-273 | the push list is exactly the enabled devices of the listed users that have a token |
| `RegistryLaws.TargetFields` | devices/registry.js:262-270 | each push goes out with token, platform and provider of an enabled device of a listed user |
| `RegistryLaws.FanOutListsTokensOnce` | devices/registry.js:256-273 | with exclusive tokens, distinct users never yield one token twice |
| `RegistryRuns.ReachableFits` | devices/registry.js:158-197 | the bound holds in every run |
| `RegistryRuns.ReachableIndexed` | devices/registry.js:157-197 | in every run without such a collision each token is enabled on one device at most and the index names it |
| `RegistryRuns.CollisionLosesIndex` | devices/registry.js:177-179 | the first collision of a run is the moment the index goes wrong |
| `RegistryRuns.OneUserPerDeviceId` | devices/registry.js:157-197 | if a device id belongs to one user, tokens are exclusive and no push list has a token twice |
| `RegistryRuns.FewDevicesPerUser` | devices/registry.js:168-182 | likewise if nobody registers more device ids than fit |
| `RegistryRuns.SharedIdDoublesToken` | devices/registry.js:177 | otherwise four registrations can leave one token enabled on two users' devices |
| `DeviceRegistry.Tables.FindOldest` | devices/registry.js:169-174 | the scan ends at the first record of least age |
| `DeviceRegistry.Tables.RegisterDevice` | devices/registry.js:143-198 | updates the tables as the model does and keeps them in agreement exactly when nothing collides |
| `DeviceRegistry.Tables.UnregisterDevice` | devices/registry.js:228-241 | reports whether the record carried the token; a refusal changes nothing |
| `DeviceRegistry.Tables.GetActiveTokens` | devices/registry.js:256-274 | the nested loops yield the push list, without a repeated token if tokens are exclusive |
| `DeviceRegistry.Tables.LoadFromStorage` | devices/registry.js:39-86 | loading is the run that registers the stored rows one after another |
| `SignedRequests.AcquisitionsApart` | security/signed-requests.js:56-67 | two requests that acquire one id are at least its lifetime apart |
| `SignedRequests.NeverReplaysIff` | security/signed-requests.js:47-102 | over all runs no (id, timestamp) passes twice exactly when the skew is a number and either negative or less than half the id lifetime, floors to seconds included |
| `SignedRequests.ReplayWhenShort` | security/signed-requests.js:81-102 | the bound is tight: at lifetime equal to twice the skew the same request passes at both ends of its window |
| `SignedRequests.DefaultsAreSafe` | push.js:57-58 | the default 120 and 300 seconds are safe, 150 and 300 would not be |
| `SignedRequests.RequestAnswer` | security/signed-requests.js:47-128 | accepted exactly if near its timestamp, with an unknown or lapsed id, and signed; whatever passes the first two checks takes its id, for 300 seconds unless a positive lifetime is set |
| `SignedRequests.SignedRequestVerifier.CleanupSignedRequestIds` | security/signed-requests.js:47-54 | the sweep removes exactly the lapsed ids |
| `SignedRequests.SignedRequestVerifier.TryAcquire` | security/signed-requests.js:56-67 | succeeds exactly when the id is unknown or lapsed |
| `SignedRequests.SignedRequestVerifier.RequireSignedRequest` | security/signed-requests.js:69-128 | the id is taken before the signature is checked, so a bad signature uses it up |
| `RegisterNonces.ReuseIsLate` | signal.js:43-50 | a nonce is accepted again only when its first timestamp is more than its lifetime in the past |
| `RegisterNonces.NeverReplaysIff` | signal.js:132-140 | over all runs no (nonce, timestamp) is accepted twice exactly when the skew is negative or the lifetime is at least the skew |
| `RegisterNonces.SignalNeverReplays` | signal.js:12-13 | with 30 and 120 seconds an accepted nonce comes back only with a timestamp more than 90 seconds newer |
| `RegisterNonces.NonceComesBack` | signal.js:187 | and it does come back, exactly then |
| `RegisterNonces.FrameAnswer` | signal.js:130-192 | accepted exactly if near its timestamp, with a nonce not in the table or out of date, and signed; only then is the nonce recorded |
| `RegisterNonces.NonceTable.CleanupExpiredNonces` | signal.js:43-50 | the sweep compares with the client's timestamp, not with the time of arrival |
| `RegisterNonces.NonceTable.VerifyRegisterAuth` | signal.js:130-192 | a nonce is recorded only for a frame that verified |
| `Presence.ReachableSession` | signal.js:279-297 | in every reachable state a peer that ever registered is either online or last seen, never both, and the table names its latest connection |
| `Presence.OnlyLatestOpen` | signal.js:279-292 | a connection whose session was taken over is not open |
| `Presence.DeliveredToLatest` | signal.js:325-338 | a signal frame reaches the connection that registered the target last exactly when that is open, so never a replaced one, late close events included |
| `Presence.OnlyRegisteredSend` | signal.js:315-324 | only a connection that has registered some peer has a frame delivered, and only with a target |
| `Presence.SnapshotIsOnline` | signal.js:194-215 | the snapshot lists exactly the peers whose latest connection is open as online, the other known ones as last seen |
| `Presence.LastSeenIsLeft` | signal.js:194-202 | in every run the time kept for an absent peer is that of the event by which it left, its connection's close or the first clean-up that found it not open |
| `Presence.LateCloseKeepsNewer` | signal.js:370-382 | a close event removes no session but the connection's own |
| `Presence.SecondNameLeavesFirst` | signal.js:294-297 | a connection that registers a second peer id leaves the first one in the table, unreachable, until the next clean-up |
| `SignalServer.Sessions.OnRegister` | signal.js:271-313 | the newer session holds the peer, and the one it replaces is not open any more |
| `SignalServer.Sessions.OnSignal` | signal.js:315-338 | delivers to the latest open session or refuses |
| `SignalServer.Sessions.CleanupOfflinePeers` | signal.js:194-202 | moves exactly the peers whose socket is not open to last seen |
| `SignalServer.Sessions.OnPeersRequest` | signal.js:356-363 | the two lists of the snapshot and the last-seen times, in terms of the history of registers and departures |
| `SignalServer.Sessions.OnClose` | signal.js:370-382 | every other session survives |
| `SignalServer.Sessions.BroadcastPresenceUpdate` | signal.js:229-246 | tells exactly the open sessions but one |
| `JsonText.CharsRead` | invite.js:41 | a printed string reads back, whatever units it has: short escapes, control units, surrogate pairs and lone surrogates (section 7 of RFC 8259) |
| `JsonText.ParseInvertsRaw` | invite.js:79 | reading inverts JSON.stringify on every value |
| `CanonicalJson.ParseInvertsCanonical` | invite.js:38-44 | the canonical text reads back as the value with its properties sorted |
| `CanonicalJson.CanonicalIff` | invite.js:38-44 | two values have one canonical text exactly when they are equal as JSON, whatever the order of properties |
| `CanonicalJson.CanonicalPair` | invite.js:40-42 | the canonical text of two properties, character by character, has the smaller name first, whichever comes first |
| `CanonicalJson.CanonicalList` | invite.js:39 | the canonical text of a list keeps its order |
| `CanonicalJson.EscapesAre` | invite.js:43 | which characters are escaped, and how |
| `Manifests.SameVerified` | invite.js:26-69 | acceptance of a manifest does not depend on the order of properties |
| `Manifests.SignedTextIff` | invite.js:60-68 | two manifests share a signed text exactly when their properties, other than the signature and the server's fields, have the same names and equal values |
| `Manifests.StoredVerified` | invite.js:62-64 | adding invite id and expiration changes nothing about acceptance |
| `Manifests.StoredProperties` | invite.js:101-105 | what is stored has invite id and expiration as given and every other property as it came |
| `Manifests.AcceptedAgain` | invite.js:83-106 | a manifest accepted at creation is accepted at restore, after the server's fields were added and the JSON was written and read |
| `Manifests.AcceptedIff` | invite.js:26-69 | a manifest is accepted exactly if its fields are proper and both signatures verify under the key it names, over the identity text and over the canonical text of its signed properties |
| `Manifests.TamperEvident` | invite.js:60-68 | if signature and key fit the text of one manifest alone, whatever is accepted with them has the signed properties of that manifest |
| `Manifests.BundleTextIff` | invite.js:46-51 | one identity text belongs to one peer id and one agreement key |
| `Invites.RestartKeepsInvites` | invite.js:76-87 | a restart finds exactly the unexpired invites of the book that the file holds, each with its stored manifest |
| `Invites.RecordProperties` | invite.js:76-79 | a record in the file has its manifest and its time under the names the restore loop reads |
| `InviteWrites.GuardKeeps` | invite.js:76-81 | as long as no write begins while another is pending, the text of every answered write, or a later one, is in the file |
| `InviteWrites.BeginCanLoseIff` | invite.js:76-81 | the guard is exact: while it has been kept so far, beginning a write makes it possible for an answered one to be lost exactly if another write is pending |
| `InviteFile.AnsweredIsFound` | invite.js:76-109 | with that guard a restart finds every answered invite that was not removed and has not expired |
| `InviteFile.OverlapLosesInvite` | invite.js:76-81 | without it a restart can miss an invite that was created, answered and has not expired, for every book, token and invite |
| `Invites.WithinLimit` | invite.js:95-98 | at no time have more attempts of one address been accepted within the last hour than the limit allows |
| `Invites.LimitedIff` | invite.js:95-96 | an attempt is turned away exactly if as many as the limit were accepted within the 3 600 000 milliseconds before |
| `Invites.AttemptFollows` | invite.js:95-104 | the bucket kept for each address is the one its attempts leave, and the accepted attempts are those answered with an invite |
| `Invites.InviteService.constructor` | invite.js:83-90 | everything restored would be accepted again |
| `Invites.InviteService.Prune` | invite.js:71-74 | removes exactly the expired invites |
| `Invites.InviteService.RecentOf` | invite.js:95 | the creations of an address within the last hour |
| `Invites.TokenShapeIff` | invite.js:114 | tokens have 22 to 128 letters, digits, underscores and hyphens |
| `Invites.AcceptedBody` | invite.js:97 | a body is accepted exactly if its fields are proper and it is signed, and still is with the server's fields |
| `Invites.InviteService.TakeText` | invite.js:76-79 | a write begins with the book of that moment |
| `Invites.InviteService.RenameText` | invite.js:80 | then that text is what the file holds, whatever the book has become |
| `Invites.InviteService.CountAttempt` | invite.js:93-98 | the three answers in their order; only an accepted attempt joins the bucket |
| `Invites.InviteService.Create` | invite.js:92-109 | which of the three answers is given, a manifest with improper fields or a signature that fails never being accepted; only an accepted creation changes invites and buckets, and it joins the accepted attempts and the changes that the laws on limit and file speak of |
| `Invites.InviteService.Fetch` | invite.js:111-117 | an invite is found exactly until it expires, under a well-formed token |
| `AccessPolicy.NormalizePolicyIds` | observability.js:211-216 | strictly increasing, and holds exactly the trims of 1 to 128 units of the inputs |
| `AccessPolicy.UpsertView` | observability.js:313-345 | an arrival changes its own user's policy as a whole or not at all |
| `AccessPolicy.GreatestVersionIsStored` | observability.js:313-345 | after any sequence of snapshots the stored policy is the one with the greatest version, the latest of several, in all four tables |
| `AccessPolicy.StoredFields` | observability.js:321-343 | what is stored, field by field: flag, version, hash, lists and mutes of the winning snapshot, with its date or else the time of arrival |
| `AccessPolicy.UpsertAnswer` | observability.js:218-330 | a snapshot is refused for an unreadable date, is stale exactly if a greater version has arrived, and is then answered with version and hash of what is stored, else with its own |
| `AccessPolicy.ConvergentIff` | observability.js:313-345 | order, number and times of arrival are irrelevant exactly when the greatest version carries its date and stands for one policy |
| `AccessPolicy.DistinctVersionsConverge` | observability.js:313-345 | when versions are distinct, exactly when the greatest one carries its date, for a missing date is replaced by the time of arrival |
| `AccessPolicy.DecisionOfWinner` | observability.js:403-490 | every decision reads flag, contacts, blocks and mutes of that one snapshot, in the order blocks, mutes, contacts |
| `AccessPolicy.DecisionWithoutSnapshot` | observability.js:409-418 | before anything readable has arrived for a user the mode decides: pass, or drop |
| `AccessPolicy.DecisionTells` | observability.js:419-470 | a decision tells version, hash and numbers of the policy it was made by |
| `AccessPolicy.DecisionsConverge` | observability.js:403-490 | when versions are distinct every decision is the same whatever the order, number and times of arrival, dates or not |
| `PolicyStore.Policies.UpsertAccessPolicy` | observability.js:218-345 | a stale or undated snapshot changes no table |
| `PolicyStore.Policies.DecideAccessPolicy` | observability.js:403-471 | decides by the recipient's stored policy, or by the mode for a missing one |
| `PolicyStore.Policies.FilterByAccessPolicy` | observability.js:492-524 | every recipient is decided by its own policy, in the order given |
| `PolicyStore.AllowedExactly` | observability.js:499-522 | the allowed list holds exactly the recipients whose policy lets the sender through |
| `PolicyStore.FilterSplits` | observability.js:499-522 | each recipient is counted once |
| `PolicyStore.DroppedExactly` | observability.js:499-522 | the dropped list holds exactly the others, each with the reason of its own policy |
| `PolicyStore.FilterKeepsOrder` | observability.js:499-522 | both lists keep the order of the recipients |

## Left out

- Bytes of signed texts: UTF-8, base64, SHA-256 and Ed25519 are one abstract check on the structured fields; that two different field lists can join to one `|`-separated text is not part of this model.
- Validation of field types and presence, body limits and the wording of HTTP answers: requests are modelled with well-typed fields.
- List items that are not strings, which normalization drops, and values that JSON cannot hold.
- Several clock readings within one request: one reading stands for all of them. A pause between the skew check and the clean-up of a replay table is therefore not modelled.
- A time of exactly 0 in `expiredAtMs`, which the handlers would take for an active group, and an administrator called `__proto__`, which a plain object cannot hold as a key.
- Insertion order of the maps where nothing observable depends on it; the order of a user's devices, of queues and of JSON properties is kept.
- The chunk directory of a session is taken to be durable once it was made, and its hashed name to be its own: `relay-storage.js:223-236` makes it without syncing its parent.
- Failed writes caught in mid-request, and file systems on which a directory cannot be synced.
- Durability of the invite file: it is replaced without fsync, so nothing is claimed about a crash of the machine; the file read at startup is taken to be one the service wrote.
- StorageCodecs.DecodeMembership: a stored record without owner or time, which the relay does not write, is rejected, where the code would load it with missing fields.
- Numbers in JSON are known by their printed text; expiry times are printed in full, where JavaScript uses an exponent from 10^21 on.
- A limit on devices that is not a number, which would switch eviction off.
- Awaits between the recipients of one policy filter: an arrival may change the policy of a recipient not reached yet.
- PolicyStore.Policies.FilterByAccessPolicy: reads one state for all recipients, for that reason.
- Updates through a second reference to a record: device records, upload sessions and queues are values written back to their table.
- PostgreSQL branches, metrics counters, moderation, routing descriptors, the dedup cache, delivery providers, TURN and deployment.
