# A verified model of the messaging server

This project models the request machine of the ANP messaging server (`internal/server`) in Dafny and
proves what it keeps over every run. The server is one state machine over its tables: groups, members,
messages, prekey bundles, one-time prekeys, attachment slots, objects, tickets and the idempotency cache.
Every JSON-RPC dispatch, upload and download holds one mutex for its whole length, so one request is one
atomic step and a run is a sequence of requests. No SQL transaction is used, so each invariant rests on
the order of statements in the handlers and on a few key constraints.

## How it is built

- `Schema`, `Wire` and `Wrappers` hold the table rows, JSON values with the readers the handlers use, error
  codes and response shapes. Integer widths matter in one place, the parsing of sizes as int64.
- `Groups`, `Prekeys` and `Attachments` say, as functions on table values, what one request does. These
  functions are the specifications of the methods below; `Requests` reads them out of a request's params.
- `Server` (module `ServerModel`) is the server itself: a class with the tables as fields and one method per
  handler, statement by statement, with the loops of the original. Every method is proved to do exactly what
  its specification function says, and `DispatchIdempotent`, `HandleUpload` and `HandleDownload` are proved
  to be one `Dispatch.Step`.
- `Dispatch` defines `Step`, runs (`At`, `ReplyAt`) from empty tables, and proves exactly-once execution;
  `Retries` says which requests the cache answers.
- `GroupSafety`, `GroupEffects`, `InboxSafety`, `Prekeys` and `AttachmentSafety` prove what one request keeps
  and changes; `ChatRuns`, `KeyRuns` and `FileRuns` lift this to whole runs, and hold the main theorems.
- `Envelope` reads params by paths of object members, `GroupOutcomes` and `Transfers` state each request's outcome on
  fixed values; `ActorRuns`, `BundleRuns` and `Transfers` prove over whole runs who acted, which bundle a get finds and
  that a download brings back the upload.
- `MergePatch` compares the profile and policy merge loops with section 2 of RFC 7386. `KeyId` covers finding
  the signer's DID in a `Signature-Input` header (the keyid parameter of section 2.3 of RFC 9421).

Clock readings, fresh ids, the handles table, handle syntax, mention validation and origin-proof verdicts
are inputs of a step (`Env`). SHA-256 is an arbitrary function (`Config.digest`). Storage never fails, and
what is encoded to JSON for a column decodes to the same wire value.

## Where the code differs from its own comments or from the expected law

- "The creator is always the owner member" (`internal/server/group.go:247`): an entry of `initial_members` can
  give the creator another role. `GroupSafety.CreatedRoles` states exactly when the creator stays owner,
  `GroupSafety.CreatorCanLoseOwner` a request after which it is not.
- The merge loops are called an RFC 7386 merge patch (`internal/server/group.go:470`). They are, for every
  target, exactly when no member of the patch is an object: `MergePatch.MergeIsRfc7386Iff`.
- The idempotency key joins caller, method and operation id with NUL bytes. It determines the triple exactly
  when none of the three holds a NUL (`Dispatch.KeyIsUniqueIff`); with NUL-free callers and methods it is
  injective for all operation ids (`Dispatch.KeyIsInjective`). A NUL gets into a key by an operation id, by the
  name of an unknown method, and by the did of a registration, which `verifyRegistration`
  (`internal/server/auth.go:128-137`) takes as the caller. So three kinds of request can get another request's answer:
  those for an unknown method whose name holds a NUL (`Retries.UnknownMethodIsAnswered`; no hit of theirs is a
  retry, `Retries.NulMethodIsNoRetry`), those whose operation id hides a registration's key
  (`Retries.LeaveIsAnsweredAsRegistration` is one), and registrations whose own did holds a NUL
  (`Retries.RegistrationIsAnswered`). For a request without a NUL in its triple every hit is a retry, in every
  run (`Retries.NulFreeCachedIffRetry`); for a NUL-free caller and method and an arbitrary operation id exactly
  when the id hides no registration (`Retries.CachedIffRetry`).
- The comment at `internal/server/group.go:674` asks that the caller of a rebind be the new DID. Nothing asks the
  previous DID, so a rebind moves its row and role, the owner's too, without its consent
  (`ChatRuns.OwnerGoesByLeaveOrRebind`, `ChatRuns.HolderWasMade`).
- A one-time prekey that is neither a JSON object nor null is handed out as null, so "never the same prekey
  twice without a new publish" holds for an owner exactly when every entry it publishes is an object or null
  (`KeyRuns.NoDoubleServingIff`); of the stored entries it always holds (`KeyRuns.NoDoubleTaking`).
- The keyid parameter is found by its first occurrence anywhere in the header, so a keyid that occurs earlier
  hides it; without one every quoted key id is read back (`KeyId.KeyIdRoundTripIff`).
- "Every accepted group message consumes a sequence number" (`internal/server/group.go:93`) is true, but so
  does a send refused for a duplicate message_id: `ChatRuns.SequenceIsConserved` accounts for both.

## Model

The rows stand in four groups. First the results. Then, marked "outcome", for each request exactly when it
succeeds, on whose behalf, and what it leaves, with roles, texts, codes, sizes and times written out, and where in
`params` its arguments stand: these tie the specification functions to fixed values. Then, marked "refinement",
the server's entry points and the methods with loops, lookups or in-place updates of their own, proved against the
specification functions. Last, marked "helper", small facts and the handlers without a loop, which follow their
specification function branch by branch: what they promise is in the outcomes and results about that function.

| member | source | states |
|---|---|---|
| Dispatch.RetryReturnsFirstResponse | internal/server/rpc.go:242-263 | in every run, after a success each later request with the same caller, method and operation_id returns that first response and leaves every table as it was |
| Envelope.SameIdRunsOnce | internal/server/rpc.go:227-263 | two requests of one caller for one method carrying the same operation_id, in meta, or at the top level where meta carries none: once the first has succeeded, the second gets its response and changes nothing |
| Envelope.NoIdAlwaysRuns | internal/server/rpc.go:243-246 | a request whose params carry no operation_id always runs |
| Retries.NulFreeCachedIffRetry | internal/server/rpc.go:242-263 | in every run, whatever its other requests are, a request whose caller, method and operation id hold no NUL is answered from the cache exactly when an earlier executed request with its triple succeeded; failures are never cached and re-execute |
| Retries.CachedIffRetry | internal/server/rpc.go:242-263 | for a NUL-free caller and method and any operation id: in all runs with calls routed by method name every hit is a retry iff the id holds no "did.register_document" and NUL, at its start or right after a NUL, with at least one character behind |
| Retries.HitIsRetry | internal/server/rpc.go:247-254 | in one such run: a request whose operation id hides no registration is answered from the cache exactly as a retry |
| Retries.RegistrationAnswers | internal/server/auth.go:128-137 | for every id that hides a registration, the two-request run in which the request gets the registration's answer, never runs and changes nothing |
| Retries.LeaveIsAnsweredAsRegistration | internal/server/auth.go:128-137 | the concrete run: a group.leave answered with the registration of "V NUL group.leave" |
| Retries.RoutedNamesAreNulFree | internal/server/rpc.go:154-223 | no method name the routing knows holds a NUL |
| Retries.RegistrationIsAnswered | internal/server/auth.go:128-137 | the mirrored run: a registration of a did with a NUL gets an ordinary request's answer although no registration ran |
| Retries.NulMethodIsNoRetry | internal/server/rpc.go:247-254 | a request for a method with a NUL in its name is never a retry of a success |
| Retries.UnknownMethodIsAnswered | internal/server/rpc.go:247-254 | the run in which a method name with a NUL, unknown to the routing, is answered with another method's response |
| Dispatch.RetriesCanBeDeleted | internal/server/rpc.go:242-263 | deleting all cached retries from a run leaves the final tables and every other answer the same |
| Dispatch.CacheProvenance | internal/server/rpc.go:255-262 | every cached response is the answer of an earlier executed request with that key |
| Dispatch.ResponseStays | internal/server/rpc.go:260-261 | a key's response, once cached, is never replaced or dropped |
| Dispatch.AnswerOrigin | internal/server/rpc.go:248-262 | every successful answer is that of some executed request, this one or an earlier one |
| Dispatch.KeyIsUniqueIff | internal/server/rpc.go:247 | a key determines its triple iff caller, method and operation id are all free of NUL |
| Dispatch.KeyIsInjective | internal/server/rpc.go:247 | with NUL-free callers and methods, keys are equal iff the triples are, for arbitrary operation ids |
| ChatRuns.VersionTagsContent | internal/server/group.go:86-91 | in every run, two states that show the same group_state_version of a group show the same member rows, policy and profile |
| ChatRuns.SameVersionSameInfo | internal/server/group.go:285-315 | two executed group.get_info calls with equal flags and equal version return the same content |
| ChatRuns.VersionCountsChanges | internal/server/group.go:318-456 | in every reachable state the version is the number of executed successful changes, a leave or remove of a non-member included, a re-join by a member excluded |
| ChatRuns.AckOrderIsInboxOrder | internal/server/msg.go:19-22 | in every poll of every caller, two items of sends acknowledged for one group, plaintext or cipher, fresh or retried, stand in the order of their acknowledged group_event_seq, the newer first |
| ChatRuns.AckedSendReachesInbox | internal/server/msg.go:12-51 | after an acknowledgement every later poll by a current member, or by the peer of a direct message, holds the item with the sent meta and body, unless it is full of newer ones |
| ChatRuns.ShownItemWasSent | internal/server/group.go:604-616 | the item any poll shows for an acknowledged message has the server_seq, meta and body of the executed send |
| ChatRuns.AckOrderIsLogOrder | internal/server/group.go:606-617 | for any two acknowledged sends to one group, group_event_seq and the row ids in the log compare the same way, and equal numbers mean the same message |
| ChatRuns.SentRowStays | internal/server/schema.go:12-24 | the row of an acknowledged send keeps its place and content for the rest of the run, visible to the peer alone, or to whoever is a member at the time |
| ChatRuns.ExecutedSend | internal/server/group_e2ee.go:351-366 | an executed acknowledged send of either kind took the group's next number and appended exactly its row |
| ChatRuns.SendKeepsPlace | internal/server/schema.go:13-14 | the row of an acknowledged send keeps its server_seq for the rest of the run |
| ChatRuns.PollReturnsNewest | internal/server/msg.go:12-51 | an executed msg.inbox returns exactly the newest min(limit, visible) visible rows as stored, in strictly decreasing server_seq |
| ChatRuns.PollsHaveNoGap | internal/server/msg.go:19-22 | between two polls with the groups unchanged and at most limit new visible rows, every visible row from the oldest item of the first answer on is in one of the two answers |
| ChatRuns.SequenceIsConserved | internal/server/group.go:95-104 | in every reachable state a group's event sequence is its non-notice rows plus its past sends refused for a duplicate message_id |
| ChatRuns.OwnerGoesByLeaveOrRebind | internal/server/group.go:404-456 | if the owner_did's row disappears, that DID left, or somebody rebound it to another DID, in between |
| ChatRuns.PrivilegeIsGranted | internal/server/group.go:366-401 | if a group has more owner and admin rows than before, a permitted caller executed group.add in between |
| ChatRuns.HolderWasMade | internal/server/group.go:366-401 | a DID that is owner or admin of a group and was not before was made so, and stayed so, by an executed permitted group.add naming it with such a role, or by a rebind onto it from a row with such a role |
| ChatRuns.ContentChangeIsAuthorised | internal/server/group.go:318-553 | if a group's rows, policy or profile differ between two states, an executed successful request with the authority for that change ran in between |
| ActorRuns.MessageWasSent | internal/server/group.go:580-586 | in every run each stored message was appended by an executed send of its sender, the authenticated caller where there is one, who was a member if it went to a group, with the sent meta and body |
| ActorRuns.MemberGoesBy | internal/server/group.go:404-456 | a member that is gone left by its own request, was removed by a caller the permission table allows, or was rebound by the new DID |
| ActorRuns.MemberComesBy | internal/server/group.go:222-401 | a new member founded the group or was listed by its founder, joined an open group itself, was added by a caller the permission table allows, or took a row over by rebind |
| ActorRuns.InfoShowsLatest | internal/server/group.go:285-315 | an executed get_info succeeds iff the group was created, and shows the profile and policy that the latest answers to executed create and update requests told |
| ActorRuns.StoredIsTold | internal/server/group.go:460-553 | in every reachable state the stored profile and policy of a group are those told by the latest successful create or update |
| GroupOutcomes.PermissionTable | internal/server/group.go:122-162 | in every reachable state a request is permitted exactly by the table of role, named requirement and action: an owner always; an admin unless owner is named, or nothing is named for update_policy; another member only where neither owner nor admin is named and the default is member |
| ChatRuns.ErrorsLeaveTables | internal/server/group.go:222-698 | in every run an error leaves every table as it was, except that a duplicate send advances exactly one group's event sequence by one |
| ChatRuns.ChatInvariant | internal/server/schema.go:12-47 | in every reachable state member rows belong to groups, are active and have a role; rows are numbered 1, 2, 3, ... and message ids are unique over direct, group and notice rows |
| ChatRuns.ChatMovesForward | internal/server/group.go:86-104 | over any stretch of a run the log only grows, groups and their owner_did stay, versions and sequences never go back |
| GroupSafety.HandleIsSafe | internal/server/group.go:222-698 | no group, message or inbox request breaks the invariant, rewrites the log, drops a group, changes owner_did, or changes content under an unchanged version |
| GroupSafety.MemberIffRow | internal/server/group.go:108-118 | in reachable states being a member is having a row, and only existing groups have members |
| GroupSafety.CreatedRoles | internal/server/group.go:246-271 | after group.create everybody has the role the last entry naming them gives, the creator owner when none names it; so the creator is owner iff no entry names it or the last one that does says owner |
| GroupSafety.CreatorCanLoseOwner | internal/server/group.go:247-271 | a concrete create request after which its creator is owner_did and a plain member, and nobody is owner |
| GroupSafety.EnrolledRole | internal/server/group.go:252-271 | the enrolment loop adds exactly the DIDs some entry names, with the last named role |
| GroupSafety.FailureIsAtomic | internal/server/group.go:222-698 | a handler that fails leaves the tables alone; a duplicate send fails with the generic code and advances one counter by one |
| GroupSafety.SequenceStep | internal/server/group.go:606-617 | one request moves a group's counter by its newly numbered rows plus one iff it is a duplicate send to that group |
| GroupSafety.OwnerRowKept | internal/server/group.go:421-423 | one request removes the owner's row only as the owner's own leave or a rebind away from it |
| GroupSafety.PrivilegeGrowsOnlyByAdd | internal/server/group.go:135-183 | one request raises the number of owner and admin rows of an existing group only as a permitted group.add |
| GroupSafety.RebindKeepsRoles | internal/server/group.go:682-688 | a rebind keeps, for every set of roles, how many rows hold them, so the multiset of roles and the member count |
| GroupSafety.JoinAddsMember | internal/server/group.go:178-183 | a join adds at most the joiner's row, with role member |
| GroupSafety.PermissionPatchResets | internal/server/group.go:144-161 | after a policy patch that sets permissions, an action the patch does not name is decided by its default role |
| GroupEffects.RolesMove | internal/server/group.go:318-456 | a successful join, add, remove, leave or rebind moves exactly the roles it names, in its group only; nothing else moves any role |
| GroupEffects.ChangeIsAuthorised | internal/server/group.go:135-162 | a group's content changes only by a permitted add, remove or update, an open join by a non-member, a member's own leave, or a rebind to a new DID |
| GroupEffects.SendIsDelivered | internal/server/e2ee.go:63-67 | an accepted send appends one row with the sent meta and body; a direct message is visible to its peer alone, a group message to exactly the members, the sender among them |
| GroupEffects.MemberListIsExact | internal/server/group.go:203-219 | get_info lists exactly the members, each once with its stored row, ordered by DID |
| InboxSafety.PageIsNewestVisible | internal/server/msg.go:19-22 | the page is the newest min(limit, visible) visible rows in decreasing server_seq; a visible row is missing only from a full page of newer ones |
| InboxSafety.SmallerLimitIsPrefix | internal/server/msg.go:13-18 | a smaller limit gives a prefix of a larger one |
| InboxSafety.NoRowSkipped | internal/server/msg.go:28-49 | the decoding loop drops no stored row and keeps each row's server_seq, meta and body |
| InboxSafety.PollingHasNoGap | internal/server/msg.go:12-51 | the same gap-freedom as a relation between two states of the tables |
| Wire.InboxLimit | internal/server/msg.go:13-18 | a number from 1 to 1000 counts truncated, anything else means 100 |
| Wire.ClassifyPayload | internal/server/group.go:710-725 | a body is accepted iff exactly one of text, payload, payload_b64u is present, and the kind says which |
| Wire.ParseOfDecimal | internal/server/attachment.go:48-62 | a printed number, plain or signed, parses back exactly when it fits in 64 bits |
| Wire.LeadingZeroParses | internal/server/attachment.go:48-62 | leading zeros of a size text, signed or not, do not matter |
| Wire.NumberIsTruncated | internal/server/attachment.go:53-54 | a JSON number is a size iff it is not negative, and counts truncated |
| Wire.OnlyDigitsParse | internal/server/attachment.go:48-62 | a text with any other character is no size |
| KeyRuns.QueueStepInRun | internal/server/e2ee.go:107-115 | in every run each owner's part of the shared prekey table takes exactly the steps of an independent bounded FIFO queue |
| BundleRuns.GetAnswersLatestBundle | internal/server/e2ee.go:101-149 | in every run a successful get answers with the bundle of the target's latest executed publish, null when that had none, and with the head of the queue iff a one-time prekey was asked for |
| BundleRuns.GetFindsPublished | internal/server/e2ee.go:125-149 | an executed get is not found iff nobody published for its target before, and refused for want of a prekey iff it asks for one and the queue is empty |
| BundleRuns.StoredIsLatest | internal/server/e2ee.go:102-106 | in every reachable state an owner has a bundle iff it published one, and it is that of the latest publish |
| BundleRuns.PublishFillsQueue | internal/server/e2ee.go:107-115 | an executed publish appends its prekeys to the queue of its authenticated caller, of which the newest 100 stay, and leaves all others alone |
| KeyRuns.PrekeysAreConserved | internal/server/e2ee.go:107-147 | at all times every published entry is exactly one of held, served, removed as a copy of a served one, or evicted by the trim |
| KeyRuns.ServedFlowIsHandedOut | internal/server/e2ee.go:137-143 | the entries counted as served are exactly those the gets took off the head, and each was handed out in that get's reply |
| KeyRuns.NoDoubleTaking | internal/server/e2ee.go:137-147 | between two executed gets that take the same stored entry of one owner, it was published again |
| KeyRuns.NoDoubleServing | internal/server/e2ee.go:137-147 | between two executed gets that hand out the same prekey object of one owner, it was published again |
| KeyRuns.NoDoubleServingIff | internal/server/e2ee.go:107-147 | an owner who publishes only entries of a given set never has a value handed out twice without a publish of it in between, in every run, iff each entry of the set is an object or null |
| KeyRuns.SameNullTwice | internal/server/e2ee.go:140-142 | for any entry that is neither, a concrete run that publishes it twice and hands out null twice |
| KeyRuns.ServedWasPublished | internal/server/e2ee.go:107-143 | whatever a get hands out is the reading of an entry published earlier in the run |
| KeyRuns.ServingTakesHead | internal/server/e2ee.go:137-143 | what a get hands out is the head of the owner's queue, read as an object |
| KeyRuns.KeyInvariant | internal/server/e2ee.go:114 | in every reachable state row ids ascend and every queue holds at most 100 entries |
| Prekeys.TableRefinesQueues | internal/server/e2ee.go:87-149 | one request does to every owner's queue what the bounded queue does (append in array order, keep the newest 100, pop the head with its copies), a get answers with the head, and other owners' queues stay, although row ids may be reused |
| Prekeys.InsertAllAppends | internal/server/e2ee.go:108-112 | publishing appends the entries in array order to the owner's queue and to no other |
| Prekeys.TrimKeepsNewest | internal/server/e2ee.go:114 | deleting the rows outside the newest n row ids keeps the newest n entries of the queue |
| Prekeys.OldestIsHead | internal/server/e2ee.go:139 | the row with the smallest row id is the head of the queue |
| Prekeys.DeleteEqualIsWithout | internal/server/e2ee.go:143 | the delete removes all copies of the entry from the owner's queue and nothing from any other |
| Prekeys.FlowBalances | internal/server/e2ee.go:107-147 | one request neither loses nor makes up an entry |
| FileRuns.DownloadReturnsCommittedBytes | internal/server/attachment.go:411-453 | every successful download returns exactly the bytes present at the commit of the slot its ticket names, whose size and digest that commit recorded |
| Transfers.DownloadReturnsUpload | internal/server/attachment.go:363-453 | in every run a successful download returns the content of the last accepted upload to its ticket's slot before that slot was committed |
| Transfers.UploadComesBack | internal/server/attachment.go:363-453 | once content is uploaded and the slot committed with no upload in between, every ticket issued for it afterwards brings exactly this content back, throughout its first 299 s |
| Transfers.BytesAreLastUpload | internal/server/attachment.go:396-400 | in every reachable state the bytes of a slot are the content of the last accepted upload to it |
| Transfers.UploadStoresContent | internal/server/attachment.go:381-406 | an accepted upload stores the content sent and answers with its size |
| FileRuns.TicketOpensItsObject | internal/server/attachment.go:427-452 | until its deadline a ticket serves the bytes its slot had at issue, whatever requests ran since, and is refused for every other object id |
| FileRuns.TicketWindow | internal/server/attachment.go:312-313 | a ticket is refused as expired exactly after the whole second 300 s past its issue: always after 300 s, never within the first 299 s |
| FileRuns.CommittedBytesStay | internal/server/attachment.go:363-407 | after a commit the slot's object and recorded size and digest never change, whatever uploads, commits or aborts follow |
| FileRuns.CommitsOnce | internal/server/attachment.go:198-200 | no slot is committed twice in a run |
| FileRuns.CommitVouchesForBytes | internal/server/attachment.go:195-223 | a commit carries the slot's own token, and the size and digest it names are those of the stored bytes |
| FileRuns.RecordedMeansCommitted | internal/server/attachment.go:224-227 | a recorded size and digest stem from a commit in the run |
| FileRuns.FileInvariant | internal/server/attachment.go:363-407 | in every reachable state each object's size and digest are those of its bytes, at most 32 MiB and as declared; committed slots record them; tickets name committed slots |
| FileRuns.FilesMoveForward | internal/server/attachment.go:188-259 | over any stretch of a run statuses only move forward through created, committed, aborted, and tickets stay |
| FileRuns.LateSlotIsFrozen | internal/server/attachment.go:201-203 | with a clock that never goes back, a slot not committed by its expiry is never committed and its bytes never change again |
| AttachmentSafety.HandleIsSafe | internal/server/attachment.go:104-337 | create, commit, abort and ticket requests keep the attachment invariant and only move slots forward |
| AttachmentSafety.UploadIsSafe | internal/server/attachment.go:363-407 | an upload keeps the attachment invariant and touches no slot past created |
| AttachmentSafety.UriNamesOneSlot | internal/server/attachment.go:146-147 | two slots never share an object URI |
| AttachmentSafety.DownloadIsCommitted | internal/server/attachment.go:436-452 | a served download is the object of the slot its ticket names, with that slot's recorded size and digest |
| Attachments.UriMatchesItsIdOnly | internal/server/attachment.go:457-461 | among generated ids, an object URI over any base URL matches the id it was built from and no other |
| MergePatch.Merge | internal/server/group.go:480-486 | the merge loop gives the same result for every iteration order of the patch |
| MergePatch.Compose | internal/server/group.go:527-533 | two patches in a row are one composed patch |
| MergePatch.MergeIsRfc7386Iff | internal/server/group.go:470-486 | the merge equals section 2 of RFC 7386 for every target iff no member of the patch is an object |
| MergePatch.FlatMergeIsRfc7386 | internal/server/group.go:520-533 | for a patch with no object member the merge is the standard's algorithm |
| MergePatch.DeepMergeDiffers | internal/server/group.go:520-533 | for a patch with an object member some target is merged differently |
| KeyId.KeyIdRoundTripIff | internal/server/auth.go:101-121 | behind a given text every quoted D#F, D and F without a quote and F without #, is read back iff keyid does not occur in that text |
| KeyId.KeyIdRoundTrip | internal/server/auth.go:89-121 | where keyid does not occur earlier, D and F have no quote and F has no #, a Signature-Input with keyid="D#F", with or without further parameters, yields D#F and then the DID D |
| KeyId.UnquotedKeyId | internal/server/auth.go:117-120 | without quotes a key id is read up to a semicolon or the end |
| KeyId.LongKeyIdIsMissed | internal/server/auth.go:101-121 | behind an earlier keyid, a quoted D#F longer than the text before it is not what is read |
| GroupOutcomes.CreateOutcome | internal/server/group.go:222-282 | outcome: group.create succeeds iff there is a policy, somebody who creates and a fresh id; the authenticated caller owns the group |
| GroupOutcomes.JoinOutcome | internal/server/group.go:318-363 | outcome: group.join succeeds iff the group exists and is open; the authenticated caller becomes a member, or stays what it is |
| GroupOutcomes.AddOutcome | internal/server/group.go:366-401 | outcome: group.add succeeds iff the table allows the caller and the DID or handle resolves; the row gets the role and keeps its joined_at |
| GroupOutcomes.RemoveOutcome | internal/server/group.go:404-432 | outcome: group.remove succeeds iff the table allows the caller and the target is not owner_did; exactly the target's row goes |
| GroupOutcomes.LeaveOutcome | internal/server/group.go:435-456 | outcome: group.leave takes exactly the authenticated caller's row, and succeeds iff the group exists |
| GroupOutcomes.RebindOutcome | internal/server/group.go:645-698 | outcome: group.rebind_member succeeds iff the new DID calls, the old one has a row in the target group and the new one none; the row moves as it is |
| GroupOutcomes.UpdateProfileOutcome | internal/server/group.go:460-506 | outcome: group.update_profile succeeds iff the table allows the caller and there is a document; member by member the patch replaces, deletes or keeps |
| GroupOutcomes.UpdatePolicyOutcome | internal/server/group.go:510-553 | outcome: group.update_policy likewise |
| GroupOutcomes.InfoOutcome | internal/server/group.go:285-315 | outcome: group.get_info answers with the stored version, profile and, where asked, policy, members and their count |
| GroupOutcomes.PlainOutcome | internal/server/group.go:557-628 | outcome: group.send succeeds iff its fields are there, the sender is a member, the payload and proof are good and the id is fresh; the row and acknowledgement field by field |
| GroupOutcomes.CipherOutcome | internal/server/group_e2ee.go:302-383 | outcome: group.e2ee.send likewise |
| GroupOutcomes.DirectOutcome | internal/server/e2ee.go:11-78 | outcome: direct.send likewise, with its proof rules |
| GroupOutcomes.NoticeOutcome | internal/server/group_e2ee.go:413-428 | outcome: a well-formed notice is acknowledged, and stored for its target unless its id is taken |
| GroupOutcomes.PlainCodes | internal/server/group.go:557-628 | outcome: which error code a refused group.send gets |
| GroupOutcomes.CipherCodes | internal/server/group_e2ee.go:302-366 | outcome: which error code a refused group.e2ee.send gets |
| GroupOutcomes.EntryNames | internal/server/group.go:187-199 | outcome: an initial member is named by DID or by registered handle, with role member unless the entry gives one |
| GroupOutcomes.NoticeIdsDiffer | internal/server/group_e2ee.go:424 | outcome: notices at different nanoseconds have different ids |
| GroupOutcomes.VisibleTo | internal/server/msg.go:19-22 | outcome: a row is visible to its recipient and to whoever has a row in its group |
| BundleRuns.PublishOutcome | internal/server/e2ee.go:87-123 | outcome: a publish succeeds iff it has an owner, and acknowledges owner and bundle id |
| Transfers.CreateOutcome | internal/server/attachment.go:104-167 | outcome: create_slot succeeds iff its fields are well formed; the slot, its URIs, token and hour of life are those it answers with |
| Transfers.UploadOutcome | internal/server/attachment.go:363-407 | outcome: an upload is accepted iff the slot is open and in time and the content within 33554432 bytes and of the declared size |
| Transfers.CommitOutcome | internal/server/attachment.go:171-234 | outcome: commit_object succeeds iff token, attachment, status, deadline, upload, size and digest all fit, and records size and digest of the bytes |
| Transfers.AbortOutcome | internal/server/attachment.go:237-265 | outcome: abort_object succeeds iff the slot is there, whatever its status |
| Transfers.TicketOutcome | internal/server/attachment.go:269-337 | outcome: a ticket is issued iff the requester is the caller and the sender, where there are any, and a committed slot has the attachment and URI |
| Transfers.CommitCodes | internal/server/attachment.go:171-223 | outcome: each error code of commit_object exactly when its check is the first that fails |
| Transfers.TicketCodes | internal/server/attachment.go:269-310 | outcome: each error code of get_download_ticket likewise |
| Transfers.CreateCodes | internal/server/attachment.go:104-128 | outcome: each error code of create_slot likewise |
| Transfers.UploadCodes | internal/server/attachment.go:367-395 | outcome: each refusal of an upload likewise |
| Transfers.DeclaredByText | internal/server/attachment.go:149-152 | outcome: a slot declares a size iff expected_size was a decimal text |
| Transfers.BearerIs | internal/server/attachment.go:416-421 | outcome: the ticket of a header is what follows "Bearer ", without the space around it |
| Envelope.GroupMethods | internal/server/rpc.go:178-197 | outcome: where join, leave, remove, add and rebind_member find their arguments, as paths into params |
| Envelope.GroupDocumentMethods | internal/server/rpc.go:174-189 | outcome: likewise for create, get_info and the updates |
| Envelope.SendMethods | internal/server/rpc.go:156-191 | outcome: likewise for group.send, direct.send and msg.inbox |
| Envelope.PlaintextBody | internal/server/group.go:710-725 | outcome: a plaintext body is accepted iff it carries exactly one of text, payload, payload_b64u |
| Envelope.CipherMethod | internal/server/group_e2ee.go:302-343 | outcome: likewise for group.e2ee.send |
| Envelope.NoticeMethod | internal/server/group_e2ee.go:388-419 | outcome: likewise for group.e2ee.notice, and when a notice is well formed |
| Envelope.KeyMethods | internal/server/e2ee.go:87-127 | outcome: likewise for the prekey methods |
| Envelope.SlotMethods | internal/server/attachment.go:104-152 | outcome: likewise for create_slot and abort_object |
| Envelope.CommitMethod | internal/server/attachment.go:171-223 | outcome: likewise for commit_object |
| Envelope.TicketMethod | internal/server/attachment.go:269-326 | outcome: likewise for get_download_ticket |
| Envelope.UnknownMethods | internal/server/rpc.go:220-221 | outcome: every name outside the switch is an unknown method |
| Strings.AtMostIsLexicographic | internal/server/group.go:204 | outcome: the order of the member list is lexicographic |
| ServerModel.Server.constructor | internal/server/schema.go:7-116 | refinement: a new server has empty tables and satisfies the invariant |
| ServerModel.Server.DispatchIdempotent | internal/server/rpc.go:242-263 | refinement: one request under the lock is exactly one step of the run machine and keeps the invariant |
| ServerModel.Server.StepKeepsValid | internal/server/rpc.go:134-136 | refinement: a step keeps the invariants of all three table families together |
| ServerModel.Server.InsertMessage | internal/server/schema.go:12-24 | refinement: appends with the next id, or is refused iff the message id is taken |
| ServerModel.Server.AddInitialMembers | internal/server/group.go:252-271 | refinement: enrols the listed members in order, skipping unusable entries |
| ServerModel.Server.GroupCreate | internal/server/group.go:222-282 | refinement: creates the group with version and sequence 0, the creator as owner_did and owner member, then enrols the listed members; refused without a policy or a creator (GroupSafety.CreatedRoles says who ends up with which role) |
| ServerModel.Server.GroupMemberList | internal/server/group.go:203-219 | refinement: the loop over the ordered rows returns exactly the member list |
| ServerModel.Server.GroupGetInfo | internal/server/group.go:285-315 | refinement: answers with the stored version, profile and, on request, policy, ordered active members and their printed count, and changes nothing; not found for an unknown group |
| ServerModel.Server.GroupUpdateProfile | internal/server/group.go:460-506 | refinement: refused unless the caller is permitted; merges a patch into the stored profile or replaces it, under a new version |
| ServerModel.Server.GroupUpdatePolicy | internal/server/group.go:510-553 | refinement: refused unless the caller is permitted; merges a patch into the stored policy or replaces it, under a new version |
| ServerModel.Server.GroupsByMember | internal/server/group.go:655-668 | refinement: exactly the groups a DID belongs to, each once |
| ServerModel.Server.GroupRebindMember | internal/server/group.go:645-698 | refinement: moves the row of the previous DID to the new one under a new version, in the named or the only group; refused without effect when the new DID has a row, the old one has none, or the caller is not the new DID |
| ServerModel.Server.MsgInbox | internal/server/msg.go:12-51 | refinement: the loop over rows returns exactly the decoded page |
| ServerModel.Server.InsertPrekey | internal/server/e2ee.go:110-111 | refinement: appends a row one above the largest live row id |
| ServerModel.Server.E2eePublishPrekeyBundle | internal/server/e2ee.go:87-123 | refinement: replaces the owner's bundle, appends the listed prekeys and trims the owner's rows to the newest 100; the authenticated caller is always the owner |
| ServerModel.Server.FindSlot | internal/server/attachment.go:305 | refinement: a newest slot for the attachment id and URI, or none when there is none |
| ServerModel.Server.AttachmentGetDownloadTicket | internal/server/attachment.go:269-337 | refinement: stores a ticket expiring 300 s later iff the requester is the sender and the caller and the newest slot for the attachment and URI is committed |
| ServerModel.Server.HandleUpload | internal/server/attachment.go:363-407 | refinement: reads at most one byte past the limit, and stores the bytes with their size and digest iff the slot is open, in time, within 32 MiB and of the declared size: one step of the run machine, keeping the invariant |
| ServerModel.Server.HandleDownload | internal/server/attachment.go:411-453 | refinement: serves the stored bytes iff the bearer ticket is known, in time and bound to this object id, with the first failing check's refusal otherwise; one step of the run machine, changing nothing |
| Dispatch.StepParts | internal/server/rpc.go:154-223 | helper: each event changes at most one family of tables, through its own handler |
| Dispatch.StepReplies | internal/server/rpc.go:154-223 | helper: an executed request is answered by its own handler |
| Dispatch.StepAndCache | internal/server/rpc.go:242-263 | helper: one step adds to the cache exactly the success of an executed, deduplicated request, and a hit changes nothing |
| GroupSafety.AcceptedSend | internal/server/group_e2ee.go:351-383 | helper: an acknowledged send reports the next sequence number and current version and appends exactly one row |
| GroupEffects.TrafficKeepsGroups | internal/server/group.go:557-628 | helper: sends and queries leave rows, policies, profiles and versions alone |
| GroupEffects.CreateKeepsOthers | internal/server/group.go:222-282 | helper: a create leaves every existing group alone |
| GroupEffects.VersionStep | internal/server/group.go:86-91 | helper: a request raises the version by one iff it is a successful change of that group, and a re-join by a member is not |
| FileRuns.CommitRecords | internal/server/attachment.go:188-227 | helper: a commit finds the slot open, uploaded and within its deadline, and records the size and digest of its object |
| Strings.IndexOf | internal/server/auth.go:103 | helper: the first place where a substring occurs, or -1 when it occurs nowhere |
| Strings.LastIndexOf | internal/server/auth.go:90 | helper: the last place of a character, or -1 |
| Strings.Ordered | internal/server/group.go:204 | helper: ORDER BY: each text of a set once, in ascending order |
| Dispatch.StrippedReachesSameTables | internal/server/rpc.go:242-263 | helper: a run without its cached retries reaches the same tables |
| ServerModel.Server.Dispatch | internal/server/rpc.go:154-223 | helper: routing by method name runs exactly the call the params describe; unknown methods fail with -32601 |
| ServerModel.Server.DispatchChat | internal/server/rpc.go:155-211 | helper: each group, message and inbox method name reaches its own handler with its own params |
| ServerModel.Server.DispatchKeys | internal/server/rpc.go:168-171 | helper: each prekey method name reaches its own handler with its own params |
| ServerModel.Server.DispatchFiles | internal/server/rpc.go:212-219 | helper: each attachment method name reaches its own handler with its own params |
| ServerModel.Server.BumpGroupStateVersion | internal/server/group.go:86-91 | helper: raises the version of an existing group by one and reads it back; not found otherwise |
| ServerModel.Server.NextGroupEventSeq | internal/server/group.go:95-104 | helper: raises the sequence of an existing group by one and reads it back; an error otherwise |
| ServerModel.Server.AddGroupMember | internal/server/group.go:166-174 | helper: inserts an active row or sets the role of an existing one, keeping its joined_at |
| ServerModel.Server.JoinGroupMember | internal/server/group.go:178-183 | helper: inserts a member row or reactivates one without touching its role |
| ServerModel.Server.GroupJoin | internal/server/group.go:318-363 | helper: refused unless admission is open; a member joining again changes nothing, anybody else becomes a member under a new version (GroupEffects.RolesMove, VersionStep) |
| ServerModel.Server.GroupAdd | internal/server/group.go:366-401 | helper: refused unless the caller is permitted and the DID or handle resolves; otherwise the member has the given role, the rest is kept, and the version is one higher |
| ServerModel.Server.GroupRemove | internal/server/group.go:404-432 | helper: refused unless the caller is permitted and the target is not owner_did; otherwise the target has no row and the version is one higher |
| ServerModel.Server.GroupLeave | internal/server/group.go:435-456 | helper: drops the leaver and raises the version, also when there was no row to drop; not found, with no change, for an unknown group |
| ServerModel.Server.AcceptGroupMessage | internal/server/group.go:604-627 | helper: takes the next sequence number, then appends the row; when the message id is taken, only the number is used up |
| ServerModel.Server.GroupSend | internal/server/group.go:557-628 | helper: after every check of a plaintext send passed, exactly the accepted tail; otherwise the error of the first failing check and no change |
| ServerModel.Server.GroupE2eeSend | internal/server/group_e2ee.go:302-383 | helper: the same for a cipher send, with its own checks and the epoch in the acknowledgement |
| ServerModel.Server.GroupE2eeNotice | internal/server/group_e2ee.go:388-429 | helper: validates the notice, then appends a row without taking a number; a refused insert goes unnoticed |
| ServerModel.Server.DirectSend | internal/server/e2ee.go:11-78 | helper: a plaintext message needs one payload and a valid origin proof, an envelope a valid proof only when one is attached; then one row for the peer, or an error and no change when the id is taken |
| ServerModel.Server.E2eeGetPrekeyBundle | internal/server/e2ee.go:125-149 | helper: answers with the bundle and, when asked, the oldest prekey, deleting it and its equal copies; no change when there is no bundle or no prekey |
| ServerModel.Server.AttachmentCreateSlot | internal/server/attachment.go:104-167 | helper: adds a created slot with fresh ids and the URIs built from them, expiring 3600 s later; refused on a missing field, an unknown mode or profile, or a value the column cannot hold |
| ServerModel.Server.AttachmentCommitObject | internal/server/attachment.go:171-234 | helper: marks the slot committed with its object's size and digest iff token, status, deadline, upload, declared size and digest all check out, else the first failing check's code and no change |
| ServerModel.Server.AttachmentAbortObject | internal/server/attachment.go:237-265 | helper: marks a slot of any status aborted and keeps its object |

## Left out

- Retries.CachedIffRetry: does not say which dids with a NUL are safe for their own registration; Retries.RegistrationIsAnswered shows one that is not, and any hit is an earlier answer under the same key (Dispatch.CacheProvenance).
- HTTP plumbing, JSON parsing and encoding, SQLite internals, process lifecycle: statements are map, sequence or set operations, and error texts and HTTP statuses are not kept (only error codes and the data plane's refusal reasons).
- Signatures, origin proofs and DID resolution: the authenticated caller DID and the proof's verdict are inputs of a step.
- did.resolve, did.register_document, handle.register, handle.recover, group.e2ee.create, add, remove and the key package methods: they touch no modelled table; their outcome is an input, and it is cached like any other.
- Handle lookup and mention validation: a partial map and a boolean of the step.
- Random ids: FreshRun states that an object id is never handed out twice and holds no slash; a repeated group, slot or ticket id is modelled as the key constraint failing.
- Prekeys.TableRefinesQueues: assumes that equal JSON values have equal stored text, as the sorted-key encoder gives.
- Columns nothing reads back (mime_type, filename, expected_digest, created_at of objects) and the overflow of 64-bit counters are not kept.
- Wire.NumberIsTruncated: sizes sent as floating point numbers of 2^63 or more are truncated without the machine's conversion limits.
- Deadlines are whole seconds of an unbounded clock; dates past the four-digit years of RFC 3339 are not modelled.
- ServerModel.Server.Dispatch: the routing switch of the source is split in three methods, one for each family of tables.
- ServerModel.Server.AcceptGroupMessage: the source writes these statements twice, once in each group send.
- ServerModel.Server.AddInitialMembers: a loop inside group.create in the source.
