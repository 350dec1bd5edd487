# vox-server, modelled and verified in Dafny

vox-server relays encrypted messages between devices. This project models its stateful core and its one
arithmetic core, and proves what they promise over every input, every run of calls and, where calls are
interleaved in the original, every interleaving of their store calls. `dafny verify dfyconfig.toml` checks it
all (Dafny 4.11).

| part | modules | main results |
|---|---|---|
| relay protocol | `Common`, `Strings`, `Delivery`, `RelayModel`, `RelayConfinement`, `RelayDelivery`, `RelayNoLoss`, `RelayAlias`, `RelayStamps`, `RelayBounds`, `RelayCreation`, `RelayPosting`, `RelayAnswers`, `MembershipRace`; as objects with loops: `RelayServices`, `ConversationService`, over the tables of `RelayStore` | nothing waits for a user outside their conversations; nothing is lost between a send and its delivery; each recipient device gets a message once; the membership version is a valid stamp; sizes and roles stay in bounds, alone and raced; when each call is granted and what it leaves behind |
| SHA-256, HMAC | `Fips180` (the standard), `Sha256Constants`, `Sha256Block`, `LengthCounter`, `Sha256`, `Hmac` | the streaming code is the standard's hash for every split of every input |
| sessions | `Sessions`, `TokenManager` | a refresh token is used once under every interleaving; what is revoked stays revoked |
| paging | `Decimal`, `Keyset`, `EnvelopeListing`, `SyncState` | walks are complete, in order and without repetition while rows come and go |
| infrastructure | `ThreadPool`, `RateLimiter`, `ShardMap`, `Prekeys` | shutdown drains; two-sided rate bounds; one map out of many; prekeys handed out once |

How the model is laid out:

- The store is a record of maps and sets; every repository call is one atomic step, as one mutex guards the
  connection (lib/vox_store/database.cpp:62-68). A call fails only when a key, a uniqueness constraint or a foreign
  key is violated. Columns that only record when something happened are left out where nothing reads them.
- `RelayModel` gives every service call as a function from state to state, half-done creations included, and runs
  as sequences of such calls. `RelayStore`, `RelayServices` and `ConversationService` are the classes with the
  original's nested loops; each method is proved to do exactly what the function says, so the theorems about runs
  hold of them.
- What the functions of `RelayModel` do is stated once more by the rows of the tables alone, each call with the exact
  condition for its answer and the whole new state (`RelayAnswers`, `RelayCreation`).
- Clocks, generated ids and drawn tokens are parameters. User ids are generated UUIDs, so they never hold the
  separator of `DeviceScopeKey`; `ScopeKeyCollision` says what happens otherwise.
- Session refresh, concurrent joins and the thread pool are machines whose steps are the original's store calls and
  critical sections. A blocked call is a step that is not enabled.

Where a natural reading of the code fails, the failure and the exact condition are stated:

- A page size works exactly from 1 to 2^64 - 2: with 0 every page promises more and leads nowhere, with 2^64 - 1 the
  bound `limit + 1` is 0 and rows are lost (`Keyset.WorksExactly`).
- An envelope cursor reads back exactly when the envelope id is not empty (`EnvelopeListing.CursorRoundTrip`).
- `RevokeAllForUser` ends all earlier logins for good exactly when no refresh of that user stands between its revoke
  and its create (`Sessions.LogoutExactly`); a login and a refresh are enough to get there (`Sessions.LogoutCanMiss`).
- `WaitForIdle` reads the counter and then the queue size, at two moments. When it returns because it saw 0 twice, all
  accepted tasks have run exactly when, at the second read, no worker stands between taking a task and the end of that
  task (`ThreadPool.IdleExactly`). One worker and one task are enough for it to return too early, in two ways
  (`ThreadPool.IdleTooEarly`, `ThreadPool.IdleBetweenReads`). That nobody is between its pop and its count and the
  counter is still 0 is enough (`ThreadPool.IdleEnough`) and not necessary (`ThreadPool.IdleStillCounted`).
- `Shutdown` drains exactly when the pool has a worker or nothing was accepted (`ThreadPool.ShutdownDrains`); without
  workers a task can be left (`ThreadPool.UndrainedWithoutWorkers`).
- `SwitchToOffline` keeps every queued envelope exactly when the pair it is called with is a registered device or
  nothing was queued (`RelayDelivery.OfflineKeepsAll`). A device id is whatever the client sends
  (lib/vox_auth/auth_service.cpp:67); one that holds the separator
  lets an unregistered pair share its queue, and a legal run loses a message that way (`RelayAlias.AliasLoses`).
- The 32-bit version of a sync record overflows exactly at its write number 2^31 (`SyncState.IncrementFits`), and one
  client rewriting one record gets there (`SyncState.IncrementOverflows`).
- `k` concurrent joins overshoot a size limit by at most k - 1, and that is reached (`MembershipRace.RaceBound`,
  `MembershipRace.RaceReached`), for every k from the empty server on (`MembershipRace.RaceFromStart`).

## Model

| member | source | states |
|---|---|---|
| RelayConfinement.RunConfined | lib/vox_relay/conversation_service.cpp:30-297 | on every run of service calls, each envelope in a device queue or delivery row belongs to a conversation its user is in at that moment |
| RelayConfinement.SendConfined | lib/vox_relay/relay_service.cpp:86-125 | the fan-out of a send places messages only with users in the conversation |
| RelayConfinement.PurgeConfines | lib/vox_relay/conversation_service.cpp:30-38 | after a user left, the purge of rows and queues restores confinement |
| RelayNoLoss.NoLoss | lib/vox_relay/delivery_manager.cpp:18-127 | between any two moments of a run, an envelope waiting for a device still waits, in its queue or as an unacknowledged delivery row, or in between the device dequeued it, acknowledged it, or its user, who was in that conversation, left it |
| RelayNoLoss.SentIsNotLost | lib/vox_relay/relay_service.cpp:86-129 | from the moment a message is accepted this holds for every device it is sent to |
| RelayNoLoss.UnreadIsListed | lib/vox_store/envelope_repository.cpp:157-164 | a delivery row waits exactly as long as the device's pending listing shows it |
| RelayDelivery.RunExclusive | lib/vox_relay/relay_service.cpp:106-125 | on every run a device's queue holds no envelope twice, none that also has a delivery row, and never more than the maximum |
| RelayDelivery.SendPlacesOnce | lib/vox_relay/relay_service.cpp:86-125 | after a successful send exactly the unrevoked devices of the recipients, without the sending one, hold the envelope, each in exactly one place; every other entry stays |
| RelayDelivery.SendCountsQueues | lib/vox_relay/relay_service.cpp:106-129 | delivered_to_count is the number of queues the envelope is in afterwards; a refused send changes nothing |
| RelayDelivery.OfflineKeepsAll | lib/vox_relay/delivery_manager.cpp:68-88 | the queue is empty afterwards; everything in it became a delivery row if and only if the pair names a registered device or nothing was queued; other devices' rows stay |
| RelayDelivery.OfflineExactly | lib/vox_relay/delivery_manager.cpp:68-88 | the other queues and the rows there were stay as they are; each new row is for an envelope that was queued, unacknowledged and stamped with the time of the call |
| RelayAlias.AliasLoses | lib/vox_relay/delivery_manager.cpp:68-88 | a legal run after which SwitchToOffline with an unregistered pair of the same scope key loses a waiting message |
| RelayPosting.OnlyManagersPost | lib/vox_relay/relay_service.cpp:36-58 | after any run an accepted message to a channel comes from an owner or administrator of it, any other from a member, always from a registered device |
| RelayPosting.PolicyForbids | lib/vox_relay/conversation_service.cpp:165-165 | the policy a channel is created with does not contain the text that would open it to everyone |
| RelayAnswers.SendAnswers | lib/vox_relay/relay_service.cpp:19-129 | a message is accepted if and only if its text is not empty, its device is registered, its user holds an active seat or, in a channel, a running subscription and either a managing seat or an open policy, and its id is new; then it is stored as sent, and the answer has its id and time; each refusal has its error and changes nothing |
| RelayAnswers.SendQueues | lib/vox_relay/relay_service.cpp:106-124 | an accepted message is appended to the queue of each receiving device with room, and no other device's queue changes |
| RelayAnswers.SendRows | lib/vox_relay/relay_service.cpp:116-123 | each receiving device whose queue is full gets one new unacknowledged row, and no other row changes |
| RelayAnswers.AcknowledgeAnswers | lib/vox_relay/delivery_manager.cpp:60-66 | granted if and only if the device has a row for the envelope; marks that row alone |
| RelayAnswers.RevokedForGood | lib/vox_relay/relay_service.cpp:108-112 | a device once revoked stays revoked on every run and never receives again |
| RelayAnswers.AddMemberAnswers | lib/vox_relay/conversation_service.cpp:203-227 | granted if and only if the actor manages a group with room and the user is registered; then exactly that seat is active with that role, one version on; each refusal has its error |
| RelayAnswers.SubscribeAnswers | lib/vox_relay/conversation_service.cpp:254-275 | granted if and only if the user is registered and the channel has room or the user in it; then exactly that subscription runs, one version on |
| RelayAnswers.RemoveMemberAnswers | lib/vox_relay/conversation_service.cpp:229-252 | granted if and only if the actor manages the group; then the user's seat is inactive, every other seat as before, and exactly what waited for the user from that group is gone |
| RelayAnswers.UnsubscribeAnswers | lib/vox_relay/conversation_service.cpp:277-297 | granted if and only if the user does not manage the channel; then likewise for the subscription |
| RelayStamps.RunAdvances | lib/vox_store/conversation_repository.cpp:15-108 | between any two moments of a run the membership version never goes back, and equal versions mean the same members, roles and subscribers |
| RelayStamps.SubscribeAdvances | lib/vox_store/conversation_repository.cpp:204-224 | one subscription keeps every stamp valid: versions never go back, and an unmoved one means unmoved seats |
| RelayBounds.RunSized | lib/vox_relay/conversation_service.cpp:90-297 | on every run, failed creations included, groups and channels stay within their limits, a direct conversation has at most two members, and every member of a channel manages it and is subscribed |
| RelayBounds.AddSized | lib/vox_relay/conversation_service.cpp:203-227 | AddMember keeps these bounds |
| RelayBounds.UnsubscribeSized | lib/vox_relay/conversation_service.cpp:277-297 | UnsubscribeChannel keeps them: no manager can unsubscribe |
| RelayCreation.GroupCreated | lib/vox_relay/conversation_service.cpp:90-124 | CreateGroup succeeds exactly on two or more distinct users within the limit, the creator among them; then exactly they are members and the creator the only owner |
| RelayCreation.DmCreated | lib/vox_relay/conversation_service.cpp:50-88 | CreateDm succeeds exactly when the creator takes part and both are users; then exactly they are members |
| RelayCreation.ChannelCreated | lib/vox_relay/conversation_service.cpp:126-192 | CreateChannel succeeds exactly on distinct administrators with the creator, all users, within the limit; members, roles and subscribers are then exactly as asked |
| RelayCreation.GroupAnswers | lib/vox_relay/conversation_service.cpp:90-124 | the answer of CreateGroup by cases and the whole state after it: all members seated, or those up to the first who is not registered |
| RelayCreation.DmAnswers | lib/vox_relay/conversation_service.cpp:50-88 | likewise for CreateDm |
| RelayCreation.ChannelAnswers | lib/vox_relay/conversation_service.cpp:126-192 | likewise for CreateChannel, administrators before subscribers |
| MembershipRace.RaceBound | lib/vox_relay/conversation_service.cpp:222-226 | in every interleaving of AddMember and SubscribeChannel counts and writes, removals and unsubscriptions over the tables, with at most k joins between count and write, a group or channel never holds more than its limit + k - 1 users |
| MembershipRace.RaceReached | lib/vox_relay/conversation_service.cpp:222-226 | the bound is reached by k joins that count the same free place |
| MembershipRace.RaceFromStart | lib/vox_relay/conversation_service.cpp:222-226 | for every limit from 3 on and any number of users there is a legal run from the empty server to a group with one free place, which all the other users then join at once |
| MembershipRace.AloneIsAddMember | lib/vox_relay/conversation_service.cpp:203-227 | a count and a write with nothing between them leave the tables of one AddMember call, granted or refused |
| MembershipRace.AloneIsSubscribe | lib/vox_relay/conversation_service.cpp:254-275 | likewise for SubscribeChannel |
| Strings.SortUnique | lib/vox_relay/conversation_service.cpp:40-44 | the result is strictly sorted and has the same elements |
| Strings.SortedUnique | lib/vox_relay/conversation_service.cpp:40-44 | only one list is that, so any way of sorting and dropping repetitions gives it |
| Delivery.LedgerBalances | lib/vox_relay/delivery_manager.cpp:18-127 | on every run of queue calls each accepted envelope is pending, dequeued, handed to offline storage or purged, exactly once; what was dequeued followed by what is pending is an order-preserving part of what was accepted; the queue stays within its depth |
| Delivery.LedgerIsQueue | lib/vox_relay/delivery_manager.cpp:18-127 | the ledger's pending column is the real queue whatever other devices' calls were |
| RelayServices.DeliveryManager.Enqueue | lib/vox_relay/delivery_manager.cpp:18-36 | appends to the device's queue unless it is full, creating it if needed |
| RelayServices.DeliveryManager.Dequeue | lib/vox_relay/delivery_manager.cpp:38-58 | the loop takes the first entries in order; result and remaining queue are the old queue |
| RelayServices.DeliveryManager.SwitchToOffline | lib/vox_relay/delivery_manager.cpp:68-88 | the loop writes a row per queued envelope and clears the queue |
| RelayServices.DeliveryManager.PurgeConversation | lib/vox_relay/delivery_manager.cpp:114-127 | keeps exactly the other conversations' entries, in order |
| RelayServices.RelayService.Authorise | lib/vox_relay/relay_service.cpp:20-58 | the refusal, or none, of the relay model |
| RelayServices.RelayService.ServeUser | lib/vox_relay/relay_service.cpp:108-124 | the inner loop serves exactly one recipient's unrevoked devices other than the sender, counting queue placements |
| RelayServices.RelayService.ServeAll | lib/vox_relay/relay_service.cpp:106-125 | the outer loop serves exactly the devices of all recipients |
| RelayServices.RelayService.SendEnvelope | lib/vox_relay/relay_service.cpp:19-129 | state and answer are those of the relay model, and confinement is kept |
| RelayServices.ServeOne | lib/vox_relay/relay_service.cpp:116-123 | one Enqueue, with one AddDeliveryState if it is refused, extends the fan-out by one device |
| ConversationService.Service.PurgeMemberDelivery | lib/vox_relay/conversation_service.cpp:30-38 | deletes the rows and purges the queue of every device of the user |
| ConversationService.Service.CreateGroup | lib/vox_relay/conversation_service.cpp:90-124 | state and answer of the relay model, also when a member is refused half way |
| ConversationService.Service.CreateChannel | lib/vox_relay/conversation_service.cpp:126-192 | likewise for administrators and subscribers |
| ConversationService.CountUsers | lib/vox_relay/conversation_service.cpp:137-151 | the two loops count the distinct users, or report an administrator listed twice |
| ConversationService.Service.AddMember | lib/vox_relay/conversation_service.cpp:203-227 | state and answer of the relay model |
| ConversationService.Service.RemoveMember | lib/vox_relay/conversation_service.cpp:229-252 | state and answer of the relay model |
| ConversationService.Service.SubscribeChannel | lib/vox_relay/conversation_service.cpp:254-275 | state and answer of the relay model; the search loop lets a current subscriber through |
| ConversationService.Service.UnsubscribeChannel | lib/vox_relay/conversation_service.cpp:277-297 | state and answer of the relay model |
| Common.ScopeKeyInjective | lib/vox_common/types.hpp:26-29 | distinct pairs have distinct keys when user ids lack the separator |
| Common.ScopeKeyCollision | lib/vox_common/types.hpp:26-29 | two users can collide if and only if one's id followed by the separator begins the other's |
| Sha256Block.Temp1 | lib/vox_common/picosha2.h:126-126 | on words below 2^32 no addition of the five-term sum wraps, the sum needs 36 bits, and its low half is the 32-bit sum |
| Sha256Block.ScheduleSum | lib/vox_common/picosha2.h:113-113 | likewise for the four-term schedule sum |
| Sha256Block.LastSums | lib/vox_common/picosha2.h:131-135 | the two sums that are masked into e and a do not wrap either |
| Sha256Block.Round | lib/vox_common/picosha2.h:126-135 | on 64-bit words below 2^32 one round leaves words below 2^32, and its low halves are the round of section 6.2.2 of FIPS 180-4 |
| Sha256Block.FillSchedule | lib/vox_common/picosha2.h:104-114 | every 64-bit schedule word, masked or loaded without a mask, is below 2^32 and is the message schedule of section 6.2.2 |
| Sha256Block.AddVars | lib/vox_common/picosha2.h:137-144 | the unmasked additions to the digest do not wrap, and their low halves are the 32-bit sums |
| Sha256Block.Hash256Block | lib/vox_common/picosha2.h:100-148 | for every block and every digest of 64-bit words below 2^32 the block function leaves such words, and they are the compression of section 6.2.2 |
| Sha256Constants.RoundConstants | lib/vox_common/picosha2.h:53-61 | each of the 64 additive constants is the first 32 bits of the fraction of the cube root of its prime, section 4.2.2 |
| Sha256Constants.InitialDigest | lib/vox_common/picosha2.h:63-64 | each word of the initial digest is the first 32 bits of the fraction of the square root of its prime, section 5.3.3 |
| LengthCounter.PropagateValue | lib/vox_common/picosha2.h:253-265 | carrying through base-65536 digits keeps the value modulo 2^64 |
| LengthCounter.AddToDataLength | lib/vox_common/picosha2.h:253-265 | the four digits count the bytes modulo 2^64 |
| LengthCounter.WriteDataBitLength | lib/vox_common/picosha2.h:266-285 | writes eight times the count, big-endian, in eight bytes |
| Sha256.FinalIsPadded | lib/vox_common/picosha2.h:213-241 | both padding branches hash the tail of the padded message of section 5.1.1 |
| Sha256.Hasher.Process | lib/vox_common/picosha2.h:203-211 | absorbs the data: whole blocks folded, the rest buffered |
| Sha256.Hasher.Finish | lib/vox_common/picosha2.h:213-241 | leaves the fold of the whole padded message |
| Sha256.Hasher.GetHashBytes | lib/vox_common/picosha2.h:243-250 | writes the digest big-endian, stopping when the output is full |
| Sha256.HashChunks | lib/vox_common/picosha2.h:190-289 | for every byte string and every split into process calls the digest is the one-shot hash of FIPS 180-4 |
| Sha256.Hash256 | lib/vox_common/picosha2.h:303-311 | the digest of FIPS 180-4 |
| Sha256.HashStream | lib/vox_common/picosha2.h:313-332 | the same digest when the input is read through a buffer of any size |
| Hmac.HmacSha256Hex | lib/vox_common/hmac_sha256.cpp:23-59 | 64 lowercase hexadecimal characters of H((K0 xor opad) followed by H((K0 xor ipad) followed by the message)), section 2 of RFC 2104 |
| Hmac.TrailingZerosAreFree | lib/vox_common/hmac_sha256.cpp:24-31 | keys of up to 64 bytes that differ by trailing zero bytes are the same key |
| Hmac.LongKeyIsItsDigest | lib/vox_common/hmac_sha256.cpp:25-28 | a key over 64 bytes is equivalent to its digest |
| Hmac.BytesToHexString | lib/vox_common/picosha2.h:152-181 | the padded stream output is two lowercase digits per byte |
| Hmac.HexRoundTrip | lib/vox_common/picosha2.h:152-181 | the text reads back as the bytes |
| Sessions.RefreshedOnce | lib/vox_auth/token_manager.cpp:68-94 | in every interleaving two successors of one session are the same, with its user and device |
| Sessions.OneLivePerLogin | lib/vox_store/session_repository.cpp:64-99 | in every interleaving at most one session descending from a login is unrevoked, and none while a refresh stands between revoke and create |
| Sessions.SpentForever | lib/vox_store/session_repository.cpp:87-131 | a session once revoked or deleted is never live again |
| Sessions.SpentTokens | lib/vox_auth/token_manager.cpp:55-83 | its two token hashes are never found again |
| Sessions.RefreshedInTime | lib/vox_auth/token_manager.cpp:31-94 | in every interleaving a session's access and refresh times are one lifetime after its creation, and a successor was created before its predecessor's refresh time ran out |
| Sessions.CreateExactly | lib/vox_store/session_repository.cpp:19-40 | a session is created, live, if and only if its id and both hashes are new and its device exists |
| Sessions.EndsExactly | lib/vox_store/session_repository.cpp:87-131 | revoking one session, a user or a device, and the clean-up, end exactly the sessions they are for |
| Sessions.RevokeOneExactly | lib/vox_store/session_repository.cpp:87-99 | succeeds if and only if the session is live, and marks it alone |
| Sessions.RevokeExactly | lib/vox_store/session_repository.cpp:101-123 | marks exactly the rows of the user, or of the user's device |
| Sessions.CleanExactly | lib/vox_store/session_repository.cpp:125-131 | keeps exactly the live rows whose refresh time is not past |
| Sessions.LogoutExactly | lib/vox_store/session_repository.cpp:101-109 | after RevokeAllForUser no session of an earlier login is ever live again, if and only if no refresh of the user is between its revoke and its create |
| Sessions.LogoutCanMiss | lib/vox_auth/token_manager.cpp:84-93 | from the empty store, a registration, a login and a refresh up to its revoke reach a state in which RevokeAllForUser misses the login |
| TokenManager.Manager.RefreshTokens | lib/vox_auth/token_manager.cpp:68-94 | undisturbed, a call is the machine's find, revoke and create; it returns the drawn pair if and only if the new session is stored, Unauthorized, Expired and Forbidden exactly on their conditions, and each of these leaves the store as it was |
| TokenManager.AloneCreates | lib/vox_auth/token_manager.cpp:68-94 | the new session is stored if and only if a live session of that device holds the hash and its refresh time has not run out, and the drawn hashes are new |
| TokenManager.Manager.IssueTokens | lib/vox_auth/token_manager.cpp:31-53 | creates the session with its hashes and expiry times, or fails on a constraint |
| TokenManager.Manager.ValidateAccessToken | lib/vox_auth/token_manager.cpp:55-66 | succeeds exactly for a live session that holds the hash and has not expired |
| TokenManager.Manager.RevokeByAccessToken | lib/vox_auth/token_manager.cpp:100-106 | revokes the session of a valid token and otherwise nothing |
| TokenManager.SessionRepository.CleanExpired | lib/vox_store/session_repository.cpp:125-131 | deletes exactly the expired and the revoked rows and counts them |
| Decimal.StollUndoes | lib/vox_store/envelope_repository.cpp:52-56 | std::stoll reads back what operator<< wrote, for every 64-bit number |
| Decimal.FromCharsUndoes | lib/vox_store/sync_state_repository.cpp:28-35 | std::from_chars reads back what std::to_string wrote |
| Decimal.StollExactly | lib/vox_store/envelope_repository.cpp:52-56 | std::stoll reads n if and only if the text is blanks, an optional sign and digits of n, whatever follows, and n fits in 64 bits |
| Decimal.FromCharsExactly | lib/vox_store/sync_state_repository.cpp:28-35 | std::from_chars reads n if and only if the whole text is an optional minus and digits of n, and n fits |
| EnvelopeListing.CursorRoundTrip | lib/vox_store/envelope_repository.cpp:36-59 | parsing undoes making for every 64-bit timestamp if and only if the id is not empty |
| EnvelopeListing.ParseExactly | lib/vox_store/envelope_repository.cpp:42-59 | a non-empty cursor reads as a key if and only if it is a number's text, a bar and a non-empty id |
| EnvelopeListing.ListCursored | lib/vox_store/envelope_repository.cpp:142-247 | the page loop returns the page the cursor asks for, its successor cursor and whether there is more |
| EnvelopeListing.ListingWalk | lib/vox_store/envelope_repository.cpp:142-247 | following next_cursor while rows come and go: (timestamp, id) order, no row twice, none invented, none missing that stayed throughout |
| EnvelopeListing.ListingWalkFixed | lib/vox_store/envelope_repository.cpp:208-247 | over an unchanging store the walk ends with the whole sorted list |
| EnvelopeListing.PendingWalk | lib/vox_store/envelope_repository.cpp:142-189 | a device that follows its pending listing to the end gets every envelope that stayed pending |
| EnvelopeListing.PendingWalkOnly | lib/vox_store/envelope_repository.cpp:157-164 | and nothing but envelopes that were pending for that device when their page was read |
| EnvelopeListing.HistoryWalk | lib/vox_store/envelope_repository.cpp:208-247 | likewise for a conversation's history |
| EnvelopeListing.HistoryWalkOnly | lib/vox_store/envelope_repository.cpp:219-223 | and nothing but envelopes of that conversation, with their timestamps |
| EnvelopeListing.AckUnlists | lib/vox_store/envelope_repository.cpp:268-285 | an acknowledgement takes one envelope off one device's pending list and nothing else off any |
| Keyset.WalkComplete | lib/vox_store/envelope_repository.cpp:157-188 | a finished walk misses no row that was there at each page it read |
| Keyset.WorksExactly | lib/vox_store/envelope_repository.cpp:175-183 | a page size walks every fixed store to its end if and only if it is between 1 and 2^64 - 2 |
| Keyset.PageSize | lib/vox_store/envelope_repository.cpp:175-183 | a page below 2^63 - 1 has as many rows as asked for, or all that are left, and says there is more exactly when there is |
| Keyset.WalkGrowing | lib/vox_store/sync_state_repository.cpp:55-87 | over rows that only grow at the end, a finished walk lists exactly what is there at its last page |
| SyncState.VersionsCount | lib/vox_store/sync_state_repository.cpp:90-197 | accepted writes to a record named base versions 0, 1, 2, ...; its version is their number, and its ciphertext, hash, time and mark are those of the last |
| SyncState.AcceptedExactly | lib/vox_store/sync_state_repository.cpp:90-197 | a write is accepted if and only if its base is the number of writes so far, the first being an upsert by a registered user; the error otherwise, and the answer, are exact |
| SyncState.IncrementFits | lib/vox_store/sync_state_repository.cpp:116-116 | the version an accepted write computes fits in 32 bits if and only if the record has been written fewer than 2^31 - 1 times |
| SyncState.IncrementOverflows | lib/vox_store/sync_state_repository.cpp:116-116 | after 2^31 - 1 writes by one client to one record its next write is accepted as well, and computes version 2^31 |
| SyncState.AnswerTells | lib/vox_store/sync_state_repository.cpp:90-197 | a rejected write changes nothing, an accepted one only its record, which then holds what the write brought under its row id; the answer names the stored version, time and mark |
| SyncState.SyncWalk | lib/vox_store/sync_state_repository.cpp:43-88 | a finished walk from the empty cursor, while clients insert, update and tombstone, returns once each and in row-id order exactly the rows of that user and collection there at its last page |
| SyncState.Repository.UpsertRecord | lib/vox_store/sync_state_repository.cpp:90-155 | inserts at version 1, or updates in place when the base version is current |
| SyncState.Repository.TombstoneRecord | lib/vox_store/sync_state_repository.cpp:157-197 | empties and marks the record when the base version is current |
| SyncState.Repository.ListChangesAfterCursor | lib/vox_store/sync_state_repository.cpp:43-88 | the page after the cursor; an unreadable cursor gets an empty one |
| ThreadPool.ShutdownDrains | lib/vox_common/thread_pool.cpp:18-33 | once all workers are joined every accepted task has run exactly as often as it was accepted, if and only if there is a worker or nothing was accepted; tasks were taken in order |
| ThreadPool.UndrainedWithoutWorkers | lib/vox_common/thread_pool.cpp:7-12 | a run without workers that leaves an accepted task |
| ThreadPool.PoolLedger | lib/vox_common/thread_pool.cpp:52-67 | in every interleaving the queue stays within capacity, tasks are taken in acceptance order, and each is queued, in hand or has run |
| ThreadPool.NoneAfterShutdown | lib/vox_common/bounded_queue.hpp:20-29 | nothing is accepted after shutdown |
| ThreadPool.IdleExactly | lib/vox_common/thread_pool.cpp:35-67 | when the counter was 0 at one moment and the queue empty at a later one, all accepted tasks have run if and only if at the later moment no worker is between its pop and the end of its task |
| ThreadPool.IdleEnough | lib/vox_common/thread_pool.cpp:35-67 | that is so whenever at the later moment no worker is between its pop and its count and the counter is 0 |
| ThreadPool.IdleTooEarly | lib/vox_common/thread_pool.cpp:54-58 | a run in which both reads fall between a worker's pop and its count |
| ThreadPool.IdleBetweenReads | lib/vox_common/thread_pool.cpp:37-37 | a run in which a worker pops and counts itself between the two reads |
| ThreadPool.IdleStillCounted | lib/vox_common/thread_pool.cpp:60-64 | a run in which all tasks have run at the second read while the counter is 1 |
| ThreadPool.BoundedQueue.Push | lib/vox_common/bounded_queue.hpp:20-29 | appends unless shut down, within capacity |
| ThreadPool.BoundedQueue.TryPush | lib/vox_common/bounded_queue.hpp:31-39 | appends unless shut down or full |
| ThreadPool.BoundedQueue.Pop | lib/vox_common/bounded_queue.hpp:41-51 | the oldest item, or none only when shut down and empty |
| RateLimiter.AtMostTwice | lib/vox_net/rate_limiter.cpp:9-28 | any half-open interval one window long holds at most 2 * max - 1 allowed events of a key |
| RateLimiter.RefusedWhenFull | lib/vox_net/rate_limiter.cpp:23-25 | a refusal at t means max events were allowed in (t - window, t] |
| RateLimiter.KeysIndependent | lib/vox_net/rate_limiter.cpp:12-12 | one key's window and decisions depend only on its own events |
| RateLimiter.TwiceReached | lib/vox_net/rate_limiter.cpp:18-27 | 2 * max - 1 allowed events within a window do occur |
| RateLimiter.Limiter.Allow | lib/vox_net/rate_limiter.cpp:9-28 | the window of the key moves as the decision says, the others stay |
| ShardMap.Sharded.Insert | lib/vox_common/shard_map.hpp:38-42 | inserts or overwrites in the one map the shards stand for |
| ShardMap.Sharded.Erase | lib/vox_common/shard_map.hpp:44-48 | erases from it and says whether the key was there |
| ShardMap.Sharded.Find | lib/vox_common/shard_map.hpp:50-58 | the value in it, if any |
| ShardMap.Sharded.Contains | lib/vox_common/shard_map.hpp:60-64 | membership in it |
| ShardMap.Sharded.FindOrInsert | lib/vox_relay/delivery_manager.cpp:100-112 | the use of WithShard to get or create a queue adds at most that key |
| ShardMap.Sharded.Size | lib/vox_common/shard_map.hpp:76-83 | the loop's sum is the cardinality of the one map |
| ShardMap.UnionLookup | lib/vox_common/shard_map.hpp:91-97 | for any hash, a key is in the union exactly when it is in its own shard, with that value |
| Prekeys.RunBalanced | lib/vox_store/device_repository.cpp:118-277 | on every run each row ever stored is available, handed out or dropped, only one of these, and none is handed out twice |
| Prekeys.PrekeysConserved | lib/vox_store/device_repository.cpp:150-277 | stored = available + handed out + dropped by revocation |
| Prekeys.StoreExactly | lib/vox_store/device_repository.cpp:118-148 | a batch is taken if and only if its ids are new and different and the device exists; then each upload is an available row with its public key, and nothing else changes |
| Prekeys.ConsumeExactly | lib/vox_store/device_repository.cpp:169-176 | a hand-out marks one row and changes nothing else |
| Prekeys.RevokeExactly | lib/vox_store/device_repository.cpp:258-277 | a revocation is granted once per device, and deletes exactly its rows |
| Prekeys.Repository.StorePrekeysInTransaction | lib/vox_store/device_repository.cpp:118-148 | all uploads of a batch or none |
| Prekeys.Repository.ConsumeOneAvailable | lib/vox_store/device_repository.cpp:150-180 | hands out some available row and marks it, or none exists |
| Prekeys.Repository.GetPrekeyBundle | lib/vox_store/device_repository.cpp:182-213 | an unrevoked device's bundle holds an available prekey with its public key, and lacks one only when none is available |
| Prekeys.Repository.ConsumeOneTimePrekey | lib/vox_store/device_repository.cpp:215-229 | an available prekey with its public key; the error means none is available |
| Prekeys.Repository.Revoke | lib/vox_store/device_repository.cpp:258-277 | marks the device and deletes its rows, or changes nothing |

## Left out

- Retention and user deletion (`DeleteExpired`, `AdminService::DeleteUser`): they free envelope ids or bypass queues and version stamps, so runs with them do not keep the relay's invariants.
- HTTP, JSON and WebSocket handling, attachments, account validation, configuration and logging: plumbing that would add only easy members.
- SQLite itself, schema migration and busy retries: only keys, uniqueness, foreign keys, transactions and the single lock are kept.
- Argon2, random numbers and UUIDs: fresh values passed in. That tokens do not repeat and that their hash is injective is assumed in `Sessions.Unused`.
- Liveness: wake-ups, fairness and progress of condition variables.
- Service calls of the relay protocol interleaved store call by store call, other than joins: the run theorems take each call as one step.
- `MarkDelivered`: no modelled call sets delivered_at, so a pending row is one without an acknowledgement.
- Columns added_at, subscribed_at, created_at, envelope_type, ordering_epoch and retention_until: stored and never read by the modelled code.
- RelayServices.RelayService.SendEnvelope: takes states that are confined, as every run leaves them (`RelayConfinement.RunConfined`).
- Sha256.Hasher.Process: takes inputs shorter than 2^63 bytes, the range of std::ptrdiff_t.
- Hmac.HmacSha256Hex: takes keys and messages within the same range.
- Sha256.HashStream: takes a buffer size of at least one; with a size of zero the original does not return.
- SyncState.VersionsCount: versions are unbounded here; `SyncState.IncrementFits` says when the original's 32-bit int holds them.
- SyncState.SyncWalk: takes runs whose row ids fit in 64 bits, as SQLite's do.
- RateLimiter.AtMostTwice: takes clock readings in the order of the calls; the original reads its clock before it takes its lock.
- ThreadPool.ShutdownDrains: is about the thread whose Shutdown call joins the workers; a second caller returns at once.
- ThreadPool.IdleExactly: is about a return because the pool was seen idle; WaitForIdle also returns once Shutdown has raised its flag.
- ShardMap.Sharded.FindOrInsert: stands for WithShard, whose function argument could otherwise do anything to the shard.
- EnvelopeListing.ListCursored: rows are keys; the remaining columns of a row travel with its key.
