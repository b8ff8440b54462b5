# Elvel: the stateful parts, modelled and proved

This project models the parts of Elvel whose correctness lies in how steps combine, and
proves what each is for:

* **Presence and broadcasting** (`Presence`, `PresenceProofs`, `Deliveries`,
  `BroadcasterClass`, `Gather`, `Bus`, `BusClass`, `Echo`, `Patterns`): who is on a channel,
  who is sent what, the list a browser folds out of the frames it is sent, the question one
  process asks of all, the log every broadcast goes round, reconnecting, and the patterns
  channels are declared with.
* **Cache coordination** (`CacheStore`, `RateLimiter`, `Locks`, `Funnel`, `Tags`,
  `TaggedStore`, `Flexible`, `FlexibleCallers`): fixed-window limits, a semaphore built of locks, flushing by
  tag, and serving stale values while one caller refreshes.
* **Auth** (`Revocation`, `Rows`, `Schema`, `SchemaProofs`, `DeclaredColumns`, `Migrations`): revocation epochs
  against cookie lifetimes, two concurrent row operations, and schema migrations as lists of
  statements with their inverse.
* **The container** (`Container`, `Rebinding`, `Assembly`, `Keeping`, `ApplicationClass`):
  bindings, extenders, contextual bindings and scopes.
* **The command line** (`Signature`, `SignatureProofs`, `RoundTrip`, `MissingArguments`,
  `SignatureText`): the parser, its lenient twin, and what both promise.

Each part is a state with one function per operation, and theorems about every run of those
operations in any order and interleaving. Where the source updates fields or runs a loop, a
class or method does the same and is proved to compute those functions, so the theorems
speak about it. Awaits are step boundaries: whatever the source may interleave, the model
interleaves. Time is a clock in milliseconds that steps move forward.

Where the code keeps a promise only under a condition, the condition is proved exact and an
input or a run off it is shown to fail:

* The guarded update of `incrementOne` re-applies the caller's clauses and then adds the
  row's id, so behind an OR the id binds to the last group alone and other rows may be
  written. It is one row in every table if and only if no group that ends before an OR can
  hold at all, as with AND alone (`Rows.GuardIsOneRowInEveryTable`, `Rows.OrWritesAnotherRow`).
* A revocation is safe from expiry exactly when an epoch is kept at least a second longer
  than a cookie; the provider's sixty seconds are
  (`Revocation.SafeExactlyWhenEpochsOutliveCookies`, `Revocation.ShortEpochComesBack`).
* A cookie that nothing has revoked is accepted while it is young except when the earlier revoke
  it was issued under has expired since (`Revocation.AcceptedExactlyWhen`).
* The two increment paths of the rate limiter agree except where a live counter stands at
  zero or a new window would have no length (`RateLimiter.FastRefinesSlow`,
  `RateLimiter.DecrementToZeroPartsThePaths`).
* The difference migration applies exactly when every index it creates has its columns and, on
  MySQL and MariaDB, none of those is a text column, while on the others no table that holds
  rows gets a required column (`SchemaProofs.UpAppliesExactlyWhen`). An index over a field nobody
  declares, over documents, or over a string column that was there before the index, and a
  required field on a table with users, are each refused (`SchemaProofs.UndeclaredFieldIsRefused`,
  `SchemaProofs.IndexedDocumentIsRefused`, `SchemaProofs.LiveTextIsNotKeyed`,
  `SchemaProofs.RequiredColumnIsRefused`). The generated file says that existing rows will hold
  null in an added column; a required field is written as not null all the same.
* Its `down` restores the database exactly, on SQLite if and only if no added column carries
  an index of its own: SQLite drops no indexed column (`SchemaProofs.DownRestores`,
  `SchemaProofs.SqliteKeepsAnIndexedColumn`).
* After a reconnect the server's subscriptions are the client's if and only if no unsubscribe
  was served while the authorisation of its own channel was pending
  (`Echo.ResubscribedAfterEveryOpen`, `Echo.LeaveOvertakesItsSubscribe`).
* The provider means a socket that closes in the middle of a subscribe not to be broadcast to for
  ever. It is, exactly when an authorisation pending at the close is granted afterwards
  (`Echo.NothingStaysExactlyWhen`, `Echo.DeadSocketIsSubscribed`).
* Two stale callers cannot both refresh one stamp, unless one allows no second of freshness or
  the stamp is zero (`Flexible.OneWriterExactlyWhen`).
* At most `size` callbacks are inside a semaphore as long as those overdue are no more than the
  free slots; some run has more exactly when slots expire (`Funnel.SizeIsKeptExactlyWhen`,
  `Funnel.SizeCanBeExceededExactlyWhen`). On a driver that keeps an expiry in whole seconds a slot
  may be given up 999 milliseconds before `releaseAfter` is over, and never earlier
  (`Funnel.SizeIsKeptForExactly`).
* A value put under tags is read back through them exactly when no tag that holds no id yet is
  named twice (`TaggedStore.NamespacedStore.Put`, `TaggedStore.WriteUnderOneTagTwice`).
* `extend` reaches whatever is resolved after it except a scoped value the running request
  already holds (`Container.ExtendReachesExactlyWhatIsNotHeld`,
  `Container.HeldScopedValueIsReached`).
* A key bound again resolves to the new binding except in another request that still holds a
  scoped value of the old one: what was built before is dropped from the shared values and the
  running request alone (`Rebinding.RebindingReachesExactly`).
* Every fill of a channel pattern is matched back to its values if and only if no segment
  holds two parameters (`Patterns.FillsMatchBackExactlyWhen`).
* On a run of short options the strict and the lenient parser agree if and only if both skip as
  many of the tokens that follow (`MissingArguments.RunsAgreeExactlyWhen`).
* A member id that changes while a socket is listed leaves the others' lists right exactly when
  another socket still holds the old id (`PresenceProofs.ChangedIdStaysListed`).

A rate limit of zero still lets the first caller of a window through, which
`RateLimiter.Bound` accounts for.

`dafny verify dfyconfig.toml` checks the whole project.

## Model

| member | source | states |
|---|---|---|
| PresenceProofs.EveryListShowsPresence | packages/broadcasting/src/broadcaster.ts:205-293 | after any run of subscribes, unsubscribes, disconnects and events on one process, every listening socket's folded list has no duplicates and exactly the ids of `presence(channel)` |
| PresenceProofs.ArrivalsAlternate | packages/broadcasting/src/broadcaster.ts:227-288 | in every run the `joined` and `left` announcements of one person alternate, arrival first, and the last one says whether the person is present, however many sockets they hold |
| PresenceProofs.TakeKeeps | packages/broadcasting/src/broadcaster.ts:205-270 | every single operation keeps members in step with subscriptions, every browser list right and the announcements alternating |
| PresenceProofs.JoinKeeps | packages/broadcasting/src/broadcaster.ts:227-252 | a join, first tab or second, keeps all of that: the joiner is shown everybody and the others hear of an arrival only if it is one |
| PresenceProofs.ForgetDrops | packages/broadcasting/src/broadcaster.ts:268-288 | after a disconnect the socket listens to nothing and no other socket's subscription changed |
| PresenceProofs.ChangedIdStaysListed | packages/broadcasting/src/broadcaster.ts:227-252 | when a listed socket joins again under another id, the others' lists stay right if and only if a different socket still holds the old id |
| PresenceProofs.ApplyMoves | packages/broadcasting/src/client.ts:229-250 | each presence frame moves a duplicate-free list to exactly the ids it announces |
| Deliveries.ListensExactlyWhenSubscribed | packages/broadcasting/src/broadcaster.ts:205-270 | in every run a socket listens to a channel if and only if a subscribe of it was granted there that no unsubscribe or disconnect has ended |
| Deliveries.SentExactlyWhatIsDue | packages/broadcasting/src/broadcaster.ts:320-376 | in every run the events a socket has been sent are exactly those broadcast while it was subscribed to their channel, less the ones that except it, once each and in order |
| BroadcasterClass.DistinctMembers | packages/broadcasting/src/broadcaster.ts:395-403 | the loop keeps the first entry of every id and no other |
| BroadcasterClass.WriteToEach | packages/broadcasting/src/broadcaster.ts:349-376 | the loop writes the frame once to every socket but the excepted one, and counts them |
| BroadcasterClass.Broadcaster.Broadcast | packages/broadcasting/src/broadcaster.ts:320-376 | without a bus, every listener but one is sent the frame and nothing else changes |
| BroadcasterClass.Broadcaster.Join | packages/broadcasting/src/broadcaster.ts:227-252 | records the member, shows the joiner the list and announces a real arrival, as the step the theorems are about |
| BroadcasterClass.Broadcaster.Subscribe | packages/broadcasting/src/broadcaster.ts:205-216 | a refusal changes nothing; anything else makes the socket a listener, and with a member joins it, as the subscribe step of the theorems does |
| BroadcasterClass.Broadcaster.Leave | packages/broadcasting/src/broadcaster.ts:273-288 | drops one socket's member and announces a departure only for the person's last socket |
| BroadcasterClass.Broadcaster.Unsubscribe | packages/broadcasting/src/broadcaster.ts:254-265 | the unsubscribe step, the empty channel removed |
| BroadcasterClass.Broadcaster.Forget | packages/broadcasting/src/broadcaster.ts:268-270 | unsubscribes from every channel held, each once |
| BroadcasterClass.ChannelList.ApplyPresence | packages/broadcasting/src/client.ts:229-250 | the list changes as one presence frame says |
| BroadcasterClass.ChannelList.Receive | packages/broadcasting/src/client.ts:174-194 | feeding a whole trace leaves the folded list |
| Gather.FinishesExactlyWhenAllReplied | packages/broadcasting/src/broadcaster.ts:117-195 | without a timeout the gather is finished if and only if the publish has answered and every process that heard the question has been counted, whichever landed last |
| Gather.AnswerIsReported | packages/broadcasting/src/broadcaster.ts:158-195 | the answer names each id once, and only ids some process held at some moment, timeout or not |
| Gather.StayersAreAnswered | packages/broadcasting/src/broadcaster.ts:124-195 | without a timeout, everybody a hearing process holds from the question to the answer is in the answer |
| Gather.AnswerIsWhatWasReplied | packages/broadcasting/src/broadcaster.ts:117-195 | timeout or not, the answer is the replies that came in before it, in order of arrival, one entry per id, each as its process stood when it heard the question |
| Gather.TimeoutFinishes | packages/broadcasting/src/broadcaster.ts:172-190 | from its timeout on a gather that has not answered can answer, whoever is missing |
| Gather.AlwaysAdvances | packages/broadcasting/src/broadcaster.ts:117-195 | until it has answered some protocol step can be taken, and each leaves less to do |
| Gather.Gathering.Receive | packages/broadcasting/src/broadcaster.ts:137-144 | a reply is merged and counted, and finishes the gather when it completes the count |
| Gather.Gathering.PublishAnswered | packages/broadcasting/src/broadcaster.ts:182-186 | the count becomes known, and finishes the gather when the replies were first |
| Bus.ReceivesTheLog | packages/broadcasting/src/broadcaster.ts:320-376 | while a socket listens, what it is sent is what its process read of the log, in log order, less what excepts it |
| Bus.SameStretchSameBroadcasts | packages/broadcasting/src/broadcaster.ts:107-122 | two sockets on any two processes that listen over the same stretch of the log are sent the same broadcasts in the same order, unless one there excepts either |
| Bus.EverySocketIsSentItsOwn | packages/broadcasting/src/broadcaster.ts:107-122 | in every run of processes that start with nothing the log is what was published, a socket listens as the last word about it says, and its trace is the lists shown to it and, as its process read them, the messages for channels it listened to |
| BusClass.Process.Broadcast | packages/broadcasting/src/broadcaster.ts:320-343 | with a bus, a broadcast is only published and counts nothing |
| BusClass.Process.Receive | packages/broadcasting/src/broadcaster.ts:117-122 | one message off the log is delivered to this process's own listeners |
| Echo.ResubscribedAfterEveryOpen | packages/broadcasting/src/client.ts:118-172 | in every run, while a socket is open and no authorisation pending, the server holds after the wire exactly the channels the client holds and it grants, if and only if no unsubscribe overtook the authorisation of its own channel |
| Echo.OrderlyServerIsInStep | packages/broadcasting/src/broadcaster.ts:205-213 | so it always does in runs where no unsubscribe is served while its channel is being authorised |
| Echo.LeaveOvertakesItsSubscribe | packages/broadcasting/src/provider.ts:137-158 | there is a run that subscribes, leaves while the authorisation is awaited, and ends with the server holding a channel the client has left |
| Echo.NothingStaysExactlyWhen | packages/broadcasting/src/provider.ts:160-166 | once every authorisation pending when a socket closed is answered, the server holds for it exactly those that were granted, so nothing if and only if none was |
| Echo.DeadSocketIsSubscribed | packages/broadcasting/src/broadcaster.ts:205-213 | there is a run in which a socket closes while its authorisation is awaited and is subscribed afterwards |
| Echo.RetriesBackOffAndStop | packages/broadcasting/src/client.ts:196-226 | every pending retry waits less than the maximum, less than the first delay doubled once per retry before it, and at least half of the smaller; there are never more than `maxAttempts` between two opens |
| Echo.DisconnectIsFinal | packages/broadcasting/src/client.ts:147-153 | after `disconnect` no run opens another socket, and the link is down from the close of the one there was, or at once if there was none |
| Echo.DelayIsBounded | packages/broadcasting/src/client.ts:215-226 | the delay is half of the wait and the random part of the other half, where the wait is the smaller of `maxDelay` and `delay` doubled once for each attempt |
| Echo.CeilingSteps | packages/broadcasting/src/client.ts:215-226 | the wait starts at the smaller of `delay` and `maxDelay`, and each attempt makes it the smaller of `maxDelay` and twice what it was |
| Echo.KeepsWhatIsHeld | packages/broadcasting/src/client.ts:118-145 | in every run the client holds exactly the channels asked for and not left since, each once, in the order they were asked for |
| Echo.DialsAreCounted | packages/broadcasting/src/client.ts:155-172 | a socket is dialled for each timer that goes off, and for nothing else |
| Echo.ResubscribeDrains | packages/broadcasting/src/client.ts:161-172 | serving the frames `onopen` sends gives the server exactly the granted channels held |
| Echo.Connection.Hold | packages/broadcasting/src/client.ts:119-130 | a channel already held is left alone, a new one is kept and subscribed |
| Echo.Connection.SocketOpened | packages/broadcasting/src/client.ts:161-172 | the attempts start over and everything held is subscribed in order |
| Echo.Connection.SocketClosed | packages/broadcasting/src/client.ts:196-226 | a close plans one retry, after the delay of the attempts so far, or none once attempts are spent or the client is closing |
| Echo.Connection.Close | packages/broadcasting/src/client.ts:147-153 | the timer is cleared and the link closes |
| RateLimiter.FastRefinesSlow | packages/cache/src/rate-limiter.ts:68-91 | from every state where counter and timer live and die together, the one-step and the four-step increment give the same count and the same store if and only if the live counter is not at zero, or the window is positive and ends where a new one would |
| RateLimiter.DecrementToZeroPartsThePaths | packages/cache/src/rate-limiter.ts:68-91 | a hit and a decrement leave a live counter at zero, and the next hit leaves different stores by the two paths |
| RateLimiter.IncrementKeepsCoupling | packages/cache/src/rate-limiter.ts:68-91 | every positive hit keeps counter and timer together, and only the first of a window chooses its end |
| RateLimiter.RefusedForAvailableIn | packages/cache/src/rate-limiter.ts:123-132 | a full limit left alone is refused at a later moment if and only if fewer than `availableIn` whole seconds have passed |
| RateLimiter.WindowsAreBounded | packages/cache/src/rate-limiter.ts:21-44 | with at most k callers between check and hit, no window takes more than max + k - 1 hits in any interleaving |
| RateLimiter.CacheShowsTheWindow | packages/cache/src/rate-limiter.ts:21-121 | in every run the two entries count exactly the hits since the window opened, end with it, refuse a caller if and only if it is full, and `availableIn` is the seconds left of it, or zero |
| RateLimiter.LetThroughIsWithinTheLimit | packages/cache/src/rate-limiter.ts:35-91 | from any cache, even one that lost a timer, whoever the check lets through is counted within the limit by either path, and the check touches that counter alone |
| RateLimiter.RefusedExactlyWhenFull | packages/cache/src/rate-limiter.ts:35-44 | a caller is refused if and only if the live window has taken max hits already |
| RateLimiter.Limiter.TooManyAttempts | packages/cache/src/rate-limiter.ts:35-44 | the check, dropping a full counter whose timer is gone |
| RateLimiter.Limiter.IncrementBy | packages/cache/src/rate-limiter.ts:68-91 | the count and the store are those of the path the store allows |
| RateLimiter.Limiter.Attempt | packages/cache/src/rate-limiter.ts:21-33 | the callback runs only below the limit, and then counts as one hit |
| Funnel.SlotsAreConserved | packages/cache/src/funnel.ts:80-157 | in every run free slots and callbacks inside on time add up to the size |
| Funnel.ScanGoesSlotBySlot | packages/cache/src/funnel.ts:138-146 | whatever others do meanwhile, a scan tries slot after slot, and ends on the one it takes or, having tried them all, outside |
| Funnel.AtMostSizeInside | packages/cache/src/funnel.ts:80-157 | if no callback outlives its slot, at most `size` are inside, and all slots are free once they finished |
| Funnel.AllFreeWhenEmpty | packages/cache/src/funnel.ts:119-157 | with nobody inside every slot is free, however long the callbacks took |
| Funnel.FinishFreesOwnSlotOrNothing | packages/cache/src/funnel.ts:148-157 | finishing frees the caller's own slot when its time is not over and nothing when it is, so a late release never frees a slot another owner retook |
| Funnel.SizeIsKeptExactlyWhen | packages/cache/src/funnel.ts:45-58 | in every run at most `size` are inside if and only if no more callbacks are overdue than slots are free |
| Funnel.SizeCanBeExceededExactlyWhen | packages/cache/src/funnel.ts:138-157 | some run has more than `size` inside if and only if slots are taken with an expiry |
| Funnel.SizeIsKeptForExactly | packages/cache/src/stores/database.ts:230-278 | no run ever has more than `size` callbacks inside that are younger than a given span, if and only if slots do not expire or the span is at most `releaseAfter`, less 999 milliseconds on a driver that keeps whole seconds |
| Funnel.Block | packages/cache/src/funnel.ts:93-116 | a blocked caller stops at its first free scan or at the deadline, after at most floor(1000 * seconds / sleep) + 1 scans |
| Funnel.Semaphore.Acquire | packages/cache/src/funnel.ts:138-146 | the first free slot in order is taken under a token of its own, or none is free |
| Funnel.Semaphore.Then | packages/cache/src/funnel.ts:80-85 | the slot is given back whether the callback returns or throws |
| Funnel.Semaphore.Free | packages/cache/src/funnel.ts:119-129 | the number of slots nobody holds |
| Tags.FlushIsFinal | packages/cache/src/tags.ts:18-60 | in every run from an empty store every entry has its writer on record, and from the moment a tag gets its new id no call that starts later, under any tags and after any run, names an entry written before under a set holding the tag, nor one a call holding the former id writes late |
| Tags.OthersStayReadable | packages/cache/src/tags.ts:90-168 | flushing other tags, and every call under another set or key, leaves an entry reading the same at every clock in every interleaving |
| Tags.WrittenIsReadBack | packages/cache/src/tags.ts:90-110 | what is written under tags that keep their ids is what every later call under the same tags finds under its key until it expires, whatever others write, drop and flush |
| Tags.DroppedIsGone | packages/cache/src/tags.ts:139-141 | an entry dropped or evicted is found by nobody |
| Tags.OpenedCallGetsReady | packages/cache/src/tags.ts:45-60 | a call is ready under its own tags if and only if it had one turn for each of them |
| Tags.OneTurn | packages/cache/src/tags.ts:48-56 | each turn settles one id: the one that was read, or else a new one, which the tag then holds |
| Tags.ItemKeysAreInjective | packages/cache/src/tags.ts:150-167 | two entries share a stored key if and only if they share all tag ids, in order, and the caller's key |
| Tags.JoinIsInjective | packages/cache/src/tags.ts:45-60 | different lists of hexadecimal ids have different joined namespaces |
| Tags.ItemKeyIsNoTagKey | packages/cache/src/tags.ts:68-70 | no entry can be stored where a tag keeps its id |
| Tags.NextKeeps | packages/cache/src/tags.ts:23-60 | every step keeps each id with the tag it was drawn for |
| TaggedStore.TagSet.ResetTag | packages/cache/src/tags.ts:23-29 | the tag holds an id never drawn before and nothing else changed |
| TaggedStore.TagSet.Reset | packages/cache/src/tags.ts:19-21 | every tag of the set holds an id never drawn before, every other tag and all entries are as they were |
| TaggedStore.TagSet.Namespace | packages/cache/src/tags.ts:45-60 | each id is the one the tag held, or a new one exactly where it held none; tags that were set keep their ids, and the tags hold the ids afterwards if and only if none without one was named twice |
| TaggedStore.NamespacedStore.Get | packages/cache/src/tags.ts:90-92 | what the set showed of the key before the call, a set with a missing tag showing nothing |
| TaggedStore.NamespacedStore.Many | packages/cache/src/tags.ts:94-106 | one answer per key asked for, each the answer `get` gives |
| TaggedStore.NamespacedStore.Put | packages/cache/src/tags.ts:108-110 | the value shows under these tags and this key until it expires, unless a tag without an id was named twice, and then nothing does; every other set and key shows what it did |
| TaggedStore.WriteUnderOneTagTwice | packages/cache/src/tags.ts:45-60 | under a tag nobody has used, named twice, what is put is not read back |
| TaggedStore.NamespacedStore.Flush | packages/cache/src/repository.ts:564-570 | no key shows under any set sharing a tag, and every disjoint set shows what it did |
| Flexible.OneRefreshPerStamp | packages/cache/src/repository.ts:233-280 | over every interleaving, of the refreshes that read the same non-zero stamp and allow a second of freshness at most one writes a new value |
| Flexible.ServedBeforeTotal | packages/cache/src/repository.ts:241-254 | no value is served once its age reaches its total time to live, and it is served as fresh if and only if its age in seconds is below the first limit |
| FlexibleCallers.EverythingGoesBackToACall | packages/cache/src/repository.ts:233-280 | in every run each queued or running refresh, each miss under way and each value stored carries the limits of a call of that run, a refresh those of the very call that queued it |
| FlexibleCallers.NothingOlderIsServed | packages/cache/src/repository.ts:233-280 | where every call gives the same total time to live, no value is ever served at or past that age |
| FlexibleCallers.AnswersTheLastComputed | packages/cache/src/repository.ts:233-280 | in every run the value held, and so every answer but a miss, is the one computed last, as of the moment it was, and none once it was forgotten |
| FlexibleCallers.ComputedMissIsFresh | packages/cache/src/repository.ts:233-280 | a miss that was computed is over and the next caller is served its value as fresh; one that threw is over as well |
| Flexible.StaleServeQueuesRefresh | packages/cache/src/repository.ts:256-279 | every stale answer leaves one refresh queued for its request, and flushing starts that very refresh |
| Flexible.RefreshedIsFresh | packages/cache/src/repository.ts:243-254 | once a refresh has written, the next caller is served the new value as fresh |
| Flexible.OneWriterExactlyWhen | packages/cache/src/repository.ts:253-271 | for all freshnesses f and g and every stamp c, some run has two refreshes that allow f and g, both read c and both write, if and only if f <= 0, g <= 0 or c is zero |
| Flexible.NextKeeps | packages/cache/src/repository.ts:256-272 | every step keeps the lock exclusive, value and stamp from one write, and a written stamp gone for good |
| Flexible.Repository.Flexible | packages/cache/src/repository.ts:233-280 | a miss computes and writes, a fresh value is returned alone, a stale one is returned and queues one refresh |
| Flexible.Repository.FlushDeferred | packages/core/src/defer.ts:86-101 | the refresh writes if and only if the lock was free, the stamp is the one it read and the callback succeeded, and the lock is free again |
| Revocation.RevokedStaysRevoked | packages/auth/src/revocation.ts:62-98 | with epochs kept longer than cookies, no cookie issued before a written revoke is accepted after it, in any run |
| Revocation.ProviderMarginIsSafe | packages/auth/src/provider.ts:330-340 | the lifetime the provider passes, maxAge plus sixty, is safe for every maxAge |
| Revocation.SafeExactlyWhenEpochsOutliveCookies | packages/cache/src/payload.ts:41-47 | the guarantee holds over all runs if and only if an epoch's lifetime exceeds the cookie's |
| Revocation.AcceptedExactlyWhen | packages/auth/src/revocation.ts:62-98 | in every run a cookie issued with the store up is accepted if and only if it is young, the store can be read, its user has not been revoked since, and the earlier revoke it was issued under, if any, has not expired |
| Revocation.IssuedWithAVersion | packages/auth/src/revocation.ts:62-98 | a cookie issued with the store up carries a version that can match, its user and the moment, and counts as not revoked |
| Revocation.ShortEpochComesBack | packages/auth/src/revocation.ts:41-48 | with a shorter one there is a run in which a revoked cookie is accepted again |
| Revocation.FailsClosed | packages/auth/src/revocation.ts:100-109 | with no store to read nothing is accepted, and a cookie written then is never accepted later |
| Revocation.SessionRevocations.CurrentEpoch | packages/auth/src/revocation.ts:62-74 | the stored epoch, the default for a user without one, or a version never handed out before |
| Revocation.SessionRevocations.RevokeAll | packages/auth/src/revocation.ts:88-98 | the epoch becomes the clock reading, kept for the lifetime; without a store nothing changes |
| Rows.GuardIsOneRow | packages/auth/src/adapter.ts:103-112 | on a given table the guarded update reaches only the row that was read if and only if no other row meets a group that ends before an OR |
| Rows.GuardIsOneRowInEveryTable | packages/auth/src/adapter.ts:228-255 | it does so on every table and for every id if and only if no group that ends before an OR can hold at all |
| Rows.GuardIsOneRowWherePicked | packages/auth/src/adapter.ts:237-249 | for the ids a read can pick, if and only if no row can match while another meets such a group |
| Rows.OrWritesAnotherRow | packages/auth/src/adapter.ts:245-249 | with an OR there is a table in which a call that read one row changes another |
| Rows.MatchesExactlyAGroup | packages/auth/src/adapter.ts:103-112 | a row matches clauses if and only if all clauses of some run between ORs hold, whatever the first connector says |
| Rows.EachRowIsConsumedOnce | packages/auth/src/adapter.ts:206-221 | however reads and deletes interleave, no row is handed to two callers |
| Rows.RowsAreConserved | packages/auth/src/adapter.ts:206-221 | every row inserted is in the table or was handed to a caller, never both, and no other row is |
| Rows.HandedUnlessTaken | packages/auth/src/adapter.ts:206-221 | a caller that read a row is handed it as read if and only if nobody was handed it in the meantime, and the row is gone either way |
| Rows.IncrementWritesUnderItsGuard | packages/auth/src/adapter.ts:228-255 | whatever others do between its read and its write, an increment adds each delta and sets each other field given on exactly the rows that meet an earlier group, and the row it read if that meets the last one, and touches no other row or field; with AND alone that row or none, and it answers a row if and only if it wrote it |
| Rows.CountersAddUp | packages/auth/src/adapter.ts:237-249 | in every run a field nobody sets outright is its first value plus the delta of every increment that wrote its row; with AND alone that is just the row it had read |
| Rows.GuardedNeverGoesBelow | packages/auth/src/adapter.ts:224-255 | with guards that rule out going below a floor, no interleaving does |
| Rows.SpendingGuardKeepsNonNegative | packages/auth/src/adapter.ts:224-227 | asking for at least the cost is such a guard, behind any AND clauses |
| Rows.Table.ConsumeOne | packages/auth/src/adapter.ts:206-221 | some matching row is deleted and returned, or none matched and nothing changed |
| Rows.Table.IncrementOne | packages/auth/src/adapter.ts:228-255 | none matched and nothing changed, or a matching row gets its deltas added and its other fields set and is returned, along with every row the guard reaches; where no group before an OR can hold, that row alone |
| SchemaProofs.UpAppliesExactlyWhen | packages/auth/src/adapter.ts:564-682 | on each dialect all of `up` applies if and only if every index it creates covers columns the table has or wants and, on MySQL and MariaDB, no text column, and, on the others, no table holding rows gets a required column; then every wanted table, column and compound index is present |
| DeclaredColumns.ColumnsAreAsDeclared | packages/auth/src/adapter.ts:485-543 | once `up` has run, the column of every declared field is the one that was there, untouched, or one of the kind its type asks for, nullable exactly if the field is optional, with its own index, unique or not, exactly if it declares one |
| DeclaredColumns.IndexesAreAsDeclared | packages/auth/src/adapter.ts:611-628 | once `up` has run, every index a table declares stands under the name of its columns and covers just the columns its field names stand for, unless one of that name was there before |
| DeclaredColumns.EveryTableHasItsId | packages/auth/src/adapter.ts:544-556 | a created table has its id as primary key, and one that was there without an id gets a nullable string |
| DeclaredColumns.UpTakesNothingAway | packages/auth/src/adapter.ts:564-682 | `up` leaves every other table, and every column and index of the tables it changes, as they were |
| SchemaProofs.KeysTextExactlyWhen | packages/auth/src/adapter.ts:503-531 | an index to come meets a text column if and only if it is over a field of documents still to be added or over a text column already there, as every keyed string is written as a varchar |
| SchemaProofs.LiveTextIsNotKeyed | packages/auth/src/adapter.ts:568-576 | an index declared over a string column that was written as text before is refused by MySQL and MariaDB and by no other |
| SchemaProofs.IndexedDocumentIsRefused | packages/auth/src/adapter.ts:503-507 | an indexed field of documents is refused by MySQL and MariaDB in a fresh install |
| SchemaProofs.RequiredColumnIsRefused | packages/auth/src/adapter.ts:536-536 | a required field added to a live table is refused if and only if the table holds rows and the dialect is neither MySQL nor MariaDB |
| SchemaProofs.UndeclaredFieldIsRefused | packages/auth/src/adapter.ts:611-628 | a compound index over a field nobody declares makes the first migration fail on every dialect |
| SchemaProofs.UpReachesFixpoint | packages/auth/src/adapter.ts:630-630 | under that very condition `up` applies, and the difference after it is empty |
| SchemaProofs.EmptyDiffMeansNothingMissing | packages/auth/src/adapter.ts:587-630 | the difference is empty if and only if nothing is missing |
| SchemaProofs.DownRestores | packages/auth/src/adapter.ts:632-682 | wherever `up` applies, `down` after it restores the database exactly or is refused, and it is refused if and only if the dialect is SQLite and a column added to a live table declares an index of its own |
| SchemaProofs.SqliteKeepsAnIndexedColumn | packages/database/src/schema/grammar.ts:399-406 | an optional unique column added on SQLite to a table holding rows: `up` applies and `down` is refused |
| Schema.DownUndoesUp | packages/auth/src/adapter.ts:425-429 | undoing any statements in reverse restores any database they applied to if each can be taken back on the dialect, and is refused otherwise |
| Schema.StatementUndone | packages/auth/src/adapter.ts:664-681 | each creation, widening or index is taken back exactly by its inverse, unless SQLite keeps an indexed column |
| SchemaProofs.AddedLikeFresh | packages/auth/src/adapter.ts:652-662 | a table the dialect accepts is given its columns, and each is defined as a fresh install defines it |
| SchemaProofs.IndexedTextIsVarChar | packages/auth/src/adapter.ts:508-531 | a text column that any index of its table covers is a varchar, in a fresh install and in the difference alike |
| SchemaProofs.SortedIsOrdered | packages/auth/src/adapter.ts:375-377 | no table is created before one of lower order |
| Schema.IndexNameIsLower | packages/database/src/schema/blueprint.ts:766-768 | an index is reported, lowercased, under the name it was created with |
| DeclaredColumns.NameIsCleaned | packages/database/src/schema/blueprint.ts:766-768 | in an index name whatever stands between two stretches of letters, digits and underscores becomes one underscore |
| DeclaredColumns.NameSaysWhat | packages/database/src/schema/blueprint.ts:766-768 | an index of plain columns is called by its table, its columns and what it is |
| DeclaredColumns.ColumnsAreJoined | packages/database/src/schema/blueprint.ts:766-768 | the columns in an index name stand in order with an underscore between any two |
| DeclaredColumns.CapitalsAreLowered | packages/database/src/schema/blueprint.ts:766-768 | lowering moves the 26 capitals to the small letters at their places and changes nothing else |
| DeclaredColumns.NamesAreMadeOf | packages/database/src/schema/blueprint.ts:766-768 | index names are made of small letters, digits and underscores alone |
| Migrations.MigrationFor | packages/auth/src/adapter.ts:360-429 | the loops build the full migration and exactly its undoing |
| Migrations.DiffMigrationFor | packages/auth/src/adapter.ts:564-705 | nothing if and only if the difference is empty, otherwise its statements and exactly their undoing |
| Migrations.CollectMissing | packages/auth/src/adapter.ts:587-599 | the columns each live table lacks, in order |
| Migrations.CollectAbsent | packages/auth/src/adapter.ts:611-628 | the compound indexes each live table lacks, in order |
| Container.SharedInstancesCarryEveryExtender | packages/core/src/application.ts:199-252 | after any calls, every shared instance is a raw value of the key's own making under each extender once, in registration order, never a contextual one |
| Container.MakeRestoresBuilding | packages/core/src/application.ts:370-401 | from any state, no `make` moves the building stack, not even one that throws |
| Container.ScopedValuesStayInTheirRequest | packages/core/src/application.ts:384-398 | what a scoped key resolves to was built by its own binding in the running request |
| Container.SharedResolvesOnce | packages/core/src/application.ts:380-401 | a shared key resolves to the same value again and nothing is rebuilt |
| Container.ExtendReachesExactlyWhatIsNotHeld | packages/core/src/application.ts:234-252 | in every reachable state, what a key resolves to after `extend` is under every extender with the new one if and only if it is not a scoped value that the running request already holds |
| Container.HeldScopedValueIsReached | packages/core/src/application.ts:384-398 | there is a run from a new application in which such a value is handed out without the extender |
| Rebinding.ResolvesByTheLastBinding | packages/core/src/application.ts:470-485 | in every run a key resolves to the value handed over for it if nothing has discarded that since, and otherwise to one built by the factory bound last, unless it is scoped and was bound last in another request |
| Rebinding.RebindingReachesExactly | packages/core/src/application.ts:470-485 | after any run, a key bound again resolves in a request to a value of the new factory if and only if that request is not another one that holds an earlier scoped value |
| Assembly.ResolvedIsAssembled | packages/core/src/application.ts:370-401 | in every run what a key resolves to was handed over or is made by a factory that does not throw from one part for each of its needs, in order, and they likewise |
| Assembly.BuildableIsMade | packages/core/src/application.ts:370-401 | from any state, whatever can be put together from what is bound and held in the frames left is resolved |
| Keeping.PartsAreAsGiven | packages/core/src/application.ts:488-525 | after any run, each part of what a key is built from is made by the factory given last for that need under that key, or by the need's own binding if none was |
| Keeping.EachKindIsKept | packages/core/src/application.ts:380-401 | after any run, what a key resolves to is kept with the shared values if it is bound shared, with those of the running request if scoped, and nowhere if neither, and then it is built from what its needs resolve to each time |
| Keeping.ForgottenIsBuiltAnew | packages/core/src/application.ts:432-450 | after any run, `forgetInstance`, `forgetInstances` and `forgetScopedInstances` let go of just the values they name, and a key forgotten is built anew |
| Keeping.WatchersAreTold | packages/core/src/application.ts:470-485 | after any run, binding a key again resolves it at once if and only if somebody watches it and it was bound or had a value, so that a shared key that can be built is held then |
| Container.MakeKeeps | packages/core/src/application.ts:488-525 | resolving, returning or throwing, keeps the invariant and touches no binding, extender or stack |
| Container.TakeKeeps | packages/core/src/application.ts:470-485 | every call keeps the invariant |
| ApplicationClass.Application.Make | packages/core/src/application.ts:370-401 | the outcome and the whole new state are those of the resolving step |
| ApplicationClass.Application.Fresh | packages/core/src/application.ts:488-518 | the factory runs with its key on the stack, popped whatever happens, then the extenders |
| ApplicationClass.Application.RecordBinding | packages/core/src/application.ts:470-485 | the key is rebound, what was built for it is dropped from the shared values and the running request, and watchers are told |
| ApplicationClass.Application.ExtendWith | packages/core/src/application.ts:234-252 | the extender is registered and a shared instance already built is wrapped |
| SignatureProofs.EachTokenOnce | packages/console/src/signature.ts:154-196 | when the tokens can be read each has exactly one role, values follow their option and are undashed, and the positionals are the tokens of that role in order |
| SignatureProofs.ErrorsHaveOneToken | packages/console/src/signature.ts:154-196 | a line that cannot be read breaks at one token: those before it are read, each in its one role, and the error names what is wrong with it, an option or letter nobody declares or the declared option whose value is missing |
| RoundTrip.CanonicalParsesBack | packages/console/src/signature.ts:146-261 | for any well-formed definition and input, every command line that spells its options, each value after an equals sign, as a token of its own or behind the letter, parses back to exactly that input with defaults filled in |
| RoundTrip.SpellingsReadAlike | packages/console/src/signature.ts:154-196 | whatever follows, a value as a token of its own behind the name or the letter reads like one after an equals sign |
| RoundTrip.RunReadsLetterByLetter | packages/console/src/signature.ts:184-192 | a run of letters reads, and fails, as its letters given one by one |
| RoundTrip.StoredCollects | packages/console/src/signature.ts:253-257 | a repeated option collects its values in order |
| MissingArguments.StrictAndLenientAgree | packages/console/src/signature.ts:285-325 | where the options can be read, the lenient parser lists nothing if and only if the strict one parses, and its first entry is the argument the strict one names |
| MissingArguments.RunsAgreeExactlyWhen | packages/console/src/signature.ts:303-315 | after a run of known short options the two parsers see the same positionals, whatever follows, if and only if both skip as many of the tokens after it |
| MissingArguments.FlagsMayShareADash | packages/console/src/signature.ts:184-192 | runs of flags are such runs unless a valued option is called by all their letters |
| MissingArguments.AnswersComplete | packages/console/src/kernel.ts:357-377 | answering every question, in order and with no dash in front, makes the command line parse |
| MissingArguments.SamePositionals | packages/console/src/signature.ts:289-318 | both parsers see the same positionals |
| MissingArguments.AppendedArePositional | packages/console/src/kernel.ts:376-377 | undashed tokens appended to a readable command line are read as positionals |
| Signature.ParseInput | packages/console/src/signature.ts:146-225 | the loops compute the parse, result and error alike |
| Signature.ReadTokens | packages/console/src/signature.ts:154-196 | the token loop ends, stays within the tokens and computes the scan |
| Signature.ApplyOption | packages/console/src/signature.ts:231-261 | the option's new value and the number of further tokens used |
| MissingArguments.FindMissing | packages/console/src/signature.ts:285-325 | the loop computes the missing required arguments |
| SignatureText.OptionReadsBack | packages/console/src/signature.ts:91-139 | an option reads back from its signature as declared |
| SignatureText.ArgumentReadsBack | packages/console/src/signature.ts:65-89 | so does an argument |
| SignatureText.StarMakesRepeatable | packages/console/src/signature.ts:91-139 | a star on the name makes an option repeatable exactly like a star as its value, whatever value follows it |
| SignatureText.RepeatableTakesValues | packages/console/src/signature.ts:104-136 | whatever the signature says, a repeatable option takes values and has no default, and only a valued one has any but false |
| SignatureText.ReadOption | packages/console/src/signature.ts:91-139 | cutting off one mark after another computes the option |
| Patterns.MatchesExactlyTheFilled | packages/broadcasting/src/channels.ts:171-191 | a name matches if and only if it is the pattern with non-empty dot-free values filled in |
| Patterns.MatchIsSound | packages/broadcasting/src/channels.ts:186-190 | the values of a match are non-empty, dot-free and make up the name again |
| Patterns.FilledMatchesItsValues | packages/broadcasting/src/channels.ts:171-191 | with one parameter a segment, matching a filled-in pattern gives exactly the values filled in |
| Patterns.FillsMatchBackExactlyWhen | packages/broadcasting/src/channels.ts:171-191 | every way to fill a pattern is matched back to the very values if and only if no dot-delimited segment holds two parameters |
| Patterns.SpelledReadsBack | packages/broadcasting/src/channels.ts:174-184 | a pattern is read as the pieces it was spelled from |
| Patterns.PiecesSpellThePattern | packages/broadcasting/src/channels.ts:174-184 | the pieces read from any pattern spell it again, and every parameter among them has a name of word characters |
| Patterns.NamesAreMadeOf | packages/broadcasting/src/channels.ts:174-184 | parameter names are made of letters of either case, digits and underscores alone |
| Patterns.FirstDecides | packages/broadcasting/src/channels.ts:157-167 | the match is the first declared pattern that matches, and there is none only if none matches |
| Patterns.LaterTakesNothing | packages/broadcasting/src/channels.ts:137-155 | a pattern declared later takes no name from those above it |
| Patterns.SetKeepsPlaces | packages/broadcasting/src/channels.ts:73-107 | a pattern declared again takes the new authorizer at its old place, a new one goes last, and every other entry stays as and where it was |
| Patterns.ChannelRegistry.Presence | packages/broadcasting/src/channels.ts:73-81 | the pattern is declared in both maps, and a known one keeps its place |
| Patterns.ChannelRegistry.PresenceFor | packages/broadcasting/src/channels.ts:109-119 | the first presence pattern that matches, and then some channel matches as well |

## Left out

- Sockets, Redis, JSON, the event dispatcher and everything on the wire: a send appends to a
  trace, a publish to a log, a driver is a map from key to value and expiry.
- Failed socket writes, refused cache writes (except in revocation) and failed publishes: the
  stated laws are about the calls that go through.
- Presence with `join` interrupted at its await, and presence over several processes: on one
  process each operation is one step, and the gather and the bus are modelled on their own.
- Echo.ResubscribedAfterEveryOpen: the server's answer for a channel is fixed for a run, and an
  authorisation that is awaited for ever leaves its channel pending.
- PresenceProofs.EveryListShowsPresence: member ids depend on channel and socket user alone;
  what happens otherwise is `PresenceProofs.ChangedIdStaysListed`.
- SHA-1, UUIDs and random jitter are an injective hash with hexadecimal text, ids never drawn
  before, and any value in range (`Tags.SomeHashWillDo` shows that such a hash exists).
- Channel names, sockets, users, container keys and database fields are numbers where only
  their equality matters; option names, tags, patterns, tables and columns are text.
- RateLimiter.FastRefinesSlow: keys stand for themselves, so two keys that `clean` makes equal
  are not told apart; `decrement`, which is a negative amount, is covered only where the lemma
  says so.
- Lock refreshing, force release and restoring a lock from a token; the lock of `flexible` is
  the default one without expiry, and a store without locks is not modelled.
- Flexible.OneRefreshPerStamp: one cache key, times to live given as numbers or null rather
  than dates.
- `putMany`, `increment` and `add` on a tagged store, and tagged views of tagged views.
- Rows.Table: transaction isolation; the two statements of a call interleave freely with
  other callers' instead.
- Foreign keys, the text of generated migrations and its extraction, prefixes and
  index-name length limits of the databases; off SQLite a column's own index is dropped with it.
- SchemaProofs.UpAppliesExactlyWhen: table names distinct up to case, and within a table
  distinct columns and index names; names are lowercased as ASCII, and an index name has to
  be unique in its table only. Whether rows that are there repeat a value under a new unique
  index is not modelled, nor which values MySQL and MariaDB fill a required column with.
- SchemaProofs.KeysTextExactlyWhen: compound indexes spell columns in the case they are declared in.
- Container hooks other than rebinding, aliases, tags and `flush`; a factory is the list of
  keys it resolves and whether it throws.
- FlexibleCallers.NothingOlderIsServed: expiries that stay below the sentinel the store keeps
  for ever, 9999999999 seconds.
- RoundTrip.CanonicalParsesBack: option names without an equals sign and not empty, an array
  argument last, and no argument given after one left out, which positionals cannot express.
- MissingArguments.StrictAndLenientAgree: single-letter shortcuts, no option named like
  another's shortcut, one `--` at most, options that can be read, and of runs of short options
  those that `MissingArguments.RunsAgreeExactlyWhen` says both parsers skip alike.
- Splitting a signature into its braces and descriptions, and help output.
- Patterns with a backslash, or with a brace that opens no parameter, which the source leaves
  to the regular expression; a parameter named twice.
