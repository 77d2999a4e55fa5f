# kakao-relay: a verified model

kakao-relay connects KakaoTalk chats to OpenClaw agents. An agent's owner creates a session and gets a
token and a pairing code; a chat that types `/pair <code>` is attached to a freshly minted account; from
then on the chat's messages go to the account's event stream, and the agent answers through one-shot
callback URLs. This project models the parts of that system where something can go wrong between
steps, and proves what the rest of the system relies on.

`dafny verify dfyconfig.toml` checks everything.

## What is modelled

**The pairing and relay protocol.** `Tables` holds the five Postgres tables as values with one function
per SQL statement: unique constraints and foreign keys refuse, `ON DELETE` clauses cascade or set null.
`Protocol` is a step system over them. A step is one statement, one transaction, one publish or one
write to a stream; a request is a thread whose program counter carries the snapshots it has read, and
any other step may run in between. A thread may be abandoned at any point, a failed statement is a step
of its own where the handler goes on after it, and every reading of an application clock is an arbitrary
input. `Past` is history: which /pair made each account, whose MarkPaired took effect, what was written
where.

| program | source | counters |
|---|---|---|
| webhook, chat message | `internal/handler/kakao.go` 71-161 | Webhook, Enqueueing, Publishing |
| /pair | `internal/handler/kakao.go` 166-205, `internal/service/session.go` 171-291 | Looking, Pairing, Stamping, Attaching, Rereading, Announcing |
| /unpair | `internal/handler/kakao.go` 207-216 | Unpairing |
| session status | `internal/service/session.go` 106-149 | Expiring |
| bearer of a session token | `internal/middleware/auth.go` 49-91 | Linking |
| event stream | `internal/handler/events.go` 29-164 | Queueing, Draining, Marking, Streaming |
| reply | `internal/handler/openclaw.go` 41-129 | Finding, Replying, Calling |
| dashboard, cleanup job | `internal/handler/dashboard.go` 248-319, `internal/jobs/cleanup.go` 58-66 | single statements |

`Conduct` says of every step when it may happen, where it takes its request and what it writes, in the
columns of the rows. `Programs` puts the steps together: what a whole /pair, /unpair, chat line, stream or
reply brings about from any reachable state when nothing disturbs it.
`Isolation` has the invariant and shows that every step keeps it. `Lifecycle` says how a row may differ
between an earlier and a later state of one run. `Guarantees` states what follows for every run,
`Markings` which messages count as delivered, `StaleStatus` when a status request expires a pairing,
`Indexes` the uniqueness of lookups and of filing by key; `Races` gives concrete runs that show what does
*not* hold. `Cleanup` says what a cleanup pass does to the tables; `CleanupRuns` that what happens without
the job could happen with it and look the same, and `CleanupUndone` the converse; `Services` has the
service methods themselves, as one request runs them alone.

**The rate limiters.** `SlidingWindow` is the ideal limiter that forgets nothing. `MemoryStore` is the
in-memory limiter on values (TTL sweep, capacity eviction in map order, two clock readings per call), and
`MemoryLimiter` the mutable form with its in-place compaction, proved to take exactly those steps.
`EvictionTight` shows that the bound under eviction is attained, and when the nominal one is lost.
`RedisScript` and `RedisBounds` are the Lua sliding window under clock skew and expiry, `RedisLimiter` the
server commands and the two Go callers, and `LimiterEquivalence` relates memory and Redis.

**The event broker** (`Broker`): clients with bounded queues, buckets by account, one relay for every
opening of a bucket, with ghost logs of what was published, offered, accepted, received and dropped.

**The codecs** (`Codec`): command parsing, pairing codes, conversation keys.

## What was found

- One code can mint several accounts. The session keeps the first account and the *last* transaction's
  relay token, and the losing chat is told that it is connected while no session token reaches its
  account (`Races.OneCodeTwoAccounts`, `Guarantees.TokenMatchesAccount`). The handler announces the
  session's account without comparing keys: the announced account belongs to the typing chat if and only
  if the session row carries that chat's key (`Guarantees.AnnouncesHome`).
- A status request expires a pairing if and only if a transaction on its session takes effect between its
  read and its write (`StaleStatus.ExpiresPairing`, `Races.StaleStatusExpiresPairing`). A cleanup pass
  between lookup and transaction leaves an attached account without a session
  (`Races.CleanupBreaksPairing`); with no pairing in flight on a session that it removes, the job is
  invisible (`CleanupRuns.Invisible`, `CleanupUndone.Undone`).
- `paired_at` can move back, exactly when an UPDATE carries a clock reading older than the stored one
  (`Guarantees.PairedAtMovesBack`, `Races.PairedAtGoesBack`).
- A message is delivered if and only if some drain has marked it; one delivered live is sent again to the
  next stream, or expires (`Markings.DeliveredMeansMarked`, `Races.LiveDeliveryIsNotMarked`).
- A conversation key names one chat unless one channel id starts with another and a colon, and for such
  channels two chats do share a key (`Codec.ChannelsClash`, `Indexes.ContinuedChannelsMisfile`).
- A bucket that empties and refills is served by two relays. Whenever a bucket has been opened twice, the
  next event can reach a client twice (`Broker.DuplicateDelivery`); it never comes more often than the
  bucket has been opened (`Broker.CopiesWithinOpenings`).
- Unsubscribe closes a Done channel again if and only if its client is no longer in the bucket while others
  are (`Broker.Broker.Unsubscribe`); Close never does. It happens when a client is unsubscribed twice, or
  after a subscription that follows Close (`Broker.UnsubscribeTwiceClosesTwice`,
  `Broker.ResubscribeAfterCloseClosesTwice`).
- Capacity eviction can let an account have twice its limit in a window, and never more
  (`EvictionTight.BoundAttained`, `MemoryStore.EvictionWindowBound`). It harms exactly the accounts that it
  takes while they have an admission in the last minute: all others keep their limit
  (`MemoryStore.WindowBound`), and those can exceed it (`EvictionTight.BusyVictimExceeds`).
- With instance clocks within d of the Redis server's, the expiry margin of ten seconds hides exactly the
  skews with 2d at most 10 s and 1 ns (`RedisScript.ClocksHideExpire`, `RedisScript.ClocksShowExpire`),
  and the longest window that holds the limit is 60 s - 2d less the second that whole-second readings
  cut off, for every limit (`RedisBounds.ClockWindowBound`, `RedisBounds.ClockWindowTight`). A second in which members of
  one account collide admits any number of requests once the limit is two or more
  (`RedisBounds.CollisionsAdmit`); with a limit of one collisions do no harm.

Where documentation and code differ the model follows the code: `docs/architecture.md` puts the
conversation's update inside the pairing transaction (line 78; the code does it afterwards,
`internal/handler/kakao.go` line 193), announces a hard delete after seven days (line 219; there is
none), and leaves the letter L out of pairing codes (line 89; the code has it). `cmd/server/main.go` line
88 installs the Redis account limiter; the in-memory one is modelled as it stands in its file.

## Model

| member | source | states |
|---|---|---|
| Programs.PairAlone | internal/handler/kakao.go:167-205 | From any reachable state, /pair with an open code in a conversation that is not paired: account, session and conversation are tied to each other in every column, both channels are told, and nothing else changes |
| Programs.AgentHearsPairing | internal/service/session.go:281-287 | An agent that waits with the token of the pending session can then be given pairing_complete |
| Programs.PairRefused | internal/service/session.go:171-187 | With a code that is not open nothing changes but the conversation's callback |
| Programs.UnpairAlone | internal/handler/kakao.go:207-216 | /unpair leaves a paired conversation unpaired, without account and with the time of its last pairing |
| Programs.ChatAlone | internal/handler/kakao.go:116-160 | A chat line of a paired conversation is stored queued for its account with this webhook's callback, and published on that account's channel |
| Programs.StreamHearsChat | internal/handler/events.go:111-115 | And every live stream of the account can be given it |
| Programs.TokenOpensStream | internal/middleware/auth.go:60-83 | The token of a session paired with a living account leads a stream, or a reply, to that account |
| Programs.DrainAlone | internal/handler/events.go:129-164 | A stream then gets every message queued for its account, each of which is marked and no other touched, and is live on the account's channel |
| Programs.SnapshotExists | internal/repository/message.go:43-51 | For every state there is a snapshot for the drain to take |
| Programs.ReplyAlone | internal/handler/openclaw.go:64-115 | A reply in time to the account's own message is stored with the message's conversation, sent or failed as the callback went |
| Programs.ReplyRefused | internal/handler/openclaw.go:71-86 | Any other ends with nothing changed |
| Programs.OpenCodesPair | internal/repository/session.go:69-78 | A code pairs at a time exactly if a /pair that looks it up then goes on |
| Programs.ResolvingOpensStream | internal/repository/session.go:59-67 | A token resolves to an account exactly if a stream that comes with it is led to that account |
| Programs.AnswerableGoesOn | internal/handler/openclaw.go:76-77 | A message can be answered exactly if a reply to it goes on |
| Conduct.WebhookDecides | internal/handler/kakao.go:92-212 | A webhook may always come; /pair goes on exactly from a conversation that is not paired, /unpair exactly from a paired one, a chat line exactly from one that is paired with an account, and the upsert changes nothing but the callback |
| Conduct.LookDecides | internal/repository/session.go:69-78 | A lookup goes on exactly with a pending session of the code whose time is ahead, and ends exactly if there is none |
| Conduct.TransactDecides | internal/service/session.go:190-213 | Only a taken token rolls the transaction back; otherwise the account is made, and a session that is still there gets the token, and the pairing if it is pending |
| Conduct.AnnouncesTwice | internal/service/session.go:280-287 | The announcement adds exactly two postings, one on the session's own channel and one on the account's |
| Conduct.WaitingStreamHears | internal/handler/events.go:41-44 | A stream that waits on the session can be given the announcement |
| Conduct.DetachWrites | internal/repository/conversation.go:78-92 | /unpair's UPDATE leaves the row unpaired, with account null and its pairing time |
| Conduct.TokenAdmits | internal/repository/session.go:59-67 | A token is accepted exactly while its session is pending or paired |
| Conduct.BearerDecides | internal/middleware/auth.go:60-83 | A bearer without an account behind the session streams the session's own channel and cannot reply |
| Conduct.QueueDecides | internal/repository/message.go:43-51 | A drain's snapshot is each queued message of the account once, oldest first, and nothing else |
| Conduct.FindDecides | internal/handler/openclaw.go:71-86 | A reply goes on exactly for the account's own message whose callback url is set and whose deadline is null or later than the clock reading |
| Conduct.CreateDecides | internal/repository/session.go:80-91 | A session is refused exactly if its token or code is in use, and is pending and bare otherwise |
| Conduct.StatusDecides | internal/service/session.go:116-121 | A status request goes on to write exactly for a pending session whose time is past by its own clock |
| Conduct.RegenerateDecides | internal/handler/dashboard.go:248-269 | A new relay token is refused exactly if another account has it |
| Conduct.JobWrites | internal/repository/message.go:137-147 | A queued message expires exactly if its deadline is past, and a session goes exactly if it is neither paired nor pending with its time not past |
| Guarantees.RunIsolates | internal/handler/kakao.go:133-156 | In every run: a session's account was minted by a /pair with its own code from the conversation in its key; a conversation's account, and every inbound and outbound row, carries the key the account was minted for; `message` events are posted only on the account's channel and written only to streams whose session token belongs to that account's session |
| Guarantees.RunSessions | internal/repository/session.go:93-105 | In every run: pending means account, key and metadata null; paired means the sentinel expiry and a key; the account is the one whose MarkPaired took effect, null exactly when that account is gone |
| Guarantees.OnePairing | internal/service/session.go:190-213 | Of all transactions in a run on one session, MarkPaired takes effect in at most one |
| Guarantees.TokenMatchesAccount | internal/service/session.go:205-210 | After a committed transaction the metadata holds its token; the session's account is its account if and only if the row was still pending |
| Guarantees.AnnouncesHome | internal/handler/kakao.go:197-203 | The account that pairing_complete is announced to was minted for the typing chat if and only if the session row read again carries that chat's key |
| Guarantees.RunRaisesSessions | internal/repository/session.go:107-125 | Between two states of a run: status never falls in rank, a written key stays, and an account that still exists stays linked |
| Guarantees.RunConversations | internal/repository/conversation.go:78-92 | In every run only unpaired and paired occur; unpaired has no account; paired has a pairing time, and lacks an account exactly when the last attached one was deleted |
| Guarantees.RunKeepsPairedAt | internal/repository/conversation.go:84-89 | While the row exists, a pairing time never becomes null again |
| Guarantees.UpsertKeepsPairing | internal/repository/conversation.go:59-76 | A webhook's upsert keeps row, state, account and pairing time of every conversation and sets only its own callback |
| Guarantees.PairingChanges | internal/handler/kakao.go:193-212 | State, account or pairing time of a row change only by the UPDATE of /pair or /unpair on its key or the removal of its account |
| Guarantees.PairedAtMovesBack | internal/repository/conversation.go:79-90 | The pairing time moves back if and only if an attach with a live account writes a clock reading older than the stored one |
| Guarantees.RunLosesNoMessage | internal/repository/message.go:117-148 | Every message of a live account still has its row: queued and unmarked, or expired with its deadline past and unmarked, or delivered after being written in full to a stream authenticated for its account |
| Guarantees.RunMovesMessages | internal/repository/message.go:137-147 | A message's contents never change and its status never goes back: queued, then expired, then delivered |
| Guarantees.DrainMissesNothing | internal/handler/events.go:61-79 | For a stream that subscribes at any time before its drain's SELECT, each message of its account is in the snapshot, or marked or expired by then, or made after the SELECT and published after the subscription |
| Markings.DeliveredMeansMarked | internal/repository/message.go:117-125 | In every run a message is delivered if and only if some step of the run was a drain's successful mark on it |
| Markings.OnlyMarksMark | internal/handler/events.go:151-153 | One step adds a message to the marked ones if and only if it is a drain's successful UPDATE after its write; no live delivery, reply, webhook or cleanup does |
| Guarantees.RunReplies | internal/handler/openclaw.go:88-94 | Every outbound row refers to an existing inbound row of the same account and conversation; its reference is never null |
| Guarantees.RunSettlesReplies | internal/repository/message.go:288-306 | Once sent or failed, an outbound row stays as it is |
| Guarantees.RemovalIsComplete | internal/database/schema.sql:49-89 | Deleting an account removes exactly its messages and replies, nulls exactly the references to it in sessions and conversations, and changes nothing else |
| Isolation.RunKeeps | internal/service/session.go:190-213 | The invariant holds in every state of every run from empty tables |
| Isolation.StepKeeps | internal/handler/kakao.go:71-161 | Every enabled step keeps the invariant, whatever other requests hold |
| Isolation.TransactKeeps | internal/service/session.go:190-213 | The pairing transaction keeps it whatever has become of the session since the lookup |
| Isolation.AttachKeeps | internal/handler/kakao.go:192-195 | So does the later UPDATE of the conversation, including its foreign-key failure |
| Isolation.WebhookKeeps | internal/handler/kakao.go:92-125 | So does the upsert and the snapshot the handler goes on with |
| Isolation.EnqueueKeeps | internal/handler/kakao.go:133-145 | So does the insert of an inbound message from a stale snapshot |
| Isolation.AuthenticateKeeps | internal/middleware/auth.go:60-83 | So does resolving a token to a session and its account |
| Isolation.QueueKeeps | internal/repository/message.go:43-51 | So does the drain's snapshot of queued rows |
| Isolation.MarkKeeps | internal/handler/events.go:151-153 | So does marking after a write, with the row possibly expired or gone by then |
| Isolation.AnswerKeeps | internal/handler/openclaw.go:88-99 | So does inserting a reply after the ownership check, with the message possibly gone |
| Isolation.CalledKeeps | internal/handler/openclaw.go:104-115 | So does recording the outcome of the callback: no other request holds the same row |
| Isolation.RemoveAccountKeeps | internal/database/schema.sql:75-89 | So does the deletion of an account with its cascades |
| Isolation.ExpireMessagesKeeps | internal/repository/message.go:137-147 | So does the expiry of messages |
| Lifecycle.RunLeads | internal/repository/session.go:93-137 | Any state of a run leads to any later one: rows seen before only move forward, and deleted ids do not come back |
| Lifecycle.StepLeads | internal/repository/message.go:117-147 | One step does |
| Lifecycle.LeadsTransitive | internal/repository/session.go:107-125 | And the relation composes |
| Lifecycle.CascadeKeepsReferences | internal/database/schema.sql:64-67 | No surviving outbound row is ever changed by SET NULL |
| Indexes.RunLookupsUnique | internal/repository/session.go:59-78 | In every run a pairing code and a session token each select at most one session |
| Indexes.IndexesAgree | internal/database/schema.sql:127-128 | Whatever is filed and removed, filing by key never violates the (channel, user) index |
| Indexes.WebhooksFindTheirOwn | internal/service/conversation.go:30-44 | With deletions in between, every webhook finds or makes the row of its own chat, as long as no channel continues another after a colon |
| Indexes.ContinuedChannelsMisfile | internal/service/conversation.go:22-24 | For any two channels of which one continues the other, and any user of the longer one, a history in which a webhook finds another chat's row |
| Races.OneCodeTwoAccounts | internal/handler/kakao.go:192-203 | A run in which one code yields two attached accounts, a foreign relay token and a foreign pairing_complete |
| Races.PairedAtGoesBack | internal/repository/conversation.go:79-90 | A run in which `paired_at` moves back |
| StaleStatus.ExpiresPairing | internal/service/session.go:116-121 | In every run: the write of a status request expires a row that has been paired if and only if a transaction on it took effect since the request's read |
| StaleStatus.OnlyPairsPair | internal/repository/session.go:93-105 | One step makes a session paired if and only if it is a transaction on it that finds it pending and a token not taken |
| Races.StaleStatusExpiresPairing | internal/service/session.go:116-121 | A run in which that happens |
| Races.LiveDeliveryIsNotMarked | internal/handler/events.go:111-115 | A run in which a message written live stays unmarked and expires |
| Races.CleanupBreaksPairing | internal/repository/session.go:127-137 | A run in which a cleanup pass removes the session of a pairing in flight |
| CleanupRuns.Invisible | internal/jobs/cleanup.go:58-66 | Any run, with the two statements of the job put in at any two of its states, of which the second has no pairing in flight on a session that is removed, can go on with the same steps, drains less the expired rows, and ends with the same accounts, conversations, replies, posts, codes that pair, tokens that resolve and messages that can be answered, then and later |
| CleanupRuns.StatementInvisible | internal/jobs/cleanup.go:58-66 | The same for either statement alone |
| CleanupUndone.Undone | internal/jobs/cleanup.go:58-66 | The converse: from a run with the job in it, a run without, with the same steps but more rows in drains, and the same to see |
| CleanupUndone.StatementUndone | internal/jobs/cleanup.go:58-66 | The converse for either statement alone |
| CleanupUndone.DrainBack | internal/repository/message.go:43-51 | Every snapshot after an expiry is a snapshot without it, less the expired rows |
| CleanupRuns.FollowRun | internal/jobs/cleanup.go:58-66 | From two states alike up to a statement, whatever the one run does the other can do, but for drains of expired rows, and they stay alike |
| CleanupUndone.RunBack | internal/jobs/cleanup.go:58-66 | And the other way round |
| CleanupRuns.LooksAlike | internal/repository/session.go:59-78 | States alike up to a pass answer every lookup alike, then and at any later time |
| Cleanup.LookupsStay | internal/jobs/cleanup.go:58-66 | On one table a pass changes no lookup at any later time |
| Cleanup.DrainWithout | internal/repository/message.go:43-51 | If two tables differ only in the fate of some messages, which the second no longer has queued, a drain of the second selects the same rows in the same order, less those |
| Cleanup.TokensCut | internal/repository/session.go:59-67 | A session token stops working exactly when its session was pending with its time past |
| Cleanup.PairingCut | internal/repository/session.go:93-105 | A pairing in flight is cut off exactly when its session's time ran out |
| Cleanup.ExpiresOnlyTheDead | internal/repository/message.go:137-147 | A pass changes a message exactly if it is queued with its deadline past, only to expire it, and no reply can answer it any more |
| Cleanup.Thorough | internal/repository/session.go:127-137 | After a pass no overdue message is queued, and exactly the stale sessions are gone |
| Cleanup.Idempotent | internal/jobs/cleanup.go:58-66 | A second pass at the same time changes nothing |
| Cleanup.DrainAfterCleanup | internal/repository/message.go:43-51 | A drain after the pass has the same rows in the same order, less the dead ones |
| Services.SessionService.VerifyPairingCode | internal/service/session.go:171-232 | It succeeds exactly if the code is open, no account has the token and no statement fails, and then the code's session is paired with the new account, key, token and sentinel; otherwise nothing changes |
| Services.SessionService.GetStatus | internal/service/session.go:106-149 | It reports exactly if a pending or paired session has the token; one past its time is reported expired, and marked so unless the ignored UPDATE fails; otherwise status, pairing time, account, relay token and the user id read from the key are reported and nothing changes |
| Services.EventsHandler.SendQueuedMessages | internal/handler/events.go:129-164 | A failing SELECT does nothing. A write failure at row k: rows before k are sent in order and marked, each at its own clock reading, unless their UPDATE failed; rows from k on are neither sent nor marked |
| Services.MarkedExactly | internal/handler/events.go:151-153 | The loop's marks touch exactly the rows it reached, each with its own time |
| Services.OpenClawHandler.Reply | internal/handler/openclaw.go:64-115 | The reply goes out exactly for an own message of a living account with a url and a deadline null or ahead; each refusal exactly in its case and without effect, failing lookups and inserts included; one outbound row records how the callback went, or stays pending when that UPDATE fails while the outcome is reported all the same |
| Services.CleanupJob.RunCleanup | internal/jobs/cleanup.go:58-66 | Each statement takes effect unless it fails itself |
| Services.SessionService.FindByPairingCode | internal/repository/session.go:69-78 | A pending, unexpired row with the code, or none because there is none |
| SlidingWindow.IdealWindowBound | internal/middleware/ratelimit.go:86-110 | The ideal limiter admits at most L in any window |
| SlidingWindow.IdealIsolation | internal/middleware/ratelimit.go:75-92 | One account's history depends on its own calls only |
| SlidingWindow.DenialsKeepReset | internal/middleware/ratelimit.go:99-107 | Two denials with no admission between them advertise the same reset time |
| SlidingWindow.WaitingAWindowAdmits | internal/middleware/ratelimit.go:142-149 | A client that waits a whole window is admitted with L - 1 remaining |
| SlidingWindow.RemainingPlusLive | internal/middleware/ratelimit.go:94-110 | On admission, remaining plus admissions in the window is the limit |
| MemoryStore.MemoryRefinesIdeal | internal/middleware/ratelimit.go:66-111 | To an account that no eviction takes while it has a live admission, every answer is the ideal limiter's, through TTL sweeps, compaction and evictions of others |
| MemoryStore.WindowBound | internal/middleware/ratelimit.go:86-110 | Such an account has at most L admissions in any sixty seconds, whatever other accounts do |
| EvictionTight.BusyVictimExceeds | internal/middleware/ratelimit.go:52-63 | As soon as an eviction may take an account with a live admission, for every L the run can go on so that it has more than L in a minute |
| MemoryStore.NeverEvicted | internal/middleware/ratelimit.go:52-63 | An account that is never a victim is such an account |
| MemoryStore.EvictionWindowBound | internal/middleware/ratelimit.go:39-64 | Whatever eviction drops, at most 2L admissions of an account in any half-open sixty seconds of any run |
| MemoryStore.Housekeeping | internal/middleware/ratelimit.go:39-64 | Within a minute of the last cleanup nothing happens; then entries untouched for five minutes go, and of more than ten thousand left a fifth |
| MemoryStore.EvictionTakesAFifth | internal/middleware/ratelimit.go:52-63 | An over-capacity cleanup removes exactly floor(n/5) entries |
| MemoryStore.StoreSizeBound | internal/middleware/ratelimit.go:46-63 | With at most K new accounts between cleanups, the store holds at most max(10000, 4K) after a cleanup and K more at any time |
| MemoryStore.RunAgrees | internal/middleware/ratelimit.go:46-92 | The entry of such an account shows, through every window that can still be asked for, exactly its full admission history |
| MemoryStore.GrantedIsHistory | internal/middleware/ratelimit.go:105-110 | Its admissions are the ideal limiter's |
| EvictionTight.BoundAttained | internal/middleware/ratelimit.go:52-63 | For every L a run with 2L admissions in one window: the bound is exact |
| MemoryLimiter.RateLimitEntry.Compact | internal/middleware/ratelimit.go:86-92 | The in-place filter leaves exactly the timestamps inside the window, in order |
| MemoryLimiter.RateLimitEntry.Hit | internal/middleware/ratelimit.go:84-110 | One entry's answer and its new timestamps |
| MemoryLimiter.RateLimitEntry.Append | internal/middleware/ratelimit.go:109 | The slice grows by one at its end; a full backing array is replaced |
| MemoryLimiter.RateLimiter.constructor | internal/middleware/ratelimit.go:32-37 | An empty store, last cleaned now |
| MemoryLimiter.RateLimiter.SweepStale | internal/middleware/ratelimit.go:46-50 | Exactly the keys untouched for longer than the TTL go, and what stays is untouched |
| MemoryLimiter.RateLimiter.PickFifth | internal/middleware/ratelimit.go:53-59 | Distinct keys of the map, a fifth of it, in any order |
| MemoryLimiter.RateLimiter.DeleteAll | internal/middleware/ratelimit.go:60-62 | Exactly the picked keys go |
| MemoryLimiter.RateLimiter.SweepAndEvict | internal/middleware/ratelimit.go:46-63 | The sweep, and over capacity a fifth of what it left |
| MemoryLimiter.RateLimiter.EntryFor | internal/middleware/ratelimit.go:75-82 | The account's entry, empty if new; no other entry changes |
| MemoryLimiter.RateLimiter.CheckEntry | internal/middleware/ratelimit.go:72-111 | The rest of a call is the check on values |
| MemoryLimiter.RateLimiter.Cleanup | internal/middleware/ratelimit.go:39-64 | The loops over the shared map delete what the step on values deletes, with legal victims |
| MemoryLimiter.RateLimiter.Check | internal/middleware/ratelimit.go:66-111 | A call on the mutable limiter is a step on values: same new state, same answer |
| RedisScript.CardinalityBound | internal/middleware/ratelimit_redis.go:28-44 | The sorted set never exceeds the limit, whatever clocks and members do |
| RedisScript.DenialsKeepReset | internal/service/rate_limiter.go:25-34 | Two successive denials of one key advertise the same reset time, for any clocks and members |
| RedisScript.RunDenialsKeepReset | internal/service/rate_limiter.go:25-34 | In any run, with requests on other keys in between |
| RedisScript.ExpireUnobservable | internal/middleware/ratelimit_redis.go:43-44 | While an account's whole-second readings lag and lead the server by at most eleven seconds together, no answer depends on EXPIRE |
| RedisScript.ClocksHideExpire | internal/middleware/ratelimit_redis.go:43-44 | For clocks within d of the server's, no answer depends on EXPIRE while 2d is at most 10 s and 1 ns |
| RedisScript.ExpireObservable | internal/service/rate_limiter.go:36-37 | For every larger lag and lead some run's answer does |
| RedisScript.ClocksShowExpire | internal/service/rate_limiter.go:36-37 | And for every larger d |
| RedisBounds.SkewedMembersBound | internal/middleware/ratelimit_redis.go:26-49 | At most L members of an account admitted in any server-time window of 60 s less lag and lead, whatever collides |
| RedisBounds.SkewedWindowBound | internal/middleware/ratelimit_redis.go:26-49 | At most L admissions in such a window, if the account's own members are distinct or L is at most one |
| RedisBounds.CollisionsAdmit | internal/service/rate_limiter.go:36 | For every L of two or more and every n, a run of n requests of one account with one member that are all admitted in one second |
| RedisBounds.ClockWindowBound | internal/middleware/ratelimit_redis.go:60-64 | For clocks within d of the server's, at most L admissions in any window of 60 s - 2d - 1 s + 1 ns |
| RedisBounds.ClockWindowTight | internal/middleware/ratelimit_redis.go:60-64 | For every d and every limit L of one or more, a run with distinct members and L + 1 admissions in a window one nanosecond longer |
| RedisBounds.RedisRefinesIdeal | internal/middleware/ratelimit_redis.go:20-50 | For an account whose own readings never go back and whose own members are distinct, every answer is the ideal limiter's, whatever other accounts do |
| RedisBounds.RetryAfterBounds | internal/middleware/ip_ratelimit.go:39-40 | Retry-After reaches past the reset time, by at most a second while that is ahead; it is positive exactly until a second after it |
| RedisBounds.DeniedThenAdmitted | internal/service/rate_limiter.go:25-34 | After a denial with no other traffic, a call at the advertised reset time is admitted |
| RedisBounds.WaitingRetryAfterAdmits | internal/middleware/ip_ratelimit.go:36-40 | A client that waits the advertised Retry-After is admitted despite the truncations, whatever is asked on other keys meanwhile |
| RedisLimiter.RedisServer.Eval | internal/middleware/ratelimit_redis.go:20-50 | The script's commands in order are the step on values, and touch one key |
| RedisLimiter.RedisServer.ExpirePassively | internal/service/rate_limiter.go:37 | A key past its deadline is gone, any other is untouched |
| RedisLimiter.RedisServer.ZRemRangeByScore | internal/service/rate_limiter.go:19-21 | Scores up to the start go; an emptied set takes its deadline with it |
| RedisLimiter.RedisServer.ZCard | internal/service/rate_limiter.go:23 | The number of members, zero for an absent key |
| RedisLimiter.RedisServer.ZRangeFirst | internal/service/rate_limiter.go:26-32 | The lowest score, if there is any member |
| RedisLimiter.RedisServer.ZAddExpire | internal/service/rate_limiter.go:36-37 | The member gets the score, colliding or not, and the key a new deadline |
| RedisLimiter.CheckAccount | internal/middleware/ratelimit_redis.go:60-76 | Any failure denies; otherwise the script's answer is returned |
| RedisLimiter.HandleIp | internal/middleware/ip_ratelimit.go:28-48 | Any failure denies, with Retry-After counted to exactly one window after the failure; otherwise decision and Retry-After follow the script; the key is in the script's state unless the script was not run, and every other key is untouched |
| LimiterEquivalence.LimitersAgree | internal/middleware/ratelimit_redis.go:60-76 | On whole-second readings, with the account's own members distinct and no eviction of it while it has a live admission, memory and Redis agree call by call on decision and remaining, and on the reset time of denials; the generic limiter agrees on the decision |
| Broker.OfferAccounts | internal/sse/broker.go:138-146 | An offer keeps: offered = received + queued + dropped, at most 100 queued, the accepted events a subsequence of the offered; only a full queue drops |
| Broker.Client.Offer | internal/sse/broker.go:138-146 | The non-blocking send on the mutable client |
| Broker.Client.Receive | internal/handler/events.go:111-115 | The stream takes the oldest accepted event |
| Broker.Broker.Take | internal/handler/events.go:111-115 | And the whole broker stays valid |
| Broker.Client.constructor | internal/sse/broker.go:48-52 | An open client with an empty queue |
| Broker.Client.CloseDone | internal/sse/broker.go:77 | Done is closed once more |
| Broker.Broker.constructor | internal/sse/broker.go:37-45 | No clients and no relays |
| Broker.Broker.AddClient | internal/sse/broker.go:54-60 | The bucket gains the client; a new bucket gets a relay at the end of its channel |
| Broker.Broker.DeleteClient | internal/sse/broker.go:75-81 | The index loses exactly the client, and its bucket if that was the last |
| Broker.Broker.Publish | internal/sse/broker.go:90-98 | The channel grows by the event, and nothing offered before is put in question |
| Broker.Broker.Subscribe | internal/sse/broker.go:47-69 | The client enters its bucket; an absent bucket is opened and gets exactly one relay, which begins at the end of the channel |
| Broker.Broker.Unsubscribe | internal/sse/broker.go:71-88 | The client leaves, an emptied bucket goes; Done is closed whenever the bucket exists, for a second time if and only if the client is not in it; in orderly use never |
| Broker.Broker.RelayStep | internal/sse/broker.go:114-129 | A relay offers each event at most once, at increasing places of the channel, to exactly the bucket's clients |
| Broker.Broker.Broadcast | internal/sse/broker.go:133-147 | Every client of the bucket is offered the event once |
| Broker.Broker.OfferAll | internal/sse/broker.go:138-146 | The loop over the bucket does so |
| Broker.Broker.Close | internal/sse/broker.go:149-161 | Closes each live client's Done, none of them for a second time, and empties the index |
| Broker.Broker.CloseBuckets | internal/sse/broker.go:155-159 | Every live client's Done is closed once, through whatever bucket it is in |
| Broker.Broker.CloseBucket | internal/sse/broker.go:156-158 | Every client of one bucket, once |
| Broker.Broker.ClientCount | internal/sse/broker.go:163-167 | The number of live clients of the account |
| Broker.Broker.TotalClients | internal/sse/broker.go:169-178 | The number of live clients: buckets are disjoint |
| Broker.OpenedKeeps | internal/sse/broker.go:54-60 | Relays of an account equal the openings of its bucket |
| Broker.OfferedSinceOpening | internal/sse/broker.go:54-60 | A client is offered only events of its account's channel, none from before the opening of its bucket |
| Broker.SingleOpeningInOrder | internal/sse/broker.go:100-131 | In every broker, while a bucket has been opened once its clients have accepted published events in publish order without duplicates |
| Broker.AcceptedOncePerRelay | internal/sse/broker.go:100-131 | Two acceptances of one event come from two relays |
| Broker.CopiesWithinOpenings | internal/sse/broker.go:100-131 | In every broker, a client has accepted an event at most as often as its bucket has been opened |
| Broker.DuplicateDelivery | internal/sse/broker.go:54-60 | In every open broker whose account's bucket has been opened twice or more, the next event can reach any client with two free places twice |
| Broker.ReopenedBucketDuplicates | internal/sse/broker.go:54-60 | Such a broker comes from one client leaving before another comes |
| Broker.UnsubscribeTwiceClosesTwice | internal/sse/broker.go:75-81 | In every broker, a second Unsubscribe of a client whose bucket another keeps closes its Done twice |
| Broker.ResubscribeAfterCloseClosesTwice | internal/sse/broker.go:75-81 | So does an Unsubscribe after Close once someone has subscribed again |
| Codec.PairParses | internal/handler/kakao.go:22-30 | Any text after `/pair `, in any case and with any white space around, parses to its upper-case form, whatever the case mapping |
| Codec.PairParsesOnly | internal/handler/kakao.go:22-30 | Conversely every PAIR command comes from such a line |
| Codec.PairPrefixIsPair | internal/handler/kakao.go:25-30 | Exactly the trimmed lines with the prefix are PAIR commands, and a PAIR command is never empty |
| Codec.WordsParse | internal/handler/kakao.go:33-43 | `/unpair`, `/status` and `/help`, with white space around them, are those commands |
| Codec.WordsParseOnly | internal/handler/kakao.go:33-45 | Conversely each comes from such a line only, and every other line without the pair prefix is a chat line |
| Codec.SpacesAre | internal/handler/kakao.go:23 | Which characters count as white space |
| Codec.NormalizeParsed | internal/service/session.go:172 | The second normalisation changes nothing, for any idempotent case mapping that keeps white space apart |
| Codec.GeneratePairingCode | internal/service/session.go:316-331 | The loops fill a code of the right shape, determined by the draws |
| Codec.CodeOfInjective | internal/service/session.go:316-331 | Different draws give different codes |
| Codec.PairingCodeRoundTrip | internal/service/session.go:316-331 | A generated code typed after `/pair ` in any case and spacing parses to itself |
| Codec.SplitBuild | internal/service/session.go:141-146 | Splitting a built key gives the parts of the channel, then those of the user |
| Codec.JoinSplit | internal/service/session.go:141-146 | Splitting loses nothing |
| Codec.KeyInjective | internal/service/conversation.go:22-24 | Over colon-free channels, equal keys mean equal channel and user |
| Codec.ChannelsClash | internal/service/conversation.go:22-24 | Two different channels have chats with one key if and only if one channel continues the other after a colon |
| Codec.KeyApart | internal/service/conversation.go:22-24 | Otherwise equal keys mean equal channel and user |
| Codec.UserIdRoundTrip | internal/service/session.go:262-267 | The user id read back is right exactly when the user key is colon-free, given a colon-free channel |

## Left out

- HTTP routing, headers, JSON, logging, audit, configuration, the dashboard page and its read-only handlers: no hard property.
- Postgres, Redis and go-redis: a statement, a transaction and a Lua script are one atomic step each; pub/sub delivers some of what was published, and in `Protocol` in any order (the order is `Broker`'s subject). A subscription is no step of `Protocol`: `Guarantees.DrainMissesNothing` takes any time before the SELECT for it.
- Hashing, HMAC, encryption and token randomness: tokens and their hashes are the same fresh-or-refused number; ids are fresh.
- Conversation keys, codes and URLs are numbers in `Tables` and `Protocol`; `Codec` and `Indexes` have their text.
- Unicode's table of letter case: `Codec` takes any character mapping that is idempotent, keeps white space apart and upper-cases ASCII as expected, which is what it uses of unicode.ToUpper.
- Memory-level races of Go: `Broadcast` reads the bucket it was given as it is throughout, and each offer is atomic.
- Guarantees.RunIsolates: `message` events only; `pairing_complete` reads the session again and can name another conversation, exactly when `Guarantees.AnnouncesHome` says.
- CleanupRuns.Invisible: the run after the removal must not bear a removed session's token, ask for its status or hand out its token or code again: those are the visible effects, which `Cleanup.TokensCut` and `Cleanup.PairingCut` give exactly.
- Services: methods run alone; interleaving is `Protocol`'s subject. The drain's rows are an input that satisfies the SELECT, in ascending order of creation.
- RedisBounds.SkewedWindowBound: real time is the Redis server's clock, and skews are measured against it. The member is the second and a drawn number; how likely math.random repeats is not modelled.
- RedisLimiter.HandleIp: the address that becomes the key and the HTTP response are not modelled, only the decision and the number in Retry-After.
- `MarkAcked`, `UpdateCallback`, the service's `Unpair` and `PublishPairingExpired` are never called; error tables, statistics and pagination are settled by reading one branch.
- Schema migrations and old `mappings` data: runs start from the empty schema.
