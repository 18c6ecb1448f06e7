# Verified model of the gaggle server's stateful core

gaggle is a social network; this project models the parts of its Go server whose correctness rests on
state that several requests, publishers or loops share, and proves what they keep.

**Refresh-token session families.** `Sessions` gives the token table, its three kinds of commit and the
invariant that every family is a linear chain; `SessionProtocol` runs any number of logins, refreshes,
replays and logouts as interleaved steps, with the row read and the commit apart; `SessionSafety` holds
the claims over all runs, and `TheftDetection` when a replay counts as theft and what must have been read
before a family is killed or a client let on. This is refresh-token rotation with reuse detection (section 4.14.2 of RFC
9700) with an exception for the same device. `AuthService` is the code as it runs, one method per
method, over a table that other requests change between its steps.

**Realtime hub and unread counters.** `HubProtocol` interleaves publishers, subscribers and cancels lock
section by lock section; `Hub` is the class; `UnreadProtocol` proves client convergence with every
publish split into its channel operations. `DirectMessages` and `NotificationFeed` are the services that
write, recount and publish, over the typed rows of `Relations`; `Publishing` says what their calls publish
and ties them to the protocol; `RealtimeStream` is the loop that sends one client its events.

**Scanners, walks and the index built on them.** `MimeWalk` over `MimeParts`, `HtmlText`
over `HtmlTree` and `Text`, `TagScan`, `HashtagIndex` and `MentionIndex`. Each walk or scan is proved against a
reading of its input by places: where in the tree or the text something stands, and what must hold there.

**Cache, counter and dataset.** `RateLimit`; `FeedKeys`, `FeedCache` and `FeedProtocol`; the generator
(`Usernames`, `PostTree`, `Engagement`, `Relationships`, sizes in `Dataset`) and its loader (`PostLoader`,
`PollLoader`, `EngagementLoader` and the store half of `Relationships`). Every random draw is an
arbitrary value in its range. `Selection` says what it is to pick elements without reordering them.

Clocks, fresh tokens, session ids and other requests' commits are parameters. Hashes are injective, so a
token row is keyed by the token. Signature checks are an oracle with three verdicts. A string stands for
the bytes, or where characters matter the characters, that the Go code works on.

## What the code does that its comments do not say

- `htmlToText` breaks the line only where a block starts. Text right after a block's end joins the
  block's last word, although the comment says block elements become line breaks
  (`BlockStartBreaksBlockEndDoesNot`). Words are kept exactly relative to that.
- `Allow` is commented as a fixed window whose expiry is set on the first hit. It renews the expiry on
  every hit, denied ones included, so a client that never pauses for a window stays shut out
  (`RestlessClientIsShutOut`); the rate bound holds all the same (`RateIsBounded`).
- `RefreshToken` answers "session expired" not only when the family has no live token but also after
  three lost races (`RotateCurrentActiveToken`), and answers with an internal error when the access token
  cannot be minted although the rotation is committed.
- The stored user-agent is cut to 255 bytes and the comparison is not, so a device with a longer agent
  kills its own family by replaying, and so does one with none. One device stays signed in through every
  run exactly when its agent has 1 to 255 bytes (`DevicesStayAliveIff`).
- Recounting and publishing are not one step, and publishers share the hub's lock. Clients converge in
  every run in which (1) no counter is recounted while an earlier count of it is on its way and (2) no two
  publishers are at one user's queues at once (`ClientsConverge`). The code enforces neither, and each is
  needed: `RecountsMustNotOverlap` and `PublishesMustNotOverlap` reach a client left with an outdated count
  and no refetch signal, and `ResyncCanBeLost` is the same in the hub alone, which only keeps
  `LostResyncMeansOverlap`.
- `Send` and `Create` look for a block by reading one row of the pair, whatever its kind, although a pair may
  hold several. A message between users of whom one blocks the other is always refused exactly when one
  direction holds a block and nothing else (`BlockedPairIsRefusedIff`); a blocked actor's notifications are
  always dropped exactly when there is a mute too or no follow (`BlockedActorIsSilencedIff`). Somebody who
  blocks and then follows or mutes gets into the other case (`OnlyTheBlockerSpoilsIt`, `BlockMayBeMissed`).
- A home-feed page is stored stale exactly when a write made since its feed was read has already been dropped
  for its owner, and only then is any cached page ever stale (`AlwaysFreshIffNeverAcross`,
  `PagesCanBeStoredLate`); a failed follower lookup leaves the followers' pages in the cache
  (`InvalidateFeedForUserAndFollowers`).
- Inserting a relation that exists is meant to be recognised and skipped, but the store looks for another
  driver's error. `applyRelationships` stops at such an entry (`StopsIffHeldAndUnblocked`,
  `SeededTwiceStops`).
- `cleanUsername` does not check its second draw, so a kept draw that is empty or too long is used as it
  is unless it is taken (`CleanUsername` states the exact condition).
- `applyRelationships` deletes every relation of a blocked pair, mutes and the opposite block included,
  and keeps blocks and follows apart only when follows come first (`BlockMeetsFollowIffLate`).
- The comment on `applyEngagement` calls all inserts no-ops on duplicates. A repeated bookmark moves to
  the new category instead (`AddBookmark`).

## Model

| member | source | states |
|---|---|---|
| Sessions.CommitKeepsInv | server/internal/service/auth_service.go:178-193 | Whatever legal commit is made, in every family all tokens but the newest are rotated away, the newest is live or killed, no token repeats, and all belong to one user |
| Sessions.CommitKeepsChain | server/internal/service/auth_service.go:184-190 | The same for one family, whichever family the commit is on |
| Sessions.RotationChain | server/internal/service/auth_service.go:232-246 | Rotating the live token puts the successor at the end of the chain, and the chain stays linear |
| Sessions.KillChain | server/internal/service/auth_service.go:153-155 | Revoking a family keeps its chain and its users |
| Sessions.LiveIsNewest | server/internal/service/auth_service.go:226 | A live token of a chain is its newest, so the head is determined |
| SessionProtocol.RunsAreGood | server/internal/service/auth_service.go:111-212 | In every interleaving of logins, refreshes, replays and logouts, all families are chains and what each pending request has read about session and user is still true |
| SessionProtocol.NextKeepsGood | server/internal/service/auth_service.go:93-308 | Each single step of any request keeps that |
| SessionProtocol.RequestsMakeLegalCommits | server/internal/service/auth_service.go:113-190 | A commit made long after its row read still names the family and the user of the token it retires |
| SessionProtocol.RowsPersist | server/internal/service/auth_service.go:188-190 | A token row never disappears or changes its family, user or agent, and a revoked one never changes at all |
| SessionProtocol.OneUser | server/internal/service/auth_service.go:184 | Tokens of one family belong to one user, the one their signatures name |
| SessionSafety.OnlyTheNewestIsLive | server/internal/service/auth_service.go:111-212 | In every run a family has at most one unrevoked token, the newest; all others were rotated |
| SessionSafety.ChainGrowsByRotation | server/internal/service/auth_service.go:226-246 | In every run a family has one token more than it saw rotations |
| SessionSafety.IssuedAndRetired | server/internal/service/auth_service.go:265-267 | Tokens issued are one plus the rotations, tokens retired by rotation equal the rotations |
| SessionSafety.RotationLeavesExactlyOne | server/internal/service/auth_service.go:184-193 | A rotation leaves the successor as the only live token of a family that is wholly the same user's |
| SessionSafety.RefreshLeavesExactlyOne | server/internal/service/auth_service.go:178-211 | In every run a refresh that reports success leaves exactly one live token in the family, the one returned, and the user it reports owns every token of the family |
| SessionSafety.DeadStaysDead | server/internal/service/auth_service.go:122-158 | Once a family has no live token, no later step of any request, however old its reads, gives it one |
| SessionSafety.DeadNeverRotates | server/internal/service/auth_service.go:188-193 | After that no step rotates a token of the family |
| SessionSafety.NoRefreshAfterDeath | server/internal/service/auth_service.go:137-157 | Every refresh that ever reports success on a dead family had reported it before the family died |
| SessionSafety.SuccessIsARotation | server/internal/service/auth_service.go:244-258 | A request comes to report success on a family only by a step that rotates that family |
| SessionSafety.ReplayIsBenignIff | server/internal/service/auth_service.go:130-157 | A rotated token replayed by the device it was issued to moves the family forward if and only if the agent has 1 to 255 bytes; otherwise it condemns the family |
| TheftDetection.StolenTokenKillsTheFamily | server/internal/service/auth_service.go:122-158 | In every run a request whose rotated token was issued to another device, or to one not on record, never reports success: it goes on to kill the family and answers that the session is over, unless an error from outside ends it first |
| TheftDetection.UsableTokenNeverKills | server/internal/service/auth_service.go:130-193 | In every run a request with a live token, or with a rotated one of its own device, never revokes the family and can succeed only for the user the token names |
| TheftDetection.DeadTokensAreRefused | server/internal/service/auth_service.go:113-158 | In every run the row read changes nothing, a token without a row is unauthorized for good, and one revoked by a logout or for theft has expired for good |
| TheftDetection.EveryPhaseIsExplained | server/internal/service/auth_service.go:111-212 | In every run a family is condemned only by a request that read a stolen token of it, and a success goes only to one that read a usable token of that user |
| TheftDetection.TheftIffStolenRead | server/internal/service/auth_service.go:122-158 | A request turns on the family if and only if the row it read is rotated and not provably its own device's |
| SessionSafety.ManyTabsStayAlive | server/internal/service/auth_service.go:130-146 | With one agent of 1 to 255 bytes and no logout, every run leaves the family exactly one live token however old the replayed tokens are, no request condemns it, and a replay without a competitor succeeds |
| SessionSafety.UnfitAgentKillsItsOwnFamily | server/internal/service/auth_service.go:284-287 | For every agent that is empty or longer than 255 bytes there is a run of that one device, without logout, that kills its family |
| SessionSafety.DevicesStayAliveIff | server/internal/service/auth_service.go:130-146 | Every run of one device without logout keeps exactly one live token if and only if its agent has 1 to 255 bytes |
| SessionSafety.StreamsFollowTheFamily | server/internal/service/auth_service.go:350-383 | A stream is refused exactly when its family is dead, rotation never closes one, revocation closes all of the family, and an open one is the family's own user's |
| AuthService.AuthStore.GetCurrentActiveToken | server/internal/store/auth_store.go:123-152 | The head is a live token of the family, and there is none exactly when no token is live |
| AuthService.AuthStore.RevokeSession | server/internal/store/auth_store.go:155-182 | Every unrevoked token of the family is revoked with the reason; no other row changes |
| AuthService.AuthStore.IssueRefreshToken | server/internal/service/auth_service.go:272-308 | The new live row is in the family, with the agent cut to 255 bytes; inside a transaction nothing is visible before the commit |
| AuthService.AuthStore.CreateRefreshToken | server/internal/service/auth_service.go:265-267 | A login is exactly one opening commit |
| AuthService.AuthStore.AttemptRotation | server/internal/service/auth_service.go:221-247 | One attempt with others' commits in the middle rotates the head it read if that is still live, and otherwise leaves exactly what the others left |
| AuthService.AuthStore.RotateCurrentActiveToken | server/internal/service/auth_service.go:219-261 | Over any foreign commits between its steps it commits exactly one rotation, by the first attempt whose head survives, or leaves no token it inserted; it fails exactly when an attempt found no head or all three attempts lost theirs; the return after the loop is not reached |
| AuthService.OneWinner | server/internal/service/auth_service.go:220-247 | At most one attempt wins, and it is not one that lost its head |
| AuthService.NoWinnerWhenAllLost | server/internal/service/auth_service.go:237-243 | Three lost races exclude a rotation |
| AuthService.NoWinnerWithoutHead | server/internal/service/auth_service.go:226-230 | A missing head excludes a rotation by any attempt |
| AuthService.AuthStore.RefreshToken | server/internal/service/auth_service.go:93-212 | Over any foreign commits: a token without a row, or one revoked by a logout or for theft, is refused and changes nothing; a rotated token from another device, or of a device not on record, gets session expired and leaves no live token in its family; from its own device it leaves the returned token as the only live one, or what others made of the table; a live token is retired for its successor unless a competitor was faster |
| AuthService.AuthStore.RotatePresented | server/internal/service/auth_service.go:178-211 | The direct rotation commits insertion and retirement together, or neither when the token is no longer live |
| AuthService.AuthStore.Logout | server/internal/service/auth_service.go:310-336 | Logout always succeeds; it revokes the family of the row it read as the table is later, and an unknown token changes nothing |
| AuthService.OthersLeaveOneHead | server/internal/service/auth_service.go:137-142 | What the retry loop presumes of the table holds after any legal commits of others |
| AuthService.LegalEnvKeepsWorldsFit | server/internal/service/auth_service.go:219-246 | Whatever legal commits others make before, between and during all attempts, every table the retry loop meets has one head per family and none of the tokens kept for it |
| Events.Deliver | server/internal/realtime/hub.go:49-63 | A full queue loses its oldest event and ends in a resync; otherwise the event is queued; capacity is never exceeded |
| HubProtocol.HubIsSafe | server/internal/realtime/hub.go:21-65 | In every interleaving no send hits a closed channel, none is closed twice, no queue exceeds 16, no user keeps an empty set outside a write section, and listed channels are open |
| HubProtocol.LostResyncMeansOverlap | server/internal/realtime/hub.go:46-63 | Whenever a publisher finds no room for its resync, another publisher sent on that channel between its drop and that attempt |
| HubProtocol.ResyncCanBeLost | server/internal/realtime/hub.go:55-62 | Such a loss is reachable: two publishers at one full channel leave it full and without a resync |
| HubProtocol.NextKeepsInv | server/internal/realtime/hub.go:21-65 | Every single step keeps the invariant behind both |
| HubProtocol.CancelCloseKeepsInv | server/internal/realtime/hub.go:31-40 | Closing after leaving the lock still meets no publisher that could send on the channel |
| Hub.Hub.Subscribe | server/internal/realtime/hub.go:21-42 | The new channel is empty, open and added to the user's set; other subscriptions stay |
| Hub.Hub.Publish | server/internal/realtime/hub.go:45-65 | Every channel of the user, and no other, gets the event at its end; a full one loses its oldest event instead and gains the refetch signal |
| Hub.Subscription.Cancel | server/internal/realtime/hub.go:31-41 | The first call removes the channel, drops an emptied user and closes it; repeated calls change nothing |
| UnreadProtocol.ClientsConverge | server/internal/realtime/hub.go:45-65 | With publishes interleaved channel operation by channel operation with drains, recounts and subscriptions: in every run where no counter is recounted while an earlier count of it is on its way and no two publishers are at one user's queues at once, whenever nothing about a counter is pending for a subscriber its last relevant event is the current count or a resync, or the count is as when it subscribed |
| UnreadProtocol.DrainedClientIsCurrent | server/internal/handlers/realtime_handler.go:53-73 | Then a client that has written out its queue was last shown the current notification count or told to refetch |
| UnreadProtocol.QuietClientsAreCurrent | server/internal/realtime/hub.go:45-65 | In a serialised run, once no call has anything left to publish, the last thing each client was or will be shown about a counter is its current count or a refetch signal |
| UnreadProtocol.GreetConverges | server/internal/handlers/realtime_handler.go:53-59 | Reading the first count after subscribing leaves no window: the queue corrects whatever the count missed |
| UnreadProtocol.SerialRunsKeepInv | server/internal/service/notification_service.go:141-148 | Every reachable state of such runs keeps the convergence invariant |
| UnreadProtocol.PushKeepsInv | server/internal/realtime/hub.go:59-62 | A publisher alone at the user's queues always finds room for its resync, however the client drains in between |
| UnreadProtocol.UndisturbedVisitDelivers | server/internal/realtime/hub.go:50-63 | A publisher visiting a queue step by step, with nobody in between, leaves it as one call of Publish does |
| UnreadProtocol.RecountsMustNotOverlap | server/internal/service/dm_service.go:134-141 | Without the first rule a reachable state leaves a client with an outdated count, nothing pending and no resync |
| UnreadProtocol.PublishesMustNotOverlap | server/internal/realtime/hub.go:46-63 | Without the second rule too: an announcement takes the slot freed for the resync |
| UnreadProtocol.CallIsAWrite | server/internal/service/dm_service.go:60-77 | Every service call whose tasks cover the counters it changes is a write of the protocol with exactly those new values |
| Events.DeliveredIsLast | server/internal/realtime/hub.go:49-63 | A delivered event, or the resync that replaces it, is the last relevant one the client sees |
| Relations.BlockIsFoundIff | server/internal/store/user_relationship_store.go:72-90 | Two lookups of a pair, one each way, always find a block between them if and only if one direction holds a block and no row of another kind; some lookups do if and only if there is a block |
| Relations.LookupShowsBlockIff | server/internal/store/user_relationship_store.go:73-77 | A lookup reads one row of any kind: it always shows the block exactly when no follow or mute stands beside it |
| DirectMessages.DmService.Send | server/internal/service/dm_service.go:26-79 | An unknown or deleted recipient is refused as such, a block that stands alone is found and only a block is reported as one, and then one's own name is refused; a refused message changes and publishes nothing; an accepted one raises the recipient's count by one and no other, and every queue is as after the published tasks, which cover the counter |
| DirectMessages.AnswersAreThoseOfLookups | server/internal/service/dm_service.go:39-53 | The possible answers on a table are exactly those that some rows read by the two lookups give |
| DirectMessages.BlockedPairIsRefusedIff | server/internal/service/dm_service.go:46-49 | Between users of whom one blocks the other a message is always refused if and only if one direction holds a block and no other row; otherwise it may be delivered |
| DirectMessages.DmService.FindsBlock | server/internal/service/dm_service.go:39-53 | A block that stands alone in some direction is found; nothing is found without a block |
| DirectMessages.DmService.GetOrCreateConversation | server/internal/store/dm_store.go:24-49 | The pair has one conversation, found or created, and no unread count moves |
| DirectMessages.DmService.MarkRead | server/internal/service/dm_service.go:119-132 | The other side's messages of that conversation are marked read and no message changes otherwise; the reader's count drops by exactly that conversation's unread messages and nobody else's moves; every queue is as after the published tasks, which cover that; a stranger changes nothing |
| DirectMessages.SendRaisesOneCount | server/internal/service/dm_service.go:61-77 | A new message is unread for the other participant alone |
| DirectMessages.SendIsWorkedOff | server/internal/service/dm_service.go:68-77 | The tasks of a sent message reach the recipient's queues twice, the sender's once and no others |
| DirectMessages.NewConversationKeepsCounts | server/internal/service/dm_service.go:55 | Opening a conversation moves no count |
| DirectMessages.ReadingClearsOneConversation | server/internal/service/dm_service.go:127 | Marking read clears one conversation for one reader and moves no other count |
| NotificationFeed.NotificationService.Create | server/internal/service/notification_service.go:34-79 | Nothing happens for one's own acts, a muted actor, an unwanted mention or a block with no follow beside it, and otherwise only where there is a block; otherwise the recipient's count alone rises by one and every queue is as after the published tasks, which cover it |
| NotificationFeed.SilenceIsThatOfLookups | server/internal/service/notification_service.go:35-53 | An actor is surely silenced exactly when every row the lookup may read silences him, and possibly when some does |
| NotificationFeed.BlockedActorIsSilencedIff | server/internal/service/notification_service.go:38-53 | A blocked actor is always silenced if and only if there is a mute too or no follow beside the block |
| NotificationFeed.NotificationService.MarkRead | server/internal/service/notification_service.go:110-116 | One row of the recipient is read, the count falls by one if it was unread and is published as the tasks say; foreign rows change nothing |
| NotificationFeed.NotificationService.MarkAllRead | server/internal/service/notification_service.go:118-124 | Exactly the recipient's rows are marked read and no row changes otherwise; the count becomes zero and zero is published; other counts stay |
| NotificationFeed.NotificationService.PublishFeedPost | server/internal/service/notification_service.go:126-139 | Each follower and the author is sent the event once per listing, nobody else |
| NotificationFeed.FeedIsWorkedOff | server/internal/service/notification_service.go:131-137 | Announcing to the list in order leaves each user's queues as being told once per listing |
| NotificationFeed.SeeingMovesOneCount | server/internal/store/notification_store.go:118-134 | Marking a range of rows read moves only that user's count, to zero if the range is all |
| RealtimeStream.Stream | server/internal/handlers/realtime_handler.go:53-83 | The client is sent exactly the greeting, unless its count or its write fails, and the queued events in order until it is gone, a write fails or a heartbeat does not find the same user; afterwards the hub is as before |
| RealtimeStream.LatestIsKept | server/internal/handlers/realtime_handler.go:61-73 | While the stream lives, the last relevant event written or queued is the last one sent, or a resync: overflow never loses the latest word silently |
| RealtimeStream.DeadSessionEndsTheStream | server/internal/handlers/realtime_handler.go:74-77 | After a heartbeat that finds the session dead or another user's, nothing more is written |
| RealtimeStream.StreamLivesIff | server/internal/handlers/realtime_handler.go:61-83 | A stream goes on if and only if the client stays, no write fails, and every heartbeat finds a session of this very user |
| RealtimeStream.NothingLostBelowCapacity | server/internal/handlers/realtime_handler.go:61-83 | While no queue overflows a live stream has written, in order and once each, everything published up to the events still queued |
| MimeWalk.WalkPartsForText | server/internal/handlers/mail_handler.go:197-249 | The plain text and the HTML returned are each that of the first inline part of that very type with a text, in document order and inside inline multipart parts alone, among the parts before the one the walk cannot get past; it fails if and only if there is such a part, one that has to be read and cannot be, at any depth, or a broken end |
| MimeWalk.WalkPart | server/internal/handlers/mail_handler.go:206-247 | One part contributes its first texts unless found already; it fails only if it has to be read and cannot be, or its own walk fails; an attachment and a part whose type does not parse contribute nothing and never fail |
| MimeWalk.WalkErrorFree | server/internal/handlers/mail_handler.go:197-249 | On error-free trees of any depth the results are the texts of the first inline text/plain and the first inline text/html part with a text, in document order |
| MimeParts.FirstIsFirstText | server/internal/handlers/mail_handler.go:206-247 | The first text among the leaves is the one at the first place that shows an inline part of that type, reached through inline multipart parts alone |
| MimeWalk.JamsWhereItFails | server/internal/handlers/mail_handler.go:213-240 | A part fails if and only if it is an unreadable inline text part with no text of its type at any place before it, or an inline multipart that holds one or breaks off |
| MimeWalk.PruningChangesNothing | server/internal/handlers/mail_handler.go:208-212 | Removing all attachments and all parts without a parseable type, at every depth, changes neither what is found nor whether the walk fails |
| MimeWalk.StopIsFirstFailure | server/internal/handlers/mail_handler.go:199-240 | The walk stops at the first part that fails given what its earlier siblings gave, and every earlier one does not |
| MimeWalk.WholeWalk | server/internal/handlers/mail_handler.go:200-202 | A walk that does not give up has seen every leaf |
| MimeWalk.ErrorFreeNeverGivesUp | server/internal/handlers/mail_handler.go:203-205 | Without a broken or unreadable part it never gives up |
| MimeParts.FirstIsFirst | server/internal/handlers/mail_handler.go:213-234 | The text found is that of the first leaf of its kind that is readable and non-empty, and none is found exactly when there is no such leaf |
| MimeWalk.PreferText | server/internal/handlers/mail_handler.go:183-191 | Plain text is kept verbatim when it holds a word; otherwise the result has the visible characters and the lines of words of the HTML |
| HtmlText.HtmlToText | server/internal/handlers/mail_handler.go:256-270 | For every tree the visible characters are those of the text nodes in document order; the lines with their words are those of all nodes in document order with a break where a block starts and nowhere else; no blank lines or doubled spaces; normalising again changes nothing |
| HtmlText.HtmlTextWalk | server/internal/handlers/mail_handler.go:272-283 | The builder receives the text nodes in document order, no visible character more or less, with a break before each block but a leading one |
| HtmlText.BlocksStartWords | server/internal/handlers/mail_handler.go:273-294 | For a block of any of the listed tags anywhere in any tree, the text before it and the text in it are in different words of the output |
| HtmlText.MarkedIsShown | server/internal/handlers/mail_handler.go:272-283 | What is written is what the nodes show in document order, a break exactly where a node of a listed tag starts and none where it ends |
| HtmlText.WalkKeepsText | server/internal/handlers/mail_handler.go:276-282 | Whatever was written before, the walk adds exactly the visible characters of the text nodes in document order |
| HtmlText.NormaliseKeepsLines | server/internal/handlers/mail_handler.go:264-269 | Normalising drops lines without a word and keeps the words of every other line together |
| HtmlText.WalkWritesMarked | server/internal/handlers/mail_handler.go:272-283 | The conditional break differs from an unconditional one only in breaks at the very beginning |
| HtmlText.MarkedHasTheWords | server/internal/handlers/mail_handler.go:272-275 | So the walk writes exactly the words of the marked text |
| HtmlText.NormaliseKeepsWords | server/internal/handlers/mail_handler.go:263-269 | Collapsing and dropping lines neither loses, splits nor joins words |
| HtmlText.NormalisedIsTidy | server/internal/handlers/mail_handler.go:264-269 | No blank lines, no doubled spaces, none at either end of a line |
| HtmlText.NormaliseIsIdempotent | server/internal/handlers/mail_handler.go:264-269 | Normalising twice is normalising once |
| HtmlText.InlineNeverSplits | server/internal/handlers/mail_handler.go:251-255 | A tree of inline nodes contributes its text nodes glued together, so a code split across tags stays whole |
| HtmlText.BlockStartBreaksBlockEndDoesNot | server/internal/handlers/mail_handler.go:273-275 | Text before a block is separated from it, text after a block continues the block's last word |
| Text.FieldsAcrossSpace | server/internal/handlers/mail_handler.go:265 | White space separates words whatever surrounds it |
| Text.WordsAreVisible | server/internal/handlers/mail_handler.go:265 | The words hold exactly the characters that are no white space, in order |
| Text.FieldsOfJoin | server/internal/handlers/mail_handler.go:265 | Words joined by single spaces split back into the same words |
| Text.FieldsOfLines | server/internal/handlers/mail_handler.go:264-265 | Splitting into lines first gives the same words |
| Text.SplitOfJoin | server/internal/handlers/mail_handler.go:264-269 | Lines joined by breaks split back into the same lines |
| TagScan.FindAll | server/internal/postutil/mentions.go:12-20 | The leftmost non-overlapping scan finds the declarative list of tag positions |
| TagScan.NextMatch | server/internal/postutil/mentions.go:20 | From where a scan may restart the leftmost attempt finds the next tag, or none is left |
| TagScan.TagsAreTheTags | server/internal/postutil/mentions.go:8-12 | That list holds exactly the markers preceded by the start or a non-word character and followed by a word character, in order |
| TagScan.MatchHidesNoTag | server/internal/postutil/mentions.go:12 | Consuming the boundary character and the word run never hides a tag |
| TagScan.AttemptsFindTags | server/internal/postutil/hashtags.go:8 | An attempt at a position finds a tag there or one behind its boundary character, and nothing that is not a tag |
| TagScan.RunIsLongest | server/internal/postutil/hashtags.go:8 | The name is the longest word run up to the cap |
| TagScan.Extract | server/internal/postutil/mentions.go:17-29 | A name is returned if and only if some marker at the start of the text or behind a non-word character carries it: the lower-cased run of word characters behind it, at least one, up to the cap or to the first non-word character; each once, in the order of their first tags |
| TagScan.DistinctKeepsFirsts | server/internal/postutil/hashtags.go:13-20 | Dropping names already seen keeps each value once, ordered by where it first occurs |
| TagScan.ExtractedAreTheTagNames | server/internal/postutil/hashtags.go:10-22 | That holds of the specified list, for every text, pattern and case mapping |
| TagScan.TagsCarryTheirNames | server/internal/postutil/hashtags.go:8-13 | Position by position, a tag carries exactly one name: its longest word run up to the cap, lower-cased |
| HashtagIndex.HashtagStore.SyncPost | server/internal/store/hashtag_store.go:18-40 | The post's names become exactly those of its content; other posts' rows and all existing tag ids stay |
| HashtagIndex.HashtagStore.UpsertHashtag | server/internal/store/hashtag_store.go:32 | A known name keeps its id, a new one gets an id no row uses |
| HashtagIndex.HashtagStore.FileUnder | server/internal/store/hashtag_store.go:32-37 | One name more for this post and no change for any other |
| HashtagIndex.HashtagStore.Create | server/internal/store/hashtag_store.go:18-40 | Creating a post keeps every post filed under exactly the names of its content |
| HashtagIndex.HashtagStore.Update | server/internal/store/hashtag_store.go:18-40 | So does editing one |
| HashtagIndex.HashtagStore.DeleteCascade | server/internal/store/post_store.go:398-424 | Exactly the post and all posts below it are marked deleted, every post stays filed under its names, and it is reported when nothing was left to mark |
| HashtagIndex.DeletedThreadLeavesTheTrends | server/internal/store/hashtag_store.go:48-49 | The trends count no post of a deleted thread and all others as before |
| HashtagIndex.Descendants | server/internal/store/post_store.go:400-404 | Following replies down finds exactly posts whose chain of parents leads to the post, until nothing more is below them |
| HashtagIndex.HashtagStore.JoinIsRecount | server/internal/store/hashtag_store.go:44-50 | The grouped join equals the counts recomputed from the contents of live, recent top-level posts |
| HashtagIndex.HashtagStore.Trends | server/internal/store/hashtag_store.go:42-69 | Each trend counts the live top-level posts of the last 24 hours with a tag that carries its name; larger counts come first and equal ones in the order of whatever strict total collation the database uses; a name left out has no such post, or the limit is reached and it ranks after all of them |
| HashtagIndex.TopIsDetermined | server/internal/store/hashtag_store.go:51-52 | Order and limit leave exactly one possible answer |
| HashtagIndex.TopRows | server/internal/store/hashtag_store.go:57-64 | Appending the next best row until the limit yields that answer |
| MentionIndex.MentionStore.SyncPost | server/internal/store/mention_store.go:21-52 | The post's mention rows become exactly the active users whose name, up to case, some tag of its content carries; other posts' rows stay |
| MentionIndex.MentionStore.Replay | server/internal/store/mention_store.go:18-51 | After any run of syncs and user changes each post's rows are the users active, when it was last synced, under the names its content held then |
| MentionIndex.MentionStore.Resolve | server/internal/store/mention_store.go:35-38 | A name resolves, case-insensitively, to the one active user of that name, or to none |
| RateLimit.Limiter.Allow | server/internal/cache/cache.go:96-110 | Every hit, denied ones included, counts and renews the expiry; it is allowed within the maximum |
| RateLimit.Limiter.Admit | server/internal/middleware/rate_limit.go:19-30 | A route without a positive limit is neither limited nor counted |
| RateLimit.Limiter.Serve | server/internal/middleware/rate_limit.go:24-30 | The verdicts of a whole run are those the properties below speak of |
| RateLimit.RateIsBounded | server/internal/cache/cache.go:101-109 | In any timed run at most the maximum of a key's requests is admitted in any half-open interval of one window |
| RateLimit.CounterIsStreak | server/internal/cache/cache.go:101-104 | The counter is the length of the current streak of hits less than a window apart, and expires a window after the last |
| RateLimit.AdmittedIffShortStreak | server/internal/cache/cache.go:109 | A request is admitted if and only if its streak, denied requests included, is within the limit |
| RateLimit.SilenceRestoresAdmission | server/internal/cache/cache.go:103-109 | After a silence of at least a window the next request is admitted |
| RateLimit.RestlessClientIsShutOut | server/internal/cache/cache.go:94-103 | A client that never pauses for a window gets exactly its first requests up to the limit and none after |
| FeedKeys.FeedKeyInjective | server/internal/cache/cache.go:49-51 | Distinct user and cursor pairs never share a key, colons in cursors included |
| FeedKeys.PatternFindsExactlyTheUser | server/internal/cache/cache.go:82 | A user's pattern matches a key if and only if it is that user's |
| FeedKeys.StarMatchesPrefix | server/internal/cache/cache.go:82 | A literal and a star match exactly the extensions of the literal |
| FeedCache.FeedCache.InvalidateHomeFeed | server/internal/cache/cache.go:78-92 | Exactly the user's cached pages go |
| FeedCache.FeedCache.InvalidateFeedForUserAndFollowers | server/internal/handlers/post_handler.go:49-59 | A cached page goes if and only if its owner is the user or, when the followers can be looked up, follows the user; all others stay as they are |
| FeedCache.FeedCache.WritePost | server/internal/handlers/post_handler.go:158-161 | Creating, editing, deleting, pinning or unpinning drops exactly the pages of the author and of those who follow the author, and keeps every cached page newer than all writes by its owner and by every author its owner followed then, unless that lookup failed |
| FeedCache.FeedCache.GetHomeFeed | server/internal/handlers/post_handler.go:621-646 | The page served, cached or read, belongs to the user and cursor and is that fresh |
| FeedProtocol.StoreIsStaleIffOvertaken | server/internal/handlers/post_handler.go:621-646 | With fills and invalidations interleaved, storing a page leaves one that misses an invalidated write if and only if, before the step, some write made after the feed was read has been dropped for its owner already |
| FeedProtocol.OnlyStoringMakesStale | server/internal/cache/cache.go:78-92 | No other step does: what an invalidation passes over it removes, for that user alone |
| FeedProtocol.AlwaysFreshIffNeverStoredLate | server/internal/handlers/post_handler.go:621-646 | Throughout a run every cached page holds all invalidated writes if and only if no such page is ever stored |
| FeedProtocol.OvertakenIffCrossed | server/internal/handlers/post_handler.go:621-646 | A fill is overtaken if and only if, since the step that began it, a post was written and then that write was dropped for the fill's owner |
| FeedProtocol.AlwaysFreshIffNeverAcross | server/internal/handlers/post_handler.go:621-646 | So a run keeps every page fresh if and only if no store step has its read, a write and that write's drop before it in this order |
| FeedProtocol.PagesCanBeStoredLate | server/internal/handlers/post_handler.go:621-646 | A run of four steps stores one |
| FeedProtocol.UninterruptedFillsStayFresh | server/internal/handlers/post_handler.go:621-646 | A run whose fills no write interrupts keeps every page fresh |
| Usernames.Generator.CleanUsername | server/internal/seedgen/content.go:84-101 | The name is unused and made of name characters: the first draw if 1 to 16 of its characters are allowed, else the second, or that one's first free candidate; its length is legal if and only if the kept draw's is or the kept draw was taken; none comes back only when every suffix of up to 16 digits is taken |
| Usernames.Generator.FindFree | server/internal/seedgen/content.go:89-98 | The search ends, at the base or at the first suffix whose candidate is free |
| Usernames.Generator.AppendNumber | server/internal/seedgen/content.go:90-96 | A candidate ends in its number; before it stands the base, cut only as far as sixteen characters require |
| Usernames.Generator.Sanitize | server/internal/seedgen/content.go:104-112 | The result is exactly the lower-case letters, digits and underscores of the lower-cased text, each as often as it occurs and in the same order |
| Usernames.Generator.GenUsernames | server/internal/seedgen/content.go:138-153 | Over a dataset's users all names are new, distinct, and legal whenever their kept draws are, and the search never runs out |
| Usernames.CandidatesCollide | server/internal/seedgen/content.go:90-96 | Truncation makes the candidates of different suffixes coincide |
| Usernames.SameLengthCandidatesDiffer | server/internal/seedgen/content.go:90-96 | Suffixes of one digit length give different candidates |
| Usernames.Pigeonhole | server/internal/seedgen/content.go:89-97 | A run of taken suffixes of one length needs as many used names |
| Usernames.SearchEndsEarly | server/internal/seedgen/content.go:89-97 | With fewer than 9 * 10^(d-1) used names the search ends within d digits, so the base is never cut below 16 - d characters |
| Usernames.DatasetNamesAreFoundQuickly | server/internal/seedgen/content.go:89-97 | Among a dataset's users three digits suffice |
| Decimal.ItoaNatInjective | server/internal/seedgen/content.go:90 | Different numbers have different decimal notations |
| Decimal.DigitCount | server/internal/seedgen/content.go:90-91 | A number has d digits exactly between the powers of ten |
| PostTree.PostGenerator.GenPosts | server/internal/seedgen/content.go:214-261 | For all draws: top-level posts first, replies to earlier posts, polls on top-level posts alone, votes for an option of the poll and never by its author or twice by one user; every seventh reply continues its predecessor |
| PostTree.PostGenerator.GenPoll | server/internal/seedgen/content.go:265-289 | Two to four options; new votes are one per voter, never the author's, with an option in range |
| PostTree.PostAppended | server/internal/seedgen/content.go:231-238 | A post with its poll and votes keeps the whole dataset well made |
| PostTree.OnePostPerPoll | server/internal/seedgen/content.go:231-233 | Every poll belongs to exactly one post |
| PostTree.Thread | server/internal/seedgen/content.go:242-258 | Following parents strictly descends and ends at a top-level post |
| PostLoader.PostStore.ApplyPosts | server/internal/seedgen/apply.go:162-209 | Loading stops exactly at the first post that refers to itself or a later one; before it every post has a row of its own, by its author, with the ids of the rows its post refers to |
| PostLoader.ThreadsAreStored | server/internal/seedgen/apply.go:177-190 | The stored ancestors of a post are the rows of its generated ancestors up to a parentless row |
| PostLoader.Seed | server/internal/seedgen/apply.go:162-209 | Whatever was drawn and whatever the store holds, generated posts load completely |
| PollLoader.PollStore.Vote | server/internal/store/poll_store.go:159-183 | A vote is recorded if and only if the poll exists and is open, the option is its own and the user has not voted |
| PollLoader.PollStore.Create | server/internal/store/poll_store.go:22-39 | A poll is made for a post without one and with at most four options; no option id is ever used twice, within a poll or across polls |
| PollLoader.PollStore.ApplyPolls | server/internal/seedgen/apply.go:214-289 | Every polled post gets its poll until one cannot be created, and the ballots are those of the votes in order, refused ones skipped |
| PollLoader.OnlyOpenVotesCount | server/internal/seedgen/apply.go:261-286 | The new ballots belong to exactly the voters on open polls, for any votes |
| PollLoader.BallotsAreOpenVotes | server/internal/seedgen/apply.go:261-286 | With one vote to a user and post there are as many new ballots as votes on open polls |
| PollLoader.EveryOpenVoteStands | server/internal/seedgen/apply.go:244-254 | Each such ballot names the option at the position that was voted for |
| PollLoader.CastUpToFrame | server/internal/seedgen/apply.go:221-258 | Polls created later do not change earlier ballots |
| PollLoader.SeedPolls | server/internal/seedgen/apply.go:214-289 | Generated polls and votes load without failure or loss |
| Engagement.EngagementGenerator.AddEngagement | server/internal/seedgen/content.go:372-391 | A mark is added exactly when its kind, post and user are new, and the lists, the set of seen marks and the used names stay in agreement |
| Engagement.EngagementGenerator.GenEngagement | server/internal/seedgen/content.go:366-491 | For all draws: every list holds a user and post once and no author's own post, reposts are of top-level posts, each user keeps exactly the used categories in their order, and those of user 0 hold two bookmarks each unless every post by others is bookmarked |
| Engagement.EngagementGenerator.Prune | server/internal/seedgen/content.go:434-446 | Each user's list becomes exactly the names used, each as often as it occurred and in the same order |
| Engagement.EngagementGenerator.FindCandidate | server/internal/seedgen/content.go:463-485 | After the random attempts the scan misses no post that is still free |
| Engagement.EngagementGenerator.TopUp | server/internal/seedgen/content.go:447-491 | Categories of user 0 are filled to two while posts last, without using new names or touching other categories |
| Engagement.ToppedUpNext | server/internal/seedgen/content.go:461-490 | Filling one category keeps the earlier ones filled and the tallies right |
| EngagementLoader.EngagementStore.ApplyBookmarkCategories | server/internal/seedgen/apply.go:295-331 | The result holds, for each user with categories, exactly their names with their stored ids, created or found |
| EngagementLoader.EngagementStore.ApplyEngagement | server/internal/seedgen/apply.go:337-364 | All marks land; loading stops exactly at a bookmark whose category is not its user's |
| EngagementLoader.IdMissingIffNameMissing | server/internal/seedgen/apply.go:348-357 | A bookmark's category id is missing if and only if its name is, and is the user's own otherwise |
| EngagementLoader.BookmarksAreShelved | server/internal/seedgen/apply.go:348-361 | Every bookmark ends with the id resolved for it |
| EngagementLoader.RowsAreMarks | server/internal/seedgen/apply.go:338-347 | Marks and rows are one to one, so row counts match the dataset's |
| EngagementLoader.SeedEngagement | server/internal/seedgen/apply.go:295-364 | Generated engagement loads without failure, one row to a mark under the ids of its post and user, each bookmark under its user's category of that name or under none |
| Relationships.RelationStore.ApplyRelationships | server/internal/seedgen/apply.go:369-408 | The rows are those the list leaves in order, each entry once; it stops exactly at the first new entry that relates a user to himself or is still in the table after its own clearing |
| Relationships.StopsIffHeldAndUnblocked | server/internal/seedgen/apply.go:399-404 | A new entry between two users stops it if and only if it is a follow or a mute the store held from the start and no earlier entry blocks its pair |
| Relationships.SeededTwiceStops | server/internal/store/user_relationship_store.go:38-44 | Loading a follow into a store that holds it stops, since the unique violation is not recognised |
| Relationships.RelationStore.CreateRelationship | server/internal/service/user_relationship_service.go:18-142 | A request with oneself or a follow of a blocker is refused; a block clears the pair first; a follow or mute that exists stays |
| Relationships.BlockingIsSure | server/internal/service/user_relationship_service.go:61-79 | Right after a block is made every pair of lookups finds it, whatever the pair held before |
| Relationships.OnlyTheBlockerSpoilsIt | server/internal/service/user_relationship_service.go:80-134 | A block that every lookup finds stays so through a request unless the only side that blocks follows or mutes the other |
| Relationships.BlockMayBeMissed | server/internal/service/user_relationship_service.go:80-134 | Blocking and then following or muting is accepted, and then both lookups may miss the block |
| Relationships.LoadedIsLeft | server/internal/seedgen/apply.go:371-405 | After a load that completes a row is in the store if and only if it was listed or there before and no later first-time block is on its pair |
| Relationships.BlockMeetsFollowIffLate | server/internal/seedgen/apply.go:380-392 | After a load that completes a block stands beside a follow of its pair, in either direction, if and only if some follow first occurs with no block of its pair after it and one before it or in the store |
| Relationships.FollowsFirstIsSafe | server/internal/seedgen/apply.go:383-392 | With all follows before all blocks, and no blocks in the store, that never happens |
| Relationships.FollowAfterBlockCoexists | server/internal/seedgen/apply.go:383-392 | With a block first it does |
| Relationships.GenRelationships | server/internal/seedgen/content.go:340-361 | For all draws: follows of others only, at most fifteen by each user, then the two blocks and two mutes |
| Relationships.GeneratedListLoadsClean | server/internal/seedgen/apply.go:369-408 | A generated list loads without failure, without a block beside a follow, and with every block and mute in place |

## Left out

- PostgreSQL isolation levels, row locks and deadlocks: a transaction's commit is one atomic step, and the store methods have the contracts their callers rely on. `GetCurrentActiveToken` locks the head row in the code; the model lets others act between that read and the commit, which allows every run the lock allows.
- JWT parsing and signing, bcrypt, SHA-256 and UUID generation.
- Token expiry inside the protocol: a request may fail at any step with any error, which covers it.
- Login and registration beyond the commit that opens a family; Google sign-in.
- `Hub.Publish`: sequential, and so are the services and `Stream` that call it; publishers that overlap each other or a draining client are in `HubProtocol` and `UnreadProtocol`, at the level of lock sections and channel operations.
- `HubProtocol` and `UnreadProtocol`: no lemma maps one's states to the other's; they share the channel operations' rules and the capacity.
- Event payloads other than the unread counts; the encoding of the event stream; the heartbeat's interval.
- Body length and trimming in `Send`; mention notifications, whose pattern differs from the one in postutil.
- `extractParts` at the top level, charset and transfer decoding, entity unescaping and HTML parsing: a leaf holds decoded text or a read error, a tree is given.
- Unicode classes: which characters are word characters, how they are lower-cased, and which are white space beyond ASCII.
- Sub-second windows in `Allow` (Redis keeps whole seconds), the pipeline's two commands as separate steps, and every branch for an unavailable Redis.
- Glob classes and escapes in key patterns: the pattern in use holds neither.
- Follow and unfollow as cache writers, engagement handlers' invalidation of one user, and `limit`, which the cache key omits: full cache coherence is not claimed.
- Visibility of posts, keyset pagination, post edits history, media, lists, badges, direct messages in the dataset.
- The email loop and the hashtag-picking loop of the generator, which end only with probability one; generated text.
- `CleanUsername`: the loop's panic is modelled as no name; over a dataset's users it cannot happen (`GenUsernames`).
- Order of map iteration in `genEngagement`: users are independent, so they are pruned in index order.
- Triggers that maintain follower, like and reply counts.
- Store failures after a write: the code logs them and does not publish the count.
- Which row of a pair the database reads first: any may be.
- The clock while polls load: one time for the whole load.
