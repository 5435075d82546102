# Verification of the cccollab MCP server

cccollab lets several coding sessions talk to each other: through a broker process on the same machine and, optionally,
through remote deployments. This project models the parts of its MCP server whose correctness depends on interleavings,
on whole histories or on several components at once, and proves what they promise, or exactly when they keep the promise.

Code that changes fields step by step is modelled as classes whose methods are proved against specification functions;
what the code promises is then proved about those functions, over every input, every run or every reachable state.
Where other processes or callbacks run between two calls, the calls are steps of a state machine.

| files | subject |
|---|---|
| `BrokerModel.dfy`, `Broker.dfy`, `BrokerHistory.dfy` | the broker's three maps, its message logs and its connected clients; the handlers; the state told from the requests of a run |
| `HistoryPaging.dfy` | reading a topic's history page by page with a timestamp cursor |
| `Utf8.dfy`, `EventStream.dfy`, `ChunkedDelivery.dfy` | the event stream: frames, incremental decoder, chunks of bytes |
| `Context.dfy`, `Listener.dfy` | a session's view of channels and topics; the event filter and what it delivers |
| `FileLock.dfy`, `AcquireLock.dfy` | the lock file shared by processes, with crashes and reaping; one process's retry loop |
| `ConfigFile.dfy` | the shared config file and what one save changes in it |
| `TokenClient.dfy`, `TokenRefresh.dfy`, `LockedRefresh.dfy` | rotating single-use refresh tokens: one process, many processes under a lock, and under the lock file |
| `RemoteDelivery.dfy`, `Subscriptions.dfy`, `Breaker.dfy` | the remote transport: rows and cursors, run-once unsubscribes, the circuit breaker |
| `DedupCache.dfy` | the message bus's duplicate filter |
| `EndToEnd.dfy` | from the broker's log to the user: broker, bytes, decoder, event filter and duplicate filter together |
| `Router.dfy`, `LazyAttachModel.dfy`, `LazyAttach.dfy`, `SignInAttach.dfy` | the transport router, attaching remote locations on demand, and sign-ins that attach them directly |
| `ActiveConfig.dfy`, `EnvOverrides.dfy` | which entries of a config are active, and the environment overrides |
| `Common.dfy`, `Text.dfy` | small datatypes, trimming, lower-casing, decimal numbers |

## Where the code and its own promises disagree

Each promise below fails in some case. The lemma named "exactly" says when, as an if-and-only-if; the other lemmas show a
concrete run or input.

- The lock file does not exclude two holders (`config/save.ts:60-66` says that the two-condition check does). Reaping inspects
  and then unlinks: `FileLock.TwoReapersMeet`. A failed read counts as a dead PID: `FileLock.FailedReadReapsALiveLock`.
  Exactly: a step breaks the rule that who is in the critical section owns the lock file iff it unlinks a held one,
  `FileLock.StepAndInvariant`; over runs, `FileLock.OwnedExactly`; and after such an unlink the next creation lets two in,
  `FileLock.HeldUnlinkLetsTwoIn`.
- Two processes can present the same single-use refresh token (`config/save.ts:246-250` says they can never both consume it): one
  whose memory is behind a file entry that is no longer fresh presents its own, spent token, `TokenRefresh.SpentTokenHappens`.
  Exactly: `TokenRefresh.SpentTokenIsPresented`.
- The listener decodes each chunk of bytes on its own, so a chunk boundary inside a multi-byte character loses it,
  `ChunkedDelivery.CutCharacterIsLost`. Exactly: `ChunkedDelivery.DeliveryIsExact` for a whole stream,
  `ChunkedDelivery.EachPayloadExactly` for each payload at any moment.
- Unarchiving a topic does not check its name, `BrokerModel.UnarchiveBreaksNames`. Exactly: `BrokerModel.UnarchiveAndNames`.
- Leaving a channel that is not the active one but holds the active topic leaves that topic active although it is no longer
  joined, `Context.StrandedTopic`. Exactly: `Context.StepAndActiveTopic`.
- A channel's key in the context can confuse locations whose names contain colons, `Context.CollidingLocationsDisagree`. Exactly:
  `Context.KeyCollisions` for which locations, `Context.StepKeepsAgreement` for which operations, `Context.ApartExactly` for
  which locations every run is safe.
- The dedup key can confuse messages with bars in them, `DedupCache.BarsConfuse`. Exactly: `DedupCache.ConfusableExactly`, and
  `DedupCache.ReadablyConfusableExactly` among messages with readable timestamps.
- `ensureLazyAttach` does not always wait for concurrent attaches of the names it was asked for (`transport/attach.ts:473-475`
  says it does), `LazyAttach.CallReturnsEarly`. Exactly: `LazyAttachModel.WaitsForAllExactly`.
- With forced calls, registering can meet a duplicate, `LazyAttach.ForcedCallsCollide`. Exactly: a call breaks the order of
  attempts iff it starts one for a name whose attempt is not finished, `LazyAttachModel.StepAndInv`; without such a call it never
  happens, `LazyAttachModel.NothingIsReplaced`; and wherever such a call is possible it can, `LazyAttach.CrowdedRunsCanThrow`.
- A row whose timestamp is not positive never raises a topic's cursor, so later subscriptions deliver it again,
  `RemoteDelivery.NonPositiveIsRepeated`. Exactly: `RemoteDelivery.RepeatedExactly`.
- With a clock that runs backwards the dedup cache can evict the very key it has just accepted,
  `DedupCache.JustAcceptedIsEvicted`. Exactly: `DedupCache.JustAcceptedStays`.
- A name is not attached at most once under overlapping tool calls (`transport/attach.ts:453-454` says it is) when a sign-in
  attaches it meanwhile: an ordinary call does not see that attempt, attaches the name again and takes out the transport
  the sign-in has registered, `SignInAttach.SignInIsTakenOut`. Exactly: `SignInAttach.StepAndInv` for each step,
  `SignInAttach.SoundExactly` over runs.

## Model

| member | source | states |
|---|---|---|
| BrokerModel.StepKeepsConsistent | mcp_server/src/broker.ts:72-115 | every request keeps the three maps in agreement: a channel is in a session's set iff the session is among its members, no member set is empty, whoever joined a topic is a member of its channel |
| BrokerModel.JoinKeepsConsistent | mcp_server/src/broker.ts:81-92 | joining adds exactly one pair to both sides of the membership relation and keeps the maps in agreement |
| BrokerModel.DepartureKeepsConsistent | mcp_server/src/broker.ts:94-115 | leaving any set of channels removes exactly those pairs on both sides and keeps the maps in agreement |
| BrokerModel.UnregisterKeepsConsistent | mcp_server/src/broker.ts:599-607 | deleting a session keeps the maps in agreement |
| BrokerModel.RequestEvolvesTopics | mcp_server/src/broker.ts:460-564 | no request loses a topic; a log grows only by a post to it, a state changes only by (un)archiving it, a joiner is added only by joining, a new topic comes from a creation that clashed with nothing |
| BrokerModel.StepKeepsLogs | mcp_server/src/broker.ts:489-490 | logs only grow and, with a clock that does not go back, stay sorted by time |
| BrokerModel.StepKeepsNames | mcp_server/src/broker.ts:317-333 | every request but unarchiving keeps active topic names unique per channel |
| BrokerModel.UnarchiveAndNames | mcp_server/src/broker.ts:543-557 | unarchiving keeps them unique iff no other active topic of the channel has the name |
| BrokerModel.UnarchiveBreaksNames | mcp_server/src/broker.ts:543-557 | a run that ends with two active topics of one name in a channel |
| BrokerModel.ReachableStates | mcp_server/src/broker.ts:61-115 | all of this in every state reachable from the empty broker |
| BrokerModel.HistoriesFeedWalks | mcp_server/src/broker.ts:448-456 | between any two moments of a run logs only grow and are sorted, which is what the pager's walk asks for |
| BrokerHistory.PostIsStoredAndTold | mcp_server/src/broker.ts:477-504 | an accepted post is the last entry of its log, no other topic changes, and every client is told of it once |
| BrokerHistory.RequestAndLog | mcp_server/src/broker.ts:477-504 | a log grows by exactly the posts accepted for it |
| BrokerHistory.RequestAndTopic | mcp_server/src/broker.ts:303-357 | topics come by accepted creations only, as asked for; they keep name, channel, creator and time, and change state only by archiving and unarchiving |
| BrokerHistory.RequestAndJoined | mcp_server/src/broker.ts:505-527 | who has joined a topic: whoever joins it while in its channel, until leaving the topic or the channel or being unregistered |
| BrokerHistory.RequestAndMembership | mcp_server/src/broker.ts:81-115 | who is in a channel: whoever joins it, until leaving it or being unregistered |
| BrokerHistory.RequestAndSession | mcp_server/src/broker.ts:577-607 | sessions come by joining a channel or registering and go by unregistering; they keep the time they came and the objective last given |
| BrokerHistory.RequestAndOutbox | mcp_server/src/broker.ts:26-35 | connected clients are told what an accepted request tells, field by field, and nothing else; a client that connects starts from nothing |
| BrokerHistory.NamesAreUnique | mcp_server/src/broker.ts:317-333 | the rule on names, said by state, channel and normalised name |
| BrokerHistory.MembershipIsHistory | mcp_server/src/broker.ts:81-115 | after every run who is in a channel is told from the requests alone: whoever joined it and has not left it since |
| BrokerHistory.LogIsAcceptedPosts | mcp_server/src/broker.ts:477-504 | after every run each log is exactly the posts accepted for its topic, each once, in the order they came |
| BrokerHistory.OutboxIsHistory | mcp_server/src/broker.ts:26-35 | after every run each client has been told exactly what the requests since it connected tell, in order |
| Broker.Broker.EnsureSession | mcp_server/src/broker.ts:72-79 | a known session stays as it is, an unknown one is added without channels |
| Broker.Broker.JoinChannel | mcp_server/src/broker.ts:81-92 | the new state of the maps, and whether the session was new to the channel |
| Broker.Broker.LeaveChannel | mcp_server/src/broker.ts:94-107 | the new state: member sets that become empty disappear, the channel's topics lose the session; whether it was subscribed |
| Broker.Broker.RemoveSessionFromAllChannels | mcp_server/src/broker.ts:109-115 | leaving the channels one by one equals leaving them all together |
| Broker.DepartOneMore | mcp_server/src/broker.ts:109-115 | leaving a set of channels and then one more is leaving both together |
| Broker.Broker.Broadcast | mcp_server/src/broker.ts:26-35 | every connected client gets the event appended, and nobody else |
| Broker.Broker.HandlePostToChannel | mcp_server/src/broker.ts:271-301 | accepted iff text and sender are given and the sender is subscribed; then every client gets one broadcast event with channel, sender, text and time, and otherwise nothing changes |
| Broker.Broker.HandleCreateTopic | mcp_server/src/broker.ts:303-357 | a conflict names a topic that really clashes and changes nothing; success means that none does, adds the topic as asked for and tells every client of it |
| Broker.Broker.HandlePostMessage | mcp_server/src/broker.ts:477-504 | done iff topic, text and sender are known and the sender is subscribed to the topic's channel; then the log has one more entry with sender, text and time, and every client one more event with these, the channel and the id; otherwise nothing changes |
| Broker.Broker.HandleJoinTopic | mcp_server/src/broker.ts:505-520 | joins iff the topic exists and the session is subscribed to its channel |
| Broker.Broker.HandleLeaveTopic | mcp_server/src/broker.ts:521-527 | succeeds for every known topic |
| Broker.Broker.HandleSetState | mcp_server/src/broker.ts:528-557 | archive and unarchive: the state is set and every client gets one event naming the topic, its channel and the actor, or "unknown" |
| Broker.Broker.HandleRegister | mcp_server/src/broker.ts:577-597 | re-registration keeps channels and registration time, and the objective unless one is given |
| Broker.Broker.HandleUnregister | mcp_server/src/broker.ts:599-607 | the session leaves everything and is gone |
| Broker.Broker.Handle | mcp_server/src/broker.ts:152-611 | one request does what the state machine says |
| Broker.Broker.ReadHistory | mcp_server/src/broker.ts:440-458 | the page is one of the topic's log for the clamped limit; without a cursor, or with a malformed one, it holds the newest messages and says whether these are all, and with one the newest before it |
| HistoryPaging.ClampHistoryLimit | mcp_server/src/history-paging.ts:12-16 | the admissible limit nearest at or below a finite request, 50 otherwise |
| HistoryPaging.Cursor | mcp_server/src/broker.ts:449-454 | a finite cursor, whole or not, selects the same whole timestamps as its ceiling |
| HistoryPaging.PageTopicHistory | mcp_server/src/history-paging.ts:43-51 | the page is a suffix of what lies before the cursor, of everything without one; it starts where the timestamp changes, reaches the limit when it can, exceeds it only by messages sharing its oldest timestamp, says whether older ones remain, and is not empty unless nothing is there |
| HistoryPaging.OlderSelects | mcp_server/src/history-paging.ts:47 | exactly the messages before the cursor are selected, each as often as it is stored |
| HistoryPaging.OlderConcat | mcp_server/src/history-paging.ts:47 | in stored order |
| HistoryPaging.OlderIsPrefix | mcp_server/src/history-paging.ts:47 | in a sorted history these are the first ones, all of them without a cursor |
| HistoryPaging.PageIsDetermined | mcp_server/src/history-paging.ts:31-51 | that description determines the page |
| HistoryPaging.NextCursorIsExact | mcp_server/src/history-paging.ts:35-41 | the next cursor selects exactly what the page left behind, whatever was posted meanwhile |
| HistoryPaging.WalkIsExact | mcp_server/src/history-paging.ts:31-51 | for any limits and any posts in between, the pages of a walk join to the history at its first request without gap or repetition, complete exactly when `hasMore` turns false, in at most one request per message; a walk from no cursor to `hasMore` false has gathered the whole history |
| Utf8.DecodeEncode | mcp_server/src/broker-event-listener.ts:77-78 | decoding undoes encoding, and what follows is decoded on its own |
| Utf8.DecodeCutChar | mcp_server/src/broker-event-listener.ts:77-78 | a character cut at the end of a chunk reads as one replacement character |
| Utf8.DecodeStrayByte | mcp_server/src/broker-event-listener.ts:77-78 | its remaining bytes read as one replacement character each |
| Utf8.DecodeAtAscii | mcp_server/src/broker-event-listener.ts:77-78 | what precedes an ASCII byte and what starts with it are decoded independently |
| Utf8.DecodeIsStrict | mcp_server/src/broker-event-listener.ts:77-78 | bytes that decode without a replacement character are the encoding of what they decode to |
| EventStream.EventStreamDecoder.OnData | mcp_server/src/broker-event-listener.ts:77-96 | a chunk hands on exactly the payloads of the lines it completes; the buffer stays the text after the last newline |
| EventStream.SplitConcat | mcp_server/src/broker-event-listener.ts:78-80 | splitting text as it arrives is splitting the whole text |
| EventStream.PendingIsLastLine | mcp_server/src/broker-event-listener.ts:80 | the buffer is the text after the last newline |
| EventStream.PrefixDelivers | mcp_server/src/broker.ts:26-35 | after any prefix of the stream exactly the payloads whose line is complete have been delivered, in order |
| EventStream.FramesRead | mcp_server/src/broker.ts:26-35 | reading the whole stream gives back the payloads |
| ChunkedDelivery.Reassemble | mcp_server/src/broker-event-listener.ts:75-80 | however the bytes are cut, each character arrives as itself or as replacements, in order |
| ChunkedDelivery.WholeChunksReceive | mcp_server/src/broker-event-listener.ts:77-80 | cuts between characters do not matter |
| ChunkedDelivery.DeliveryIsExact | mcp_server/src/broker-event-listener.ts:75-96 | the payloads handed on are those sent iff no chunk boundary falls inside a character |
| ChunkedDelivery.PartialDelivery | mcp_server/src/broker-event-listener.ts:75-96 | with all cuts between characters, the payloads handed on at any moment are those whose line is complete |
| ChunkedDelivery.EachPayloadExactly | mcp_server/src/broker-event-listener.ts:75-96 | at any moment, wherever the bytes received end, as many payloads are handed on as have their line complete, and each is the one sent iff no chunk boundary falls inside a character of its frame |
| ChunkedDelivery.SharesCarryFrames | mcp_server/src/broker-event-listener.ts:75-80 | the parts of the chunks that this speaks of hold exactly the frame's bytes as far as they have arrived |
| ChunkedDelivery.CutCharacterIsLost | mcp_server/src/broker-event-listener.ts:78 | a two-byte character cut in the middle arrives as something else |
| Context.ActiveContext.JoinChannel | mcp_server/src/context.ts:43-60 | an empty name is refused; a first subscription becomes active; joining again changes nothing |
| Context.ActiveContext.LeaveChannel | mcp_server/src/context.ts:62-87 | the channel and its topics go; another subscription becomes active |
| Context.ActiveContext.SetActiveChannel | mcp_server/src/context.ts:89-96 | refused unless subscribed |
| Context.ActiveContext.JoinTopic | mcp_server/src/context.ts:150-159 | refused unless the channel is subscribed; otherwise the topic is joined and active |
| Context.ActiveContext.LeaveTopic | mcp_server/src/context.ts:161-167 | the topic is no longer joined, nor active if it was |
| Context.ActiveContext.ClearTopic | mcp_server/src/context.ts:169-175 | the active topic is left |
| Context.KeyIsPair | mcp_server/src/context.ts:32-34 | with colon-free location names the key acts as the pair |
| Context.KeyCollisions | mcp_server/src/context.ts:32-34 | two different locations can file channels under one key iff one of them, with the separator, begins the other and the rest could begin a channel name |
| Context.StepKeepsAgreement | mcp_server/src/context.ts:43-96 | an active channel exists iff something is subscribed and is itself subscribed, and every joined topic's channel is subscribed at its location: an operation keeps this iff it does not take one channel for another filed under the same key |
| Context.StepAndActiveTopic | mcp_server/src/context.ts:62-87 | the active topic stays joined under its recorded name iff the operation is not a leave that strands it |
| Context.OpAndChannels | mcp_server/src/context.ts:43-87 | a channel is subscribed by joining it, under its normal name and with the source first given, until it is left |
| Context.OpKeepsOrder | mcp_server/src/context.ts:43-87 | channels stay in the order in which they were subscribed |
| Context.OpAndActiveChannel | mcp_server/src/context.ts:43-96 | the active channel is the first one joined, the one last activated, or after leaving it the one subscribed first |
| Context.OpAndTopics | mcp_server/src/context.ts:150-175 | a topic is joined by joining it in a subscribed channel, under the name and channel given, until it, its channel or, as the active one, the topic is left |
| Context.OpAndActiveTopic | mcp_server/src/context.ts:62-175 | the active topic is the one last joined, until it is left or goes with the active channel |
| Context.SubscribedIsHistory | mcp_server/src/context.ts:43-87 | over locations that do not shadow each other the channels subscribed are told from the operations alone: those joined and not left since |
| Context.AnywhereIsHistory | mcp_server/src/context.ts:113-120 | a name counts as subscribed iff it has been joined at some location and not left there since |
| Context.ReachableContexts | mcp_server/src/context.ts:36-175 | a run keeps that agreement throughout iff none of its operations confuses channels, and the active topic joined throughout iff none strands it |
| Context.ApartRunsAgree | mcp_server/src/context.ts:32-34 | a run whose locations do not shadow each other never confuses channels |
| Context.ApartExactly | mcp_server/src/context.ts:32-34 | for a set of locations, every run over it keeps channels apart iff no two of them shadow each other |
| Context.PlainLocationsAreApart | mcp_server/src/context.ts:32-34 | locations without colons do not |
| Context.CollidingLocationsDisagree | mcp_server/src/context.ts:62-68 | with colons, leaving a channel never joined takes another away while it stays active |
| Context.StrandedTopic | mcp_server/src/context.ts:69-85 | leaving a non-active channel strands the active topic |
| Listener.BrokerEventListener.ProcessEvent | mcp_server/src/broker-event-listener.ts:123-260 | at most one push, as the filter says; events that are not local are dropped |
| Listener.NothingForeign | mcp_server/src/broker-event-listener.ts:138-196 | whatever is injected, a step pushes at most one thing, made from the event it handles, and never a message of a topic not joined, of a channel not subscribed, or whose author is the listener's own name |
| Listener.FilterExactly | mcp_server/src/broker-event-listener.ts:143-272 | an event is handed on iff it concerns the listener and is not its own, with its author, channel, topic, text and time |
| Listener.RequestReaches | mcp_server/src/broker-event-listener.ts:143-272 | from request to listener: what is handed on for each kind of request, in terms of the request, and to whom |
| Listener.DeliverTakesOne | mcp_server/src/broker-event-listener.ts:76-96 | handling an event takes it off what is waiting and hands on at most that one |
| Listener.ConnectsAfresh | mcp_server/src/broker-event-listener.ts:68-75 | a listener that connects again has been written nothing and has handled nothing |
| Listener.RequestFeedsInbox | mcp_server/src/broker.ts:489-500 | what a request writes to a client matches what it appends to the topic's log |
| Listener.ExpectedConcat | mcp_server/src/broker-event-listener.ts:171-196 | what is due for a log is due for its parts, in order |
| Listener.ExpectedOne | mcp_server/src/broker-event-listener.ts:171-196 | for one stored message: itself with sender, text, time, channel and topic, unless it is the session's own |
| Listener.ExactDelivery | mcp_server/src/broker-event-listener.ts:171-196 | a listener that stays connected, subscribed and joined hands on, with what is still on its way, exactly what others post, in stored order |
| Listener.CaughtUp | mcp_server/src/broker-event-listener.ts:171-196 | between two moments at which it has caught up, exactly the messages posted between |
| Listener.OrdinaryRunsAreHonest | mcp_server/src/broker.ts:491-500 | without injected events every message event on its way is the broker's own, in every reachable state |
| Listener.StreamYieldsInbox | mcp_server/src/broker-event-listener.ts:77-96 | reading the byte stream yields the events of the inbox in order, for any JSON codec that reads back what it writes |
| Text.NormalizeIdempotent | mcp_server/src/context.ts:26-28 | normalising twice is normalising once, so both sides compare the same names |
| Text.TrimCuts | mcp_server/src/context.ts:26-28 | trimming takes white space off both ends and nothing else |
| Text.TrimIsBlank | mcp_server/src/config/env.ts:96-99 | text trims to nothing iff it holds nothing but white space |
| Text.LowerMaps | mcp_server/src/context.ts:26-28 | only upper-case letters change, each to its own lower-case one |
| Text.ParseIntReads | mcp_server/src/config/save.ts:98 | what is read is the whole number the text begins with, sign included |
| Text.ParseIntOfOther | mcp_server/src/config/save.ts:98 | text that begins otherwise is no number |
| FileLock.StepAndInvariant | mcp_server/src/config/save.ts:108-167 | every step keeps "whoever is in the critical section owns the lock file", but an unlink iff the file it removes is not held |
| FileLock.FaithfulIsSafe | mcp_server/src/config/save.ts:121-137 | a reaping unlink that removes what was inspected never removes a held file |
| FileLock.FaithfulRunsAreSafe | mcp_server/src/config/save.ts:121-137 | so a run of such unlinks removes no held file |
| FileLock.OwnedExactly | mcp_server/src/config/save.ts:108-167 | over every run, whoever is in the critical section owns the lock file at every moment iff no unlink removes a held one |
| FileLock.HeldUnlinkLetsTwoIn | mcp_server/src/config/save.ts:121-137 | after an unlink that removes a held file its process can create the next one, and then two are in the critical section |
| FileLock.AtMostOneHolder | mcp_server/src/config/save.ts:108-167 | with crashes and any number of waiters at most one live process is in the critical section and the lock file is its own, in every run of such unlinks |
| FileLock.LockFileIsLeftAlone | mcp_server/src/config/save.ts:190-198 | only a creator, the holder and a reaper of an unheld file change the lock file; a waiter that times out does not |
| FileLock.CreateThenRelease | mcp_server/src/config/save.ts:112-167 | whoever creates the lock file owns it and is in the critical section; releasing it removes the file |
| FileLock.AbandonedIsTaken | mcp_server/src/config/save.ts:116-137 | a process that finds the lock older than half a minute and its owner gone, and is not disturbed, holds the lock after one round |
| FileLock.OthersLockIsLeft | mcp_server/src/config/save.ts:116-149 | one that finds it young, or its owner alive, leaves it and tries again, or gives up five seconds after it began |
| FileLock.TwoReapersMeet | mcp_server/src/config/save.ts:121-137 | two waiters that judged the same abandoned file end up in the critical section together |
| FileLock.FailedReadReapsALiveLock | mcp_server/src/config/save.ts:122-130 | a failed read leads to removing a live holder's lock |
| AcquireLock.AcquireLock | mcp_server/src/config/save.ts:108-158 | returns at the first round that creates the file unless an earlier one found it young or alive past the deadline; unlinks in exactly the rounds that find it older than 30 s with a dead PID |
| AcquireLock.WrittenPidIsJudgedByProbe | mcp_server/src/config/save.ts:97-106 | the PID a process writes reads back, so a live holder is not judged dead by it; unreadable content always is |
| AcquireLock.OddPidIsDead | mcp_server/src/config/save.ts:97-99 | a PID that is not positive, and text that is no number, counts as dead |
| AcquireLock.ReapingRoundsAre | mcp_server/src/config/save.ts:116-137 | the rounds that unlink are exactly those that found an old file of a dead owner |
| AcquireLock.RoundIsPassage | mcp_server/src/config/save.ts:111-157 | a round of the loop creates, unlinks, gives up or tries again exactly when the protocol's steps do, whatever other processes do between its calls |
| ConfigFile.ConfigStore.ReadExisting | mcp_server/src/config/save.ts:328-362 | an absent file is an empty config, a corrupt one an error |
| ConfigFile.ConfigStore.WriteLocationAuthInLock | mcp_server/src/config/save.ts:207-236 | a corrupt file is left alone with an error; otherwise the file holds every field under its own key, and the rest of the config as it was |
| ConfigFile.ConfigStore.Load | mcp_server/src/config/save.ts:280-316 | absent and unreadable read as nothing |
| ConfigFile.LiteralIsMerge | mcp_server/src/config/save.ts:211-225 | the object literal is the key-by-key merge |
| ConfigFile.SaveIsContained | mcp_server/src/config/save.ts:207-225 | a save keeps every other location, top-level key and unsupplied field, and adds auth fields only |
| ConfigFile.SaveThenLoad | mcp_server/src/config/save.ts:207-225 | what was saved is loaded, key by key |
| ConfigFile.TokensReadBack | mcp_server/src/config/save.ts:207-236 | every field of the credentials reads back under its own key, the three that the refresh path reads among them; optional ones that were left out and unknown ones read as before |
| ConfigFile.SavesCommute | mcp_server/src/config/save.ts:207-225 | saves of different locations do not disturb each other |
| TokenClient.ClerkAuthFetcher.Begin | mcp_server/src/remote/client.ts:77-83 | a fresh token is returned at once; at most one refresh is in flight per process |
| TokenClient.ClerkAuthFetcher.Resolve | mcp_server/src/remote/client.ts:85-110 | adopts iff the file's entry is usable and newer, and then hands back the ID token it has just taken over; otherwise gives up without a token, or presents its own; with the memory after it |
| TokenClient.DecideResolves | mcp_server/src/remote/client.ts:85-110 | the same of the decision: what is adopted is the entry's own, fresh, and later than what was known |
| TokenClient.ClerkAuthFetcher.Accept | mcp_server/src/remote/client.ts:119-133 | memory holds the new token set, and its ID token is handed back |
| TokenClient.ClerkAuthFetcher.Reject | mcp_server/src/remote/client.ts:134-139 | a failed exchange forgets the ID token only and hands back none |
| TokenClient.ClerkAuthFetcher.Settle | mcp_server/src/remote/client.ts:142-144 | afterwards no refresh is in flight |
| TokenRefresh.StepLosesNothing | mcp_server/src/config/save.ts:190-236 | a step loses no update: the file stays the saves folded one by one in the order of lock acquisition, whatever location is saved, by a refresh or directly, and wherever a crash comes |
| TokenRefresh.NothingIsEverLost | mcp_server/src/config/save.ts:190-236 | so in every run under mutual exclusion |
| TokenRefresh.StepKeepsInv | mcp_server/src/remote/client.ts:83-141 | every step, sign-ins included, keeps file, memories and server in agreement |
| TokenRefresh.DiskIsLive | mcp_server/src/remote/client.ts:83-141 | the refresh token in the file is the server's live one and no process is ahead of the file, but for the one just about to store it |
| TokenRefresh.AdoptedIsOnDisk | mcp_server/src/remote/client.ts:85-105 | in every reachable state a process that adopts hands its caller the ID token that is in the file, and remembers the file's token set |
| TokenRefresh.ExpiryNeverDecreases | mcp_server/src/remote/client.ts:97-121 | no process's `currentExpiresAt` ever decreases |
| TokenRefresh.SpentTokenIsPresented | mcp_server/src/remote/client.ts:90-118 | a spent token is presented iff memory is behind the file, the own token is not empty and the file's entry is no longer fresh |
| TokenRefresh.EveryRun | mcp_server/src/remote/client.ts:83-141 | all of this in every run of the token setting; without such an entry no spent token is ever presented |
| TokenRefresh.SpentTokenHappens | mcp_server/src/remote/client.ts:107-118 | two processes from one token set reach that case once an ordinary grant has aged |
| LockedRefresh.LockKeepsPromise | mcp_server/src/config/save.ts:255-265 | under the lock file every step of the work is one that mutual exclusion permits |
| LockedRefresh.ClocksRunTogether | mcp_server/src/config/save.ts:116-137 | one clock runs for the lock's age and the tokens' expiry |
| LockedRefresh.EveryLockedRun | mcp_server/src/config/save.ts:190-265 | over the lock file itself, in every run whose reaping removes no held lock file, at most one process works on the file and no update is lost |
| LockedRefresh.EveryLockedTokenRun | mcp_server/src/remote/client.ts:83-141 | and in the token setting the refresh results hold there too: file, memories and server agree, and no spent token is presented without a resolution behind a stale entry |
| LockedRefresh.FaithfulRunsAreSafe | mcp_server/src/config/save.ts:121-137 | reaping that removes only what was inspected is of that kind |
| RemoteDelivery.BoundedIdSet.Add | mcp_server/src/transport/remote.ts:219-235 | the set always holds exactly the last `capacity` successful additions, without duplicates |
| RemoteDelivery.NothingForgotten | mcp_server/src/transport/remote.ts:219-235 | with at most `capacity` distinct ids it takes in exactly the first occurrences |
| RemoteDelivery.TopicFeed.PrimeTopicCursor | mcp_server/src/transport/remote.ts:344-347 | the cursor only rises |
| RemoteDelivery.TopicFeed.Subscribe | mcp_server/src/transport/remote.ts:930-934 | a subscription starts at the cursor with nothing seen |
| RemoteDelivery.TopicFeed.OnUpdate | mcp_server/src/transport/remote.ts:939-960 | a batch is its rows one by one |
| RemoteDelivery.TopicFeed.OnRow | mcp_server/src/transport/remote.ts:941-959 | a new row raises the cursor and is handed on unless it is the session's own |
| RemoteDelivery.EachRowOnce | mcp_server/src/transport/remote.ts:939-959 | each row of another session is handed on exactly once, in first-seen order |
| RemoteDelivery.OverlappingBatches | mcp_server/src/transport/remote.ts:939-960 | however rows are batched and however batches overlap |
| RemoteDelivery.FeedTakesIn | mcp_server/src/transport/remote.ts:930-946 | however many ids come, a subscription takes in what the bounded set takes in |
| RemoteDelivery.CursorOverRuns | mcp_server/src/transport/remote.ts:344-347 | over any primes, subscribes and unsubscribes the cursor is the maximum of everything primed or seen |
| RemoteDelivery.CursorIsHistory | mcp_server/src/transport/remote.ts:930-946 | the cursor is never behind a timestamp that was primed and always one that was primed or received |
| RemoteDelivery.OpAndTopic | mcp_server/src/transport/remote.ts:919-966 | a subscription starts from the cursor with nothing seen; a row new to it is remembered, and handed on unless it is the session's own; one already seen changes nothing |
| RemoteDelivery.NoneRepeated | mcp_server/src/transport/remote.ts:924-945 | a row of a later subscription is strictly newer than every positive-timestamp row of an earlier one |
| RemoteDelivery.PrimedIsCovered | mcp_server/src/transport/remote.ts:924-932 | and than everything primed before it |
| RemoteDelivery.NonPositiveIsRepeated | mcp_server/src/transport/remote.ts:944-945 | a row whose timestamp is not positive is delivered again |
| RemoteDelivery.RepeatedExactly | mcp_server/src/transport/remote.ts:924-945 | a row can be delivered in two subscriptions iff its timestamp is not positive |
| Breaker.CircuitBreaker.Shutdown | mcp_server/src/transport/remote.ts:1127-1130 | off, once |
| Breaker.CircuitBreaker.RegisterFailure | mcp_server/src/transport/remote.ts:1206-1234 | the new state of the breaker |
| Breaker.CircuitBreaker.RegisterSubscriptionFailure | mcp_server/src/transport/remote.ts:1181-1204 | the same; an auth error is counted here |
| Breaker.WindowIsExact | mcp_server/src/transport/remote.ts:1194-1198 | the window is what lies within 60 s of the last counted failure, over the whole history |
| Breaker.CountingSteps | mcp_server/src/transport/remote.ts:1194-1203 | whatever the clock does: entries too old at the front leave, and the transport goes off if three or more remain |
| Breaker.ThirdInWindow | mcp_server/src/transport/remote.ts:1199-1203 | a failure trips the breaker iff it completes three within the window |
| Breaker.OffExactlyWhenTripped | mcp_server/src/transport/remote.ts:1127-1234 | off iff shut down, a function was not found, an operation failed to authenticate, or some three counted failures lie within 60 s |
| Breaker.NeverBackOn | mcp_server/src/transport/remote.ts:251-255 | once off it stays off, whatever the clock does |
| Breaker.ShutDownIsRemembered | mcp_server/src/transport/remote.ts:1127-1130 | shutdown has started iff it was ever called |
| Subscriptions.SubscriptionTable.SubscribeTopic | mcp_server/src/transport/remote.ts:919-966 | unless the transport is off, opens exactly one raw subscription, for the topic, owned and held by the new call, open and tracked |
| Subscriptions.SubscriptionTable.SubscribeChannel | mcp_server/src/transport/remote.ts:980-1100 | with a known id opens one for that id at once, otherwise leaves a lookup pending |
| Subscriptions.SubscriptionTable.LookupReturned | mcp_server/src/transport/remote.ts:1068-1082 | an id found is remembered, and unless the call was unsubscribed meanwhile one raw subscription for it is opened |
| Subscriptions.SubscriptionTable.Unsubscribe | mcp_server/src/transport/remote.ts:1089-1168 | closes what the call holds, on its first invocation only |
| Subscriptions.SubscriptionTable.Shutdown | mcp_server/src/transport/remote.ts:1127-1139 | every tracked unsubscribe is invoked |
| Subscriptions.ReachableIsSound | mcp_server/src/transport/remote.ts:980-1168 | the invariant of every interleaving of subscribes, lookups, unsubscribes, failures and shutdown |
| Subscriptions.StepAndRaws | mcp_server/src/transport/remote.ts:919-1082 | a raw subscription is opened exactly by subscribing a topic, by subscribing a channel whose id is known, and by a lookup that finds the id before the call is unsubscribed |
| Subscriptions.RawsAreOpened | mcp_server/src/transport/remote.ts:919-1082 | in every interleaving a call has a raw subscription for a target iff some step was to open it |
| Subscriptions.TopicCallsHaveRaws | mcp_server/src/transport/remote.ts:919-966 | every call that subscribed a topic has its raw subscription |
| Subscriptions.StepAndCalls | mcp_server/src/transport/remote.ts:1147-1168 | calls come by subscribing only; an unsubscribe is invoked by its caller or by shutdown; a lookup goes on until it returns or fails |
| Subscriptions.StepAndSwitches | mcp_server/src/transport/remote.ts:1127-1139 | what switches the transport off, and where channel ids are learnt |
| Subscriptions.RawsClosedOnce | mcp_server/src/transport/remote.ts:1147-1168 | every raw subscription has been closed once if its unsubscribe was called and never otherwise |
| Subscriptions.OneRawPerCall | mcp_server/src/transport/remote.ts:992-1087 | no subscribe call opens two |
| Subscriptions.ShutdownIsFinal | mcp_server/src/transport/remote.ts:1127-1139 | after shutdown all are closed exactly once and nothing, late lookups included, opens or closes any |
| Subscriptions.ShutdownCloses | mcp_server/src/transport/remote.ts:1127-1130 | shutdown can run in every reachable state and leads there |
| DedupCache.KeyIsTuple | mcp_server/src/message-bus.ts:42-47 | without bars in the first three parts, keys are equal iff all four parts are |
| DedupCache.KeyIsSameSecond | mcp_server/src/message-bus.ts:42-47 | for readable timestamps: iff sender, thread or channel, second and text are |
| DedupCache.BarsConfuse | mcp_server/src/message-bus.ts:46 | an input: messages of different senders in different places that share a key |
| DedupCache.ConfusableExactly | mcp_server/src/message-bus.ts:42-47 | some message with a different sender, place, bucket or text has the same key iff one of the four holds a bar |
| DedupCache.ReadablyConfusableExactly | mcp_server/src/message-bus.ts:42-47 | among messages with readable timestamps: iff sender or place holds a bar, or the text a whole number before a bar, at its start or after a bar |
| DedupCache.MessageBus.Push | mcp_server/src/message-bus.ts:70-97 | the cache afterwards: the entries less than ten seconds old in their order and, unless one has the key, the key now, without the first of the oldest beyond 2048; the message is sent on iff none has it |
| DedupCache.MessageBus.Vacuum | mcp_server/src/message-bus.ts:109-118 | exactly the live entries stay, in order |
| DedupCache.LiveConcat | mcp_server/src/message-bus.ts:109-118 | sweeping keeps exactly the entries less than ten seconds old, in their order |
| DedupCache.PushKeepsOneEach | mcp_server/src/message-bus.ts:70-80 | no push leaves two entries for a key |
| DedupCache.MessageBus.TrimOldest | mcp_server/src/message-bus.ts:120-133 | exactly the first of the oldest entries goes |
| DedupCache.BoundHolds | mcp_server/src/message-bus.ts:29 | never more than 2048 entries after a push, whatever the clock does |
| DedupCache.JustAcceptedStays | mcp_server/src/message-bus.ts:79-80 | the key just accepted is evicted iff the cache was full and the clock reads earlier than every entry |
| DedupCache.JustAcceptedIsEvicted | mcp_server/src/message-bus.ts:79-133 | a run: 2048 different messages and then one at an earlier time, which is accepted and evicted at once |
| DedupCache.CacheIsExact | mcp_server/src/message-bus.ts:70-133 | with a clock that does not go back the cache is the last 2048 of the keys accepted less than 10 s ago |
| DedupCache.DecidesLikeScan | mcp_server/src/message-bus.ts:73-78 | a decision is a scan of everything accepted, while at most 2048 keys are live |
| DedupCache.RefinesScan | mcp_server/src/message-bus.ts:70-80 | over such histories the bounded cache accepts exactly what a filter that forgets nothing accepts |
| DedupCache.NeverEvictsNewest | mcp_server/src/message-bus.ts:79-80 | the key just accepted is in the cache, which is within its bound |
| DedupCache.DifferentMessagesPass | mcp_server/src/message-bus.ts:31-41 | messages whose keys all differ all get through, however many and whatever the clock does |
| DedupCache.RepeatIsDropped | mcp_server/src/message-bus.ts:73-78 | a key just accepted is refused for the next ten seconds |
| DedupCache.NewKeyPasses | mcp_server/src/message-bus.ts:73-80 | a key that no earlier arrival had gets through, whatever the clock does |
| EndToEnd.ChunksReadInbox | mcp_server/src/broker-event-listener.ts:77-96 | from chunks that hold the beginning of what was written, cut between characters, the first events of the inbox are read, and all of them once everything has arrived |
| EndToEnd.EventsGrow | mcp_server/src/broker-event-listener.ts:77-96 | a chunk adds exactly the events it completes behind the kept text |
| EndToEnd.BytesRefineEvents | mcp_server/src/broker-event-listener.ts:70-100 | every run of the listener on bytes, in which requests and chunks interleave, is a run of the listener on events |
| EndToEnd.RestCanArrive | mcp_server/src/broker-event-listener.ts:77-96 | one more chunk can always bring a listener up to date, and then nothing is waiting |
| EndToEnd.BytesDeliver | mcp_server/src/broker-event-listener.ts:171-196 | between two moments at which all bytes have arrived it hands on exactly what others posted to the topic |
| EndToEnd.TopicGetsThrough | mcp_server/src/message-bus.ts:70-80 | whatever else is pushed and whatever the clock does, messages of a topic that repeat nothing all pass the duplicate filter, in order |
| EndToEnd.EveryMessageIsTold | mcp_server/src/broker-event-listener.ts:171-196 | all together: the user is told of exactly the messages others posted, in stored order |
| Router.TransportRouter.Register | mcp_server/src/transport/router.ts:53-62 | refuses a duplicate unless told to replace, changing nothing; otherwise hands back what was there |
| Router.TransportRouter.Unregister | mcp_server/src/transport/router.ts:71-75 | removes the name and hands back its transport |
| Router.TransportRouter.Get | mcp_server/src/transport/router.ts:125-139 | an enabled transport of that name, or which of the two errors |
| Router.TransportRouter.GetByTopicId | mcp_server/src/transport/router.ts:152-159 | the first enabled transport that claims the topic, an error iff none does |
| Router.SetIsUpdate | mcp_server/src/transport/router.ts:53-62 | registering makes the name answer with the new transport and changes no other |
| Router.DeletedIsRemoval | mcp_server/src/transport/router.ts:71-75 | unregistering removes exactly the name |
| Router.RouterIsMap | mcp_server/src/transport/router.ts:53-75 | after any sequence of registrations and removals names are unique and the router answers as a map from names to transports does |
| Router.RouterKeepsOrder | mcp_server/src/transport/router.ts:53-75 | and visits its transports in the order in which the names came in, a replaced one keeping its place |
| LazyAttachModel.StartedKeeps | mcp_server/src/transport/attach.ts:410-429 | starting an attempt for a name neither in the router nor with an unfinished attempt keeps everything indexed |
| LazyAttachModel.IntroducedRegisters | mcp_server/src/transport/attach.ts:184-229 | a successful introduce then never finds its name taken |
| LazyAttachModel.AttachAllKeeps | mcp_server/src/transport/attach.ts:398-430 | after one pass over the names each is waited for, finished, or passed by |
| LazyAttachModel.StepAndInv | mcp_server/src/transport/attach.ts:398-480 | a step keeps router, subscription maps and in-flight map in agreement iff it is not a forced call that starts an attempt for a name whose attempt is not finished |
| LazyAttachModel.CallStartsExactly | mcp_server/src/transport/attach.ts:398-480 | a call starts attempts exactly for the names it was asked for that are not local, not in the router, constructable and, unless forced, not tried before; none in a session without a name unless told otherwise |
| LazyAttachModel.StepAndAttempts | mcp_server/src/transport/attach.ts:145-229 | each step moves its own attempt on, and no other |
| LazyAttachModel.StepAndSubs | mcp_server/src/transport/attach.ts:184-260 | a subscription is there iff an attempt subscribed it and its location's transport has not been taken out since |
| LazyAttachModel.UnforcedNeverCrowds | mcp_server/src/transport/attach.ts:400-403 | runs without forced calls contain no such call |
| LazyAttachModel.NothingIsReplaced | mcp_server/src/transport/attach.ts:184-229 | in every run without such a call no attempt replaces a transport, meets a duplicate when registering, or finds its name taken |
| LazyAttachModel.RetriesFollowFailures | mcp_server/src/transport/attach.ts:394-430 | there a location is attached again only after its attempt failed |
| LazyAttachModel.RouterIsExact | mcp_server/src/transport/attach.ts:136-169 | there the router holds exactly what it held at first and what registered, and subscriptions belong to the router's locations |
| LazyAttachModel.AttachesAtMostOnce | mcp_server/src/transport/attach.ts:394-430 | in every interleaving of non-forced calls no location is attached twice |
| LazyAttachModel.FailedLeavesNothing | mcp_server/src/transport/attach.ts:136-169 | there a failed attempt's location is in neither the router nor the subscription maps |
| LazyAttachModel.ReturnsAfterAttempts | mcp_server/src/transport/attach.ts:460-480 | a call that passed nothing over returns only after the attempts it asked for have finished |
| LazyAttachModel.WaitsForAllExactly | mcp_server/src/transport/attach.ts:468-479 | a call waits for every unfinished attempt of its names, except iff it looks for work while one is registered and still subscribing, or, when forced, no longer constructable |
| LazyAttach.LazyAttacher.EnsureLazyAttach | mcp_server/src/transport/attach.ts:460-480 | the call up to its first await is the model's step |
| LazyAttach.LazyAttacher.LazyAttachOne | mcp_server/src/transport/attach.ts:398-430 | the same for one name |
| LazyAttach.LazyAttacher.AttachLocation | mcp_server/src/transport/attach.ts:103-145 | the attempt starts, fails, or registers at once in a session without a name |
| LazyAttach.LazyAttacher.AttachDirectly | mcp_server/src/tools/identity.ts:404 | an attach by a sign-in, which enters no attempt and replaces what holds the name |
| LazyAttach.LazyAttacher.OnIntroduced | mcp_server/src/transport/attach.ts:184-229 | registers, or takes the holder of the name out with its subscriptions |
| LazyAttach.LazyAttacher.DropSubscriptions | mcp_server/src/transport/attach.ts:186-213 | a subscription stays iff its location is another |
| LazyAttach.LazyAttacher.Register | mcp_server/src/transport/attach.ts:229 | registers, or fails on a duplicate |
| LazyAttach.LazyAttacher.EnsureChannelSubscription | mcp_server/src/transport/attach.ts:618-632 | there is a subscription afterwards if the transport offers them; a new one is opened iff there was none |
| LazyAttach.LazyAttacher.TeardownChannelSubscription | mcp_server/src/transport/attach.ts:639-653 | there is none afterwards; one is closed iff there was one |
| LazyAttach.CallReturnsEarly | mcp_server/src/transport/attach.ts:471-479 | a run in which a call returns while an attempt it asked for is still subscribing |
| LazyAttach.ForcedCallsCollide | mcp_server/src/transport/attach.ts:184-229 | a run of forced calls in which registering meets a duplicate |
| LazyAttach.CrowdedRunsCanThrow | mcp_server/src/transport/attach.ts:184-229 | from every reachable state with an attempt waiting for its introduce, forced calls for its name can lead there |
| SignInAttach.StepAndInv | mcp_server/src/transport/attach.ts:103-229 | with sign-ins among the calls, a step keeps at most one pending attempt per name and each transport where its attempt put it, iff it starts no attempt beside a pending one |
| SignInAttach.SignInStarts | mcp_server/src/tools/identity.ts:404 | what a sign-in's attempt begins with and what it does to the router |
| SignInAttach.SignInAndSubs | mcp_server/src/transport/attach.ts:184-213 | a sign-in ends no subscription but those of the transport it takes out |
| SignInAttach.SubscriptionsFollow | mcp_server/src/transport/attach.ts:184-213 | whatever happens, a subscription ends iff its location's transport is taken out of the router |
| SignInAttach.SoundExactly | mcp_server/src/transport/attach.ts:398-480 | over every run, this holds at every moment iff no step crowds |
| SignInAttach.AttachesApart | mcp_server/src/transport/attach.ts:184-229 | in such a run no registration meets a duplicate, only an attempt a sign-in started takes a transport out, and a subscribing attempt has its own transport in the router |
| SignInAttach.EnteredIsFound | mcp_server/src/transport/attach.ts:400-403 | without sign-ins a call that is not forced never crowds |
| SignInAttach.SignInIsTakenOut | mcp_server/src/tools/identity.ts:404 | a run without forced calls in which an ordinary call takes out the transport a sign-in has registered |
| ActiveConfig.ScanChannels | mcp_server/src/config/active.ts:63-102 | fails iff a channel has two active topics or the location two active channels, naming which; otherwise its active channels and a held topic |
| ActiveConfig.ScanLocations | mcp_server/src/config/active.ts:53-102 | the same over all locations |
| ActiveConfig.CollectLocations | mcp_server/src/config/active.ts:104-113 | exactly the active locations |
| ActiveConfig.ResolveActive | mcp_server/src/config/active.ts:35-150 | succeeds iff every non-local location has a url and each level has at most one active entry; then yields the only ones there are; which error is reported |
| ActiveConfig.ResolutionFollowsFlags | mcp_server/src/config/active.ts:35-150 | the answer told from the flags alone: a location, channel or topic is in it iff a flag stands on it or, for a location or channel, on something in it |
| ActiveConfig.RefusedForFlags | mcp_server/src/config/active.ts:53-121 | a config with its urls is accepted iff no two flags of one level compete |
| ActiveConfig.UrlsAreGiven | mcp_server/src/config/active.ts:35-50 | every location but the reserved one needs a url that is not blank |
| ActiveConfig.TopicCascades | mcp_server/src/config/active.ts:20-22 | an active topic makes its channel and its location active |
| ActiveConfig.OneActiveTopic | mcp_server/src/config/active.ts:53-102 | an accepted config has at most one explicitly active topic, at whatever place |
| ActiveConfig.ResolutionIsUnique | mcp_server/src/config/active.ts:123-149 | the answer is unique, so the order of entries cannot matter |
| EnvOverrides.ApplyEnvOverrides | mcp_server/src/config/env.ts:42-94 | the config with exactly the overrides applied |
| EnvOverrides.OverridesFieldByField | mcp_server/src/config/env.ts:42-143 | the overridden config field by field: each variable that is set goes to its own place, trimmed or as it is, the app pointer to one target, and nothing else changes |
| EnvOverrides.ClearActiveCascade | mcp_server/src/config/env.ts:107-119 | every active flag inside goes, everything else stays |
| EnvOverrides.PickAuthTarget | mcp_server/src/config/env.ts:134-143 | `remote` if there is one, else an active non-local location, else none |
| EnvOverrides.ClearedIsQuiet | mcp_server/src/config/env.ts:101-119 | nothing is active any more at any depth, and no channel, topic or url is lost |
| EnvOverrides.UrlWins | mcp_server/src/config/env.ts:57-77 | with a non-blank url resolving succeeds iff all other non-local locations have urls, and yields `remote` alone |
| EnvOverrides.PointerKeepsActive | mcp_server/src/config/env.ts:79-91 | the app pointer changes neither acceptance nor the answer |
| EnvOverrides.OverriddenUrlWins | mcp_server/src/config/env.ts:42-94 | both together, for whatever the overriding code returns |

## Left out

- HTTP routing, request bodies, JSON text, logging and socket errors: handlers are atomic steps after the body is read, and a failed write counts as the client's disconnection just before it. An injected event without a type is refused before the model's `Inject`.
- JSON: payloads are strings without a raw newline; parsing is any function that reads back what was written.
- Strings are sequences of Unicode scalar values, not UTF-16 units; lower-casing covers the ASCII letters.
- ISO timestamps are epoch milliseconds; topic identifiers are fresh by assumption, as random UUIDs are.
- Map order where the source iterates it: which of several clashing topics a conflict names, which of several too many active channels and topics the config resolver reports first, and which of several active locations takes the app pointer.
- FileLock.AtMostOneHolder: assumes reaping unlinks that remove only what was inspected, because the claim without it is false (`FileLock.TwoReapersMeet`); `FileLock.OwnedExactly` says exactly which runs keep it.
- AcquireLock.AcquireLock: takes the answers of the file system round by round as inputs, because other processes run between the calls; `FileLock` interleaves the calls as steps.
- Lock creation and the writing of the PID are one step, and a PID identifies one process for the whole run.
- TokenRefresh.EveryRun: for the token setting only: the issue of a token set and its saving are not split by a crash or a failed write, a server rotates on success with a strictly later expiry and a new token, every process starts from a token set that was in the file, a sign-in is issued its tokens under the lock that saves them and they take the place of the live ones, and no other direct save touches the refreshed location (`TokenRefresh.NothingIsEverLost` has none of these limits); a response without a refresh token or expiry is not modelled.
- RemoteDelivery.NoneRepeated: for rows with positive timestamps, because others do repeat (`RemoteDelivery.NonPositiveIsRepeated`).
- RemoteDelivery.OverlappingBatches: for at most 10,000 distinct ids in one subscription, the bound of the id set.
- Channel feeds of the remote transport: they deliver rows as topic feeds do; the acknowledgement of the highest timestamp of a batch is not modelled.
- DedupCache.RefinesScan: for histories in which at most 2048 accepted keys are live at each arrival and the clock does not go back.
- LazyAttachModel.AttachesAtMostOnce: for non-forced calls, because a forced call retries a failed attempt (`LazyAttachModel.RetriesFollowFailures`); attaches by sign-ins are in `SignInAttach`, those of startup are the initial content of the router.
- SignInAttach.StepAndInv: says nothing about what calls wait for once a sign-in has attached a location; `LazyAttachModel` does, without sign-ins.
- EndToEnd.EveryMessageIsTold: for chunks cut between characters, because others lose characters (`ChunkedDelivery.EachPayloadExactly`), and for messages that repeat nothing pushed before, because repeats within ten seconds are dropped (`DedupCache.RepeatIsDropped`); senders and places hold no bar.
- LazyAttach.LazyAttacher.DropSubscriptions: subscription keys are pairs of a location and a target, not strings joined with `::`.
- LazyAttach.LazyAttacher.OnIntroduced: joining the configured channels and topics afterwards is a series of steps that add subscriptions; failed joins, which are logged and skipped, and the cascade into the active context are not modelled.
- Agreement between joined topics and remote topic subscriptions: leaving a channel does not tear down topic subscriptions, so it is not an invariant.
- The remote backend, its client library and the MCP protocol; the parsing of error messages into classes; browser sign-in; the election of a broker process; command-line tools, defaults, config merging and file discovery.
- A message's timestamp text and what it parses to are independent in `DedupCache`; the parser of dates is not modelled.
