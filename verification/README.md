# Verified models of the web channel

This project models six parts of the web channel's in-memory protocol logic in Dafny and proves what they promise:

- the send path of the browser client: outbound queue, replayed ledger, send-state tracker, stall recovery;
- the incremental reader of the NATS byte stream;
- the wrapper's history merge, its hold of sends made while a turn runs, and its tracking of open turns;
- the plugin's approval-origin lease registry;
- ChaCha20-Poly1305;
- the plugin's per-key flush scheduler for debounced inbound messages.

Each part has a specification (a state, and the steps or functions the code amounts to), the code itself as a class or
methods with the source's fields and loops, proved against that specification, and theorems about whole runs of the
specification. Embedder code reached from a callout is an arbitrary, finite sequence of moves: the class methods are
mutually recursive through the callout, and their contracts hold for every such sequence. What a method did first, and what
it comes to if embedder code makes no move (called undisturbed below), are clauses of their own.

| files | part |
|---|---|
| `SendPath.dfy`, `SendPathInvariants.dfy`, `SendPathRuns.dfy`, `SendPathEffects.dfy`, `SendPathCalm.dfy`, `SendPathOutcomes.dfy`, `SendPathClient.dfy` | the send path: steps, invariant, run theorems, what callouts keep, what operations come to undisturbed, what senders are told, the class |
| `FrameReader.dfy`, `FrameReaderProofs.dfy`, `FrameCodec.dfy`, `FrameEndings.dfy` | the reader, independence of chunking, frames through any cut, what ends a dial |
| `HistoryMerge.dfy`, `HistoryReducer.dfy`, `HistoryRender.dfy`, `HistoryTheorems.dfy`, `HistoryAdoption.dfy` | the history merge, and when a row must be adopted |
| `HeldSends.dfy`, `HeldClient.dfy` | the hold |
| `TurnTracking.dfy`, `TurnTracker.dfy` | open turns |
| `ApprovalOrigin.dfy`, `ApprovalOriginRegistry.dfy`, `ApprovalOriginRuns.dfy`, `ApprovalOriginSafety.dfy`, `ApprovalOriginCompleteness.dfy` | the lease registry, when it may and when it must name a peer |
| `Bytes.dfy`, `ChaCha20.dfy`, `Poly1305.dfy`, `Aead.dfy`, `CipherLayout.dfy`, `ChaCha20Vector.dfy` | the cipher, the layout of what it reads, a published vector |
| `Debounce.dfy`, `Debouncer.dfy`, `DebounceWorkers.dfy`, `DebounceAccounts.dfy`, `DebounceCancellations.dfy` | the flush scheduler, its class, its chains and workers, where every entry and reservation is, what cancellations hold |
| `Options.dfy`, `Sequences.dfy` | shared: options, ascending sequences |

`dafny verify dfyconfig.toml` checks everything.

## Findings

Six promises the source makes in its comments hold only under a condition. The code is modelled as it is.

- First publications do not always follow call order. Between the installation of the session key and the replay of the
  ledger, a listener reached from a buffered frame may send; the queue then drains past a ledgered message that was
  recorded but never reached the transport. `SendPathRuns.OutOfOrderIsOvertaking` and `OvertakingIsOutOfOrder` show that
  this is the only way order breaks, `WindowBreaksCallOrder` is a run that does it, and
  `FirstPublicationsInCallOrder` is the guarantee without it.
- The frame reader depends on chunking for a control line of exactly the maximum length that is cut between its CR and
  LF: `FrameReaderProofs.LimitCutMatters`, with `ChunksDoNotMatter` for every other cut.
- A release pass can stop with a send held that nothing keeps waiting. `HeldSends.PassStrands` says exactly when: while
  the timer of its last owner was cleared, embedder code changed the owner or the lifecycle, and a send is held that could
  go out. `HeldClient.StrandByReplacement` and `StrandByNewSession` run the release method with two such hooks. Nothing
  else strands a send, and with timers that run no embedder code nothing does: `HeldClient.Client.Turn`.
- A snapshot of the conversation the client already shows can add a bubble: if a reply's stored text equals the live text
  of a later reply and not of its own, it takes the later bubble. `HistoryAdoption.SnapshotLandsInPlace` is the exact
  condition for every row to land on its own bubble, `SameConversationAddsNothing` what follows from it, and
  `CrossedReplyIsShownAgain` a conversation that breaks it.
- A cancellation callback's hold on a reservation should last until the callback settles. A second `cancelKey` that says
  nothing about notification settles the entry at once and frees the hold while the callback still runs (no caller in the
  plugin's own code does this). `DebounceCancellations.CallbackIsPinned` says that nothing else frees it,
  `SilentCancelUnpins` is a run.
- `turnActive` can stay up with no turn open while a `close()` is between its two halves: `TurnTracking.FlagLags` is a run
  that shows it, `OnlyCloseLags` says that it starts exactly at a `close()` that finds a turn open, and `FlagIsExact` that
  it ends with the second half.

## Model

| member | source | states |
|---|---|---|
| SendPathInvariants.RunKeepsInv | packages/client/src/nats-client.ts:1214-1233 | In every legal run: owned ids ascend in call order, the ledger is bounded and its entries ordered, a retired client owns nothing, a replayed session has published its ledger, confirmed entries are on the wire and reported, and epochs and timer generations agree. |
| SendPathInvariants.StepKeepsInv | packages/client/src/nats-client.ts:2069-2322 | Each of the steps between two callouts keeps all of the above. |
| SendPathRuns.OwnedInCallOrder | packages/client/src/nats-client.ts:2069-2124 | At every point of every run the ledger ids in insertion order followed by the queued user ids are in call order, so none occurs twice. |
| SendPathRuns.LedgerIsBounded | packages/client/src/nats-client.ts:2464-2498 | The ledger never exceeds its cap after a seal recorded a message. |
| SendPathRuns.RunEvolves | packages/client/src/nats-client.ts:2329-2359 | From any point of a run to any later one: no tracked id is forgotten or demoted, failure is final, and an id once let go is never owned again. |
| SendPathRuns.ReplayedMeansSent | packages/client/src/nats-client.ts:2253-2297 | Between seals of a session that has replayed, every ledgered message is on the wire with its text and its sender was told so. |
| SendPathRuns.RetiredOwnsNothing | packages/client/src/nats-client.ts:2367-2380 | While closed or terminal the client owns no user message. |
| SendPathRuns.OneRecoveryPerInterval | packages/client/src/nats-client.ts:2633-2643 | Between two firings of the stall timer there is an owned result or a retirement. |
| SendPathRuns.FirstIsPublished | packages/client/src/nats-client.ts:2253-2287 | Every first publication of an id was made by a seal, never by a live retry. |
| SendPathRuns.OutOfOrderIsOvertaking | packages/client/src/nats-client.ts:1972-1980 | If first publications are out of call order, the later call was published between key installation and replay while the ledger still held the earlier, never published message. |
| SendPathRuns.OvertakingIsOutOfOrder | packages/client/src/nats-client.ts:1972-1980 | Conversely such a publication puts the two out of order as soon as the earlier one is published. |
| SendPathRuns.FirstPublicationsInCallOrder | packages/client/src/nats-client.ts:2069-2083 | Without a publication in that window, first publications follow call order over any number of replays. |
| SendPathRuns.WindowBreaksCallOrder | packages/client/src/nats-client.ts:1972-1980 | A concrete run in which call order is broken in the window. |
| SendPathEffects.RestConserves | packages/client/src/nats-client.ts:1395-1438 | In a state that keeps the invariant and is at rest, every id that is neither accepted nor failed occurs exactly once in ledger and queue together. Turn, OnConnected, EstablishSession and FireTimer establish it for the client. |
| SendPathClient.Client.SendUserMessage | packages/client/src/nats-client.ts:1395-1438 | Misuse of a wire id changes nothing. A live send is owned before any callout, and unless a drain is under way it ends with no session or an empty queue; a send to a retired client is tracked and has failed on return. Undisturbed, the outcome is exactly that of SendGoesOut. No other sender is left behind. |
| SendPathCalm.SendGoesOut | packages/client/src/nats-client.ts:1395-1438 | Undisturbed, a send in a session at rest is the next and only new message on the wire, and the queue is empty again. |
| SendPathOutcomes.RefusalTells | packages/client/src/nats-client.ts:1395-1438 | Undisturbed, a send to a retired client fails for the reason it is retired, and nothing is queued or sent. |
| SendPathClient.Client.ReserveWireId | packages/client/src/nats-client.ts:1579-1593 | The result is the first of at most eight candidates that is neither reserved nor tracked, and none if there is none; exactly that id becomes reserved. |
| SendPathClient.Client.EnqueueFrame | packages/client/src/nats-client.ts:2064-2067 | Other frames join the end of the queue before anything else happens and are drained; undisturbed, queue and frame go out in order. No send is disturbed. |
| SendPathClient.Client.DrainOutboundQueue | packages/client/src/nats-client.ts:2091-2124 | Ends with no session or an empty queue whatever callouts do, and loses no sender; undisturbed, its outcome is that of WholeQueueGoesOut. |
| SendPathCalm.WholeQueueGoesOut | packages/client/src/nats-client.ts:2091-2124 | Undisturbed, a drain in a session empties the queue, and the wire grows by exactly the queue, in order. |
| SendPathClient.Client.SealHead | packages/client/src/nats-client.ts:2126-2322 | One seal: undisturbed it puts exactly the head on the wire; disturbed, it loses no sender and leaves nothing half sealed. |
| SendPathOutcomes.SealTells | packages/client/src/nats-client.ts:2152-2320 | Undisturbed, a seal reports its own message as sent, fails exactly the ones it evicted, and changes no other id. |
| SendPathOutcomes.EvictsTheOldest | packages/client/src/nats-client.ts:2464-2498 | In every run a seal evicts the oldest entry exactly when the ledger holds 100. |
| SendPathClient.Client.TakeHead | packages/client/src/nats-client.ts:2152-2160 | Shift, record and evict as one step, returning exactly the evicted ids. |
| SendPathClient.Client.RecordUnacked | packages/client/src/nats-client.ts:2464-2498 | The ledger becomes its newest entries up to the cap, and the evicted ids are the oldest, in order. |
| SendPathClient.Client.FinishInvalidated | packages/client/src/nats-client.ts:2190-2210 | A seal whose fence broke puts its message back at the front of the queue exactly if the entry is still owned in the same live session and only the mutation epoch moved; otherwise it is given up. Nothing else changes. |
| SendPathClient.Client.ConfirmTaken | packages/client/src/nats-client.ts:2255-2295 | An entry still owned in the same live session is confirmed before any callout, and the first confirmation starts the interval; one no longer owned is left unconfirmed and no timer is asked for. |
| SendPathClient.Client.FlushQueue | packages/client/src/nats-client.ts:2069-2083 | The ledger moves in front of the queue before anything is sent, and the drain leaves the client at rest; undisturbed, its outcome is that of ReplayIsComplete. |
| SendPathCalm.ReplayIsComplete | packages/client/src/nats-client.ts:2069-2083 | Undisturbed, a new session puts every unacknowledged message on the wire in ledger order, then everything that waited, and nothing else. |
| SendPathClient.Client.TrackerAdvance | packages/client/src/nats-client.ts:2341-2347 | A report moves a known, unfailed id strictly forward or does nothing. |
| SendPathClient.Client.TrackerFail | packages/client/src/nats-client.ts:2353-2359 | A failure is recorded once and is final. |
| SendPathClient.Client.DrainOwnedResult | packages/client/src/nats-client.ts:1673-1757 | A result that owns a ledger entry detaches what it owns before anything else; every known id it names is accepted or failed on return; undisturbed, exactly those it names change, to accepted for an acknowledgement and to overloaded for a rejection, and a fresh interval and timer follow exactly for an owned result. |
| SendPathOutcomes.OutcomeWasAnswered | packages/client/src/nats-client.ts:1645-1665 | In every run a sender is told accepted only after an acknowledgement that names its id, and overloaded only after a rejection that does; an acknowledgement never fails a send. |
| SendPathOutcomes.ResultTells | packages/client/src/nats-client.ts:1645-1757 | Undisturbed, an acknowledgement makes exactly the known, unfailed ids it names accepted, and a rejection makes exactly those failed as overloaded; no other id changes. |
| SendPathClient.Client.RestartInterval | packages/client/src/nats-client.ts:1688-1734 | A fresh interval is handed to the fanout only with everything still as the result left it: same flow, same key, live, published work waiting. Undisturbed, it is exactly when published work is waiting and the client is live. |
| SendPathClient.Client.Disconnect | packages/client/src/nats-client.ts:1355-1381 | On return there is no session, and every id issued before the call is accepted or failed unless it was left behind before it, which Turn excludes; the client was closed before anyone was told. |
| SendPathClient.Client.HandleTerminal | packages/client/src/nats-client.ts:2406-2421 | The same for terminal failure, which is set before anyone is told and stays. |
| SendPathOutcomes.SweepTells | packages/client/src/nats-client.ts:1355-1421 | Undisturbed, a close fails exactly what the client owned as closed, and a terminal failure as terminal; accepted ids are left alone. |
| SendPathClient.Client.LoseConnection | packages/client/src/nats-client.ts:1310-1328 | A lost connection ends the session; undisturbed, it spends the stall allowance exactly if published work is waiting. |
| SendPathOutcomes.LossSpendsAllowance | packages/client/src/nats-client.ts:1310-1328 | Undisturbed, a lost connection keeps ledger and queue, and the stall allowance is spent afterwards exactly if it was before or published work is waiting on a live client. |
| SendPathOutcomes.ResultRestarts | packages/client/src/nats-client.ts:1673-1757 | Undisturbed, an owned result removes exactly what it names; with published work left the interval starts again and a timer stands, with none left interval and spent recovery are forgotten. |
| SendPathOutcomes.SealArms | packages/client/src/nats-client.ts:2126-2322 | Undisturbed, a sealed message has a retry deadline and a timer stands behind it. |
| SendPathOutcomes.FiringRepeats | packages/client/src/nats-client.ts:2584-2694 | Undisturbed and without a stall, a firing repeats exactly the due messages in ledger order, gives them their next deadline, and a timer stands again. |
| SendPathOutcomes.BufferedAreHeard | packages/client/src/nats-client.ts:1618-1632 | Undisturbed, result frames buffered before the key all take effect: the ids they name leave the ledger and their senders know the outcome. |
| SendPathOutcomes.SessionRepeatsTheRest | packages/client/src/nats-client.ts:1972-1988 | Undisturbed, a new session repeats in order exactly the messages no buffered frame named, ahead of what waited. |
| SendPathClient.Client.RequestApplicationRecovery | packages/client/src/nats-client.ts:1524-1539 | With published work and an unspent allowance, spending it is the first thing that happens; a retired client is not recovered; after a recovery there is no session, and no sender is lost. |
| SendPathClient.Client.ArmLiveRetryTimer | packages/client/src/nats-client.ts:2538-2609 | No sender is lost; undisturbed, the old timer is retired and a new one stands exactly if there is something to wait for. |
| SendPathOutcomes.TimerStands | packages/client/src/nats-client.ts:2538-2566 | Undisturbed, a timer stands exactly if a live session has unacknowledged work and a deadline or an unspent interval. |
| SendPathOutcomes.IntervalBegins | packages/client/src/nats-client.ts:2288-2310 | The first confirmed publish starts the interval and a later one keeps it; an owned result restarts it while published work remains. |
| SendPathClient.Client.InstallTimer | packages/client/src/nats-client.ts:2579-2608 | Across the scheduler callout a timer is kept only if flow, key, epochs, interval and every deadline are as they were captured; undisturbed, it is kept. |
| SendPathClient.Client.RetryDueUnacked | packages/client/src/nats-client.ts:2611-2694 | No sender is lost; undisturbed, a stalled interval is recovered once, and otherwise the pass is that of EveryDueOnce followed by a fresh timer. |
| SendPathOutcomes.StallEndsSession | packages/client/src/nats-client.ts:2633-2643 | Undisturbed, an interval that is over ends the session with the ledger kept and nothing sent; one that is not leads to the retry pass. |
| SendPathCalm.EveryDueOnce | packages/client/src/nats-client.ts:2645-2694 | The pass that looks for the next due entry after each repetition repeats every due message exactly once, in ledger order. |
| SendPathClient.Client.FireTimer | packages/client/src/nats-client.ts:2584-2589 | A stale generation, or no timer, changes nothing at all; a current one runs the retry pass, and every unfinished id is owned exactly once afterwards. |
| SendPathClient.Client.EstablishSession | packages/client/src/nats-client.ts:1971-1988 | A flow that is not current changes nothing. A current one installs the key first; undisturbed, the buffered results, the replay and the listeners follow in that order. Afterwards every unfinished id is owned exactly once. |
| SendPathClient.Client.OnConnected | packages/client/src/nats-client.ts:1766-1803 | A new flow advances the epoch and returns it, unless the client is terminal; if it is current on return there is no session, so that it may establish one. Every unfinished id is owned exactly once. |
| SendPathClient.Client.Turn | packages/client/src/nats-client.ts:1395-1438 | Every turn of the event loop that starts at rest ends at rest with every unfinished id owned exactly once, for every behaviour of embedder code; after close or terminal failure every id issued before is accepted or failed. |
| FrameReaderProofs.LoopSplit | packages/client/src/nats-client.ts:776-871 | Draining the buffer of two chunks is draining the first and then the second with what was left. |
| FrameReaderProofs.RefusedThoughLegal | packages/client/src/nats-client.ts:872-875 | The final length check refuses a tail that could still become a legal line exactly when it is a full-length line with its CR but not its LF. |
| FrameReaderProofs.DrainSplit | packages/client/src/nats-client.ts:761-877 | One whole drain splits at any point outside that case. |
| FrameReaderProofs.ChunksDoNotMatter | packages/client/src/nats-client.ts:640-661 | Any two ways to cut the same bytes into chunks that fit the buffer give the same events and the same state. |
| FrameReaderProofs.LimitCutMatters | packages/client/src/nats-client.ts:777-777 | A cut between CR and LF of a line of exactly the limit is refused where the uncut line is accepted. |
| FrameReaderProofs.LeftoverHasRoom | packages/client/src/nats-client.ts:872-876 | What a drain leaves behind is short enough for a further chunk. |
| FrameCodec.FramesSurviveAnyCut | packages/client/src/nats-client.ts:761-911 | Well-formed frames, payloads with CRLF included, are delivered exactly and in order under every cut, and leave an empty buffer. |
| FrameEndings.NothingAfterABreach | packages/client/src/nats-client.ts:761-911 | Well-formed frames, then a terminal error line, a delivery at which the embedder drops the dial, a MSG line that is no header, a payload without its CRLF, or an overlong line, then anything: under every cut exactly the frames and what the breach itself delivers are delivered, and the dial is closed as that breach closes it. |
| FrameEndings.RejectionIsFatal | packages/client/src/nats-client.ts:838-868 | A server error is terminal exactly if one of the two wordings stands somewhere in its line, in any mix of letter case. |
| FrameReader.Reader.OnMessage | packages/client/src/nats-client.ts:640-661 | Appending a chunk, or refusing it when the buffer would overflow, is the specification's feed. |
| FrameReader.Reader.DrainBuffer | packages/client/src/nats-client.ts:761-877 | The drain loop delivers the specified events and leaves the specified buffer. |
| FrameReader.Reader.HandleMessage | packages/client/src/nats-client.ts:885-911 | Header, length and terminator checks, partial messages and delivery, as specified. |
| HistoryReducer.ApplyHistory | packages/client/src/nats-client-wrapper.ts:1970-2165 | The reducer's queues, anchor, cursor and rebuild compute the specified merge, and leave the list alone when nothing is new. |
| HistoryReducer.Reducer.FindTarget | packages/client/src/nats-client-wrapper.ts:2104-2139 | Exact matches by queue, then the reply after the anchor: the specified target. |
| HistoryReducer.TakeExact | packages/client/src/nats-client-wrapper.ts:2105-2111 | Popping a role-and-text queue yields the first unclaimed match. |
| HistoryAdoption.ExactIsAdopted | packages/client/src/nats-client-wrapper.ts:2104-2110 | An unseen valid row is adopted onto the first live bubble with its role and text that no earlier row took. |
| HistoryAdoption.ReplyIsAdopted | packages/client/src/nats-client-wrapper.ts:2111-2139 | Failing that, an agent's row is adopted onto the first bubble behind the previous match that is neither held nor retracted, if it is a live reply that no earlier row took. |
| HistoryAdoption.OthersAreFresh | packages/client/src/nats-client-wrapper.ts:2140-2150 | Failing both, it is shown as a fresh row. |
| HistoryAdoption.SkippedIff | packages/client/src/nats-client-wrapper.ts:2087-2091 | A row is passed over exactly if its id is missing or empty, its text missing, or its role neither user nor agent. |
| HistoryAdoption.RepeatedRowIsHeld | packages/client/src/nats-client-wrapper.ts:2092-2101 | A row whose id an earlier row brought adds nothing; the next reply is looked for behind the bubble that row was adopted onto. |
| HistoryAdoption.KnownRowIsHeld | packages/client/src/nats-client-wrapper.ts:2092-2101 | A row whose id is shown already adds nothing; the next reply is looked for behind the last bubble with that id. |
| HistoryAdoption.FreshRowIsShown | packages/client/src/nats-client-wrapper.ts:2140-2150 | A fresh row is in the merged list once the snapshot is applied. |
| HistoryAdoption.SnapshotLandsInPlace | packages/client/src/nats-client-wrapper.ts:2092-2150 | A snapshot of the conversation the client shows is adopted bubble by bubble exactly if no row repeats the text of a later bubble of its role while differing from its own. |
| HistoryAdoption.SameConversationAddsNothing | packages/client/src/nats-client-wrapper.ts:2092-2162 | Then no bubble is added: each live bubble takes its row's id, text and time, and every other bubble stays as it was. |
| HistoryAdoption.ReformattedReplyIsAdopted | packages/client/src/nats-client-wrapper.ts:2111-2139 | A reply whose stored text differs from the one shown live is not shown twice. |
| HistoryAdoption.CrossedReplyIsShownAgain | packages/client/src/nats-client-wrapper.ts:2104-2139 | With crossed texts a bubble is added: two exchanges come out as five bubbles. |
| HistoryReducer.Rebuild | packages/client/src/nats-client-wrapper.ts:2157-2162 | One pass over the cursors shows each group before its bubble. |
| HistoryTheorems.LocalBubblesSurvive | packages/client/src/nats-client-wrapper.ts:2033-2162 | Every local bubble is shown once, in local order, and takes at most one snapshot row. |
| HistoryTheorems.ProtectedBubblesUnchanged | packages/client/src/nats-client-wrapper.ts:2027-2030 | Pending, retracted and working bubbles come out unchanged. |
| HistoryTheorems.UniqueIdsStayUnique | packages/client/src/nats-client-wrapper.ts:2087-2150 | A list without duplicate ids stays without. |
| HistoryTheorems.SnapshotOrder | packages/client/src/nats-client-wrapper.ts:2140-2162 | When matches increase along the snapshot, its rows are shown in snapshot order. |
| HistoryTheorems.MergedShowsSnapshot | packages/client/src/nats-client-wrapper.ts:2087-2162 | When matches increase along a snapshot with distinct ids, any two valid rows of it are shown, in snapshot order. |
| HistoryTheorems.DeferredIsImmediate | packages/client/src/nats-client-wrapper.ts:2140-2162 | The deferred rebuild equals inserting each fresh row at its cursor at once. |
| HistoryTheorems.SecondMergeIsNoop | packages/client/src/nats-client-wrapper.ts:2092-2101 | Merging the same snapshot again changes nothing when its ids are outside the local live namespaces. |
| HistoryTheorems.UnmatchedSnapshotIsPrepended | packages/client/src/nats-client-wrapper.ts:2140-2149 | A snapshot that matches nothing is shown before the local list. |
| HistoryRender.RenderConserves | packages/client/src/nats-client-wrapper.ts:2157-2162 | The rebuilt list is the local list and the fresh rows, each exactly once. |
| HistoryRender.RenderAt | packages/client/src/nats-client-wrapper.ts:2157-2162 | Every bubble and every fresh row is shown at its computed position. |
| HeldSends.HandedInCallOrder | packages/client/src/nats-client-wrapper.ts:1147-1218 | In every run the sends handed to the low-level client are in call order, each at most once and none of them still held. |
| HeldSends.SentOrHeld | packages/client/src/nats-client-wrapper.ts:1099-1116 | In every run a send waits exactly if the client is neither terminal nor closed and a turn is in flight, something is held, or a stop or release is being committed; any other send is handed over at once. |
| HeldSends.PassBeginsIdle | packages/client/src/nats-client-wrapper.ts:1147-1158 | In every run held sends go out inside a release pass only, and a pass begins only with a session, a connection and no turn in flight. |
| HeldSends.GateStaysClosed | packages/client/src/nats-client-wrapper.ts:309-407 | In every run no pass begins between a raw edge and the next new session. |
| HeldSends.SkippedIsDroppedOrHeld | packages/client/src/nats-client-wrapper.ts:1227-1271 | In every run a call is not handed over exactly if it is still held, or was held when it was retracted itself or when a stop, a close or a terminal failure came. |
| HeldSends.PassStrands | packages/client/src/nats-client-wrapper.ts:1161-1182 | A release pass leaves a send behind that nothing keeps waiting exactly if its fence broke (while the last owner's timer was cleared the owner or the lifecycle changed) and a send is held that could go out. |
| HeldSends.NewSessionReleases | packages/client/src/nats-client-wrapper.ts:360-407 | Undisturbed, a new session of an open client hands over the whole hold in order, exactly if no turn is in flight. |
| HeldSends.TurnEndReleases | packages/client/src/nats-client-wrapper.ts:1955-1966 | Undisturbed, in a session the frame that ends the turn hands over the whole hold in order, and no other frame any of it. |
| HeldSends.LastGoesOutReady | packages/client/src/nats-client-wrapper.ts:1150-1187 | In every run the last send of a pass goes out only in a session of the lifecycle in which its timer was cleared. |
| HeldClient.StrandByReplacement | packages/client/src/nats-client-wrapper.ts:1161-1182 | With a timer hook that retracts the last owner and sends again, the release method itself leaves the new send stranded. |
| HeldClient.StrandByNewSession | packages/client/src/nats-client-wrapper.ts:1161-1182 | With a timer hook that only replaces the session, it leaves the last owner stranded. |
| HeldClient.Client.SendText | packages/client/src/nats-client-wrapper.ts:693-744 | First of all an ordinary send is held exactly when the hold predicate says so and handed over otherwise, whatever happens then; an explicit stop drops everything that was held; an abort word leaves the hold alone. |
| HeldClient.Client.Stop | packages/client/src/nats-client-wrapper.ts:653-685 | Everything held before a stop is gone for good. What its own callouts queued is released after it: nothing is stranded unless a fence broke. |
| HeldClient.Client.RetractCall | packages/client/src/nats-client-wrapper.ts:753-770 | A held send is withdrawn first of all and is gone for good; a call that is not held changes nothing. |
| HeldClient.Client.MaybeRelease | packages/client/src/nats-client-wrapper.ts:1147-1218 | Without its guard it does nothing. After it, outside a stop or another release, nothing that could go out is held unless its fence broke; undisturbed, the whole hold is handed over in order. |
| HeldClient.Client.ReleaseAll | packages/client/src/nats-client-wrapper.ts:1161-1214 | Undisturbed, it hands over the whole hold in order; it ends with an empty hold or a broken fence, and a script that breaks the fence ends it at once. |
| HeldClient.Client.HandleFrame | packages/client/src/nats-client-wrapper.ts:1955-1966 | A frame ends with the release gate tried: afterwards nothing that could go out is held unless a fence broke. |
| HeldClient.Client.OnSession | packages/client/src/nats-client-wrapper.ts:360-407 | The gate opens before any listener; undisturbed, everything that may go is then handed over in order. A terminal or closed client ignores it. |
| HeldClient.Client.OnState | packages/client/src/nats-client-wrapper.ts:309-355 | Either raw edge closes the gate and starts a new lifecycle before any callout; undisturbed, the client is then offline. |
| HeldClient.Client.CloseClient | packages/client/src/nats-client-wrapper.ts:525-565 | Closing takes the hold away before anything else runs, and what was held is gone for good. |
| HeldClient.Client.OnError | packages/client/src/nats-client-wrapper.ts:430-480 | Terminal failure is set, and the hold taken away, before anything else runs; what was held is gone for good. |
| HeldClient.Client.Turn | packages/client/src/nats-client-wrapper.ts:1147-1218 | A turn of the event loop leaves no transaction open and takes nothing back, for every behaviour of embedder code. If nothing was stranded before, nothing is afterwards, unless clearing a timer runs embedder code and a release pass of this turn strands a send. |
| TurnTracking.FlagIsExact | packages/client/src/nats-client-wrapper.ts:846-865 | In every run an open turn shows; unless a close() is between its halves, the flag is up exactly while a turn is open. |
| TurnTracking.OnlyCloseLags | packages/client/src/nats-client-wrapper.ts:525-565 | While no close() owes its flip, a step leaves the flag inexact exactly if it begins a close() with a turn open. |
| TurnTracking.FlagLags | packages/client/src/nats-client-wrapper.ts:525-565 | A concrete run in which the flag is up and no turn is open, and the second half of the close repairs it. |
| TurnTracking.OpensAtMostOnce | packages/client/src/nats-client-wrapper.ts:846-865 | Each wire id enters the open turns at most once in a whole run. |
| TurnTracking.ReportOpens | packages/client/src/nats-client-wrapper.ts:846-865 | In every run the first published report of an unused send opens its turn, last in order, exactly if the send takes part in settlement, the transport is up and the client is neither terminal nor closed. |
| TurnTracking.FirstReportOpens | packages/client/src/nats-client-wrapper.ts:846-865 | The same for a send registered at any earlier step whose chance no report, settle, stop or raw loss has touched since. |
| TurnTracking.OverloadCloses | packages/client/src/nats-client-wrapper.ts:1818-1914 | In every run a failure report closes an open turn exactly if it is an overload rejection, and only that turn. |
| TurnTracking.ForfeitNeverOpens | packages/client/src/nats-client-wrapper.ts:909-934 | In every run a send that takes part in settlement and exists at an explicit stop, or had advanced when the transport was lost, never opens its turn later. |
| TurnTracking.SettleOpenTurn | packages/client/src/nats-client-wrapper.ts:874-969 | In every run a settle of any open turn closes it and the turns opened before it, and leaves exactly the later ones, in order. |
| TurnTracking.SettleEndsExactly | packages/client/src/nats-client-wrapper.ts:961-969 | Whatever callouts between the two halves do, the second half removes exactly the frozen prefix and no receipt. |
| TurnTracking.SettleElsewhere | packages/client/src/nats-client-wrapper.ts:874-880 | In every run a settle for a wire id that was never registered here, or belongs to the control lane, or whose turn was settled or lost before, changes nothing at all. |
| TurnTracking.SettledCannotOpen | packages/client/src/nats-client-wrapper.ts:895-907 | After a settle that raced its publish report, that report cannot open the turn. |
| TurnTracking.RacedSettleCloses | packages/client/src/nats-client-wrapper.ts:895-907 | In every run a settle that comes before its turn's first report closes, of the open turns, exactly those published before it. |
| TurnTracking.RacedSettleConsumes | packages/client/src/nats-client-wrapper.ts:895-907 | It uses up the chance of every eligible send published up to it, and of no later one. |
| TurnTracking.ConsumedStays | packages/client/src/nats-client-wrapper.ts:850-853 | A used-up opening chance stays used up, and its turn never opens later. |
| TurnTracking.StepKeepsInv | packages/client/src/nats-client-wrapper.ts:846-992 | Every step keeps aliases, latches, openings and the flag consistent. |
| TurnTracker.Tracker.ReceiptTransition | packages/client/src/nats-client-wrapper.ts:1818-1914 | The receipt funnel: guard, latch, opening, overload closing and flag in one transition. |
| TurnTracker.Tracker.ConsumeTurnOpeningsThrough | packages/client/src/nats-client-wrapper.ts:874-907 | The frozen prefix is that of the open set, or of the alias map for a raced settle. |
| TurnTracker.Tracker.ConsumeThrough | packages/client/src/nats-client-wrapper.ts:899-906 | Every eligible receipt up to the target loses its chance. |
| TurnTracker.Tracker.CloseTurnsThrough | packages/client/src/nats-client-wrapper.ts:961-969 | Exactly the frozen prefix closes. |
| TurnTracker.Tracker.OnState | packages/client/src/nats-client-wrapper.ts:309-355 | A raw loss consumes reported candidates and clears every open turn. |
| TurnTracker.Tracker.BeginClose | packages/client/src/nats-client-wrapper.ts:525-548 | The first half of close() clears open turns and owes the flip. |
| TurnTracker.Tracker.EndClose | packages/client/src/nats-client-wrapper.ts:549-565 | The second half flips the flag unless a replacement turn is open. |
| ApprovalOrigin.ComposeKeyInjective | packages/plugin/src/approval-origin.ts:204-206 | The composed key determines account and session. |
| ApprovalOriginRegistry.LeaseRegistry.ResolveRequest | packages/plugin/src/approval-origin.ts:306-347 | The method's guards and scan compute the specified answer and clock state. |
| ApprovalOriginRegistry.LeaseRegistry.StartEpoch | packages/plugin/src/approval-origin.ts:358-366 | Rotation clears poison, draws the barrier and rescans retained claims. |
| ApprovalOriginRegistry.LeaseRegistry.Tick | packages/plugin/src/approval-origin.ts:390-398 | A clock that is not finite or went back is distrusted until the next epoch. |
| ApprovalOriginRegistry.LeaseRegistry.DrawBarrier | packages/plugin/src/approval-origin.ts:374-383 | The barrier is the reading at the start of the epoch, if there is one. |
| ApprovalOriginRegistry.LeaseRegistry.Insert | packages/plugin/src/approval-origin.ts:400-408 | A claim joins its key and the overlap check follows. |
| ApprovalOriginRegistry.LeaseRegistry.Delete | packages/plugin/src/approval-origin.ts:410-415 | A released claim leaves, and an empty key with it. |
| ApprovalOriginRegistry.LeaseRegistry.PoisonOverlap | packages/plugin/src/approval-origin.ts:422-433 | A key is poisoned exactly when two origins are live on it. |
| ApprovalOriginRegistry.LeaseRegistry.Poison | packages/plugin/src/approval-origin.ts:440-450 | Past the cap, poison becomes global for the epoch. |
| ApprovalOriginRegistry.Lease.Start | packages/plugin/src/approval-origin.ts:270-291 | First activation only; a presence lease, a bad clock or an old epoch gives an unselectable claim. |
| ApprovalOriginRegistry.Lease.End | packages/plugin/src/approval-origin.ts:292-298 | Release takes the claim back once. |
| ApprovalOriginRuns.RunKeepsInv | packages/plugin/src/approval-origin.ts:238-243 | In every run the table is the live leases, and poison is exactly the keys that overlapped in this epoch, or global once they exceed the cap. |
| ApprovalOriginSafety.EverOverlappedIsSinceEpochStart | packages/plugin/src/approval-origin.ts:352-366 | The overlap record is the overlap of leases at some moment since the epoch began. |
| ApprovalOriginSafety.TrustedBarrier | packages/plugin/src/approval-origin.ts:374-398 | A trusted clock means the barrier was read this epoch and readings never went back. |
| ApprovalOriginCompleteness.TrustIsExact | packages/plugin/src/approval-origin.ts:374-398 | In every run the clock is trusted exactly while every reading of the epoch was finite and none was earlier than one before; the barrier is the first and the last observed the last. |
| ApprovalOriginCompleteness.DistrustRefuses | packages/plugin/src/approval-origin.ts:306-347 | After a reading that was not finite or went back, every request of the epoch is refused, whatever the clock says later. |
| ApprovalOriginCompleteness.KeysAreLive | packages/plugin/src/approval-origin.ts:400-415 | In every run the table has an entry for a key exactly while some lease is live on it. |
| ApprovalOriginSafety.StartWasRead | packages/plugin/src/approval-origin.ts:276-289 | A selectable start time was read from the clock in its own epoch. |
| ApprovalOriginSafety.ResolveIsExact | packages/plugin/src/approval-origin.ts:306-347 | The answer is that of the live leases, the overlap record and the window, in every run. |
| ApprovalOriginSafety.EligiblePeerIsUnique | packages/plugin/src/approval-origin.ts:332-346 | Without overlap there is at most one eligible peer. |
| ApprovalOriginSafety.ResolvedIsProved | packages/plugin/src/approval-origin.ts:306-347 | A resolved peer has a live claim on the raw account begun before the request, the request is in the window, and no two origins coexisted on the key in the epoch. |
| ApprovalOriginCompleteness.ProvedIsResolved | packages/plugin/src/approval-origin.ts:276-346 | The converse, in every run: a timely request, no overlap on its key in the epoch, overlaps within the cap, and a live origin lease of the exact raw account begun in its own epoch at a normal reading before the request: the answer is its peer. |
| ApprovalOriginCompleteness.RunningPeerIsResolved | packages/plugin/src/approval-origin.ts:255-346 | Read off the calls alone: with a clock that is finite and never goes back in the epoch, a lease created, begun and not finished in it, and a request made after that, the answer is its peer. |
| ApprovalOriginSafety.PoisonIsSticky | packages/plugin/src/approval-origin.ts:416-450 | Once a key overlapped it is never resolved again in that epoch, whatever is released. |
| ApprovalOriginSafety.PresenceOnlyWeakens | packages/plugin/src/approval-origin.ts:149-173 | Two runs that differ by one presence lease: every answer is the same, or ambiguous or poisoned, never a new peer. |
| ChaCha20.QuarterRound | packages/client/src/chacha20poly1305.ts:29-34 | In place, the quarter round changes its four words as the standard writes it and no other. |
| ChaCha20.QuarterInverts | packages/client/src/chacha20poly1305.ts:29-34 | The quarter round can be undone. |
| ChaCha20Vector.QuarterVector | packages/client/src/chacha20poly1305.ts:29-34 | The quarter round maps the input words of the test vector in section 2.1.1 of RFC 8439 to its output words. |
| ChaCha20.RotateBack | packages/client/src/chacha20poly1305.ts:21-23 | The two shifts of a rotation lose no bit. |
| ChaCha20.ComputeBlock | packages/client/src/chacha20poly1305.ts:43-97 | The block function: constants, key, counter and nonce words, ten double rounds, final addition, little-endian output. |
| CipherLayout.InitialBytes | packages/client/src/chacha20poly1305.ts:43-80 | The block starts from the bytes of the constant text, the key, the 32-bit counter and the nonce, in that order. |
| CipherLayout.DiagonalsAreColumns | packages/client/src/chacha20poly1305.ts:81-92 | The diagonal round is the column round of the matrix whose rows are rotated by their index. |
| ChaCha20.Encrypt | packages/client/src/chacha20poly1305.ts:107-123 | The block loop computes the data against the keystream, last partial block included. |
| ChaCha20.StreamUndoes | packages/client/src/chacha20poly1305.ts:99-123 | The same call decrypts, for every length. |
| ChaCha20.StreamSplits | packages/client/src/chacha20poly1305.ts:107-123 | Splitting at a block boundary is advancing the counter. |
| ChaCha20.CounterWraps | packages/client/src/chacha20poly1305.ts:75-75 | The block counter wraps at 32 bits. |
| Bytes.DecodeLE | packages/client/src/chacha20poly1305.ts:160-163 | Shift-and-OR decoding is the little-endian value. |
| Poly1305.ClampedR | packages/client/src/chacha20poly1305.ts:144-161 | Masking the bytes is the clamp of section 2.5.1 of RFC 8439. |
| Poly1305.ClampIsMask | packages/client/src/chacha20poly1305.ts:144-152 | The clamped number is r AND the standard's mask. |
| Poly1305.Accumulate | packages/client/src/chacha20poly1305.ts:166-178 | The loop's accumulator is the standard's polynomial modulo 2^130 - 5, and stays below it. |
| CipherLayout.CoefficientIs | packages/client/src/chacha20poly1305.ts:166-178 | A chunk's number is its bytes and a final one byte, little-endian, and is between 0 and the prime. |
| CipherLayout.SumByChunks | packages/client/src/chacha20poly1305.ts:166-178 | One more chunk adds its number and multiplies by r, from the first chunk on. |
| Poly1305.Authenticate | packages/client/src/chacha20poly1305.ts:139-183 | The tag is the sum plus s modulo 2^128 in 16 bytes. |
| Poly1305.Serialize | packages/client/src/chacha20poly1305.ts:169-182 | Masking and shifting out bytes is the little-endian encoding. |
| Poly1305.TagValue | packages/client/src/chacha20poly1305.ts:139-183 | The tag decodes to the standard's number. |
| Aead.BuildMacInput | packages/client/src/chacha20poly1305.ts:271-288 | Both inputs padded to 16 bytes and both 64-bit lengths, at the computed offsets. |
| CipherLayout.PaddingIsShortAndZero | packages/client/src/chacha20poly1305.ts:264-288 | Each input is followed by fewer than 16 zero bytes, up to a multiple of 16. |
| CipherLayout.MacInputLayout | packages/client/src/chacha20poly1305.ts:271-288 | Padded data, padded ciphertext and the two lengths stand at their offsets. |
| Aead.MacInputInjective | packages/client/src/chacha20poly1305.ts:264-288 | Different inputs below 2^64 bytes have different authenticated messages. |
| Aead.FullChunks | packages/client/src/chacha20poly1305.ts:271-293 | Every chunk the authenticator reads is a full block. |
| Aead.DifferentPolynomials | packages/client/src/chacha20poly1305.ts:264-288 | Different inputs are authenticated by different polynomials. |
| Aead.TimingSafeEqual | packages/client/src/chacha20poly1305.ts:189-194 | The accumulated difference is zero exactly for equal arrays. |
| Aead.EncryptAndSeal | packages/client/src/chacha20poly1305.ts:209-227 | Ciphertext from block 1, tag under the one-time key of block 0. |
| Aead.VerifyAndDecrypt | packages/client/src/chacha20poly1305.ts:242-261 | Fails exactly when the tag is not the recomputed one, before decrypting. |
| CipherLayout.OneTimeKeyBlockIsUnused | packages/client/src/chacha20poly1305.ts:209-261 | The block that gives the one-time key encrypts no byte of any message below 2^32 blocks. |
| CipherLayout.BlocksDiffer | packages/client/src/chacha20poly1305.ts:99-123 | No two blocks of such a message start from the same state. |
| CipherLayout.BlockIsTwentyRounds | packages/client/src/chacha20poly1305.ts:75-97 | A block is ten column rounds and ten diagonal rounds in turn, plus the state. |
| Aead.RoundTrip | packages/client/src/chacha20poly1305.ts:209-261 | Opening what was sealed gives the plaintext back, for every length. |
| Aead.OpensIffSealed | packages/client/src/chacha20poly1305.ts:242-261 | A message opens to a plaintext exactly when sealing that plaintext gives the message. |
| Debounce.RunKeepsInv | packages/plugin/src/bounded-inbound-debouncer.ts:122-151 | In every run: push order, generations, cancellation marks, pins and workers agree. |
| Debounce.StepKeepsInv | packages/plugin/src/bounded-inbound-debouncer.ts:176-369 | Every operation, timer and continuation keeps that. |
| Debounce.FlushedInPushOrder | packages/plugin/src/bounded-inbound-debouncer.ts:290-304 | Batches of a key start in push order and no entry reaches a flush twice. |
| DebounceAccounts.NothingIsLost | packages/plugin/src/bounded-inbound-debouncer.ts:290-369 | In every run an accepted entry is waiting, in a queued batch or taken by a flush, unless the key was cancelled after its push or the debouncer disposed. |
| DebounceAccounts.NoReservationIsLost | packages/plugin/src/bounded-inbound-debouncer.ts:150-212 | In every run an accepted entry is waiting, in flight, or has asked for its reservation's release, unless the dispatcher took the reservation over when a flush ended. |
| DebounceAccounts.FlushGivesBack | packages/plugin/src/bounded-inbound-debouncer.ts:270-288 | When a flush ends, an entry no cancellation claimed is out of flight, and its reservation is back in the budget exactly if the dispatcher did not take it over. |
| DebounceAccounts.CancelReachesAll | packages/plugin/src/bounded-inbound-debouncer.ts:455-545 | In every run a cancellation reaches every entry in flight or waiting: notified once and kept in flight, or settled at once. |
| DebounceCancellations.SettleIs | packages/plugin/src/bounded-inbound-debouncer.ts:176-212 | One settlement pass does exactly this to each entry: a flush skips what a cancellation claimed and leaves transferred reservations; a stop lets go of everything named, a retirement not of a begun callback's hold. |
| DebounceCancellations.NotifiedOnce | packages/plugin/src/bounded-inbound-debouncer.ts:461-505 | In every run an entry is handed to at most one cancellation callback. |
| DebounceCancellations.CallbackIsPinned | packages/plugin/src/bounded-inbound-debouncer.ts:188-206 | In every run the reservation of an entry whose cancellation callback runs is back in the budget exactly if a cancelKey without a word on notification settled it after it was claimed and no running flush pins it. |
| DebounceCancellations.SilentCancelUnpins | packages/plugin/src/bounded-inbound-debouncer.ts:529-533 | A run in which that happens. |
| DebounceCancellations.ClaimedOutlivesFlush | packages/plugin/src/bounded-inbound-debouncer.ts:184-187 | A flush that unwinds while a cancellation owns an entry leaves it in flight and its reservation held. |
| DebounceCancellations.IdleKeyIsForgotten | packages/plugin/src/bounded-inbound-debouncer.ts:209-212 | In every run a key with nothing waiting, in flight or under way has forgotten its generation. |
| DebounceCancellations.RetirementSevers | packages/plugin/src/bounded-inbound-debouncer.ts:529-570 | A retirement empties the running callback's array, the queued batches and the queued cancellations. |
| Debounce.NothingCancelledStarts | packages/plugin/src/bounded-inbound-debouncer.ts:455-545 | In every run, once the key was cancelled or the debouncer disposed, no flush starts for an entry pushed before that and not flushed yet, whatever the cancellation found to do. |
| Debounce.RunningIsPinned | packages/plugin/src/bounded-inbound-debouncer.ts:242-288 | While a flush runs no reservation it was given returns to the budget. |
| Debounce.ArrayIsPinned | packages/plugin/src/bounded-inbound-debouncer.ts:318-328 | Retirement may empty the callback's array but never widens it. |
| Debounce.QueuedHasWorker | packages/plugin/src/bounded-inbound-debouncer.ts:290-316 | A queued batch always has a worker that will come to it. |
| DebounceWorkers.OneWorker | packages/plugin/src/bounded-inbound-debouncer.ts:290-316 | Over every run of chain objects and pump continuations of a key, chains dropped and made anew included, at most one continuation is under way, so at most one flush runs. |
| DebounceWorkers.QueuedHasWorker | packages/plugin/src/bounded-inbound-debouncer.ts:290-316 | A chain with a batch queued is the one in the table and has a worker under way: no batch is lost with a dropped chain. |
| DebounceWorkers.TurnMatches | packages/plugin/src/bounded-inbound-debouncer.ts:290-304 | A continuation's turn is what the scheduler's one record calls starting the next batch. |
| DebounceWorkers.FinishMatches | packages/plugin/src/bounded-inbound-debouncer.ts:306-315 | A continuation's own end is what the record calls the end of the worker. |
| DebounceWorkers.CancelMatches | packages/plugin/src/bounded-inbound-debouncer.ts:455-545 | A cancellation empties the chain exactly when it retires and finds something; the record agrees. |
| Debouncer.Key.Push | packages/plugin/src/bounded-inbound-debouncer.ts:441-452 | A first entry opens a bucket and asks for its timer; later ones join it. |
| Debouncer.Key.DetachAndQueue | packages/plugin/src/bounded-inbound-debouncer.ts:339-369 | A stale timer does nothing; a current one moves the bucket to the worker under the key's generation. |
| Debouncer.Key.NextBatch | packages/plugin/src/bounded-inbound-debouncer.ts:270-304 | A batch of an old generation is settled without its callback. |
| Debouncer.Key.FinishFlush | packages/plugin/src/bounded-inbound-debouncer.ts:280-287 | Settlement, then the release of exactly the pins of that flush. |
| Debouncer.Key.EndWorker | packages/plugin/src/bounded-inbound-debouncer.ts:306-315 | A batch queued meanwhile gets a new worker, else the chain and a spent generation go. |
| Debouncer.Key.CancelKey | packages/plugin/src/bounded-inbound-debouncer.ts:455-545 | The union of in-flight and waiting entries is cancelled once, notified or settled, and the generation moves. |
| Debouncer.Key.SettleEntries | packages/plugin/src/bounded-inbound-debouncer.ts:176-212 | One pass decides per entry by owner: pending cancellation wins over an unwinding flush. |
| Debouncer.Key.Dispose | packages/plugin/src/bounded-inbound-debouncer.ts:551-570 | Everything waiting or in flight is retired and nothing captured stays. |

## Left out

- I/O: WebSocket, HTTP, registration, sealing and WebCrypto are not modelled. Sealing is the identity on messages, and the transport accepts or refuses a frame as the environment decides; a refusal drops the connection.
- Timers and random delays: a clock reading or a delay is any integer the environment returns. The delay `armLiveRetryTimer` computes is not modelled; an armed timer may fire at any time, and `setTimeout` never calls back at once.
- Send-state events: an event that is queued behind another fanout is modelled as delivered where it is emitted, which gives embedder code more places to act, not fewer.
- Raw connection generations: a registration flow is identified by its connection epoch alone.
- `pendingInbound`: the frames buffered before the key are a parameter of `EstablishSession`; only their results matter to the send path.
- SendPathClient.Client.EstablishSession: requires that the flow that owns the epoch has not installed its key yet, which OnConnected ensures of the epoch it returns; the source's flow installs it once.
- SendPathClient.Client.Disconnect: promises nothing for an id that was neither owned nor finished before the call; there is none when a turn of the event loop begins.
- The clock answers the class constant `clock`, and a random delay the same, when the environment does not say otherwise; the undisturbed outcomes are stated for that answer.
- Receipt subscribers and bubbles: `TurnTracker` has no callouts inside a transition; a settle's callouts come between its two halves, as any other steps.
- HeldClient.Client.CloseClient: does not model `connect()` from inside a `close()` callout, the deferred replacement operations of that transaction, or a stop whose own publish throws.
- The hold's own stall episode and timer are not modelled beyond the callout they may make.
- History rows carry the id, role, text and time the merge reads; their other fields are not modelled.
- FrameReader.Reader.OnMessage: lines are compared as bytes, without UTF-8 decoding; CONNECT signing and heartbeats are left out, and the two causes of a terminal error are one ending.
- `normalizeAccountId` is an uninterpreted canonical form without spaces.
- Debounce.Legal: one key at a time; other keys share only the disposed flag. Budget rejections, duplicate ids and known outcomes leave the scheduler's state alone and are left out, with the id index.
- `usage()` and `diagnostics()` of the debouncer only count.
- The approval snapshot reducer, the reasoning and tool-activity surfaces, and the markdown parser are not modelled.
- No claim is made for an acknowledgement of an id that a reconnect has already moved back to the queue: it may be accepted and later fail.
