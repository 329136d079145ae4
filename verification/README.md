# A verified model of the DongLoRa Rust client

`donglora-client` talks to a LoRa radio over one byte stream. Many tasks share that stream: each
command takes a 16-bit tag, files a one-shot sender in a map under it, writes, and races a timeout
against a reader task that hands responses back by tag. On top sit a keepalive task, automatic
recovery from a device that forgot its configuration, a retry loop with backoff, and a connection
chain that prefers a mux daemon to a serial port. This project models that logic in Dafny and proves
what it promises, or exactly when it keeps the promise.

Verify with `dafny verify dfyconfig.toml`.

## The files

| file | content |
|---|---|
| `Protocol.dfy` | commands, frames, responses, errors; payload parsers are an arbitrary `Codec` |
| `Tags.dfy` | the tag counter and its closed form |
| `Dispatch.dfy` | the reader with no other task interleaved: a fold over frames, and its per-tag description |
| `Replies.dfy` | what a response, a typed helper's result and a queued event say about their frames |
| `Session.dfy` | the session object, one method per uninterrupted stretch of code |
| `Ledger.dfy` | who holds each command's one-shot sender; what each critical section does to that |
| `Multiplexer.dfy` | the concurrent session: one action per lock acquisition, channel operation or completed await |
| `Ideal.dfy`, `IdealOutcomes.dfy` | the ideal session: identities never reused, no map; what it guarantees each command |
| `Refinement.dfy` | the tagged session simulates the ideal one, under the window hypothesis |
| `Outcomes.dfy` | conservation of senders, at most one resolution, own responses only |
| `Lifecycle.dfy` | drains, leftovers in the map, which callers can move and which hang in their write |
| `EventStreams.dfy` | RX and error queues; agreement of the concurrent and the sequential reader |
| `TagWrap.dfy` | the window hypothesis is needed, and its size exactly right |
| `Histories.dfy` | a property that steps break and mend holds at the end iff every break was mended |
| `RxFlag.dfy` | the cached receive flag against the device, under all interleavings, with recovery, lost replies and inactivity expiry |
| `Keepalive.dfy` | the keepalive loop as a timed system |
| `Retry.dfy` | the retry loop, its backoff, its tags |
| `Recovery.dfy` | the dongle's methods against a device that can forget, refuse and lose replies |
| `ConfigRace.dfy` | the keepalive re-sending a copy of the configuration while `set_config` runs |
| `RxConsumers.dfy` | `recv_rx` and `next_rx` sharing the lock of the RX queue |
| `Endpoint.dfy` | the TCP endpoint parser and printer |
| `MuxChain.dfy` | the connection chain and the sticky mux flag |

## How the concurrent session is stated

A command is identified by its allocation number, an unbounded integer the code never sees. A run is
any sequence of enabled actions of any number of callers, the reader, the closer, the device and the
queue consumers. The `remove` and re-`insert` inside `dispatch` are two actions, so are the closed
check and the insert in `send_command`; a timeout may fall between the former, a close between the
latter; the reader's exit does not set `closed`; an insert may follow a drain; an abort may strike at
any await of the reader. The callers at the writer lock stand in order of arrival, as the lock is granted;
the transport lets the write under way complete, stalls it, or fails it, changing its mind at any time.

The device is assumed to answer only commands that have reached the transport, under their tags, in any
number, order and content. The *window hypothesis* (`Refinement.Window`) is that fewer than 65535 tags
are allocated after a command while its caller has not returned, a frame answering it is in flight, or
the reader holds its entry. It is needed for correlation only: conservation, single resolution, drains,
progress, ownership of map entries and the event streams are proved without it.

A caller's progress needs one thing of the environment: `send_command`'s timeout covers the wait for the
answer, not the write. While the transport does not stall, every caller can reach its result by its own
steps and two of each caller ahead of it at the lock, and not without those; while it stalls, the caller
inside its write and every caller behind it hang, and closing the session does not wake them
(`Lifecycle.HasOwnStepIff`, `CanFinish`, `NoOvertaking`, `StallHangsWriters`).

## What the proofs found

* With one allocation more than the window allows, a caller is given the answer to another's command
  (`TagWrap.WrapMisdelivers`), or the map insert overwrites a waiting command, whose caller is told
  `ReaderExited` while the reader runs and whose clean-up then kills the newer command too
  (`TagWrap.WrapMisleads`). 65535 is exactly the largest window that is safe (`TagWrap.CorrelatedIff`).
* A write has no deadline. A stalled transport hangs its caller and all later writers through close and
  drain (`Lifecycle.CloseLeavesWriterHanging`), though src/session.rs:185 says no caller hangs for ever.
* The keepalive has no margin over the device's 1000 ms timer. The documentation speaks of a 2x margin,
  but a command just after the loop went to sleep makes it skip a ping, so silence can last two intervals
  plus scheduling delay (`Keepalive.StaysWithinDeviceTimerIff`).
* Calls that mark a write and then send nothing suppress pings: `rx_start` on a started dongle, `tx` and
  `tx_with_retry` with an empty payload, any call the session refuses. Each such mark since the last write
  costs one interval and one overshoot, no more and no less (`Keepalive.GapBounded`,
  `Keepalive.TwoIntervalsReached`), so repeated they let the silence grow without bound.
* Recovery re-applies the configuration but leaves the receive flag up although SET_CONFIG ends reception
  (src/dongle.rs:298 says so for `set_config`), and so do the device's own inactivity timer and a stop or
  `set_config` that executes and whose reply is lost; from then on `recv` listens to a deaf device. `RxFlag.SoundIff` and
  `Recovery.FlagHistoryIff` say exactly when the flag ends up wrong; the runs named `...Misleads` show each
  cause.
* A keepalive round can overwrite a configuration the user has just set with the copy it took before
  (`ConfigRace.StaleCopyWins`); `ConfigRace.DisagreesIff` says exactly when.
* `recv_rx`'s timeout does not cover its wait for the queue's lock. Behind others it can wait for all their
  timeouts added up (`RxConsumers.WaitExact`), and behind a `next_rx` without limit
  (`RxConsumers.WaitBoundedIff`).
* `max_attempts == 0` reaches the line the code calls unreachable; the model returns that error.
* Once sticky, `connect_with` waits at the default socket path, which need not be the socket
  `find_mux_socket` found, and `try_connect_with` ignores the TCP variable (`MuxChain.StickyWaitsInVainIff`,
  `MuxChain.StickyTryLosesMuxIff`).

## Model

| member | source | states |
|---|---|---|
| Tags.NextTagIsNth | src/session.rs:98-109 | wrapping increment that skips 0 produces tag 1 + (n mod 65535) for the n-th allocation, so never 0 |
| Tags.SameTagIff | src/session.rs:98-109 | two allocations share a tag exactly when they are a multiple of 65535 apart |
| Tags.WindowDistinct | src/session.rs:98-109 | any 65535 consecutive allocations have pairwise distinct tags |
| Tags.TagCounter.AllocTag | src/session.rs:98-109 | each call hands out the closed-form tag of its number and keeps the counter consistent |
| Dispatch.BatchingIrrelevant | src/session.rs:285-314 | how frames are grouped into reads does not change the outcome |
| Dispatch.PerTagProjection | src/session.rs:365-412 | entry left and responses sent for a tag are those of a one-tag description over the frames of that tag only |
| Dispatch.QueueProjection | src/session.rs:339-363 | the two queues grow by exactly the packets and errors of tag-0 frames and decode failures |
| Dispatch.ReorderingIrrelevant | src/session.rs:330-412 | frame lists that agree per tag and on the asynchronous part leave the same map, queues and per-tag responses |
| Dispatch.NoNewKeys | src/session.rs:366-377 | dispatching never adds or alters an entry |
| Dispatch.TxAcksAreStutter | src/session.rs:371-377 | erasing all OK frames for outstanding TX tags leaves the final state identical, response order included |
| Dispatch.TxAnswers | src/session.rs:371-411 | a TX waker is sent TX_DONE or an error only; `transmit`'s last arm is unreachable |
| Dispatch.TransmitOkIff | src/session.rs:244-261 | `transmit` is Ok(td) iff the first non-OK frame of its tag is a TX_DONE decoding to td with Transmitted |
| Replies.AnswerIff | src/session.rs:379-411 | a waker of any command type is sent exactly the response that conveys its frame: empty, info or configuration for an OK with that payload, TX_DONE as decoded, the error of the decoded code, BadFrame with its text otherwise |
| Replies.CommandAnswered | src/session.rs:365-411 | a command is sent nothing until a frame of its tag is final for it, and then once, to its own waker, exactly the response that conveys that frame |
| Replies.HelpersConvey | src/session.rs:201-242 | ping, rx_start, rx_stop, get_info and set_config succeed with, and fail with, exactly what the frame conveys |
| Replies.TransmitReturns | src/session.rs:244-261 | `transmit` returns, success or failure, exactly what the first non-OK frame of its tag conveys: ChannelBusy and Cancelled by the TX_DONE, errors by code, BadFrame if undecodable |
| Replies.EventsQueued | src/session.rs:339-363 | the RX queue gains exactly one packet per tag-0 RX frame that decodes, in order and with its value; the error queue one error per corrupt frame, undecodable RX and tag-0 ERR, with its value |
| Replies.PlacesDiffer | src/session.rs:339-363 | no two frames share a queue entry |
| Replies.PlaceHasWork | src/session.rs:339-363 | no queue entry comes from nowhere |
| SessionObject.Session.Begin | src/session.rs:121-124 | a closed session allocates nothing; an open one hands out the tag of the next allocation, never 0 |
| SessionObject.Session.DispatchOne | src/session.rs:330-412 | the in-place dispatch of a frame computes the specified state, keeping tag 0 out of the map |
| SessionObject.Session.DispatchBatch | src/session.rs:304-313 | the loop over a batch computes the fold of dispatch |
| SessionObject.Session.Drain | src/session.rs:315-322 | empties the map and sends each former entry exactly one response carrying the teardown error |
| SessionObject.Session.Close | src/session.rs:183-192 | sets the flag and drains |
| SessionObject.Session.ReaderLoop | src/session.rs:276-323 | over its whole life the reader gives each entry outstanding at the start exactly one response, and the queues exactly the asynchronous events; a closed session dispatches nothing |
| SessionObject.Session.TakeRx | src/session.rs:161-170 | hands out the oldest queued packet, or none and changes nothing |
| SessionObject.Session.DrainAsyncErrors | src/session.rs:172-179 | returns all queued errors in order and leaves none |
| Ledger.FileValid | src/session.rs:126-129 | inserting, even over another entry, keeps every sender in exactly one place |
| Ledger.DiscardValid | src/session.rs:134 | removing whatever is at a tag keeps every sender in exactly one place |
| Ledger.TakeOneValid | src/session.rs:366 | so does the reader's remove |
| Ledger.PutBackValid | src/session.rs:375 | so does the reader's re-insert |
| Ledger.AllToReaderValid | src/session.rs:316-319 | so does the reader's exit drain taking the map |
| Ledger.AllToCloserValid | src/session.rs:186-189 | so does the close drain taking the map |
| Multiplexer.InvRun | src/session.rs:111-149 | every run of callers, reader and closer keeps the invariant of the ledger, the hands and the wire |
| Outcomes.WakerConservation | src/session.rs:124-148 | in every reachable state each command's sender is in exactly one place; no window hypothesis |
| Outcomes.ResolvedAtMostOnce | src/session.rs:183-197 | no command is resolved twice by dispatch and the two drains together, in any run |
| Refinement.Simulation | src/session.rs:98-149 | within the window each step of the tagged session is a step of the ideal session (an overwrite first forgets a departed command) |
| Refinement.Refines | src/session.rs:98-149 | within the window every run of the tagged session is a run of the ideal session, ending in the corresponding state |
| IdealOutcomes.IInvRun | src/session.rs:365-412 | in every ideal run each command is sent the answer to its own first final letter, or a teardown error |
| IdealOutcomes.OthersUntouched | src/session.rs:365-377 | an ideal action about one command changes no other, and one about none, a drain's start aside, changes none |
| Outcomes.OwnResponseOnly | src/session.rs:138-139 | a caller receives the answer to the first final frame about its own command, or the teardown error |
| Outcomes.ResponseConveys | src/session.rs:138-139 | under concurrency too, what a caller of any command type receives is the teardown error or exactly what the first final frame about it conveys |
| Outcomes.OwnErrorsOnly | src/session.rs:133-147 | otherwise a write failure, its own timeout, or ReaderExited, the last only when the reader has exited |
| Lifecycle.ErrorIff | src/session.rs:133-147 | in every run, without window: an unanswered caller fails with its timeout iff its own timeout fired, with a write error iff its write failed so, with ReaderExited iff it found its one-shot dropped; with nothing else |
| Outcomes.TransmitSound | src/session.rs:244-261 | under concurrency `transmit` is Ok only for a TX_DONE(Transmitted) that is the first frame about it besides acknowledgements |
| Outcomes.TransmitOutcomeConveys | src/session.rs:244-261 | under concurrency `transmit` returns, success or failure, exactly what the first frame about it besides acknowledgements conveys, unless torn down or failed by itself |
| Lifecycle.DrainTakesAll | src/session.rs:315-319 | a drain leaves the map empty and holds every entry that was in it |
| Lifecycle.DrainCompletes | src/session.rs:183-197 | whatever else runs, an entry in a drain's hand is resolved exactly once, by that drain, with its teardown error, before the drain can end |
| Lifecycle.ClosedAdmitsNobody | src/session.rs:121-124 | once closed, the only tags still taken are those of callers already past the check |
| Lifecycle.LeftoverBirth | src/session.rs:371-377 | an entry outlives its caller only if the reader re-inserts a TX entry whose caller returned meanwhile |
| Lifecycle.PendingOwners | src/session.rs:126-148 | in every run, each entry belongs to a caller writing, waiting or about to remove it, or is such a TX leftover |
| Lifecycle.LeftoverDeath | src/session.rs:366-377 | within the window a leftover goes only through a frame for its tag, a drain, or a later insert under the same tag |
| Lifecycle.HasOwnStepIff | src/session.rs:133-159 | a caller that has not returned has a step of its own iff it is not queueing for the writer lock or inside a stalled write |
| Lifecycle.CanFinish | src/session.rs:133-159 | in every state of every session, while the transport does not stall, a caller can reach its result by at most six steps of its own and two of each caller ahead of it at the writer lock, without device, reader or closer |
| Lifecycle.NoOvertaking | src/session.rs:155-157 | in every run nobody at the writer lock gets past its write before everyone ahead of it has |
| Lifecycle.StallHangsWriters | src/session.rs:151-159 | while the transport is stalled no caller inside, at or coming to its write gets past it, whatever is drained or closed |
| Lifecycle.CloseLeavesWriterHanging | src/session.rs:183-197 | a run in which the session is closed, the caller's entry drained and answered, and the caller still stuck in its write |
| Lifecycle.SixStepsAtMost | src/session.rs:121-149 | at most six own steps bring a caller to its result, which never changes, before or after any drain |
| EventStreams.StreamsConserved | src/session.rs:161-179 | at every point of every run packets handed out then queued are those of the frames dispatched so far, in order; likewise errors |
| EventStreams.StreamsOfSession | src/session.rs:297-313 | so in every run of a session from its start |
| EventStreams.EventsOfSession | src/session.rs:161-179 | packets handed out then queued are one per dispatched tag-0 RX frame that decodes, in order, with its value; likewise errors |
| EventStreams.UndisturbedDispatch | src/session.rs:365-412 | the reader's two critical sections, undisturbed, equal the sequential dispatch |
| TagWrap.WrapMisleads | src/session.rs:128-143 | 65535 allocations after a waiting command, its successor drops its sender; it fails with ReaderExited and drops the successor's |
| TagWrap.WrapMisleadsFromStart | src/session.rs:98-143 | such a run exists from the start of a session |
| TagWrap.WrapMisdelivers | src/session.rs:366-404 | a run in which the only frame sent is about command 0 and command 65535 receives the answer to it |
| TagWrap.CorrelatedIff | src/session.rs:98-149 | for every window size w: all runs within w give every caller its own response iff w is at most 65535 |
| TagWrap.TruthfulIff | src/session.rs:133-147 | for every window size w: all runs within w give every caller only errors of its own iff w is at most 65535 |
| RxFlag.FlagSafety | src/dongle.rs:235-264 | in every run without automatic recovery, lost replies or inactivity expiry the flag implies reception or an executed stop/set_config still to clear it; with nothing in progress a raised flag is true |
| RxFlag.SoundStepIff | src/dongle.rs:235-264 | for every action, recovery, lost replies and expiry included: a flag up or about to be raised stays sound iff the action mends it, or finds it sound and does not mislead |
| RxFlag.ReceivingIff | src/dongle.rs:298 | the device is receiving iff reception has begun and no silencing has come after the last beginning |
| RxFlag.SoundIff | src/dongle.rs:235-301 | over every run: the flag ends sound iff each misleading step (expiry, re-application or lost stop behind a raised or executing start, or the flag set after recovery on a silenced device) was mended later |
| RxFlag.QuiescentFlagTrueIff | src/dongle.rs:235-301 | with nothing in progress a raised flag is true under exactly that condition |
| RxFlag.BackgroundReconfigMisleads | src/dongle.rs:351-356 | a run in which re-application leaves the flag up on a silent device with nothing to correct it |
| RxFlag.ExpiryMisleads | src/dongle.rs:18-22 | likewise when the device's inactivity timer ends reception, with no keepalive to re-apply anything |
| RxFlag.ReconfigUnderStartMisleads | src/dongle.rs:242-252 | likewise when it comes between an rx_start's execution and its reply, the flag still down |
| RxFlag.ReapplyMisleads | src/dongle.rs:243-248 | likewise when a recovering rx_start re-applies behind the flag another has raised |
| RxFlag.LostStopMisleads | src/dongle.rs:258-264 | likewise when a stop executes and its reply is lost |
| RxFlag.RecoveringStartMisleads | src/dongle.rs:243-248 | a run in which a stop between the second RX_START and the flag update is forgotten |
| RxFlag.StaleFlagStarves | src/dongle.rs:268-288 | a stale flag stays stale under any number of further starts and re-applications |
| Keepalive.GapBounded | src/dongle.rs:118-153 | in every run silence lasts at most max(1000, 500 + latency) + overshoot + write lag, and one interval and overshoot more for each mark without write since the last write |
| Keepalive.ExtraIs | src/dongle.rs:127-130 | what n marks without write add is n times interval plus overshoot |
| Keepalive.TwoIntervalsReached | src/dongle.rs:127-130 | two intervals plus overshoot, and the full addition for marks without write, are approached arbitrarily closely |
| Keepalive.SlowPingReached | src/dongle.rs:131-134 | the latency term of the bound is attained, with the full addition for marks without write |
| Keepalive.StaysWithinDeviceTimerIff | src/dongle.rs:18-22 | silence stays within 1000 ms in all runs iff there is no overshoot, no write lag, no mark without write and latency at most 500 ms |
| Keepalive.BareMarksUnbound | src/dongle.rs:235-241 | marks without write, one as each sleep ends, suppress every ping: silence of any length |
| Retry.FloorsMonotoneIff | src/dongle.rs:224-225 | with multiplier >= 1 and cap <= 2^24 the floors never decrease iff min <= cap |
| Retry.FloorClosedForm | src/dongle.rs:203-225 | for multiplier 2 and cap <= 2^24 the k-th floor is min(cap, min * 2^(k-1)), single precision included |
| Retry.BackoffBounded | src/dongle.rs:221-225 | each wait is at most max(min, cap) + spread, the total at most (max_attempts - 1) times that |
| Retry.WaitClosedForm | src/dongle.rs:221-225 | for multiplier 2 each wait is the k-th floor plus that retry's draw from the spread |
| Retry.JitterReachesIff | src/retry.rs:60-67 | the range of the jitter is 0 to the saturating difference |
| Retry.CompleteLogUnique | src/dongle.rs:204-228 | the replies determine the attempt log |
| Retry.LogShape | src/retry.rs:96-98 | all entries but the last are ChannelBusy or Busy, and the eight-bit length is exact |
| Retry.StopsAtFirstNotBusy | src/dongle.rs:214-220 | every attempt before the last met ChannelBusy or Busy, and the last did not unless it was the last allowed |
| Retry.LogAndResult | src/dongle.rs:208-220 | the log records how each attempt ended, I/O errors as text; the result is how the last ended, with its airtime and the log iff a success; one frame on the wire per attempt but a last that did not get there |
| Retry.OnlyLastMayMiss | src/dongle.rs:204-228 | the frames on the wire number the attempts, less one if the last ended before or in its write |
| Retry.TransmitOnce | src/session.rs:111-136 | one frame under the freshly allocated tag iff the payload is not empty, the session open, the encoding fine and the write reached the transport; a tag is taken even if the last two fail |
| Retry.TxWithRetry | src/dongle.rs:200-232 | the loop produces the complete log, the last reply as result, one wait of floor plus jitter before each retry, and one TX per attempt that got past the closed check and the encoder and reached the transport, under distinct tags |
| Recovery.AgreementStepIff | src/dongle.rs:291-301 | an event keeps device and cache in agreement iff it is not a set_config for another configuration that executed and whose reply was lost |
| Recovery.AgreementKept | src/dongle.rs:131-147 | over any history with configuration replies delivered a configured device holds exactly the cached configuration |
| Recovery.RecoveryRestores | src/dongle.rs:358-367 | an accepted recovery gives a device that forgot everything the cached configuration back, iff the refusal arrives |
| Recovery.TxCallBounded | src/dongle.rs:187-194 | a tx call sends TX, TX+SET_CONFIG or TX+SET_CONFIG+TX, the last only after the configuration succeeded; what it returns and leaves behind is given from the event alone, the second TX's reply after a recovery |
| Recovery.TxSucceedsIff | src/dongle.rs:358-367 | it succeeds with td iff the last TX it sent was answered with td by a configured device |
| Recovery.RxStartBounded | src/dongle.rs:235-255 | a start sends nothing when the flag is up, else at most two RX_START and one SET_CONFIG; success raises the flag; the device is left receiving iff it succeeds, or an executed RX_START's reply was lost, or it was receiving and was not reconfigured |
| Recovery.RxStartReturns | src/dongle.rs:242-254 | a start returns the reply to its last RX_START, or the error of the re-configuration |
| Recovery.RxStopReturns | src/dongle.rs:258-264 | a stop returns the reply to its RX_STOP and takes the flag down iff that is a success |
| Recovery.SetConfigReturns | src/dongle.rs:291-301 | a set_config caches the echo and takes the flag down iff it succeeds, and else returns the error and changes neither |
| Recovery.KeepaliveSends | src/dongle.rs:131-147 | a round sends a PING, and a SET_CONFIG iff that was refused and a configuration is cached; it changes neither cache nor flag |
| Recovery.FlagStepIff | src/dongle.rs:258-301 | an event leaves a raised flag true iff it takes the flag down, or finds it true and is none of expiry, re-application, executed stop or set_config with its reply lost |
| Recovery.FlagHistoryIff | src/dongle.rs:258-301 | over every history the flag ends true iff every such event behind a raised flag was followed by a successful stop or set_config |
| Recovery.DeafUntilReset | src/dongle.rs:268-288 | a device gone silent behind a raised flag stays silent through any history without a stop or set_config call |
| Recovery.Dongle.TxWithTimeout | src/dongle.rs:187-194 | the method on the mutable fields does exactly the specified operation; a closed dongle sends nothing |
| Recovery.Dongle.StartRx | src/dongle.rs:235-255 | likewise for rx_start |
| Recovery.Dongle.StopRx | src/dongle.rs:258-264 | likewise for rx_stop |
| Recovery.Dongle.SetConfiguration | src/dongle.rs:291-301 | likewise for set_config: cache the echo, take the flag down |
| Recovery.Dongle.KeepaliveRound | src/dongle.rs:131-147 | likewise for the keepalive's ping and recovery, which does not store the echo |
| ConfigRace.DisagreesIff | src/dongle.rs:135-141 | in every run, with nothing in progress device and cache disagree iff the device's last change is a keepalive's re-send, the cache was stored to after its copy was taken, and the last store was of another configuration than the copy had seen |
| ConfigRace.ClearRoundsAgree | src/dongle.rs:131-147 | they agree in every run in which no keepalive round, from copy to re-send, overlaps a set_config between its execution and its store |
| ConfigRace.StoreAfterResend | src/dongle.rs:294-297 | a run in which they disagree though no part of set_config falls between copy and re-send |
| ConfigRace.StaleCopyWins | src/dongle.rs:135-141 | a run in which the keepalive's stale copy replaces a configuration just set with success |
| RxConsumers.HasOwnStepIff | src/session.rs:161-170 | in every state a waiting consumer can return iff it is first at the lock and has a packet, the end of the stream or, counted from getting the lock, its timeout |
| RxConsumers.ArrivalsConserved | src/session.rs:161-170 | in every run the packets returned, in order of service, then those queued are the packets that arrived |
| RxConsumers.EmptyHandedIff | src/session.rs:161-170 | a served consumer returns without a packet iff none is queued, and only at the end of the stream or on its timeout |
| RxConsumers.ListenerBlocksTimeouts | src/session.rs:161-164 | behind a next_rx no recv_rx returns, whatever its timeout, until a packet arrives or the reader goes |
| RxConsumers.WaitExact | src/session.rs:161-164 | without next_rx ahead, a consumer waits at most for its own timeout and those of all ahead with no packet queued, added up; exactly that long if no packet comes |
| RxConsumers.WaitBoundedIff | src/session.rs:161-170 | a consumer's wait is bounded iff the reader is gone or no next_rx is among those, up to itself, with no packet queued |
| Endpoint.PortRoundTrip | src/connect.rs:358-367 | printing a port and parsing it gives it back |
| Endpoint.SplitsAtLastColon | src/connect.rs:359-362 | a text splits at its last colon, is accepted iff a port follows, and an empty host means localhost |
| Endpoint.WithoutColon | src/connect.rs:363-366 | a text without a colon is accepted iff it is a port, on localhost |
| Endpoint.PrintShape | src/connect.rs:349 | what is printed is host, colon and the port's digits without sign or leading zero |
| Endpoint.RoundTripIff | src/connect.rs:349-362 | parsing the printed endpoint gives it back iff the host is not empty, colons in it allowed |
| Endpoint.ParseIsStable | src/connect.rs:358-367 | parse, print, parse equals parse for every accepted text |
| Endpoint.PortSpellings | src/connect.rs:361-364 | a text is accepted as a port iff it is an optional '+', zeros and the port's digits |
| MuxChain.Connector.Connect | src/connect.rs:174-263 | the entry points follow the decision chain and raise the flag exactly when a mux transport connects |
| MuxChain.Connector.MuxOnly | src/connect.rs:272-315 | likewise for the mux-only entry points |
| MuxChain.Connector.ConnectMuxSticky | src/connect.rs:319-341 | the waiting loop connects at the first poll at which the default path exists |
| MuxChain.UsedIff | src/connect.rs:187-203 | the flag is up iff some earlier call connected a mux, even one whose probe failed |
| MuxChain.SerialOnlyIff | src/connect.rs:191-213 | an automatic call goes to serial iff the flag is down, no mux is found and a device is there |
| MuxChain.MuxIsSticky | src/connect.rs:185-189 | after a mux connected, no later automatic call opens a serial device, whatever the environment |
| MuxChain.SerialMeansNoMux | src/connect.rs:197-213 | serial is opened only when no mux socket was found and none was ever connected |
| MuxChain.ExplicitPortIsSerial | src/connect.rs:177-183 | in every run a call with a port tries exactly that serial device, whatever the flag, and leaves the flag alone |
| MuxChain.ExplicitMuxIsTried | src/connect.rs:289-315 | a call with an explicit socket or endpoint tries exactly that |
| MuxChain.FoundSocketIff | src/connect.rs:141-159 | the socket found is DONGLORA_MUX's if set, else XDG's if there, else /tmp's if there |
| MuxChain.TcpUsedIff | src/connect.rs:343-356 | TCP is used iff the variable is set, parses and answers |
| MuxChain.MuxPreferred | src/connect.rs:191-204 | before a mux has connected, TCP is preferred to a Unix socket and that to anything else |
| MuxChain.SerialTakes | src/connect.rs:206-213 | without a mux the device present is taken, or waited for, or nothing is found |
| MuxChain.StickyTries | src/connect.rs:319-341 | a sticky call tries TCP, then waits for the default path; its non-blocking variant takes the socket found |
| MuxChain.DefaultIsFoundIff | src/connect.rs:128-159 | the default path is the socket found iff no earlier candidate is missing |
| MuxChain.StickyWaitsInVainIff | src/connect.rs:319-341 | in a steady environment a sticky call waits for ever although a socket can be found iff TCP does not answer, the socket is the one in /tmp and XDG_RUNTIME_DIR is set |
| MuxChain.StickyMissesTmpSocket | src/connect.rs:325-337 | a run in which a sticky reconnect waits at every poll although its socket exists |
| MuxChain.StickyTryLosesMuxIff | src/connect.rs:232-257 | stickiness costs the non-blocking call a mux iff TCP answers and no found Unix socket accepts |
| MuxChain.StickyTryReachesMuxIff | src/connect.rs:232-239 | in every run, after a mux connected, a non-blocking call connects one iff it finds a Unix socket that accepts |
| MuxChain.StickyTryIgnoresTcp | src/connect.rs:232-239 | runs that come in over TCP and then fail every non-blocking reconnect though TCP still answers |

## Left out

- COBS and CRC framing, the frame decoder and payload encoding: they live in the `donglora-protocol` crate, which is not part of this model; parsers are arbitrary functions.
- `src/transport.rs` and `src/discovery.rs`: poll forwarding and USB scanning; their results are inputs.
- `prepare_config` and its capability checks, `short_label`, `describe_cmd`, option builders, logging: single-branch facts.
- Futures dropped in mid-flight: callers run to completion; only the reader task can be aborted.
- The reader's check of `closed` before each read: in the concurrent model the reader may go on reading or exit at any point between batches, which allows every behaviour of the code and more; `SessionObject.Session.ReaderLoop` has the check.
- A payload longer than a frame's payload field, for which `transmit` panics when copying: not modelled.
- `alloc_tag`'s poisoned-mutex panic: not modelled.
- Dongle methods interleaved with each other beyond the receive flag and the keepalive's re-send: `Recovery` is sequential with one client, `RxFlag` concurrent, `ConfigRace` has one client beside the keepalive.
- RxConsumers.WaitExact: time is exact there, so scheduling delay comes on top.
- A command that the device executes only after its caller timed out: in `RxFlag` and `Recovery` a lost reply means that the command was executed, or not, before the timeout.
- Concurrent connect calls: the flag is read and written with relaxed ordering, so stickiness is stated for calls in sequence; targets other than Unix are not modelled.
- Retry.TxWithRetry: the single-precision product is an arbitrary function in the loop and is tied to rounding only in the backoff lemmas; the time an attempt takes is not recorded.
- Keepalive.GapBounded: the loop's own ping and SET_CONFIG are taken to reach the wire at once; their wait for the writer lock is not modelled.
- Recovery.AgreementKept: stated for histories in which replies to `set_config` calls arrive; `Recovery.AgreementStepIff` gives the exact condition for one event.
