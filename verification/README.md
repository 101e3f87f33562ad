# LUCP file transfer: a verified model

The system moves a file over an unreliable RDMA queue pair and paces it with LUCP, a rate control in
which switches report their load in the packets that pass through them. This project models its
protocols in Dafny and proves what they promise, for every input and every run.

* **Block transfer** (`StreamControl.cpp`). The receiver keeps a window over the block ids and asks over
  TCP for the blocks it lacks; the sender makes a first pass over the file and then one round for each
  request. `BlockWindow` is the window, `BlockReceiver` the receiving loop, `BlockSender` the sending
  loop, `RequestExactness` what the requests say, `Transfer` both sides with a channel that loses,
  repeats and reorders blocks. `TailPadding` is about the first request when the last block has not
  been seen: the padding of the deque there can lose a block, and the exact condition is proved.
  `TimerExactness` has the exact condition under which the timer of the receiving loop is harmless, and
  `AnyTimer` what holds when it runs out at any time, over the receiver of `PaddedReceiver`.
  `Completion` shows that no state is a dead end as long as the timer is harmless, `Stranded` reaches a
  dead end when it is not, and `SlotReuse` a header written into a block still outstanding. `Pieces` lets
  the stream bring a request in pieces, with a sender that waits for the rest, and refines that to `Transfer`.
* **LUCP** (`switch.cpp`, `MessageSwap.h`, `timer.h`). `Lucp` has a port, a path of ports and a client;
  `LucpRounds` closes the loop over one bottleneck and proves that the line rate is never exceeded;
  `LucpConvergence` finds the warm-up this needs and shows how soon a fixed set of flows settles;
  `LucpTie` reaches the one overload that the update test overlooks; `Pacing` is the timer that turns a
  rate into posting times.
* **Rate collection** (`master.cpp`, `StreamControl::statistic`). `RateLog` is the stream of one client,
  `RateMerge` the merge of all streams into numbered rows that another thread drains, `RateProgress`
  which rows can be drained before the end, `RateEnd` how it ends, `RateStats` the fairness
  and oscillation statistics.
* **Smaller parts.** `Checksum` is the Internet checksum of section 1 of RFC 1071, `DelayRing` the ring
  of delayed packets in `switch1.cpp`, `ConfigFile` the configuration file of `LocalConf.cpp`, with
  `ConfigLines` on any text and `ConfigSaved` on the text that `saveConf` writes.
  `Arithmetic` holds facts about products and quotients, `Wrappers` the optional value.

State that the program updates in place is a class here, and its methods are proved equal to a function
of the old state, which the lemmas are about, or against what they promise outright. Whole runs are sequences of steps, and
the main theorems quantify over all of them.

## What the proofs found in the code

* A timeout before the last block is seen pads the deque without moving `recv_max_seq`
  (StreamControl.cpp:478-484). From there the transfer is safe over every continuation if and only if the
  last block was the only one missing (`TailPadding.PaddingSafeExactly`). With five blocks and losses
  alone, the receiver counts five and stops without block 4 (`TailPadding.LossesAloneLoseABlock`).
* A timeout is harmless over every continuation if and only if the sender is idle, it has read every
  request, and a first request finds only the last block missing; otherwise an assert can fail on one
  side or the other (`TimerExactness.TimerSafeExactly`). Two blocks are enough:
  `TimerExactness.EarlyTimerAborts`.
* With the timer running out at any time the program may fail (an assert, an index outside the
  deque, or a request buffer overrun or read unwritten), but a sender that does leave its loop
  leaves every block received (`AnyTimer.DeliversOrFails`). It may also wait for ever with nothing failed:
  the same five blocks do that, over the whole system and from its start
  (`Stranded.LossesStrandTheSender`).
* The first pass ends with `bytes_left` at 0 only when the block size divides the file size; if it does
  not, the sender goes on with a block number N that the file does not have
  (`BlockSender.FirstPassEndsExactly`).
* The next slot's header is written before a completion has freed the slot; it lands in a block still
  outstanding exactly when the block just posted took the last free slot
  (`BlockSender.PreparedSlotIsFree`). With more blocks than slots, posting every slot before the first
  completion gets there (`SlotReuse.HeaderOverwritten`).
* An overload of exactly 1e-6 satisfies neither test of switch.cpp:318-319, and the clients are then
  offered their initial rates (`LucpRounds.RoundSafeExactly`). An idle network gets there: 999999 flows
  settle, one more joins, and two rounds later the older ones all send at their initial rates
  (`LucpTie.TieIsReached`).
* Two collections of warm-up are enough and needed; the code waits for three
  (`LucpConvergence.WarmUpOfTwoIsNeeded`).
* No flow is held back two rounds running, so a fixed set of flows asks for equal shares after two rounds;
  it is in the steady state by then if and only if no flow joined in the round before
  (`LucpConvergence.SettledAfterTwoExactly`).
* The draining thread is told to finish only if every client's stream runs past sequence number 5, that
  is, has at least five ticks (`RateMerge.FinishesExactly`).
* A row of the merged log is tested for readiness only when a record is placed in it, so that the draining
  thread can wait at a row to which nobody will add; `RateProgress.FrontDrainsExactly` says when.
* Bytes that `statistic` sees come between the last two readings of a tick, or after the last tick, are in
  no record; a file acknowledged within the first 10 ms is not reported at all
  (`RateLog.BytesAccounted`, `RateLog.NoTickReportsNothing`).
* A delay ring holding 4095 packets looks empty after one more: nothing leaves until another is queued,
  and that one takes the place of the oldest (`DelayRing.QueuedHoldsExactly`, `DelayRing.FullRingStalls`).
  An empty ring gets there when 4095 packets arrive within the delay (`DelayRing.FullRingReached`).
* A key alone on a line of the configuration file resets that setting to its default
  (`ConfigLines.BareKeyResets`), and a newline in the saved folder can set any of the five integers when the
  file is read back (`ConfigSaved.NewlineInFolderOverrides`).

## Model

| member | source | states |
|---|---|---|
| BlockWindow.ArriveRefines | StreamControl.cpp:413-462 | From any window that stands for a set of received ids, every arrival, new or repeated, passes the asserts at 429-431 and 444 and the index at 445, and the new window stands for the set with that id added; `recv_num` stays the same exactly for a repeated id. |
| BlockWindow.BatchRefines | StreamControl.cpp:396-462 | The same for a polled batch in any order: `expect_seq` is the least id missing, `recv_max_seq` the greatest received or -1, `recv_num` the number received, entry k stands for id `expect_seq`+k. |
| BlockWindow.WindowEnds | StreamControl.cpp:429-431 | The first entry of the deque is unreceived and the last is the greatest id, received; the deque is empty when nothing is out of order. |
| BlockWindow.RequestIsExact | StreamControl.cpp:472-513 | With the last block seen, the unreceived entries are exactly the missing ids of the whole file, and as many as `unrecv_num`. |
| BlockWindow.MissingSpec | StreamControl.cpp:486-494 | The list of missing ids has every id below the file's end that was not received and no other. |
| BlockWindow.MissingIncreases | StreamControl.cpp:486-494 | That list is strictly increasing. |
| BlockReceiver.ReceivingLoop.Deliver | StreamControl.cpp:417-459 | The in-place handling of one block takes the window where `Arrive` takes it, and fails exactly where an assert or an index of the source would. |
| BlockReceiver.ReceivingLoop.PopReceived | StreamControl.cpp:433-437 | Drops exactly the received run at the front and advances `expect_seq` by its length. |
| BlockReceiver.ReceivingLoop.FillSpace | StreamControl.cpp:474-497 | `restran_space` holds the count and then the unreceived ids, without a write past its end. |
| BlockReceiver.ReceivingLoop.PollTurn | StreamControl.cpp:381-536 | One turn of the loop over the fields and the buffer is the turn of the model, with the same words sent. |
| RequestExactness.TurnExact | StreamControl.cpp:396-536 | Every turn passes the asserts, stays inside the buffer, sends a request exactly when it should, and lists exactly the missing blocks in it. |
| RequestExactness.TurnProgress | StreamControl.cpp:413-459 | The number of missing blocks never grows, and falls exactly in a turn that brings a missing block. |
| RequestExactness.ZeroRequestWhenComplete | StreamControl.cpp:499-536 | A turn with completions sends the zero request exactly when it brings all the blocks still missing, and exactly when the count is then full. |
| TailPadding.PaddingKeepsWindow | StreamControl.cpp:478-484 | The padded deque is a faithful window if and only if the last block had been seen. |
| TailPadding.PaddedRoundCompletes | StreamControl.cpp:470-516 | After the padding, a round delivered in full and in order completes the file. |
| TailPadding.PaddingSafeExactly | StreamControl.cpp:421-484 | Over every continuation no assert fails and the receiver cannot stop without its zero request, if and only if the last block was seen or was the only one missing. |
| TailPadding.LossesAloneLoseABlock | StreamControl.cpp:379-536 | A run of five blocks, with losses only, after which the receiver stops without having seen block 4. |
| BlockSender.PostKeepsSchedule | StreamControl.cpp:681-719 | Posting keeps the invariant in all modes: the headers posted are the next ones due and `bytes_left` is the block size times the blocks still due. |
| BlockSender.PostsExactly | StreamControl.cpp:677-681 | A block can be posted if and only if a slot is free and a block is due. |
| BlockSender.CompleteKeepsSchedule | StreamControl.cpp:721-752 | A completion keeps it, and acknowledges the oldest outstanding block. |
| BlockSender.ReadKeepsSchedule | StreamControl.cpp:626-675 | A request read while the sender waits passes the asserts at 646 and 669, fits the buffer of the first request, and appends its list to what is due. |
| TimerExactness.TimerSafeExactly | StreamControl.cpp:387-395 | From any state that keeps the invariant of the runs, with blocks missing: once the timer has run out no assert of either side fails over any continuation, if and only if the sender was idle, had read every request, and a request had been made before or the last block was the only one missing; timeouts in the continuation meet the same condition. |
| TimerExactness.EarlyTimerAborts | StreamControl.cpp:646-669 | A run from the start with two blocks, in which the timer runs out before the second is posted and the sender aborts. |
| PaddedReceiver.TurnSane | StreamControl.cpp:413-536 | Whatever was missing when the deque was padded, a turn of the receiver fails, or leaves every id below `expect_seq` received and makes a request of ids of the file, the zero one only when all have come. |
| AnyTimer.DeliversOrFails | StreamControl.cpp:379-754 | Over every run with the timer running out at any time, whatever the sender does and whatever is missing: either the program has failed, or a sender that has left its loop leaves every block received, what was posted is the file and each request read, in order, and `bytes_left` counts the rest. |
| AnyTimer.ExactOrFails | StreamControl.cpp:470-537 | Over every run in which the timer runs out at any time, but makes a first request only when the last block is the only one missing (`TimerSafe`): either the program has failed, or every request listed exactly the blocks missing then, in increasing order. |
| Stranded.LossesStrandTheSender | StreamControl.cpp:379-754 | From every start with five blocks, a run with losses alone after which nothing has failed, the receiver has left its loop without block 4, and over every continuation the sender stays in its loop. |
| Completion.AlwaysCanFinish | StreamControl.cpp:379-754 | From every state of every run, with polls of at most 16 completions, some continuation ends with the sender out of its loop, no assert failed and every block received. |
| Pieces.PiecesRefine | StreamControl.cpp:626-668 | Every run in which requests come in pieces, the sender having read a count waiting for its ids, is but for the waiting a run with whole requests; with the timer at any time as well. |
| Pieces.WaitsForIds | StreamControl.cpp:655-667 | A sender that has read a count whose ids have not all come posts nothing and takes no completion until it has read them. |
| Pieces.PiecesDeliver | StreamControl.cpp:379-754 | Over every such run no assert fails, a sender out of its loop leaves every block received, and every request listed exactly the blocks missing. |
| Pieces.PiecesDeliverOrFail | StreamControl.cpp:379-754 | The same with the timer running out at any time: the program has failed, or a sender out of its loop leaves every block received. |
| Pieces.PiecesCanFinish | StreamControl.cpp:379-754 | From every state of such a run, blocked or not, some continuation ends with the sender out of its loop and every block received. |
| BlockSender.BytesConserved | StreamControl.cpp:687-750 | `ack_bytes`, the outstanding bytes and `bytes_left` add up to the file and every block asked for again. |
| BlockSender.SlotIsFree | StreamControl.cpp:698-752 | With completions in order, the slot about to be posted is in no outstanding block if and only if a slot is free. |
| BlockSender.PreparedSlotIsFree | StreamControl.cpp:698-719 | The slot prepared after a post is free at that moment if and only if the post did not take the last free one. |
| SlotReuse.HeaderOverwritten | StreamControl.cpp:698-719 | From every start with more blocks than slots, a run that posts as many blocks as there are slots without a completion, after which the buffer of block 0, outstanding, holds the header of another block. |
| BlockSender.FirstPassEndsExactly | StreamControl.cpp:584-717 | After the N blocks of the first pass, with completions at any time, the sender is idle if and only if the block size divides the file size; if not, it goes on and the header it posts is N. |
| BlockSender.SendingLoop.ReadRequest | StreamControl.cpp:628-673 | The in-place reading of a request, over the buffers and the allocated space, is the one the invariant is proved for. |
| BlockSender.SendingLoop.PostNext | StreamControl.cpp:687-717 | The in-place post puts on the wire the header of the current slot, and leaves the state the invariant is proved for. |
| BlockSender.SendingLoop.PollCompletions | StreamControl.cpp:721-752 | The polling loop stops at the first poll after which a slot is free and, with nothing left to send, nothing is outstanding, and not before; with every poll used as many of the oldest blocks come off as completions came, at most all, and the bytes are conserved. |
| BlockSender.LeavesExactly | StreamControl.cpp:721-752 | Some poll lets the loop end if and only if the completions of all of them free a slot and, with nothing left to send, acknowledge every block. |
| Transfer.EveryBlockDelivered | StreamControl.cpp:379-754 | Over every run no assert of either side fails, and when the sender has left its loop the receiver has every block. |
| Transfer.EveryRequestExact | StreamControl.cpp:470-537 | Over every run each request lists exactly the blocks missing when it was made, in increasing order, none is longer than the first, and the zero request is made once, last, and exactly when every block has come. |
| Transfer.RoundsAreBounded | StreamControl.cpp:472-516 | If every round brings a missing block, there are at most as many later requests as blocks in the first. |
| Transfer.PostedInOrder | StreamControl.cpp:584-719 | Over every run the headers posted are 0..N-1 and then each request read, in order, and `bytes_left` counts the rest. |
| Transfer.BytesAddUp | StreamControl.cpp:687-752 | Over every run the bytes are conserved and the list of outstanding sizes is as long as their count. |
| Transfer.PostedSlotIsFree | StreamControl.cpp:698-752 | Over every run no slot is posted that an outstanding block is in. |
| Pacing.Timer.Start | timer.h:24-29 | The timer ends at no time before now and never goes back. |
| Pacing.RateSetsInterval | MessageSwap.h:166-167 | Interval times rate is one block's bits, and no interval is shorter than the initial one. |
| Pacing.PostsArePaced | StreamControl.cpp:676-689 | Over every run of rate changes and posts, block k goes out no earlier than the start plus the intervals before it, each cut to whole nanoseconds, and each interval is worth one block at its rate. |
| Pacing.PostsWhenDue | timer.h:45-48 | Over every run, with the timer started anew at any time, a block can go out exactly when there is a rate and the intervals charged have passed since the beginning and since every start. |
| Pacing.RateInForce | MessageSwap.h:157-167 | Over every run the rate in force is the last one that came. |
| Pacing.PostsStayWithinRate | StreamControl.cpp:676-689 | Over every run the bits posted before the last block fit the highest rate over the time elapsed, but for one nanosecond a block. |
| Lucp.SwitchCache.Collect | switch.cpp:61-80 | The in-place collection is the function that the next rows are about, with all counters cleared. |
| Lucp.SwitchCache.OnRequest | switch.cpp:311-331 | The in-place handling of a request marks the packet and counts it as the functions below do. |
| Lucp.CountConserves | switch.cpp:326-330 | Over any requests between two collections, `y_l` grows by all rates, `y_l` - `u_l` by the rates of the flows counted, `n_l` by their number. |
| Lucp.CollectMeaning | switch.cpp:61-80 | The overload is in [0,1), positive exactly above the line rate, and the traffic without that share is the line rate; the fair rate is in [0, line], the whole line with fewer than five requests counted, and otherwise with the other traffic it fills the line. |
| Lucp.CollectedAfter | switch.cpp:61-80 | The same for any requests between two collections: with fewer than five of them counted as flows the next fair rate is the line rate; otherwise fair rates and the traffic of the rest fill the line, and the overload is the share of all their traffic above it. |
| Lucp.MarkedUnlessTied | switch.cpp:318-324 | A port with a fair rate below the initial rate marks a new request, whatever its overload, if and only if that is not exactly 1e-6. |
| Lucp.WalkCarriesWorst | switch.cpp:313-331 | After at most 255 hops the packet carries the overload and fair rate of the hop it names and the collection count of the last hop, and that overload is short of none on the path by more than 1e-6 a hop. |
| Lucp.WalkCounts | switch.cpp:313 | The hop counter is a byte: over a path of any length it is the length modulo 256. |
| Lucp.WalkNamesWorst | switch.cpp:313-324 | When overloads are near each other in groups and further apart between groups, the packet names the first hop with the least fair rate among those of the worst group, and none if no hop is overloaded or slower than the initial rate. |
| Lucp.DominantHopIsNamed | switch.cpp:313-324 | A hop whose overload stands out by more than 1e-6 a hop is the one named. |
| Lucp.WalkCarriesLeastRate | switch.cpp:313-324 | Without overload the packet carries the least of the initial rate and all fair rates, of the first hop that has it. |
| Lucp.CountedAtBottleneckOnly | switch.cpp:313-331 | A request is counted as a flow at the hop it names as bottleneck, if that is on the path, and at no other. |
| Lucp.MessageSwap.OnReply | MessageSwap.h:144-176 | The in-place handling of a reply gives the client state the closed loop is proved about; the first positive rate, and nothing else, starts the timer, at the later of now and its old time. |
| Lucp.NextRequestNamesBottleneck | MessageSwap.h:146-175 | After the reply to a request that went down any path of at most 255 hops, the next request is a new one, and on any path it is counted as a flow at the hop whose overload and fair rate the reply carried and at no other. |
| Lucp.DominantHopCounts | MessageSwap.h:146-175 | A flow is next counted at the hop whose overload stands out, and there alone. |
| Lucp.RateGate | MessageSwap.h:144-279 | Over any replies the gate of `getRate` opens with the first positive rate and never holds one back, and a positive rate is given out only after a reply at least the warm-up behind the first. |
| Lucp.RepliedTwice | MessageSwap.h:144-173 | The further replies of one round change nothing. |
| Lucp.ReplySetsPace | MessageSwap.h:156-173 | Whatever reply comes, the rate is at most the initial one, a first reply gives none, and a positive rate sets an interval worth one block at that rate. |
| LucpRounds.SumsPermute | switch.cpp:326-330 | What a round counts does not depend on how its requests interleave. |
| LucpRounds.StayingExactly | MessageSwap.h:280-289 | Of the flows of a round those that go on are the ones marked, in their order. |
| LucpRounds.RoundPort | switch.cpp:61-80 | After any round the fair rate is the line over the flows counted, and the overload is 0 exactly when the rates asked for fit the line. |
| LucpRounds.AnswerOk | MessageSwap.h:144-173 | What a flow sends at after a round: nothing during its warm-up, else the fair rate, except that it does not grow into an overloaded port. |
| LucpRounds.RoundSafeExactly | switch.cpp:311-331 | From any state whose fair rate fits, a round keeps the clients within the line if and only if the overload is not exactly 1e-6 or no flow is past its warm-up. |
| LucpRounds.LineNeverExceeded | MessageSwap.h:146-164 | Over every schedule of flows joining and leaving and every interleaving, the rates of all clients never add up to more than the line rate. |
| LucpConvergence.ShortWarmUpExceedsLine | MessageSwap.h:157-164 | With a warm-up of 0 or 1 there is a run in which two clients together send at twice the line rate. |
| LucpConvergence.WarmUpOfTwoIsNeeded | MessageSwap.h:157-164 | The clients stay within the line over all runs if and only if the warm-up is at least two collections. |
| LucpConvergence.RoundKeepsTame | MessageSwap.h:156-166 | In every round of any run no flow asks for more than the last fair rate, and at an overloaded port none that was held back asks for less than the new one: no flow is held two rounds running. |
| LucpConvergence.SteadyRound | MessageSwap.h:156-166 | A round with the same flows sets the equal share as the fair rate and gives each flow that or what it asked for before. |
| LucpConvergence.SettledStays | MessageSwap.h:156-166 | The steady state, no overload and every flow sending at exactly the equal share, is kept for as long as the flows stay. |
| LucpConvergence.EqualSharesAfterThree | MessageSwap.h:144-173 | After any run whatever, three rounds with the same flows bring the steady state: every client at exactly the equal share, the line exactly full and no overload. |
| LucpConvergence.SettledAfterTwoExactly | MessageSwap.h:144-173 | After any run whatever, two rounds bring every flow to ask for the equal share, and bring the steady state if and only if no flow joined in the last round of the run. |
| LucpConvergence.TwoRoundsAreNotEnough | MessageSwap.h:157-164 | A run from the idle network after which two rounds do not bring the steady state. |
| LucpTie.TieIsReached | switch.cpp:318-324 | A run from the idle network whose overload is exactly 1e-6, and the round after it in which 999999 flows send at their initial rates. |
| LucpTie.OverloadOfOneMore | switch.cpp:61-80 | For every n, a run from the idle network in which n flows settle, one joins, and the overload collected in the next round is exactly 1/(n+1). |
| RateMerge.RateCollector.PlaceRecord | master.cpp:360-390 | The in-place handling of a record, with its loops over rows and clients, is the step the theorems are about. |
| RateMerge.RateCollector.AllReady | master.cpp:371-382 | The readiness loop computes the recursive test that `ReadyMeaning` explains. |
| RateMerge.ReadyMeaning | master.cpp:371-382 | A row found ready has a record of every other client that has started by it, or that client is finished. |
| RateMerge.NoRecordLost | master.cpp:355-399 | Over every interleaving the row index is in range for every record to come, and every record placed is in its own slot of its own row, drained or not. |
| RateMerge.DrainedRowsAreTheMerge | master.cpp:310-353 | Over every interleaving the rows drained are numbered 0, 1, 2, ... and hold the record of every client that ever has one for them, and nothing else. |
| RateMerge.FinishesExactly | master.cpp:387-398 | When all client threads have ended, the draining thread is told so if and only if every stream runs past sequence number 5. |
| RateMerge.StopsWithEverythingDrained | master.cpp:311-317 | A draining thread that stops has drained every record of every client. |
| RateEnd.EveryRunCanEnd | master.cpp:310-399 | From every state of every run some continuation places all records and ends all client threads; the draining thread is then told to finish if and only if every stream runs past sequence number 5, and has emptied the queue if so. |
| RateProgress.FrontDrainsExactly | master.cpp:314-385 | From any state of a run before the end, some continuation drains the front row before the end if and only if it is ready, or a record for it is still to come and no client that ended before it is too short to be marked as finished. |
| RateLog.Statistic | StreamControl.cpp:845-896 | The loop with its guard sends records numbered on, only the last of them negative, whose rates are the readings of the ticks. |
| RateLog.BytesAccounted | StreamControl.cpp:863-888 | Every byte counted when the loop ends is in a record, or came between the last two readings of a tick, or came after the last tick; all are in the records if and only if the counter stood still in both places. |
| RateLog.NoTickReportsNothing | StreamControl.cpp:863-888 | A file acknowledged before the first tick is in no record. |
| RateStats.Slide | master.cpp:85-91 | The window is the last 100 samples at most, and the running sum is its sum. |
| RateStats.TakeSample | master.cpp:85-105 | With a full window, and only then, the value times the mean of the window, or times 1e-6 if that is more, is one of the 99 differences of neighbours, at most 49 of which are below it and at most 49 above. |
| RateStats.TaskTotals | master.cpp:69-112 | Over any log the window of a task is its last 100 positive samples, and the totals are those of every full window. |
| RateStats.PositivesAt | master.cpp:77-87 | The samples of a task, and the rates of a line, are the positive ones, each once and in order. |
| RateStats.TotalsAreWindows | master.cpp:85-109 | Of n samples every hundred in a row count once, n - 99 in all, and the total is the sum of their oscillations. |
| RateStats.OscillationMeaning | master.cpp:99-105 | The same of the oscillation as a function of the window. |
| RateStats.CauchySchwarz | master.cpp:104-108 | The square of a sum is at most the number of terms times the sum of their squares, and equal to it if and only if the terms are all the same. |
| RateStats.JainTermBounds | master.cpp:104-108 | A line with two or three active tasks adds between 1/3 and 1, and 1 if and only if their rates are equal. |
| RateStats.JainTermIs | master.cpp:108 | The term times the number of rates times the sum of their squares is the square of their sum. |
| RateStats.Fairness | master.cpp:104-114 | The loop over the log computes the average of the lines with two active tasks, stretched, and leaves 0 when there is none. |
| RateStats.FairnessBounds | master.cpp:111-115 | The fairness lies in [0,1], the cut at 0 is never needed, and it is 1 if and only if every line with two active tasks gives them equal rates. |
| Checksum.InternetChecksum | switch.cpp:200-219 | For up to 65536 bytes the loop stays within a C int and computes the folded complement of the words' total. |
| Checksum.TwoFoldsSuffice | switch.cpp:216-219 | For every sum of 31 bits two folds give the one's-complement value. |
| Checksum.ChecksumIsOnesComplement | switch.cpp:200-219 | The result is the complement of the one's-complement sum of section 1 of RFC 1071, with the odd trailing byte as a word. |
| Checksum.ChecksOutExactly | switch.cpp:332-333 | A word stored where the zero was makes the whole check out to 0 if and only if the total is then a positive multiple of 65535. |
| Checksum.ChecksumRoundTrip | switch.cpp:332-333 | The checksum stored over its own zeroed word makes the whole check out to 0. |
| DelayRing.QueuedHoldsExactly | switch1.cpp:378-383 | Queueing appends to the queue the ring holds if and only if fewer than 4095 packets wait. |
| DelayRing.FullRingReached | switch1.cpp:256-405 | A run from an empty ring in which 4095 packets are queued before the first is sent, after which one more leaves nothing due at any clock reading. |
| DelayRing.FullRingStalls | switch1.cpp:260-403 | With 4095 packets waiting and one more queued nothing is due at any clock reading, over any receptions, until another is queued, and that one is then the next to leave. |
| DelayRing.SentHolds | switch1.cpp:261-266 | The sending thread takes the oldest packet, exactly when that one is due. |
| DelayRing.PassSendsDue | switch1.cpp:261-270 | A pass sends the front of the queue in order, none before its time, and when it stops early nothing left was due. |
| DelayRing.DelayBuffer.SendPass | switch1.cpp:261-270 | The in-place loop over the ring is that pass. |
| DelayRing.RingIsQueue | switch1.cpp:256-405 | Over every run packets leave in the order they were queued, each once and none before its time, and `valid` marks exactly those still waiting. |
| DelayRing.PollSends | switch1.cpp:261-266 | In every run, when the sending thread looks at the clock the next packet leaves if and only if its time has come. |
| ConfigFile.TrimMeaning | LocalConf.cpp:23-27 | Trimming takes blanks off both ends and nothing else, whatever `npos` does. |
| ConfigFile.StoiReadsBack | LocalConf.cpp:40-51 | What the stream writes for an int, `stoi` reads back. |
| ConfigFile.LocalConf.Set | LocalConf.cpp:144-241 | The chain of keys sets the one field it names, to the value or its default. |
| ConfigFile.LocalConf.LoadConf | LocalConf.cpp:109-248 | Loading is the fold over the lines of the file, or of a newly written one; it returns -1 exactly for an error or when no file can be made. |
| ConfigFile.StoiReads | LocalConf.cpp:40-51 | White space, a sign or none, zeros, the digits of n and whatever follows them read as n with that sign, or as nothing when that is no int. |
| ConfigFile.StoiFails | LocalConf.cpp:40-51 | Without a digit after the white space and the sign nothing is read. |
| ConfigLines.LinesMeaning | LocalConf.cpp:125 | The lines are the text cut at its newlines. |
| ConfigLines.LineForms | LocalConf.cpp:125-142 | Every raw line is blank or a comment, or gives a value to a key, with or without an equals sign. |
| ConfigLines.IgnoredLine | LocalConf.cpp:125-131 | A raw line that is blank, or whose first character that is no blank is #, changes nothing and is no error. |
| ConfigLines.AssignsSpelled | LocalConf.cpp:127-142 | Any other line of a key without an equals sign, an equals sign and a value, with blanks or none around each, gives that value to that key. |
| ConfigLines.LastLineWins | LocalConf.cpp:125-242 | For any text each of the seven settings takes the value of the last raw line that names it, or its default when that is no good. |
| ConfigLines.UnnamedStays | LocalConf.cpp:125-242 | For any text a setting that no raw line names keeps its value. |
| ConfigLines.IntegerLimits | LocalConf.cpp:144-231 | What the text of each int makes of each of the five integer settings. |
| ConfigLines.FailsOnBadLine | LocalConf.cpp:125-242 | For any text loading fails if and only if some raw line, not blank and no comment, has no equals sign, an unknown key or a value that is no good for its key. |
| ConfigLines.EndsInRange | LocalConf.cpp:125-242 | For any text an integer setting ends in its range if and only if it began there or some raw line names it. |
| ConfigLines.BareKeyResets | LocalConf.cpp:133-142 | A key alone on its line is its own value, so it fails and resets the setting. |
| ConfigSaved.LoadsWhatWasSaved | LocalConf.cpp:88-242 | Saved and loaded, each integer comes back as it was, or as its default when out of range, the rate and the folder as their texts read back, and loading fails if and only if one was out of range or the rate or the folder does not read back. |
| ConfigSaved.NewlineInFolderOverrides | LocalConf.cpp:103-131 | A newline in the folder can set any of the five integers when the file is read back. |

## Left out

- Transfer.EveryBlockDelivered: the file is a whole number of blocks (`FirstPassEndsExactly` shows what happens otherwise), the timer runs out only while the sender is idle and has read every request and makes a first request only with at most the last block missing (`TimerSafeExactly` shows that nothing less will do, and `DeliversOrFails` needs none of it).
- Transfer.PostedInOrder: a post sends a snapshot of its slot's header; the source prepares the next slot's header before that slot is freed, and `PreparedSlotIsFree` says when that touches a block still outstanding.
- Transfer.RoundsAreBounded: that a round brings a missing block is a hypothesis, since the channel may lose everything; `AlwaysCanFinish` shows that it always can.
- LucpRounds.LineNeverExceeded: one bottleneck in lockstep rounds, each flow making five requests between two collections from one cached packet and applying the replies at the end; rounds that start at an overload of exactly 1e-6 are excluded (`RoundSafeExactly`, `TieIsReached`); fewer than 2^64 collections.
- LucpConvergence.EqualSharesAfterThree: under the same assumptions as `LineNeverExceeded`; several bottlenecks and replies out of step are not modelled.
- DelayRing.RingIsQueue: the ring is never filled beyond 4094 waiting packets before one is queued (`QueuedHoldsExactly`, `FullRingStalls`).
- ConfigSaved.LoadsWhatWasSaved: how a double is printed and parsed, and which directories exist, are parameters; the text fields hold no newline (`NewlineInFolderOverrides`).
- RateStats.TaskTotals: the stability score stops at the totals of the oscillation ratios; their exponential is left out.
- RateStats.TakeSample: the one loop over the log is modelled as one loop a task and one for the fairness, which share no variable.
- RateStats.OscillationMeaning: `std::sort` is modelled as an insertion sort.
- BlockReceiver.ReceivingLoop.FillSpace: the ids are 32-bit words in the source; file sizes with 2^31 blocks or more are not modelled.
- Lucp.CountConserves: `n_l` is a 32-bit counter in the source and unbounded here.
- Floating point: doubles are reals, without rounding.
- `postSendFile` and `postRecvFile` with `use_message` off, where the queue pair is reliable and nothing is asked for again.
- Errors from the verbs calls and sockets, the opening handshake, and the logging; a request is put on the TCP stream as one unit, and a 32-bit word of it never comes in part.
- `createBufferPool`, device and queue-pair setup, memory registration: foreign calls and easy accounting.
- Mutexes and condition variables: each locked section is one step, and every order of the steps is covered.
- Packet rewriting and forwarding in the switches, JSON, Kafka and the command-line tools.
- The near-duplicates switch2.cpp, switch_thread.cpp and test-case.cpp.
