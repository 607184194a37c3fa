# vdsm: verified models of its concurrent and wire-level cores

vdsm is the oVirt host agent.  This project models, in Dafny, the parts of it
whose correctness is hardest to see from the code, and proves what they are for:

- **STOMP wire layer** (`StompCodec`, `StompFrame`, `StompParser`, `StompDelivery`, `StompLink`).
  Escaping printer, incremental three-state parser, outbox and partial writer of STOMP 1.2.
  Main results: the chunking of a stream is irrelevant to the parser; exactly which frames survive the wire;
  end to end, whatever the sizes of partial sends and reads, the peer sees a prefix of the queued frames,
  and all of them once the outbox has drained.
- **Thread-pool executor** (`TaskQueue`, `Executor`, `ExecutorPool`, `ExecutorDiscard`, `ExecutorStop`).
  One step per critical section, and one per write made outside a lock; the count of active workers, which reads
  flags while they change, is one step per flag.  Main results over every interleaving: bounds on the pool in both
  directions, the discard protocol, exactly when an overdue task goes unwatched, no lost wake-up in the queue,
  enough stop pills.
- **Scheduler, Barrier, tmap** (`Scheduler`, `Barrier`, `ParallelMap`).
  Condition-variable protocols as step relations; time is a real-valued clock that never goes back.
- **Subscription index and batch replies** (`Subscriptions`, `SubscriptionServer`, `BatchContext`, `BatchRace`).
- **Jobs, mediated devices, shell quoting, peek buffer, device names**
  (`Jobs`, `MdevPlacement`, `ShellQuoting`, `PeekBuffer`, `Base26`).

Objects that the source updates in place are classes here (`Parser`, `Dispatcher`, `Queue`, `Adapters`,
`RequestContext`, `JobObject`, `Registry`, `SslSocket`), loops are methods with invariants, and each method is tied
to the function about which the theorems are proved.  Threads are step relations; a theorem about a run holds in
every state of every run.

## Where the code does less than it says

Each of these has a lemma that says exactly when the code is right; where that does not already exhibit a failing
case, another lemma gives a run or an input.

- Barrier: the class documentation says that one timeout makes all threads of the stage time out.  That holds in
  every run if and only if there are no more calls than the barrier counts (`Barrier.TimeoutSpreadsIff`); with one
  call more, for every count of three or more, a thread that stays can return normally
  (`Barrier.TimeoutDoesNotSpread`).
- Batch replies: when completions do not interleave, a message is answered exactly once in every order of completion
  if and only if it is empty or unparsable, or has a call, its call ids are distinct and none of its notifications is
  answered (`BatchContext.OneReplyIff`).  Section 6 "Batch" of the JSON-RPC 2.0 specification asks for one reply, and
  for none when there are only notifications.  Completion takes no lock: over all interleavings one message is sent if
  and only if the message is empty or unparsable, or has one call and no answered notification
  (`BatchRace.RaceOneReplyIff`).  Some message always holds every response (`BatchRace.RaceAnswersAll`); it is the
  last one if sends are atomic, and otherwise in every interleaving if and only if there is one answer
  (`BatchRace.LastCompleteIff`).
- Executor: a started task with a timeout is watched if and only if it did not lose its check
  (`ExecutorDiscard.WatchedIffNotLost`), and a check is lost exactly when it runs after it was armed and before the
  worker wrote its task (`ExecutorDiscard.LostInWindow`), which happens (`ExecutorDiscard.LostCheckHappens`).
- STOMP: a frame without a body that carries a positive or unreadable content-length, or without a command, does
  not arrive; all others do (`StompDelivery.DeliveredIff`).
- tmap: the caller gets all results if and only if no function call ends with something that is not an
  `Exception` (`ParallelMap.AllYieldedIff`).
- Jobs: the status event carries a final status if and only if the body was not killed by something that is not an
  `Exception` (`Jobs.LifeCycle`, `Jobs.KilledEvent`); a job that is aborting may be deleted while its body runs
  (`Jobs.DroppedWhileRunning`).
- Mediated devices: a device with both a type that rules it out and an unreadable count for the wanted type is
  skipped or raises, depending on the order of a directory listing (`MdevPlacement.OrderFreeIff`).  The whole search
  is independent of all listings if and only if it fails anyway or comes to no such device
  (`MdevPlacement.PlaceOrderFreeIff`).

## Model

| member | source | states |
|---|---|---|
| StompCodec.EncodedIsDelimiterFree | lib/yajsonrpc/stomp.py:182-193 | An escaped value holds no line feed, carriage return or colon, so it cannot break a line or a header. |
| StompCodec.DecodeEncode | lib/yajsonrpc/stomp.py:159-193 | Decoding an encoded value gives it back, for every byte string. |
| StompCodec.EncodeDecode | lib/yajsonrpc/stomp.py:159-193 | Re-encoding a decodable value reproduces it if and only if it has no raw CR or LF and its trailing backslashes pair up. |
| StompCodec.ParseIntDecimal | lib/yajsonrpc/stomp.py:134 | A printed content-length is read back by int() as the same number. |
| StompFrame.Put | lib/yajsonrpc/stomp.py:134 | Setting a header: that key now has that value, every other key keeps its own. |
| StompFrame.SetDefault | lib/yajsonrpc/stomp.py:273 | The first value of a repeated header stays; a new key gets the value; other keys are untouched. |
| StompFrame.CollectHeaders | lib/yajsonrpc/stomp.py:138-142 | The loop over the dictionary appends to what was collected exactly the wire form of all headers in order. |
| StompFrame.CollectBody | lib/yajsonrpc/stomp.py:144-150 | Blank line, then the body if there is one, then the terminator. |
| StompFrame.EncodeFrame | lib/yajsonrpc/stomp.py:130-150 | The printing loop yields the wire form that the parser theorems are about, and leaves the frame with its content-length refreshed. |
| StompParser.StepShrinks | lib/yajsonrpc/stomp.py:321-324 | Every successful turn of the parsing loop shortens the buffer, so the loop ends. |
| StompParser.StepAppend | lib/yajsonrpc/stomp.py:225-315 | More input never changes a step that could be taken, nor an error that was raised. |
| StompParser.ChunkIndependence | lib/yajsonrpc/stomp.py:212-324 | Any split of a stream gives the frames, state and leftover buffer of the whole; a stream that raises does so under every split, with the same total of unread bytes. |
| StompParser.RunBehind | lib/yajsonrpc/stomp.py:277-330 | Frames already finished never influence parsing. |
| StompParser.PrefixFed | lib/yajsonrpc/stomp.py:321-324 | A prefix of a stream that parses also parses, to a prefix of its frames. |
| StompParser.Parser.constructor | lib/yajsonrpc/stomp.py:202-210 | A new parser is in the command state with empty buffer and no frames. |
| StompParser.Parser.HandleTerminator | lib/yajsonrpc/stomp.py:225-232 | The first line is cut off at the first terminator; without one nothing changes. |
| StompParser.Parser.ParseCommand | lib/yajsonrpc/stomp.py:234-249 | One turn in the command state is the step of the state machine, errors included. |
| StompParser.Parser.ParseHeader | lib/yajsonrpc/stomp.py:251-275 | One turn in the header state is the step of the state machine, errors included. |
| StompParser.Parser.ParseBody | lib/yajsonrpc/stomp.py:283-315 | One turn in the body state, by length or by terminator, is the step of the state machine. |
| StompParser.Parser.Parse | lib/yajsonrpc/stomp.py:321-324 | A parse call ends, and leaves the object in the state that feeding the data to the state machine gives, or raises where it raises. |
| StompParser.Parser.PopFrame | lib/yajsonrpc/stomp.py:326-330 | The oldest finished frame, or nothing. |
| StompDelivery.FrameParsed | lib/yajsonrpc/stomp.py:130-150 | A deliverable frame is read back from its wire form whatever bytes follow. |
| StompDelivery.DeliveredIff | lib/yajsonrpc/stomp.py:130-315 | A frame arrives (content-length added, missing body read as empty) if and only if it has a command and, lacking a body, no content-length that is unreadable or positive. |
| StompDelivery.StreamParsed | lib/yajsonrpc/stomp.py:106-150 | A stream of frames and heartbeats is read as exactly its frames. |
| StompLink.WrittenConserves | lib/yajsonrpc/stomp.py:495-520 | Whatever each send accepts, sent bytes followed by waiting bytes stay the same stream; a call drains the outbox, stops inside a frame, or closes. |
| StompLink.Dispatcher.QueueFrame | lib/yajsonrpc/stompserver.py:85-86 | The frame goes to the end of the outbox. |
| StompLink.Dispatcher.HandleWrite | lib/yajsonrpc/stomp.py:495-520 | The writing loop does what the writer function says for every list of send results. |
| StompLink.ReachableInv | lib/yajsonrpc/stomp.py:495-520 | Every reachable state of the link keeps the stream invariant and a peer in step with the bytes read. |
| StompLink.EndToEnd | lib/yajsonrpc/stompserver.py:79-86 | For every interleaving of queueing, partial sends, reads of any size and frame handling: the peer never raises, has a prefix of the queued frames, and exactly those once all is sent and read. |
| TaskQueue.RunInv | lib/vdsm/executor.py:440-468 | Every reachable state keeps the bound, the FIFO split of the tasks put, and at least as many awake getters as queued tasks while somebody sleeps. |
| TaskQueue.QueueSafe | lib/vdsm/executor.py:440-468 | The queue never exceeds max_tasks, deliveries since the last clear are the first tasks put, in order, and no task waits while every thread in get() sleeps un-notified. |
| TaskQueue.Queue.PutTask | lib/vdsm/executor.py:440-452 | A task is appended and one sleeping getter is notified, unless the queue is full; a step of the protocol that keeps its invariant. |
| TaskQueue.Queue.PopLeft | lib/vdsm/executor.py:459-461 | The popping half of get(): the first task, which is then delivered, or nothing; a step of the protocol that keeps its invariant. |
| TaskQueue.Queue.LookAgain | lib/vdsm/executor.py:461-464 | The locked half of get(): sleep only if there is still nothing, so no wake-up is lost. |
| Executor.StepDisciplined | lib/vdsm/executor.py:309-358 | Every step keeps the discipline of workers and checks: one check per busy worker, for its current task, and one notice per discarded worker. |
| ExecutorPool.RunInv | lib/vdsm/executor.py:127-255 | Every reachable state keeps membership, what a count in progress knows, lock ownership and both bounds. |
| ExecutorPool.PoolSize | lib/vdsm/executor.py:175-236 | Active workers never exceed workers_count and all workers never exceed max_workers; when running, unlocked and without a discard notice under way, one of the two bounds is met with equality. |
| ExecutorPool.RemoveIsSafe | lib/vdsm/executor.py:215-236 | Removing a stopped worker always finds it in the set, although its thread starts before it is added. |
| ExecutorDiscard.NeverDiscardsTwice | lib/vdsm/executor.py:340-350 | The assertion against discarding a worker twice is unreachable. |
| ExecutorDiscard.NotifiedOnce | lib/vdsm/executor.py:340-358 | The executor is told of a worker at most once, only if it is discarded, and otherwise the notice is still under way. |
| ExecutorDiscard.OnlyRunningTasksDiscard | lib/vdsm/executor.py:309-350 | A worker is discarded only by the check of the very task it is running, which has a timeout and may be discarded. |
| ExecutorDiscard.StepKeepsFlag | lib/vdsm/executor.py:340-350 | The discarded flag is only ever set, and only by a check of that worker. |
| ExecutorDiscard.DiscardedTakesNoTask | lib/vdsm/executor.py:309-331 | Once discarded, a worker never waits for, takes or starts a task again. |
| ExecutorDiscard.WatchedIffNotLost | lib/vdsm/executor.py:309-350 | While the scheduler runs, a started task with a timeout has a pending or running check, or a discarded worker, if and only if it did not lose its check. |
| ExecutorDiscard.LostInWindow | lib/vdsm/executor.py:311-346 | A check is lost exactly by running after it was armed and before its worker wrote the task. |
| ExecutorDiscard.LostCheckHappens | lib/vdsm/executor.py:311-346 | A run in which an overdue discardable task is watched by nobody and its worker is not discarded. |
| ExecutorStop.PillsCover | lib/vdsm/executor.py:136-145 | If the queue had room for all pills beside the dispatches under way, the pills left always cover the workers that need one, so no worker waits without a pill. |
| Scheduler.RunInv | lib/vdsm/schedule.py:98-218 | Every reachable state keeps the accounting of calls, heap, batch and the sleeper's alarm. |
| Scheduler.CallsSafe | lib/vdsm/schedule.py:148-183 | A call starts at most once, never before its deadline, is in exactly one of pending, popped, run and cancelled, and a batch is in order of deadlines. |
| Scheduler.CancelledNeverRuns | lib/vdsm/schedule.py:206-218 | A call cancelled before its execution starts is never executed in the rest of the run. |
| Scheduler.SleepSafe | lib/vdsm/schedule.py:106-165 | A scheduler thread asleep un-notified is running, and its alarm is no later than the earliest deadline, up to the time between reading the clock and falling asleep. |
| Scheduler.Top | lib/vdsm/schedule.py:162-165 | The top of the heap is a call with the least deadline. |
| Scheduler.PopExpired | lib/vdsm/schedule.py:167-177 | The popping loop returns, once each and by deadline, exactly the valid expired calls, and leaves exactly those not yet due. |
| Barrier.RunInv | lib/vdsm/common/concurrent.py:92-142 | Every reachable state keeps the record of rounds and the counter. |
| Barrier.ReturnsInFullRound | lib/vdsm/common/concurrent.py:105-128 | A normal return belongs to a round in which count threads were inside together. |
| Barrier.RoundReturnsNormally | lib/vdsm/common/concurrent.py:105-142 | No member of a full round ever times out: it is out, or inside, notified, and the barrier is draining. |
| Barrier.RoundsDoNotOverlap | lib/vdsm/common/concurrent.py:118-128 | Nobody of the next round gets in before the last of this one has left. |
| Barrier.NobodyForgotten | lib/vdsm/common/concurrent.py:130-142 | No wake-up is lost: every thread that could go on has been notified. |
| Barrier.WaitingCountsInsiders | lib/vdsm/common/concurrent.py:118-128 | The counter is the number of threads inside and never exceeds count. |
| Barrier.TimedOutIff | lib/vdsm/common/concurrent.py:105-128 | A finished call timed out if and only if it belongs to no completed round. |
| Barrier.TimeoutSpreads | lib/vdsm/common/concurrent.py:68-72 | If no more than count calls were made and one timed out, none has returned normally. |
| Barrier.TimeoutSpreadsIff | lib/vdsm/common/concurrent.py:68-72 | A timeout rules out normal returns in every run with at most n calls if and only if n is at most count. |
| Barrier.TimeoutDoesNotSpread | lib/vdsm/common/concurrent.py:68-72 | For every count of three or more, a run with count + 1 calls in which, of two threads waiting together, one times out and the other returns normally. |
| ParallelMap.MapSafe | lib/vdsm/common/concurrent.py:187-227 | At most min(n, max_workers) workers; func is called once on each value taken, in order; each value has at most one outcome, of a call that was made; results yielded, then those queued, are the outcomes in the order the calls ended. |
| ParallelMap.TakenOnce | lib/vdsm/common/concurrent.py:196-201 | Two different steps of a run never take the same value. |
| ParallelMap.RunsAreShort | lib/vdsm/common/concurrent.py:187-227 | Under every schedule tmap makes at most 8 steps per value, so no run goes on for ever. |
| ParallelMap.NeverStuckEarly | lib/vdsm/common/concurrent.py:187-227 | In every state of every run some thread can move, unless the workers are all finished or killed and the caller has yielded everything there is. |
| ParallelMap.AllYieldedIff | lib/vdsm/common/concurrent.py:222-227 | When nobody can move, the caller has a result for every value if and only if no worker was killed, and then exactly the outcomes of the n calls, one for each value. |
| ParallelMap.YieldsAllOutcomes | lib/vdsm/common/concurrent.py:196-227 | If nobody was killed, tmap yields the multiset of the outcomes of func on the n values, exceptions included. |
| ParallelMap.AnswersAgree | lib/vdsm/common/concurrent.py:196-210 | No value gets two outcomes. |
| Subscriptions.IndexAgrees | lib/yajsonrpc/stompserver.py:88-189 | After any interleaving of commands and closings of any number of connections, each list holds, once each, exactly the live subscriptions to its destination. |
| Subscriptions.CandidateIsCut | lib/yajsonrpc/stompserver.py:278-281 | Joining the first segments gives the prefix of the destination up to a dot or its end. |
| Subscriptions.FoundExactly | lib/yajsonrpc/stompserver.py:274-285 | Searching finds, once each, exactly the subscriptions whose destination is the one searched or is followed in it by a dot. |
| SubscriptionServer.DroppedOne | lib/yajsonrpc/stompserver.py:183-189 | Deleting a list of length one, or removing from a longer one, takes away that subscription and nobody else's. |
| SubscriptionServer.Adapters.Subscribe | lib/yajsonrpc/stompserver.py:123-143 | The index after SUBSCRIBE, with both rejections, keeping the invariant. |
| SubscriptionServer.Adapters.RemoveSubscription | lib/yajsonrpc/stompserver.py:183-189 | The map loses exactly that subscription. |
| SubscriptionServer.Adapters.Unsubscribe | lib/yajsonrpc/stompserver.py:153-169 | The index after UNSUBSCRIBE, with both rejections, keeping the invariant. |
| SubscriptionServer.Adapters.RemoveSubscriptions | lib/yajsonrpc/stompserver.py:88-92 | The loop at closing drops exactly the subscriptions of the connection, in whatever order it visits them. |
| SubscriptionServer.Adapters.FindSubscribers | lib/yajsonrpc/stompserver.py:274-285 | The search loop returns, once each, exactly the live subscriptions covering the destination. |
| BatchContext.ServedState | lib/yajsonrpc/__init__.py:220-253 | After any completions: all responses in order, the open calls are those not answered, and one message per completion that found every call answered. |
| BatchContext.OneReply | lib/yajsonrpc/__init__.py:200-253 | With a call, distinct ids and no answered notification, in any order nothing is sent before the last completion, then one reply with a response per malformed item and per call. |
| BatchContext.OneReplyIff | lib/yajsonrpc/__init__.py:376-443 | Exactly when every order of completion sends one message. |
| BatchContext.NoCallsSendTwice | lib/yajsonrpc/__init__.py:414-418 | A message without any call is answered twice before anything runs. |
| BatchRace.StepsInv | lib/yajsonrpc/__init__.py:244-253 | Under every interleaving the responses are the errors and the appended answers, each once, and a call is open only while no completion of it has begun. |
| BatchRace.RaceAnswersAll | lib/yajsonrpc/__init__.py:220-253 | In every interleaving of the completions of a message with a call, some message holds every response once; with atomic sends the last one does. |
| BatchRace.RaceSendsMany | lib/yajsonrpc/__init__.py:244-253 | Some interleaving sends a message for every answer, the first with one answer only. |
| BatchRace.RaceOneReplyIff | lib/yajsonrpc/__init__.py:376-443 | Exactly when every interleaving sends one message. |
| BatchRace.LastCompleteIff | lib/yajsonrpc/__init__.py:220-253 | When sending can be separated from collecting, the last message is complete in every interleaving if and only if there is one answer. |
| BatchContext.RequestContext.Set | lib/yajsonrpc/__init__.py:200-206 | The registering loop counts the calls and collects their ids, then tries to reply. |
| BatchContext.RequestContext.Send | lib/yajsonrpc/__init__.py:220-239 | Nothing while a call is open; otherwise a lone response bare, several as a list. |
| BatchContext.RequestContext.Done | lib/yajsonrpc/__init__.py:244-253 | A completion closes its call if it has one, adds its response and tries to reply. |
| BatchContext.RequestContext.Sort | lib/yajsonrpc/__init__.py:402-412 | The sorting loop adds an error for each malformed item and keeps the calls in order. |
| BatchContext.RequestContext.Parse | lib/yajsonrpc/__init__.py:376-418 | Parsing leaves the context the theorems start from, and the requests to run. |
| Jobs.StepJobInv | lib/vdsm/jobs.py:131-226 | Every step of a job keeps that exactly one of body, pending notification and event exists once it left pending, and never leaves a final status. |
| Jobs.LifeCycle | lib/vdsm/jobs.py:131-226 | In every run: one start at most, one event at most, and when all is quiet the event carries the status; it is final if and only if the body was not killed. |
| Jobs.KilledEvent | lib/vdsm/jobs.py:155-168 | From any pending job: a killed body leaves the status running and sends it as the event. |
| Jobs.FinalForever | lib/vdsm/jobs.py:170-226 | A final status is never left and an inactive job never becomes active again. |
| Jobs.NeverDropsActive | lib/vdsm/jobs.py:330-338 | Although deletion reads the status without the status lock, the job dropped is the one looked up and is neither pending nor running, then or ever after. |
| Jobs.RegistryOnlyDropped | lib/vdsm/jobs.py:316-338 | A registered job stays under its id until a deletion that looked it up drops it. |
| Jobs.DroppedIff | lib/vdsm/jobs.py:330-338 | An undisturbed deletion drops a job if and only if it is neither pending nor running. |
| Jobs.DroppedWhileRunning | lib/vdsm/jobs.py:130-150 | An aborting job is dropped while its body is still running. |
| Jobs.JobObject.MayRunNow | lib/vdsm/jobs.py:170-186 | A pending job starts, an aborted one is refused quietly, any other is an error; only a start changes the status. |
| Jobs.JobObject.AbortNow | lib/vdsm/jobs.py:134-153 | Pending goes to aborted with an event, running to aborting, aborting stays, a finished job is an error. |
| Jobs.JobObject.RunFailed | lib/vdsm/jobs.py:211-226 | A failing body ends aborted if an abort was under way, failed otherwise, and the error is kept. |
| Jobs.JobObject.Run | lib/vdsm/jobs.py:155-168 | Running, with or without an abort while the body runs: final status and one event for every way the body can end, none if it may not run. |
| Jobs.Registry.AddJob | lib/vdsm/jobs.py:316-320 | A job is added unless its id is taken. |
| Jobs.Registry.Get | lib/vdsm/jobs.py:323-327 | The registered job with that id, or the error. |
| Jobs.Registry.Delete | lib/vdsm/jobs.py:330-338 | Deletion with both its errors; nothing else leaves the registry. |
| MdevPlacement.ScanTypes | lib/vdsm/common/hostdev.py:650-674 | The inner loop with its break and continue gives the verdict in listing order. |
| MdevPlacement.SuitableDevice | lib/vdsm/common/hostdev.py:644-687 | The whole search with its recursive fallback. |
| MdevPlacement.JudgeMeans | lib/vdsm/common/hostdev.py:650-674 | A device is chosen only if it offers the type with a free instance and nothing rules it out, and, counts being readable, exactly then. |
| MdevPlacement.PlaceFindsFirst | lib/vdsm/common/hostdev.py:644-687 | For every list of devices: the first good one in sorted order; a fall-back to compact placement only if none is good for separate; nothing only if none is good; an error only at an unreadable count before any good device. |
| MdevPlacement.PlaceReadable | lib/vdsm/common/hostdev.py:644-687 | When counts are readable there is no error, and nothing is chosen exactly when no device is good for compact placement. |
| MdevPlacement.OrderFreeIff | lib/vdsm/common/hostdev.py:650-674 | The verdict on a device is independent of the listing order if and only if it has not both a type that rules it out and an unreadable count. |
| MdevPlacement.PlaceOrderFreeIff | lib/vdsm/common/hostdev.py:644-687 | The choice is the same for all listings of all devices if and only if the search fails anyway or comes to no device that it may skip or fail on. |
| ShellQuoting.ReadEscaped | lib/vdsm/common/cmdutils.py:101 | A shell reading the quoted text ends after it with exactly the original appended to the word. |
| ShellQuoting.SplitCommandLine | lib/vdsm/common/cmdutils.py:90-109 | A POSIX shell splits the line into exactly the arguments, passwords masked, for every list of strings. |
| ShellQuoting.SameLineIff | lib/vdsm/common/cmdutils.py:90-103 | Two lists give the same line if and only if they show the same texts, so a line tells nothing else about a password. |
| ShellQuoting.ListToCommandLine | lib/vdsm/common/cmdutils.py:90-103 | The quoting loop builds that line. |
| PeekBuffer.Conservation | lib/vdsm/sslutils.py:43-63 | After any calls, want-read failures included, bytes consumed followed by bytes held back are the bytes drawn. |
| PeekBuffer.PeekTellsTheFuture | lib/vdsm/sslutils.py:43-63 | What a successful peek returned is a prefix of what later reads deliver, whatever calls follow. |
| PeekBuffer.FailuresVanish | lib/vdsm/sslutils.py:43-63 | Failing calls can be struck from any list of calls: the others then succeed, return the same bytes and leave the same bytes consumed and held back. |
| PeekBuffer.LongerThanAsked | lib/vdsm/sslutils.py:43-63 | A result exceeds the size asked for if and only if the held-back buffer does. |
| PeekBuffer.SslSocket.Read | lib/vdsm/sslutils.py:43-63 | The read method returns and leaves what the model says, and keeps conservation. |
| Base26.EncodeIndex | lib/vdsm/common/base26.py:33-49 | The encoding loop computes the recursive numeral; a negative index is an error. |
| Base26.DecodeName | lib/vdsm/common/base26.py:52-65 | The decoding loop over powers computes the value of the numeral; any character outside a-z is an error. |
| Base26.DecodeEncode | lib/vdsm/common/base26.py:33-65 | Decoding an encoded index gives it back, for every natural number. |
| Base26.EncodeDecode | lib/vdsm/common/base26.py:33-65 | Encoding a decoded name gives it back, for every non-empty name over a-z. |
| Base26.EncodeKeepsOrder | lib/vdsm/common/base26.py:33-49 | Numbering follows the order of names: shorter first, then letter by letter. |

## Left out

- Text encoding: strings on the wire are their UTF-8 bytes; `int()` is modelled on ASCII digits and spaces.
- Header order on Python 2, whose dictionaries are not ordered; headers are listed in insertion order.
- Heart-beat intervals, sockets, TLS, asyncore: what a send accepts and a read delivers are inputs.
- A send that accepts nothing with a heartbeat or a SEND frame at the head raises in the server adapter; it is modelled as closing the connection.
- Client resend and reconnect (`lib/yajsonrpc/stompclient.py`): a refused frame is queued twice, so exactly-once does not hold there.
- Sharing of one `Frame` object between outboxes: the stamped content-length is modelled per outbox.
- The broker path that stores a subscription where the map expects a list (`lib/vdsm/clientIF.py:291`).
- Executor: one start per run, and max_workers, if given, at least workers_count; start() itself does not look at max_workers.
- ExecutorPool.PoolSize: says nothing about the lower bound while the executor lock is held, because a section in progress may be about to add the worker.
- Scheduler: the heap is modelled by what heapq promises (its top is least), not by its array.
- Objects for the executor, its workers, the scheduler, the barrier and tmap: their sections interleave between threads, so they are step relations over values, and update in place is not modelled for them.
- Liveness that needs a fair thread schedule, other than that runs of tmap are finite and never stuck early.
- Jobs: exceptions raised by the notifier or the scheduler of deletions, the abort hook of each job type, and `info()`.
- JSON values that are not hashable as ids, and responses that fail to encode.
- MdevPlacement: devices are given in sorted order; a vendor file that cannot be read.
- Shell words of the form name=value: the shell's treatment of assignments is outside the quoting rules.
- Thin wrappers over storage, libvirt, processes and files (`API.py`, `v2v.py`, `hooks.py`, `supervdsm_server.py`, `vdsm_hooks/`), and one-field helpers such as `throttledlog.py` and `cache.py`, which would only add easy members.
