# Models of the network throttler, the search index, the toast stack and the Mach-O rewriter

A Dafny 4.11 project about the four parts of Brightray that hold real algorithms. `dafny verify dfyconfig.toml` checks
all of it.

**Network throttling** (`browser/net/`). `RoundRobin` defines the discipline naively: at every tick the record at the
head pays one packet of 1500 bytes and moves to the tail. The program never runs that; it computes a quotient, a
remainder and one rotation, and predicts the next completion in closed form. Both are proved equal to the naive form
(`RoundRobin`, `TickPrediction`). `Emulation` is the interceptor as a state machine over the naive form, and class
`NetworkInterceptor` (module `Interceptor`), which has the program's fields, loops and closed forms, refines it method
by method. On the state machine stand the theorems about whole runs: every throttle has exactly one outcome (`Runs`),
bytes are conserved (`Accounts`), a queue that is never empty really gets its bandwidth (`Bandwidth`, on the
arithmetic of `Throughput`), records wait and are answered as they should (`ThrottleLife`), when a download is
answered early (`Draining`), and which uploads are never served (`StrandedUploads`). `TimerAccuracy` is about the time
that is predicted, `TimerInTime` about whether the timer is in time for what it has to do, in every state it can be
armed in, `PromptFirings` about how late a download is answered while the timer keeps firing. `ThrottleWitnesses` has
concrete runs: one that meets the hypotheses of these theorems, and those that lead to what the program does not
expect. `TransactionSteps`, `Transaction`, `Sessions` and `UploadSessions`, `UploadStream` add the two users of an
interceptor; `ThrottleAnswers`, `TransactionFailures`, `HandedOn` and `LatencyAsAsked` say in terms of the conditions
that were asked for what they are answered, what fails them, what they hand on and how long they wait; `Controller`
adds the map of interceptors and the application cache that mirrors them.

**Trigram index** (`browser/devtools_file_system_indexer.cc`). `IndexViews` says what the index means: an ordered list
of paths and a set of (path, trigram) pairs. Class `TrigramIndex` (module `SearchIndex`) keeps posting lists of 16-bit
ids and lazily sorted flags and is proved to implement that meaning; `ChunkReader` says what becomes of a file for any
sizes of the reads, any failing read and any stop, and class `FileSystemIndexingJob` (module `IndexingJob`) is the
overlapping chunked reader and the job around it. `LostFile` is a search that loses a file, `ShortRead` a job that
does, `IdCollisions` what happens with more files than ids.

**Toast stack** (`browser/win/win32_desktop_notifications/`). `ToastStack` is the collapse around highlighted toasts
and the layout pass on sequences of slots, `ToastDisplay` the bounded display with its queue over whole runs, and
class `DesktopNotificationController` (module `NotificationController`) the in-place loops.

**Mach-O flag rewriter** (`tools/mac/change_mach_o_flags.py`). `MachO` and `FatFile` say what one header and a whole
fat file become, `HeaderBytes` says byte by byte which headers are meant and which bits are set; class `ImageFile`
(module `MachORewriter`) is the code with its file position. `FatWitness` has two small fat files.

Callbacks are numbers appended to a log when they are run; the clock is an argument that never goes back; what the
wrapped objects answer is an argument. An `Option` or an outcome datatype stands for null and for exceptions.

## What does not hold as the code expects

* A queue without a tick length is expected to be empty (`devtools_network_interceptor.cc:111`). That is an invariant
  for downloads, but `ArmTimer` never drains uploads. `StrandsExactly`: new conditions that still throttle lead to a
  non-empty upload queue without ticks, at once or later while they last, exactly if they do not throttle uploads and
  an upload is queued or suspended. A stranded upload with bytes left is never answered until it is stopped or the
  conditions change (`StrandedStays`); one that has paid more than it owed is answered when the timer fires next
  (`OverdrawnAnsweredNext`). `UploadGetsStranded` has runs that lead to both.
* The prediction counts down to zero, but collection wants a negative balance, and StartThrottle and UpdateConditions
  arm the timer without collecting. The predicted time can then lie behind, and the timer is set to the distance to
  it. `InTimeExactly` says, for all balances, that the timer is in time exactly if it is set for no later than the
  first moment there is something to do, and gives that moment in closed form. `InTimeUnlessBehind`: with downloads
  throttled, no tick sum wrapped and no upload predicted for tick zero (which the code ignores), this can only fail
  when the predicted time lies behind, and then exactly if it lies further behind than the first work lies ahead.
  `ZeroBalanceTimer`: after a record has paid exactly what it owed, the timer first fires for nothing and, in the
  second half of a tick, is set too late. `CreditWaits`: a record that starts with the credit of a hundred packets can
  be collected at once and waits for a tenth of a second. Such lateness has a bound once the timer has fired: with
  downloads throttled and no sum wrapped it is less than one round of the queues (`FiringLateByLessThanARound`).
  Firings for nothing within a tick double the distance each time, so if there are `k` of them in a row, `2^k` times
  the first distance fits between the time looked back to and the next tick (`FiringsForNothing`). Over whole runs of
  firings, each at most `delay` later than set, a queued download is answered less than a round and the delay after
  the moment it has paid (`AnsweredWithinARound`).
* When downloads are not throttled the timer is set to the distance from the moment the conditions were set, whatever
  the uploads need (`UploadOnlyTimer`). `UploadOnlyTimerIsLate` is a run after which two milliseconds of work wait for
  a second.
* Downloads are answered whatever they still owe whenever the predicted tick is tick zero, not only without a download
  throughput. `DrainsExactly` says when; `NoDrainWhileBytesLeft` that it does not happen while all downloads have
  bytes left. `EmptyResponseDrains`: a response without bytes in the first tick answers a whole other download.
* A record with so much credit that the unsigned tick sum goes below zero puts the predicted time practically out of
  reach (`LooksAheadExactly`). `CreditStalls` is a run of two events that gets there: the record can be collected at
  once and the timer is set for some 2^64 milliseconds later.
* A tick is never shorter than a microsecond. Queues that are never empty keep up with a requested throughput in all
  runs exactly if it is at most 1.5e9 bytes per second (`Bandwidth.KeepsUpExactly`); `Bandwidth.FallsBehindInRun` has
  a run that falls behind for each throughput above that.
* Conditions that only add latency violate the check at `devtools_network_interceptor.cc:87-88`, although the protocol
  handler passes them on. They are excluded here (`Acceptable`), as the check does.
* A search in an index that is not normalised can lose files. It finds a file exactly if the id of the file is in the
  first list and, in every list behind that, with only smaller ids in front of its first occurrence. So the result is
  exact if and only if no list behind the first has a larger id in front of the id of a matching file (`Search` with
  `HidesNothing`), and one list is right for every set if and only if it hides none of its own ids
  (`IntersectionExactly`). `SearchLosesFile` is an index after three recordings in which a file is not found by its
  own content.
* File ids wrap at 16 bits. They identify files exactly up to 65536 files (`IdsDistinctExactly`). Beyond that every
  file that should match still does (`NoFalseNegatives`), but whatever the paths are, something can be recorded for
  which a file matches in the place of another (`ExactUpToIds`); `EmptyFileMatches` is an indexing history after which
  an empty file matches.
* A layout whose highlighted toasts are too close to what is below them leaves them overlapping; `LayoutStacksExactly`
  says when. It never happens in a run in which heights stay the same (`NeverOverlap`), and does in one in which a
  toast grows below a highlighted one (`GrowthOverlaps`).
* A read of less than three bytes ends a file although more of it is left. For any replies to its reads, the job takes
  in all trigrams of every file of a given length if and only if the first reply that does not deliver three bytes or
  more, in a file without binary characters, is neither a stop nor an error and comes when less than three bytes are
  left (`TakenInExactly`). What is lost otherwise is, for one, a file with one letter up to the cut and another behind
  it. `ShortReadLosesFile` is a completed job after which a file of three bytes is not found by its own content,
  because its first read delivered two.
* The fat file loop stops at the first header it refuses and leaves the headers before it rewritten (`FatHandled`).
  Where a flags word that is changed is also part of what is read of another header, the loop can come to refuse a
  header that was acceptable (`SharedWordFails`).

## Model

| member | source | states |
|---|---|---|
| RoundRobin.ClosedFormIsServe | browser/net/devtools_network_interceptor.cc:115-128 | for every non-empty queue and every number of ticks, quotient plus remainder plus one rotation is serving the head and moving it to the tail once per tick |
| RoundRobin.ServeSplit | browser/net/devtools_network_interceptor.cc:105-129 | an update can be split at any intermediate time without changing anything |
| RoundRobin.ServeTracks | browser/net/devtools_network_interceptor.cc:122-127 | every record is found again at a known place, charged for its share of the packets |
| RoundRobin.ServeOnlyTracked | browser/net/devtools_network_interceptor.cc:122-127 | every place of the updated queue holds such a record: nothing is invented |
| RoundRobin.FairShare | browser/net/devtools_network_interceptor.cc:122-126 | what two records of one queue pay in one update differs by at most one packet |
| RoundRobin.ServeTotal | browser/net/devtools_network_interceptor.cc:122-127 | the total of a queue drops by exactly 1500 bytes per tick |
| TickPrediction.PredictionIsFirstCompletion | browser/net/devtools_network_interceptor.cc:181-194 | if every record has bytes left, the predicted tick is exactly the first tick of the round robin at which some record has none left |
| TickPrediction.NothingBeforePrediction | browser/net/devtools_network_interceptor.cc:156-194 | before the predicted tick every record still has bytes left, so nothing can be collected |
| TickPrediction.CollectionWithinOneRound | browser/net/devtools_network_interceptor.cc:156-194 | from one full round after the predicted tick on some record has a negative balance, so collection takes something |
| TickPrediction.TicksLeftExact | browser/net/devtools_network_interceptor.cc:188-189 | the per-record prediction is the exact tick from which on that record has nothing left to pay |
| TickPrediction.CollectableExactly | browser/net/devtools_network_interceptor.cc:156-166 | for all balances collection finds a record exactly from the tick on that is given in closed form |
| TickPrediction.PredictedBeforeCollection | browser/net/devtools_network_interceptor.cc:181-194 | the prediction never comes after the collection it is made for |
| TickPrediction.TruncatingDivision | browser/net/devtools_network_interceptor.cc:188 | division rounds toward zero for negative credit too |
| Throughput.TickLength | browser/net/devtools_network_interceptor.cc:20-28 | a tick length is zero exactly for throughput zero; faster links get at least a microsecond |
| Bandwidth.PacketPerTick | browser/net/devtools_network_interceptor.cc:105-137 | catching up charges a non-empty queue one packet for each tick that has passed |
| Bandwidth.RunPacketPerTick | browser/net/devtools_network_interceptor.cc:105-287 | over every run without new conditions, whoever joins and leaves, a queue that is never empty is charged one packet for every tick of the whole time |
| Bandwidth.BytesSinceOffset | browser/net/devtools_network_interceptor.cc:20-137 | from the offset on these are the whole ticks since then times 1500 bytes |
| Bandwidth.NeverTooSlow | browser/net/devtools_network_interceptor.cc:20-137 | in every such run of downloads or uploads, up to 1.5e9 bytes per second, what the queue was charged is less than one packet behind the requested throughput |
| Bandwidth.NeverTooFast | browser/net/devtools_network_interceptor.cc:20-137 | it never exceeds the requested throughput by more than the rounding of one tick |
| Bandwidth.KeepsUpExactly | browser/net/devtools_network_interceptor.cc:20-137 | a throughput is kept up with in all such runs if and only if it is at most 1.5e9 bytes per second |
| Bandwidth.FallsBehindInRun | browser/net/devtools_network_interceptor.cc:20-137 | for every greater throughput a run from the initial state that falls more than a packet behind |
| Emulation.ArmTimerEstablishes | browser/net/devtools_network_interceptor.cc:196-229 | arming makes the invariant true: a non-empty queue has an armed timer and downloads without a tick length are gone |
| Emulation.UpdateConditionsKeepsValid | browser/net/devtools_network_interceptor.cc:68-103 | changed conditions keep the invariant, and going offline or unthrottled empties all three queues |
| Emulation.StartThrottleKeepsValid | browser/net/devtools_network_interceptor.cc:231-270 | a new throttle keeps the invariant |
| Emulation.StopThrottleKeepsValid | browser/net/devtools_network_interceptor.cc:272-287 | stopping a throttle keeps the invariant |
| Emulation.OnTimerKeepsValid | browser/net/devtools_network_interceptor.cc:168-179 | the timer keeps the invariant |
| Interceptor.NetworkInterceptor.UpdateThrottledRecords | browser/net/devtools_network_interceptor.cc:105-129 | the loop and the rotation give the queue of the naive round robin and the new tick |
| Interceptor.NetworkInterceptor.UpdateThrottled | browser/net/devtools_network_interceptor.cc:131-137 | both queues are served up to now and due records join them |
| Interceptor.NetworkInterceptor.UpdateSuspended | browser/net/devtools_network_interceptor.cc:139-154 | due records join the queue of their kind in order, the others stay suspended in order |
| Interceptor.NetworkInterceptor.CollectFinished | browser/net/devtools_network_interceptor.cc:156-166 | records with a negative balance are taken out in order, the rest stays in order |
| Interceptor.NetworkInterceptor.FinishRecords | browser/net/devtools_network_interceptor.cc:56-66 | every callback of the queue is run once, in order; only downloads fail offline |
| Interceptor.NetworkInterceptor.CalculateDesiredTime | browser/net/devtools_network_interceptor.cc:181-194 | the loop finds the smallest prediction; the tick sum wraps at 64 bits |
| Interceptor.NetworkInterceptor.ArmTimer | browser/net/devtools_network_interceptor.cc:196-229 | the whole new state: timer, drained downloads, callbacks |
| Interceptor.NetworkInterceptor.UpdateConditions | browser/net/devtools_network_interceptor.cc:68-103 | the whole new state is that of the state machine |
| Interceptor.NetworkInterceptor.StartThrottle | browser/net/devtools_network_interceptor.cc:231-270 | the whole new state and the answer are those of the state machine |
| Interceptor.NetworkInterceptor.StopThrottle | browser/net/devtools_network_interceptor.cc:272-277 | exactly the records of the callback leave the three queues |
| Interceptor.NetworkInterceptor.RemoveRecord | browser/net/devtools_network_interceptor.cc:279-287 | the other records stay, in order |
| Interceptor.NetworkInterceptor.OnTimer | browser/net/devtools_network_interceptor.cc:168-179 | the whole new state is that of the state machine |
| Runs.StepLedger | browser/net/devtools_network_interceptor.cc:56-287 | one event changes queued plus run callbacks only by what it puts in and stops |
| Runs.RunLedger | browser/net/devtools_network_interceptor.cc:56-287 | over every run and for every callback: put in = still queued + run + stopped |
| Runs.ExactlyOnce | browser/net/devtools_network_interceptor.cc:231-287 | a throttle that answered pending is in exactly one place exactly once: queued, called back or stopped |
| Accounts.ServedIsCharged | browser/net/devtools_network_interceptor.cc:122-127 | a record pays exactly for the packets the round robin serves to its callback |
| Accounts.StepConserves | browser/net/devtools_network_interceptor.cc:56-287 | through every event a queued record pays for the packets of its callback and stays queued, or is called back with its balance |
| Accounts.RunConserves | browser/net/devtools_network_interceptor.cc:56-287 | the same over whole runs, whatever happens to other records, negative credit included |
| Accounts.StartStep | browser/net/devtools_network_interceptor.cc:255-267 | a record that joins is charged for nothing that happened before |
| Accounts.StartConserves | browser/net/devtools_network_interceptor.cc:231-270 | conservation from the moment a throttle starts to the end of any run |
| ThrottleLife.LatencyRespected | browser/net/devtools_network_interceptor.cc:139-154 | a suspended record waits exactly until its latency is over and then joins the end of its queue unserved |
| ThrottleLife.NewRecordPlaced | browser/net/devtools_network_interceptor.cc:255-266 | a new record moves nobody else and is suspended exactly if it starts something whose latency is not over |
| ThrottleLife.UnthrottlingAnswers | browser/net/devtools_network_interceptor.cc:68-84 | every queued record is then called back exactly once, with what it owed less the packets it was served; only downloads fail, and only offline |
| ThrottleLife.TimerAnswers | browser/net/devtools_network_interceptor.cc:168-207 | the timer answers every record with a negative balance with its own result, and others only when downloads have no time to wait for |
| LatencyAsAsked.LatencyInMicroseconds | browser/net/devtools_network_interceptor.cc:98-101 | while throttling, the latency waited for is the one asked for in milliseconds times 1000, rounded down |
| LatencyAsAsked.LatencyOfRuns | browser/net/devtools_network_interceptor.cc:68-103 | so in every throttling state that a run leads to |
| LatencyAsAsked.PlacedExactly | browser/net/devtools_network_interceptor.cc:255-266 | a new record is suspended if and only if it starts something, the latency asked for is a microsecond at least, and it is not over |
| LatencyAsAsked.LatencyKept | browser/net/devtools_network_interceptor.cc:139-266 | over every run under unchanged conditions a record that started is suspended, and in no other queue, if and only if the latency asked for is not over at the last look at the clock |
| LatencyAsAsked.CallPlaced | browser/net/devtools_network_transaction.cc:46-75 | a call of a transaction waits for the latency if and only if it is a Start or Restart call that the interceptor takes in, with the latency not over |
| LatencyAsAsked.ReadNeverSuspended | browser/net/devtools_network_upload_data_stream.cc:70-81 | a read of an upload stream never waits for a latency |
| ThrottleAnswers.TakenOnce | browser/net/devtools_network_interceptor.cc:231-270 | the callback of a throttle is queued or run, exactly once, if and only if its result is no error, the interceptor is online and that direction is throttled; otherwise nothing changes |
| ThrottleAnswers.ReadAnswered | browser/net/devtools_network_upload_data_stream.cc:70-87 | a read of an upload stream is pending in exactly that case, and answers its own result in all others, offline too; if its callback is run at once it hands on that result |
| ThrottleAnswers.CallAnswered | browser/net/devtools_network_transaction.cc:96-217 | Start, Restart and Read answer "disconnected" if the transaction has failed or is offline, pending if the interceptor takes the call in, and their own result otherwise, as a Read of nothing does |
| ThrottleAnswers.EndAnswered | browser/net/devtools_network_transaction.cc:39-75 | the same for a call that ends later, which fails only if it ends offline without an error |
| ThrottleAnswers.ResumeAnswered | browser/net/devtools_network_transaction.cc:288-292 | ResumeNetworkStart answers its own result unless the transaction has failed or is offline |
| ThrottleAnswers.BusyWith | browser/net/devtools_network_transaction.cc:130-217 | a call that is still going on is throttled when it ends, as the Start, Restart or Read it was |
| TimerAccuracy.DesiredTimeIsFirst | browser/net/devtools_network_interceptor.cc:181-194 | the desired time of a queue is the first moment at which one of its records has paid everything |
| TimerAccuracy.LooksAheadExactly | browser/net/devtools_network_interceptor.cc:181-194 | the desired time of one queue lies ahead if and only if all its records have bytes left or the tick sum goes below zero and wraps |
| TimerAccuracy.TimerNeitherLateNorIdle | browser/net/devtools_network_interceptor.cc:196-229 | armed while every record has bytes left and nothing is due, the timer fires exactly when the first record has paid everything or the first latency is over, or at the placeholder of an empty queue |
| TimerInTime.FirstWorkExactly | browser/net/devtools_network_interceptor.cc:139-166 | whatever the balances, there is a record to collect or to activate exactly from the moment on that is given in closed form |
| TimerInTime.WorkIsDone | browser/net/devtools_network_interceptor.cc:168-179 | that is exactly when a firing timer collects or activates a record |
| TimerInTime.InTimeExactly | browser/net/devtools_network_interceptor.cc:196-229 | in every state with an armed timer, it is in time if and only if it is set for no later than that moment, and has something to do if and only if for no earlier |
| TimerInTime.ArmedInTimeExactly | browser/net/devtools_network_interceptor.cc:196-229 | whenever the timer is armed it is in time if and only if the distance to the wake-up time, ahead or behind, does not exceed the distance to that moment |
| TimerInTime.InTimeUnlessBehind | browser/net/devtools_network_interceptor.cc:203-228 | with downloads throttled, no tick sum wrapped and no upload without ticks or predicted for tick zero, a wake-up time ahead is always in time, one behind if and only if it is no further behind than the first work is ahead |
| TimerInTime.UploadOnlyTimer | browser/net/devtools_network_interceptor.cc:203-228 | with downloads not throttled, whatever is queued or suspended, the timer is set to the distance from the offset, and in time if and only if the first work is no closer |
| TimerInTime.LateByLessThanARound | browser/net/devtools_network_interceptor.cc:196-229 | armed with nothing overdrawn and nothing due, downloads throttled and no sum wrapped, the timer is in time or set for less than one round of the queues from now |
| TimerInTime.FiringLateByLessThanARound | browser/net/devtools_network_interceptor.cc:168-229 | so after every firing, whatever credit or delay there was before, the timer is late by less than one round |
| TimerInTime.WaitDoubles | browser/net/devtools_network_interceptor.cc:168-229 | a firing for nothing within a tick changes nothing but doubles the distance the timer is set to |
| TimerInTime.FiringsForNothing | browser/net/devtools_network_interceptor.cc:168-229 | k such firings in a row all lie before the next tick, so 2^k times the first distance does too |
| PromptFirings.OneFiring | browser/net/devtools_network_interceptor.cc:168-229 | with nobody waiting for a latency, one firing answers a queued download, or leaves it due no later than before and the timer set for less than a round from now or no later than that |
| PromptFirings.AnsweredWithinARound | browser/net/devtools_network_interceptor.cc:168-229 | over every run in which the timer keeps firing, each time at most a given delay late, a queued download is answered less than a round and the delay after the moment the round robin has it paid, as soon as time has come to that moment |
| ThrottleWitnesses.PromptRun | browser/net/devtools_network_interceptor.cc:168-229 | such a run: set in the middle of a tick, the timer fires when the record has paid |
| ThrottleWitnesses.PaidUpReached | browser/net/devtools_network_interceptor.cc:156-194 | a run after which a record has paid exactly what it owed |
| ThrottleWitnesses.ZeroBalanceTimer | browser/net/devtools_network_interceptor.cc:156-228 | the timer is then set to the distance from the last tick: for nothing in the first half of the tick, too late in the second |
| ThrottleWitnesses.CreditWaits | browser/net/devtools_network_interceptor.cc:181-228 | a run after which a record that can be collected at once waits for 98 milliseconds |
| ThrottleWitnesses.CreditStalls | browser/net/devtools_network_interceptor.cc:181-228 | a run of two events after which the tick sum has wrapped: a record that can be collected at once waits for some 2^64 milliseconds |
| ThrottleWitnesses.UploadOnlyTimerIsLate | browser/net/devtools_network_interceptor.cc:203-228 | a run after which an upload that is through in two milliseconds waits for a second |
| Draining.DrainsExactly | browser/net/devtools_network_interceptor.cc:203-207 | while throttling goes on, a record with bytes left is answered if and only if the download queue has no ticks or is predicted for tick zero and holds such a record; then the whole queue is answered |
| Draining.NoDrainWhileBytesLeft | browser/net/devtools_network_interceptor.cc:181-207 | it does not happen while all downloads have bytes left |
| ThrottleWitnesses.EmptyResponseDrains | browser/net/devtools_network_interceptor.cc:203-207 | a run in which a response without bytes answers a whole other download |
| StrandedUploads.StrandsExactly | browser/net/devtools_network_interceptor.cc:105-113 | some run under unchanged conditions, or none, leads to uploads without ticks, if and only if the new conditions do not throttle uploads and one is queued or suspended |
| StrandedUploads.StrandedStays | browser/net/devtools_network_interceptor.cc:156-179 | a stranded upload with bytes left stays over every run that neither stops it nor changes the conditions |
| StrandedUploads.OverdrawnAnsweredNext | browser/net/devtools_network_interceptor.cc:156-179 | one that has paid more than it owed stays until the timer fires and is answered then |
| ThrottleWitnesses.UploadGetsStranded | browser/net/devtools_network_interceptor.cc:68-103 | runs that strand an upload with any balance |
| TransactionSteps.CheckFailed | browser/net/devtools_network_transaction.cc:96-104 | afterwards the transaction has failed if it had before or is attached to an offline interceptor |
| Transaction.NetworkTransaction.Fail | browser/net/devtools_network_transaction.cc:87-94 | needs a request and no earlier failure, and detaches |
| Transaction.NetworkTransaction.ThrottleCallback | browser/net/devtools_network_transaction.cc:77-85 | takes over the balance, fails if disconnected, leaves no callback outstanding, and completes the call with the result |
| Transaction.NetworkTransaction.Throttle | browser/net/devtools_network_transaction.cc:46-75 | the new transaction, the new interceptor, the answer and the calls completed on the way are those of the value model, for callbacks run during the call too |
| Transaction.NetworkTransaction.Operate | browser/net/devtools_network_transaction.cc:152-217 | the same for Read and the Restart calls |
| Transaction.NetworkTransaction.Start | browser/net/devtools_network_transaction.cc:106-150 | the same for Start, with or without an interceptor for the client |
| Transaction.NetworkTransaction.ResumeNetworkStart | browser/net/devtools_network_transaction.cc:288-292 | the failure check first, then the answer of the wrapped transaction |
| Transaction.NetworkTransaction.Destroy | browser/net/devtools_network_transaction.cc:34-37 | an outstanding throttle is stopped, nothing else is touched |
| Sessions.Delivery | browser/net/devtools_network_transaction.cc:77-85 | after any event the record of the transaction is still queued or its callback was delivered exactly once with its balance |
| Sessions.NextKeepsConsistent | browser/net/devtools_network_transaction.cc:34-292 | every step of a transaction with one outstanding operation keeps: the throttle callback is set exactly while one of its records is queued, charged bytes = packets + balance, Fail is called with its checks true |
| Sessions.UnservedIsOwed | browser/net/devtools_network_transaction.cc:46-85 | the one record queued for the current callback, or the balance, has exactly the bytes charged and not served |
| Sessions.BytesConserved | browser/net/devtools_network_transaction.cc:46-85 | over whole runs what the events cost is 1500 times the packets served plus the bytes of that record or the balance |
| Sessions.ChargedOverRun | browser/net/devtools_network_transaction.cc:46-75 | what was charged over a run is, summed over its events, the result of each call and what a Start or Restart call had received, of calls without an error on an attached transaction that has not failed; a call that starts offline costs nothing, one that ends offline does |
| Sessions.FailedForGood | browser/net/devtools_network_transaction.cc:87-292 | a failed transaction answers Start, Restart, Read, ResumeNetworkStart and a finished call with ERR_INTERNET_DISCONNECTED, charges nothing, touches no interceptor and has nothing queued |
| Sessions.FailedForTheRun | browser/net/devtools_network_transaction.cc:87-104 | failure lasts for every continuation of the run |
| Sessions.CallFailsExactly | browser/net/devtools_network_transaction.cc:96-150 | a call fails the transaction if and only if it had failed or its interceptor is offline |
| TransactionFailures.FailsExactly | browser/net/devtools_network_transaction.cc:39-150 | an event fails a transaction if and only if it is a call or ResumeNetworkStart while offline, the end of a call without an error while offline, or takes the interceptor offline while a throttle is outstanding |
| TransactionFailures.FailedOverRun | browser/net/devtools_network_transaction.cc:39-150 | over every run a transaction has failed if and only if one of these has happened |
| TransactionFailures.FailingDetaches | browser/net/devtools_network_transaction.cc:87-94 | a transaction that fails lets go of its interceptor |
| HandedOn.CallHandedOn | browser/net/devtools_network_transaction.cc:77-85 | when its throttle is over a call is completed once, with its own result, or "disconnected" if and only if the interceptor was taken offline |
| HandedOn.ReadHandedOn | browser/net/devtools_network_upload_data_stream.cc:83-87 | when its throttle is over a read of an upload stream is completed once with its own result, offline too |
| UploadSessions.NextKeepsConsistent | browser/net/devtools_network_upload_data_stream.cc:27-94 | every step, getting and losing the interceptor included, keeps the balance account of an upload stream |
| UploadSessions.ResetKeepsConsistent | browser/net/devtools_network_upload_data_stream.cc:89-94 | a reset leaves nothing of the stream queued |
| UploadSessions.UploadBytesConserved | browser/net/devtools_network_upload_data_stream.cc:27-94 | over whole runs, in which the interceptor may be set at any time and lost once it has been unthrottled, the bytes charged are the packets served, what resets forgave and the balance or what the queued record owes |
| UploadStream.UploadDataStream.ThrottleRead | browser/net/devtools_network_upload_data_stream.cc:70-81 | the new stream, the new interceptor, the answer and the reads completed on the way are those of the value model |
| UploadStream.UploadDataStream.ThrottleCallback | browser/net/devtools_network_upload_data_stream.cc:83-87 | the balance becomes the bytes handed back, and the read is completed with the result |
| UploadStream.UploadDataStream.ResetInternal | browser/net/devtools_network_upload_data_stream.cc:89-94 | the balance is forgotten and the throttle stopped |
| UploadStream.UploadDataStream.SetInterceptor | browser/net/devtools_network_upload_data_stream.cc:27-32 | sets the interceptor of a stream that had none |
| Controller.DrainedByUnthrottling | browser/net/devtools_network_controller.cc:39-43 | before an interceptor is erased all its queued records have been called back, each once |
| Runs.OthersKeepConditions | browser/net/devtools_network_controller.cc:49-62 | nothing but new conditions takes an interceptor offline, so the mirror holds between calls |
| Controller.NetworkController.SetNetworkState | browser/net/devtools_network_controller.cc:25-63 | the named client gets its conditions, no other client changes, and the application cache is offline exactly if some client is |
| Controller.NetworkController.GetInterceptor | browser/net/devtools_network_controller.cc:65-77 | the interceptor of a known non-empty client id, else none |
| Trigrams.BuildTrigramChars | browser/devtools_file_system_indexer.cc:91-127 | the arithmetic of the table numbers the indexed characters without gaps, and its range check never fires |
| Trigrams.CharactersInBytes | browser/devtools_file_system_indexer.cc:91-127 | a byte is binary if and only if it is none of 9 to 13, 32 to 126 and 128 to 255, and has a code if and only if it is 9 or one of 32 to 126 |
| Trigrams.BinaryInBytes | browser/devtools_file_system_indexer.cc:381-392 | a file has binary characters if and only if one of its bytes is none of 9 to 13, 32 to 126 and 128 to 255 |
| Trigrams.DefinedInBytes | browser/devtools_file_system_indexer.cc:129-140 | a window has a trigram if and only if its three bytes are 9 or in 32 to 126 |
| Trigrams.CodesAreFoldedCharacters | browser/devtools_file_system_indexer.cc:91-127 | defined codes lie in [0, 69) and are equal exactly for bytes that are equal but for the case of an ASCII letter or a tab for a space |
| Trigrams.EveryCodeIsUsed | browser/devtools_file_system_indexer.cc:46-48 | every code below 69 is the code of a folded character |
| Trigrams.TrigramAtIndex | browser/devtools_file_system_indexer.cc:129-140 | a trigram is defined exactly if its three characters are, and lies in [0, 69^3) |
| Trigrams.TrigramsAreFoldedWindows | browser/devtools_file_system_indexer.cc:129-140 | two windows share a trigram exactly if their bytes are equal in this sense |
| Trigrams.OccurrenceHasTrigrams | browser/devtools_file_system_indexer.cc:172-188 | a text contains every trigram of a query that occurs in it |
| Trigrams.ThreeCharactersDecide | browser/devtools_file_system_indexer.cc:172-188 | for three defined characters the converse holds as well |
| Trigrams.OverlappingParts | browser/devtools_file_system_indexer.cc:394-402 | parts that overlap in two bytes have together the trigrams of the whole |
| PostingLists.SetIntersection | browser/devtools_file_system_indexer.cc:201-203 | the merge loop computes the intersection function |
| PostingLists.IntersectionFinds | browser/devtools_file_system_indexer.cc:201-203 | an element of the set is left by the intersection if and only if the list has it with only smaller ids in front of its first occurrence |
| PostingLists.IntersectionExactly | browser/devtools_file_system_indexer.cc:201-203 | a posting list gives the right intersection with every set if and only if none of its ids has a larger one in front of it |
| PostingLists.MergedExactly | browser/devtools_file_system_indexer.cc:189-204 | the ids left after all lists are those of the first list that are found in this way in all others |
| PostingLists.CommonUnlessHidden | browser/devtools_file_system_indexer.cc:189-204 | an id common to all lists is left if and only if none of the lists behind the first hides it |
| PostingLists.SortIsSorted | browser/devtools_file_system_indexer.cc:229 | sorting orders a list and keeps its multiset |
| IndexViews.IdsDistinctExactly | browser/devtools_file_system_indexer.cc:216-223 | ids identify files if and only if there are at most 65536 |
| IndexViews.MatchesExactly | browser/devtools_file_system_indexer.cc:172-214 | up to then a file matches exactly if all defined trigrams of the query were ever recorded for it |
| IndexViews.NothingForgotten | browser/devtools_file_system_indexer.cc:158-170 | re-indexing and other files never remove a recorded trigram |
| IndexViews.NoFalseNegatives | browser/devtools_file_system_indexer.cc:158-214 | for every indexing history, wrapped ids included, a file whose bytes are all text (9 to 13, 32 to 126, 128 to 255) matches every query that occurs in it |
| IndexViews.ThreeCharacterSearchExactly | browser/devtools_file_system_indexer.cc:158-214 | for three bytes that are 9 or in 32 to 126 and at most 65536 files, the matches are exactly the files one of whose recorded contents is text and contains the query |
| SearchIndex.TrigramIndex.GetFileId | browser/devtools_file_system_indexer.cc:216-223 | a known path keeps its id, a new one gets the next, modulo 2^16 |
| SearchIndex.TrigramIndex.SetTrigramsForFile | browser/devtools_file_system_indexer.cc:158-170 | records exactly these pairs and appends the id to exactly these lists; a list flagged as normalised stays sorted |
| SearchIndex.TrigramIndex.NormalizeVectors | browser/devtools_file_system_indexer.cc:225-235 | every posting list is sorted and keeps its multiset |
| SearchIndex.TrigramIndex.Search | browser/devtools_file_system_indexer.cc:172-214 | in every state returns, in path order, exactly the files whose id is found in all lists; all of them match, and they are all that match if and only if no list behind the first has a larger id in front of the id of a matching file |
| SearchIndex.TrigramIndex.NormalizedHidesNothing | browser/devtools_file_system_indexer.cc:225-235 | a normalised index hides no file from any query, so its searches are exact |
| IdCollisions.ExactUpToIds | browser/devtools_file_system_indexer.cc:172-223 | whatever is recorded for these files, every search matches exactly the files with all trigrams of the query, if and only if there are at most 65536 files |
| IdCollisions.EmptyFileMatches | browser/devtools_file_system_indexer.cc:158-223 | an indexing history of 65537 files after which an empty file matches a query that occurs in the first file only |
| LostFile.SearchLosesFile | browser/devtools_file_system_indexer.cc:158-214 | an index after three recordings, in which a file is not found by its own content |
| ChunkReader.ChunkTaken | browser/devtools_file_system_indexer.cc:381-402 | one more chunk extends the trigrams collected so far to those of the longer prefix |
| ChunkReader.CleanRead | browser/devtools_file_system_indexer.cc:358-403 | a file without binary characters is read up to the first offset without a long reply, and that reply decides how the reading ends |
| ChunkReader.RestIsTaken | browser/devtools_file_system_indexer.cc:358-403 | from any offset on, if nothing is cut the reader ends with all trigrams of the file, none if it has binary characters |
| ChunkReader.TakenInExactly | browser/devtools_file_system_indexer.cc:358-403 | for any replies, the reader takes in all trigrams of every file of a length if and only if the first reply that is not at least three bytes (in a file without binary characters, which is read furthest) is neither a stop nor an error and less than three bytes are left then |
| ShortRead.ShortReadLosesFile | browser/devtools_file_system_indexer.cc:330-417 | a job that completes, after which a file is not found by its own content because its first read delivered two of three bytes |
| IndexingJob.FileSystemIndexingJob.StartFileIndexing | browser/devtools_file_system_indexer.cc:346-356 | nothing of the previous file is left |
| IndexingJob.FileSystemIndexingJob.OnRead | browser/devtools_file_system_indexer.cc:367-403 | a chunk extends the collected prefix, ends the file, or finds a binary character and drops everything |
| IndexingJob.FileSystemIndexingJob.IndexFile | browser/devtools_file_system_indexer.cc:346-403 | for any replies to the reads: ends as they determine, with the duplicate-free trigrams of what was read; with those of the whole file if nothing is cut |
| IndexingJob.FileSystemIndexingJob.IndexFiles | browser/devtools_file_system_indexer.cc:330-417 | the files are read one after the other with the outcomes their replies determine, up to the first at which the job is stopped; the index then means what it meant before plus what was read; the job completes exactly if it is not stopped, and the index is normalised then |
| IndexingJob.AllAreRead | browser/devtools_file_system_indexer.cc:330-417 | if nothing is cut of any file, the job reads all of them with all their trigrams and is not stopped before the last |
| IndexingJob.IndexedIsFound | browser/devtools_file_system_indexer.cc:158-417 | end to end: after any earlier and later jobs, a file of text bytes that the job came to and of which its replies cut nothing matches every query that occurs in it |
| ToastStack.CollapseKeepsLiving | browser/win/win32_desktop_notifications/desktop_notification_controller.cc:201-227 | living toasts keep their relative order, none is lost |
| ToastStack.CollapseKeepsHighlighted | browser/win/win32_desktop_notifications/desktop_notification_controller.cc:210-226 | a highlighted toast stays at its index, unchanged, and no other slot becomes highlighted |
| ToastStack.CollapseSettles | browser/win/win32_desktop_notifications/desktop_notification_controller.cc:210-226 | closed slots remain only directly in front of a highlighted toast, and the last slot has a window |
| ToastStack.CollapsePurgesOnce | browser/win/win32_desktop_notifications/desktop_notification_controller.cc:217-218 | a second collapse finds nothing to close |
| ToastStack.CollapseShrinks | browser/win/win32_desktop_notifications/desktop_notification_controller.cc:220-223 | the stack never grows |
| ToastStack.LayoutStacksExactly | browser/win/win32_desktop_notifications/desktop_notification_controller.cc:229-247 | the new targets do not overlap if and only if every highlighted toast leaves room for what is below it |
| ToastStack.LayoutLowers | browser/win/win32_desktop_notifications/desktop_notification_controller.cc:229-247 | on a stack without overlaps no target grows, highlighted toasts stay, nothing but targets changes |
| ToastStack.PurgeThenLayout | browser/win/win32_desktop_notifications/desktop_notification_controller.cc:199-247 | purge and layout together keep a stack without overlaps and move no toast up and no highlighted toast at all |
| ToastDisplay.AddKeeps | browser/win/win32_desktop_notifications/desktop_notification_controller.cc:253-266 | a new notification keeps the display invariant |
| ToastDisplay.CloseKeeps | browser/win/win32_desktop_notifications/desktop_notification_controller.cc:268-284 | closing keeps it |
| ToastDisplay.AnimateKeeps | browser/win/win32_desktop_notifications/desktop_notification_controller.cc:163-251 | an animation step keeps it |
| ToastDisplay.LifeOfNotifications | browser/win/win32_desktop_notifications/desktop_notification_controller.cc:163-322 | over every run the display is within its capacity and full while something is queued, toasts are created in the order added minus those closed while queued, and every notification is in exactly one place: shown, queued, closed or without a window |
| ToastDisplay.CheckQueueStacks | browser/win/win32_desktop_notifications/desktop_notification_controller.cc:286-322 | new toasts go on top without overlap |
| ToastDisplay.AnimateStacks | browser/win/win32_desktop_notifications/desktop_notification_controller.cc:199-251 | with heights unchanged a whole animation step keeps the stack free of overlaps |
| ToastDisplay.NeverOverlap | browser/win/win32_desktop_notifications/desktop_notification_controller.cc:163-322 | over every run in which heights stay the same the toasts on display never overlap |
| ToastDisplay.AlwaysPacked | browser/win/win32_desktop_notifications/desktop_notification_controller.cc:163-322 | over every run every toast that is not highlighted sits exactly a margin above the toast below it, or at the bottom |
| ToastDisplay.GrowthOverlaps | browser/win/win32_desktop_notifications/desktop_notification_controller.cc:229-247 | a run in which a toast grows below a highlighted one ends with an overlap |
| NotificationController.DesktopNotificationController.AddNotification | browser/win/win32_desktop_notifications/desktop_notification_controller.cc:253-266 | the whole new state is that of the display model |
| NotificationController.DesktopNotificationController.CloseNotification | browser/win/win32_desktop_notifications/desktop_notification_controller.cc:268-284 | a queued notification leaves the queue and is reported closed |
| NotificationController.DesktopNotificationController.CheckQueue | browser/win/win32_desktop_notifications/desktop_notification_controller.cc:286-291 | the loop fills the display from the front of the queue |
| NotificationController.DesktopNotificationController.CreateToast | browser/win/win32_desktop_notifications/desktop_notification_controller.cc:293-322 | a toast goes on top of the last slot, whose window the code asserts |
| NotificationController.DesktopNotificationController.DestroyToast | browser/win/win32_desktop_notifications/desktop_notification_controller.cc:335-345 | a slot with a window is closed and reported, one without is left alone |
| NotificationController.DesktopNotificationController.PurgeDismissed | browser/win/win32_desktop_notifications/desktop_notification_controller.cc:199-227 | the in-place partition, destruction and erasure give the collapsed stack and report each expired toast |
| NotificationController.DesktopNotificationController.SetPositions | browser/win/win32_desktop_notifications/desktop_notification_controller.cc:229-247 | the loop over the slots gives the layout |
| NotificationController.DesktopNotificationController.AnimateAll | browser/win/win32_desktop_notifications/desktop_notification_controller.cc:163-251 | the whole new state is that of the display model |
| MachO.UnpackPacked | tools/mac/change_mach_o_flags.py:125-172 | reading back a written word gives it again, in both byte orders |
| MachO.PackUnpacked | tools/mac/change_mach_o_flags.py:125-172 | writing back a read word gives the same bytes |
| MachO.WantedFlags | tools/mac/change_mach_o_flags.py:206-214 | both bits match the options, every other bit stays, and once is enough |
| MachO.DetectedMagic | tools/mac/change_mach_o_flags.py:185-198 | the assertion on the magic after detecting the byte order never fails |
| MachO.RewriteExactly | tools/mac/change_mach_o_flags.py:175-218 | rewriting one header sets its flags, changes no byte outside the flags word, and is idempotent |
| HeaderBytes.HandledExactly | tools/mac/change_mach_o_flags.py:175-218 | byte by byte: a header is handled if and only if 28 bytes are there and it starts with one of the four magic numbers, followed at 12 by file type 2 in the same byte order; then exactly the two bits of the flags are as asked and nothing else changes, otherwise nothing is written and the outcome is MachOError |
| HeaderBytes.TableInBytes | tools/mac/change_mach_o_flags.py:151-161 | byte by byte, what makes a fat file and where the offset and size of every architecture are |
| HeaderBytes.AcceptedInBytes | tools/mac/change_mach_o_flags.py:231-239 | an architecture is accepted if and only if these say at least 28 bytes and a place with such a header |
| HeaderBytes.NoTable | tools/mac/change_mach_o_flags.py:221-229 | what is no fat file is left alone, with an assertion if four bytes are there that are not its magic number |
| FatFile.ArchsHandled | tools/mac/change_mach_o_flags.py:231-239 | from any entry up to the first refused one on, with the headers before it done, the loop rewrites the headers up to the first one it refuses |
| FatFile.FatHandled | tools/mac/change_mach_o_flags.py:221-239 | if no flags word that is changed is part of the table or of what is read of another header, exactly the headers before the first one refused or cut off get their flags, no other byte changes, and the loop ends normally if and only if there is none |
| FatWitness.SharedWordFails | tools/mac/change_mach_o_flags.py:221-239 | a file of two acceptable headers in which the flags of the first are the magic of the second: the loop refuses the second |
| FatFile.FatIdempotent | tools/mac/change_mach_o_flags.py:221-239 | a second run changes nothing and ends the same way, refused or not, and every rewritten header matches the options |
| MachORewriter.ImageFile.ReadUInt32 | tools/mac/change_mach_o_flags.py:125-134 | reads the word at the position and moves on, or reports a short file |
| MachORewriter.ImageFile.ReadMachHeader | tools/mac/change_mach_o_flags.py:137-148 | reads all seven words and moves on, or reports a short file |
| MachORewriter.ImageFile.ReadFatArch | tools/mac/change_mach_o_flags.py:151-161 | reads all five words in big-endian order and moves on, or reports a short file |
| MachORewriter.ImageFile.WriteUInt32 | tools/mac/change_mach_o_flags.py:164-172 | overwrites four bytes at the position, past the end too, and nothing else |
| MachORewriter.ImageFile.HandleMachOFile | tools/mac/change_mach_o_flags.py:175-218 | file and outcome are those of the value model, also when nothing needs to be written |
| MachORewriter.ImageFile.HandleFatFile | tools/mac/change_mach_o_flags.py:221-239 | file and outcome are those of the value model although every header moves the file position |

## Left out

Network throttling:
- Callbacks that call back into the interceptor while it runs them, and the lifetime of weak pointers: what a callback
  leads to is a later event; an interceptor disappears only when the controller has unthrottled it.
- Saturation of time values and overflow of 64-bit byte counts: times and counts are unbounded. The tick sum of a
  prediction does wrap at 64 bits.
- Rounding of throughputs and latencies as doubles: they are reals. Negative values are excluded, as the protocol
  handler replaces them by zero.
- Threads, and the internals of the timer: it fires at any moment at which it is armed.
- The wrapped HTTP transaction and upload stream: their results and byte counts are arguments.
- Headers and client ids inside requests, `InitInternal` of the upload stream and its destructor (which stops the
  throttle like a reset).
- `Sessions.NextKeepsConsistent`: covers a transaction with one outstanding operation, as its callers are required to
  use it, and one interceptor, so the client of a request does not change between two Start calls.
- `TimerAccuracy.TimerNeitherLateNorIdle`: is about the predicted moments, so it starts from a state in which every
  record has bytes left and nothing is due; `TimerInTime.InTimeExactly` covers all other states.
- `TimerInTime.LateByLessThanARound`: with downloads throttled, no upload stranded or predicted for tick zero, and no
  tick sum wrapped. `UploadOnlyTimer`, `StrandedStays` and `CreditStalls` show what happens otherwise.
- `TimerInTime.FiringLateByLessThanARound`: with the same restrictions on the state after the firing.
- `PromptFirings.AnsweredWithinARound`: with these restrictions at every firing, and runs without other events in
  which nobody waits for a latency, so that no record joins a queue.

Trigram index:
- File enumeration, closing, modification times, progress reports, the shrinking of vectors, threads. A file that
  cannot be opened is one whose first read fails.
- Paths are numbers in the order of the path map. A file does not change while it is read.

Toast stack:
- Windows, drawing, fonts, images, mouse and timer messages, easing. What a step sees of a window (visible,
  highlighted, height) is an argument of the step; a highlighted window is visible, as `toast.h:39` asserts.
- The interpolated position of a moving toast (`vertical_pos_`): only the target that the layout reads and sets.
- Looking up a shown toast to dismiss it: a dismissed toast is one that a later step sees invisible.
- Reserving the vector gives exactly the requested capacity. The margin is the same at every step.

Mach-O rewriter:
- Options parsing, `main`, and real file handles. A seek always reaches its offset.
- `FatFile.FatHandled`: not for files in which a flags word that has to be changed, of a header that is not refused,
  is part of the table or of what is read of another header. They are described by the value model `HandleFat`, to
  which `HandleFatFile` is proved equal for all files, but its outcome need not be the one stated here
  (`FatWitness.SharedWordFails`).
- `FatFile.ArchsHandled`: not for such files either.
- `FatFile.FatIdempotent`: not for such files either.

Other parts of the repository (windows, zoom, dispatch, media, permissions, request contexts) are not modelled.
