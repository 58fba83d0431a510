# The decode-to-driver pipeline, verified

This project models how an audio player moves decoded bytes from its decoder threads to the sound
driver, and proves what that path promises: a bounded queue of chunks (`core/buffer/mdbufll.c`), the
engine that lets one decoder at a time fill it (`decoders/mddecoder.c`), the chunks and their two event
queues, the garbage ring that keeps played chunks, the playlist that starts the next file early
(`core/mdplaylist.c`), and the sample serialiser at the head of it all (`decoders/flac/mdflac.c`).

There are two kinds of model. The data structures are classes over linked nodes and arrays, with the
source's loops and pointer surgery, proved against functions on values. The threads are step machines
built on those same functions: a step is one critical section, or one piece of work on data that only
one thread holds, and steps of different threads interleave freely. Theorems speak of every reachable
state, or of every run.

| file | what it holds |
|---|---|
| `Types.dfy`, `Chunks.dfy` | small types; a chunk, its size coding, padding, the append |
| `Chunking.dfy` | a file as chunks; the byte loop refines that splitting |
| `Garbage.dfy`, `EventQueue.dfy` | the ring of played chunks; the handler queues of a chunk |
| `ChunkEvents.dfy` | what happens to a chunk on its way is what running those queues does |
| `Delivery.dfy`, `BufList.dfy`, `DriverPass.dfy` | events of a chunk; the queue and its packs; a driver's pass over a pack |
| `Pipeline.dfy` | decoder threads, queue and driver as one state machine, and its invariant |
| `PipelineInvariant.dfy` | every step keeps the invariant |
| `PipelineSafety.dfy`, `PipelineCallbacks.dfy`, `PipelineProgress.dfy` | conservation and contiguity; the callback grammar and metadata; termination and progress |
| `PipelineRequests.dfy`, `PipelineStatic.dfy` | which requests of a driver are safe; the static variable `oldmeta` and the addresses of metadata |
| `PipelineStops.dfy`, `PipelineLoss.dfy` | the same machine with the engine stopped and started and the queue failing, flushed and resumed; what is lost then and what reaches the driver |
| `PipelineFates.dfy` | who can do what in that machine, and what has become of every decoder, told from the steps taken |
| `Signals.dfy` | the same machine with sleeping threads, signals and spurious wakeups |
| `Engine.dfy`, `EngineHistory.dfy`, `EngineSignals.dfy` | the hand-over of the engine with stop, resume and cancel; its variables told from the steps taken; its condition variable |
| `Timing.dfy`, `Flac.dfy` | playing times and chunk-count prediction; sample serialisation |
| `Playlist.dfy`, `PlaylistRun.dfy`, `PlaylistSignals.dfy` | the playlist; the playlist driving the pipeline over whole runs; the same with sleeping threads |

## What the model assumes

- `buf_size` is a positive multiple of four, as the built-in settings have it
  (`core/mdsettings.c:9`), and `max_buf_num` is positive. A driver asks for at least one chunk, as the
  PulseAudio driver makes sure it does (`drivers/pulseaudio/mdpaudio.c:353-356`), and for any number
  above that.
- The wait loops become guards: a method or a step stands for the critical section after its loop.
  `Signals` puts the sleeping back.
- `md_no_more_decoders` takes the engine's mutex anew each time `md_buf_get_pack` asks
  (`decoders/mddecoder.c:344-352`), so its answers are a parameter, the set of positions where it said
  yes. Everything proved holds for every set.
- Each file has its own metadata object, at whatever address the allocator returns, be it one used
  before. `md_add_decoded_byte` compares addresses.
- Decoders are known by identity: the ids that `md_cancel_queued` compares are taken as distinct.
  `md_decoder_start` gives every decoder the id 0 (`decoders/mddecoder.c:253-257`); with equal ids a
  cancellation reaches whichever of them is queued.
- Integers are unbounded. Two products of the source are formed as `int` and can leave it: that of the
  rates, which the documented maxima rule out (`RateFitsInt`), and that behind the chunk count, which they
  do not (`CountFitsExactly`, `CountAtMaxima`). Either is undefined there (`CanDivide`, `SourceCount`).
  Three other values are narrowed to `int` and taken to fit it: the quotient that
  `md_usec_to_buf_chunks` returns (`core/utils/mdtime.c:15-19`), the share of the chunks in the percentage
  mode (`core/mdplaylist.c:82-84`), and FLAC's 64-bit number of samples (`decoders/flac/mdflac.c:79`).
- The bit operations on a chunk's size are written as the arithmetic they amount to: the mark adds one
  to an even size and is toggled by adding or subtracting one.

## Where the code does less than it seems to

The members named state each of these, with the exact condition under which the expected claim holds.

- A file gets through `md_decoder_done` if and only if it is not empty and its length is not one short of
  a multiple of `buf_size` (`DeliverableExactly`). Any other file leaves `curr_decoder` set and blocks the
  engine until a cancellation (`StuckIsComplete`, `AbandonedBlocksForever`). The cause of the second case
  is that `md_adjust_size` compares the room left with the remainder and not with the padding needed
  (`AdjustRefusedExactly`, `AdjustRefusesPaddable`).
- An exact request for more than `max_buf_num` chunks blocks both sides for good in some run exactly when
  the files, all deliverable, have more chunks than that (`RequestsExactly`, `Deadlock`). With fewer
  chunks, or while no decoder is current and the last queued chunk is done, such a request is let through.
  The PulseAudio driver does not limit its requests (`drivers/pulseaudio/mdpaudio.c:356-358`).
- `md_decoder_done` clears `curr_decoder` after its last signal to the queue. A driver that went to sleep
  between the two sleeps on, until another decoder takes over the engine or a wakeup is spurious
  (`StrandedEndsExactly`); if there is no other decoder, for good (`WakeupIsLost`). As long as nothing is
  stopped or cancelled no other wakeup is missing (`StrandedExactly`, `StuckIsCompleteOrStranded`), and
  only drivers whose exact requests are for a single chunk are safe (`SafeRequestsExactly`), with a playlist
  too (`SleepyRequestsExactly`).
- `md_buf_flush` frees the queued chunks of a file whose decoder goes on and ends as if nothing had been
  lost (`LostExactly`, `FlushLoses`); if the done-marked one is among them, the file's metadata is never
  released (`ReleasedThroughStops`).
- `md_stop_decoder_engine` sends one signal: of several sleeping decoders only one need wake
  (`StopFreesAllExactly`, `TwoAsleep`).
- `md_cancel_queued` lets the cancelled decoder past `md_decoder_wait` beside the current one
  (`CancelBreaksExclusivity`, `StepExclusive`). If another one waits, or comes to wait afterwards, that one
  may be let through instead (`CancelReachesExactly`, `CancelTaken`, `CancelMissesTheOnlyWaiter`).
- `md_add_decoded_byte` remembers the address of a metadata object that may have been freed. A file whose
  metadata is allocated there again is taken for the earlier one and gets no `first_chunk_take_in`
  (`UnseenExactly`, `AnnouncedExactly`); there is such a run for almost any two files
  (`AddressComesBack`). The playlist then goes by what is left of the previous file's start event
  (`StartsNextExactly`, `SleepyPlaylistExactly`).
- `md_buf_get_pack` with a count of zero or less removes one chunk (`CutCountsExactly`). On a done chunk
  with a successor it hands out one chunk more than it reports (`CutSize`). Its result
  `MD_PACK_EXACT_NO_MORE` is unreachable, since `*count` is compared right after having been assigned
  (`core/buffer/mdbufll.c:305-307`).
- `md_buf_get` leaves `md_buf_last` behind when it takes the only chunk (`BufferList.Get`).
- A garbage ring of one slot loses what it is given (`RingConservesExactly`).
- The predicted chunk count is one too many for byte counts that are multiples of `buf_size`
  (`PredictionWholeBytes`). For samples that are not whole bytes it is too small exactly when the bytes
  that are emitted reach past the predicted chunks (`PredictionExactly`). And it is undefined when its
  product leaves an int, at the documented maxima from 467 seconds on (`CountAtMaxima`).
- A file without a bit rate stops the program in the microseconds mode, the built-in one, when it has two
  chunks and a successor: the start event divides by zero (`StartsNextExactly`, `CanSetupExactly`). The
  dummy decoder sets all rates to zero (`decoders/dummy/mddummydec.c:21-23`), so two of its files are
  enough (`DummyFileStops`).
- A file of a single chunk never gets its `first_chunk_take_in`, and as a non-last file it makes the
  playlist skip its successor (`SingleChunkSkips`, `StartsNextExactly`).

## Model

| member | source | states |
|---|---|---|
| PipelineSafety.Conservation | decoders/mddecoder.c:285-401 | in every reachable state, of any number of files under any interleaving: bytes copied by the driver, then the unloaded pack, the queue and what the current decoder has still to produce are exactly the files handed over, in handover order, each padded to a multiple of four |
| PipelineSafety.FilesAreContiguous | core/buffer/mdbufll.c:77-118 | in queue order each file's chunks form one block numbered 0, 1, 2, ..., exactly the last one is done-marked, the next file starts only after it, and no file is handed the engine twice |
| PipelineStops.ContiguousThroughStops | core/mdcore.c:32-48 | with any stops and starts of the engine and failures, flushes and resumptions of the queue, each file's chunks are one block in the order of queueing, numbered upwards with no done mark before its last; numbered 0, 1, 2, ... and done-marked before the next file starts if none of them was refused; and exclusivity |
| PipelineStops.RefusedExactly | core/buffer/mdbufll.c:92-101 | after any run, a chunk to be added is refused if and only if a signalled error or a flush has not been followed by a resumption; engine stops have no part in it |
| PipelineFates.GatesExactly | core/mdcore.c:32-48 | after any run: a waiting decoder takes over an engine without a current one if and only if no stop is left without a start, and leaves if and only if one is; a chunk is added to a queue with room, and a pack taken by a driver that need not wait, if and only if no error or flush is left without a resumption, and the two calls fail if and only if one is |
| PipelineFates.FatesExactly | decoders/mddecoder.c:285-401 | after any run, from the steps taken alone: which decoders have not started, wait, are about to clear `curr_decoder`, and have ended well; one has ended without clearing it if and only if an earlier chunk than its last was refused and it gave up there, or its last chunk is missing or cannot be padded |
| PipelineFates.LastFreesEngine | decoders/mddecoder.c:385-393 | a decoder that comes with its last chunk can clear `curr_decoder` next, whether the chunk is added or refused |
| PipelineFates.DriverWaitsExactly | core/buffer/mdbufll.c:285-296 | the driver waits on a request if and only if it made it and it has neither been met nor failed since |
| PipelineLoss.EveryChunk | core/buffer/mdbufll.c:338-361 | after any run of that machine, the chunks ever queued are, each once, in the queue as its last ones, or flushed, or else what the driver has taken, in order |
| PipelineLoss.LostExactly | core/buffer/mdbufll.c:338-361 | for every file handed the engine, after any run: what the driver took of it, what is queued and what its decoder has still to add are its splitting, chunk for chunk, if and only if the run neither refused one of its adds nor flushed the queue while one of its chunks was in it; for a file that is through, what was taken and queued is all of it exactly then |
| PipelineLoss.FlushLoses | core/buffer/mdbufll.c:344-351 | a run that refuses nothing, flushes the only chunk of a file and ends with its decoder gone, the queue running and empty and nothing delivered |
| PipelineLoss.DriverThroughStops | core/mdcore.c:32-48 | through stops, errors, flushes and resumptions: what the driver has copied and the rest of its pack are the bytes of the chunks it took, in order, and those with the queued ones after them are one block for each file, numbered upwards with no done mark before its last |
| PipelineLoss.ReleasedThroughStops | decoders/mddecoder.c:334-342 | there, too, metadata is released at most once, and exactly when the driver has dropped the done-marked chunk of its file; nothing the driver still holds, nothing queued and no decoder that fills or adds a chunk then refers to it |
| PipelineSafety.DoneMarkUnambiguous | core/buffer/include/mdbufchunk.h:15-20 | every queued or unwalked chunk has size 4k or 4k + 1 with 4k bytes of data, the latter exactly when it carries the take-out event; a walked chunk's size is the number of its bytes |
| PipelineSafety.OneDecoderAtATime | decoders/mddecoder.c:60-81 | in every reachable state the threads past the wait that have not cleared the engine are exactly the one `curr_decoder` points to, and the queue never exceeds its maximum |
| PipelineCallbacks.CallbacksFollowGrammar | decoders/mddecoder.c:299-342 | for every file, however packs cut it, the callbacks so far are a prefix of first-take-in, load 0 to m-2, last-take-in, load m-1, last-take-out, and all of it once its chunks are dropped; the first one is missing if m = 1 or the metadata came at the remembered address |
| PipelineStatic.UnseenExactly | decoders/mddecoder.c:287-308 | a file's metadata came at the remembered address exactly when it has the address of the last file before it, in handover order, that had more than one chunk |
| PipelineStatic.AnnouncedExactly | decoders/mddecoder.c:299-308 | a file of two chunks or more that is through was announced by first-take-in if and only if its address differs from that one |
| PipelineStatic.AddressComesBack | decoders/mddecoder.c:334-342 | a run in which the first file's metadata has been released, its address is allocated again, and the second file is taken for the first; for any first file of two chunks or more |
| PipelineCallbacks.ReleasedAtMostOnce | decoders/mddecoder.c:334-342 | in any run a file's metadata is released at most once |
| PipelineCallbacks.ReleasedWhenUnused | core/buffer/mdbufll.c:210-227 | when it is released, no queued chunk and no chunk still to be handled in the pack refers to it, and its decoder has nothing left to queue |
| PipelineProgress.StepsDecreaseWork | core/buffer/mdbufll.c:77-118 | every step of every reachable state decreases a non-negative measure |
| PipelineProgress.RunsAreBounded | core/buffer/mdbufll.c:260-336 | the length of every run is bounded by the work of the initial state |
| PipelineProgress.StuckIsComplete | decoders/mddecoder.c:354-401 | for requests of any size: where no step is enabled, all files have been delivered, cleaned up and reported in full if and only if every file is deliverable and no exact request above the maximum waits on a full queue with a decoder current |
| PipelineRequests.RequestsExactly | core/buffer/mdbufll.c:239-255 | at the level of guards, where a waiting thread goes on once its guard is false, and for deliverable files: for every set of requests, all runs making only those end with everything delivered if and only if the files have at most `max_buf_num` chunks in all or no exact request is for more than that. With sleeping threads fewer requests are safe, see `Signals.SafeRequestsExactly` |
| PipelineRequests.Deadlock | core/buffer/mdbufll.c:92-94 | for every exact request above the maximum and files with more chunks than it, a reachable state in which nothing can happen any more |
| PipelineProgress.SomethingEnabled | core/buffer/mdbufll.c:239-255 | while anything is missing, all files are deliverable and the driver has not overcommitted in that sense, a step is enabled |
| PipelineProgress.QueueEndsDone | decoders/mddecoder.c:344-352 | with no current decoder, the last chunk of a non-empty queue is done-marked |
| PipelineInvariant.RunKeeps | decoders/mddecoder.c:285-401 | the pipeline's invariant, in which put chunks and the future of the current decoder make up the splitting of the files handed over, holds after every run |
| Signals.NeverBothAsleep | core/buffer/mdbufll.c:92-115 | with signals and spurious wakeups, for requests of any size: a sleeping producer means a full queue, a sleeping driver too few chunks, and the two sleep together only if the driver has overcommitted |
| Signals.SignalExactly | core/buffer/mdbufll.c:114 | a signal on the queue's condition wakes one sleeper at least, and any choice of them is possible |
| Signals.BothAsleepExactly | core/buffer/mdbufll.c:92-94 | a reachable pipeline state can be met with both asleep if and only if the driver has overcommitted in it and the current decoder has a chunk to add |
| Signals.SleepersExactly | core/buffer/mdbufll.c:92-94 | beside a current decoder, in any reachable pipeline state, those asleep can be any set of those whose guards make them wait, and no other |
| Signals.StrandedExactly | decoders/mddecoder.c:388-394 | a step leaves the driver asleep on a guard that would let it through if and only if it clears `curr_decoder` while the driver sleeps on a non-empty queue |
| Signals.StrandedEndsExactly | decoders/mddecoder.c:60-81 | a step ends that if and only if another decoder takes over the engine or the driver wakes spuriously |
| Signals.StuckIsCompleteOrStranded | core/buffer/mdbufll.c:285-286 | without stops and cancellations: when only spurious wakeups are left and all files are deliverable, everything is delivered if and only if the driver is neither stranded nor overcommitted |
| Signals.OneChunkNotStranded | core/buffer/mdbufll.c:239-255 | a driver waiting for one chunk, or for any number, is never stranded |
| Signals.SafeRequestsExactly | core/buffer/mdbufll.c:239-255 | with sleeping threads: the sets of requests with which, whatever the deliverable files, everything has been delivered wherever only spurious wakeups are left are exactly those whose exact requests are for one chunk; `Signals.SRunsAreBounded` says that such states are met |
| Signals.SStepsDecrease | core/buffer/mdbufll.c:92-115 | in every reachable state with sleeping threads, each step lowers the work left or, leaving it, the number of those awake, to which a spurious wakeup adds one |
| Signals.SRunsAreBounded | core/buffer/mdbufll.c:260-336 | in every run the steps that are not spurious wakeups are no more than a number that depends on the files alone and the spurious wakeups |
| Signals.WakeupIsLost | decoders/mddecoder.c:388-394 | for every exact request of two chunks or more, a reachable state in which the driver sleeps on a deliverable chunk and only a spurious wakeup can follow |
| Engine.StepExclusive | decoders/mddecoder.c:60-81 | one step keeps exclusivity if and only if it is not a wait that ends on a running engine whose trigger is set |
| Engine.RunExclusive | decoders/mddecoder.c:83-117 | exclusivity over every run without a cancellation, with any stops and resumes |
| Engine.InitExclusive | decoders/mddecoder.c:25-36 | the same from the initial state, for any number of decoders |
| EngineHistory.VariablesExactly | decoders/mddecoder.c:60-117 | after every run from the start, with any stops, starts and cancellations: the engine is off if and only if a stop has no start after it; who is queued, whether the trigger is set, and who is current are each an exact condition on the steps taken |
| EngineHistory.PhasesExactly | decoders/mddecoder.c:60-81 | and so is where each decoder is: before the wait, in it, past it if it ended on a running engine, or gone if it was turned away by a stop, cleared `curr_decoder` or ended without |
| EngineHistory.WaitEndsExactly | decoders/mddecoder.c:66-67 | a wait can end if and only if no decoder has the engine, or it is stopped, or a queued decoder was cancelled and no wait has ended since |
| EngineHistory.IdleEngineTaken | decoders/mddecoder.c:69-80 | without cancellations, a decoder waiting for an idle engine becomes the current one unless a stop is left without a start, and is else turned away with `curr_decoder` still null |
| EngineHistory.CurrentExactly | decoders/mddecoder.c:69-80 | without cancellations, `curr_decoder` points to a decoder if and only if that one is past the wait or has ended without clearing it |
| Engine.CancelBreaksExclusivity | decoders/mddecoder.c:93-105 | a run with one cancellation after which two decoders are past the wait |
| Engine.AbandonedBlocksForever | decoders/mddecoder.c:60-117 | a decoder that ends without clearing the engine keeps every other one out, through any stops and resumes |
| EngineSignals.ReleaseIsSeen | decoders/mddecoder.c:83-117 | whatever step makes the wait condition false, in any run, leaves somebody awake in the wait if anybody slept there |
| EngineSignals.IdleEngineIsSeen | decoders/mddecoder.c:391-394 | in every run without cancellations no decoder sleeps beside a running engine without a current decoder unless another is awake to take it |
| EngineSignals.StopFreesAllExactly | decoders/mddecoder.c:83-91 | when the decoders come to rest after a stop, with no further signal or spurious wakeup, all have left the wait whomever the signal wakes if and only if at most one was asleep |
| EngineSignals.CancelReachesExactly | decoders/mddecoder.c:93-105 | on a busy engine the cancelled decoder is, in every run that follows and whomever the signal wakes, the first to leave the wait if and only if no other decoder is waiting or still to come |
| EngineSignals.CancelTaken | decoders/mddecoder.c:66-80 | otherwise there is a run in which another one leaves first, decodes beside those that already do, and the cancelled one has to wait on |
| EngineSignals.CancelMissesTheOnlyWaiter | decoders/mddecoder.c:60-81 | a run from the start to a state in which the queued decoder is the only one waiting and cancelling it need not reach it |
| EngineSignals.TwoAsleep | decoders/mddecoder.c:83-105 | a run from the start to a state with two sleepers, where a stop need not free both and a cancellation need not reach the cancelled |
| EngineSignals.RunKeepsSleepers | decoders/mddecoder.c:60-117 | in every run with stops, resumes and cancellations whoever sleeps is waiting, and the engine takes only its own steps |
| Engine.PipelineIsEngine | decoders/mddecoder.c:354-401 | every pipeline step is a step of the engine without cancellations, or leaves it alone |
| Engine.DecoderEngine.EndWait | decoders/mddecoder.c:66-80 | ends the wait as the engine does: the result is whether the engine runs, a decoder that is turned away or let through by a cancellation leaves `curr_decoder` as it was, the trigger and the queued decoder are cleared, and any other becomes current |
| Engine.DecoderEngine.CancelQueued | decoders/mddecoder.c:93-105 | answers whether that decoder is queued and sets the trigger exactly then |
| BufList.BufferList.Add | core/buffer/mdbufll.c:77-118 | appends one fresh node with the chunk, keeps the list acyclic, within bounds and consecutively numbered; on a stopped buffer reports exit or error and consumes the error flag |
| BufList.BufferList.GetPack | core/buffer/mdbufll.c:260-336 | pack and remaining queue are the old queue cut in two, both well-formed: up to the first stop and one chunk more if there is one, with the stop's chunk as the last one counted, or without a stop as many as were asked for, or all; on a stopped buffer nothing is cut |
| BufList.BufferList.WalkPack | core/buffer/mdbufll.c:300-319 | the loop with three exits walks to that place, over the marks of the real nodes |
| BufList.BufferList.GetBufNum | core/buffer/mdbufll.c:19-21 | the difference of the end orders is the true length of the list |
| BufList.BufferList.OrdersConsecutive | core/buffer/mdbufll.c:103-112 | the i-th node is numbered i above the first |
| BufList.BufferList.Get | core/buffer/mdbufll.c:147-163 | takes the first chunk, and keeps the list valid if and only if it had a second |
| BufList.BufferList.Flush | core/buffer/mdbufll.c:338-361 | frees every queued chunk, in order, and leaves an empty stopped list |
| BufList.CutSize | core/buffer/mdbufll.c:302-325 | for a positive count: the pack is empty only if the queue is, holds the reported number of chunks, and one more exactly when it stopped on a done chunk with a successor; it stops exactly when one of the first chunks is a stop, and the last chunk counted is then the first stop |
| BufList.CutExactly | core/buffer/mdbufll.c:302-325 | length, reported count and code of a pack are, for every count, exactly those of: stop on the first stop among the chunks asked for, count the chunks up to it and hand out one more if there is one; without a stop as many as were asked for, or all; for a count of zero or less one chunk |
| BufList.CutCountsExactly | core/buffer/mdbufll.c:302-325 | for every count, the reported one is honest if and only if it was positive, or zero with nothing to take |
| BufList.Pack.First | core/buffer/mdbufll.c:165-178 | loads the first chunk, from wherever the pack stood |
| BufList.Pack.Next | core/buffer/mdbufll.c:180-199 | moves on by one chunk and loads it; past the end it does nothing |
| BufList.Pack.CleanPack | core/buffer/mdbufll.c:210-227 | every chunk goes to the garbage ring in pack order, running its take-out events once |
| DriverPass.PlayPack | drivers/pulseaudio/mdpaudio.c:217-247 | over a pack of chunks as decoders make them, the driver writes exactly their data, chunk by chunk, every take-in and take-out event runs once and in order, and the ring takes the chunks in order; when a write is refused, the chunks before it have been written, that one has been loaded too, and nothing is cleaned |
| Delivery.LoadReadsData | decoders/mddecoder.c:326-332 | the mark is gone before the size can be read, so reading `size` bytes gives exactly the data; the callbacks made on the way |
| Delivery.LoadTwice | core/buffer/mdevq.c:71-95 | walking onto a chunk again runs no event and does not toggle the mark back |
| Delivery.LoadOn | core/buffer/mdbufll.c:174-175 | runs the take-in queue of the chunk object as specified, empties it, then announces the load |
| Delivery.AddToGarbage | core/buffer/mdgarbage.c:59-72 | runs and empties the take-out queue, then stores the chunk |
| Chunking.DecodeRefines | decoders/mddecoder.c:285-401 | the byte loop and its end send exactly the simple splitting of the file, without its last piece if and only if the file is not empty and not deliverable; from any value of the static variable |
| Chunking.DecodeFile | decoders/dummy/mddummydec.c:31-64 | the same for the loop over real chunk objects, in order and with every field |
| Chunking.FeedRefines | decoders/mddecoder.c:285-324 | one byte: the chunk handed over and the pieces to come are the pieces that were to come; refusal is impossible here |
| Chunking.FinishRefines | decoders/mddecoder.c:354-401 | the end of a file hands over its last piece, padded, marked and with both events, or is refused |
| Chunking.DecoderData.AddDecodedByte | decoders/mddecoder.c:285-324 | the update of the decoder record, the two chunks and the static variable |
| Chunking.DecoderData.DecoderDone | decoders/mddecoder.c:354-389 | the done-marked chunk, or nothing when there is no chunk or the size is refused |
| Chunking.DeliverableExactly | decoders/mddecoder.c:259-276 | deliverable if and only if not empty and not one byte short of a multiple of the buffer size |
| Chunking.PiecesCount | core/buffer/mdbufchunk.c:40-62 | n bytes give ceil(n / buf_size) chunks |
| Chunking.PieceAt | core/buffer/mdbufchunk.c:40-62 | every piece is full, numbered and unmarked but the last |
| Chunking.PiecesHoldData | core/buffer/mdbufchunk.c:40-62 | the pieces concatenate to the file followed by its padding |
| Chunks.DoneBitExactly | core/buffer/include/mdbufchunk.h:12-20 | setting the mark sets it and toggling flips it, and both leave the other bits alone |
| Chunks.AppendByte | core/buffer/mdbufchunk.c:40-62 | the byte goes to the end of the given chunk, or into a fresh one with the next number when it is full, leaving the old one alone |
| Chunks.BufChunk.AdjustSize | decoders/mddecoder.c:259-276 | pads with zeros in place to the next multiple of four, or refuses and changes nothing |
| Chunks.AdjustRefusedExactly | decoders/mddecoder.c:259-276 | refused if and only if one byte of room is left, although the padding always fits |
| Chunks.AdjustRefusesPaddable | decoders/mddecoder.c:266-268 | three bytes in a buffer of four are refused and could be padded |
| Garbage.RingConserves | core/buffer/mdgarbage.c:32-79 | over every sequence of operations, freed then live chunks are exactly those added, in order, and at most size - 1 are live |
| Garbage.RingKeepsNewest | core/buffer/mdgarbage.c:59-72 | the live ones are the newest size - 1 since the last clean |
| Garbage.RingConservesExactly | core/buffer/mdgarbage.c:32-41 | conservation holds if and only if the ring has at least two slots |
| Garbage.GarbageRing.DeleteFirst | core/buffer/mdgarbage.c:43-57 | frees the oldest live chunk through wrap-around, and restarts at slot 0 when it was the only one |
| Garbage.GarbageRing.Insert | core/buffer/mdgarbage.c:63-69 | evicts the oldest when full, then stores with wrap-around, indices staying in range |
| Garbage.GarbageRing.CleanAll | core/buffer/mdgarbage.c:74-79 | terminates with the ring empty and everything freed in order |
| EventQueue.ExactlyOnceFifo | core/buffer/mdevq.c:21-110 | over every sequence of adds, runs and deinits, the handlers added to a queue are those that left it, in order, followed by those it holds |
| EventQueue.OnlyDeinitDrops | core/buffer/mdevq.c:97-110 | without a deinit, every handler that left was called |
| EventQueue.DropsExactly | core/buffer/mdevq.c:97-110 | some handler has left without being called if and only if a deinit met one in a queue |
| EventQueue.FirstErrorIsFirst | core/buffer/mdevq.c:55-69 | the reported error is the first non-zero result, whatever later handlers return |
| EventQueue.ListAdd | core/include/mdll.h:9-19 | the walk to the end of the list appends one node |
| EventQueue.Runner.ListDeinit | core/include/mdll.h:34-42 | visits and frees every node once, in order, calling its handler if and only if the run flag is set |
| EventQueue.EventQueues.Add | core/buffer/mdevq.c:21-53 | appends to the queue of that type alone, or refuses an unknown type |
| EventQueue.EventQueues.RunQueue | core/buffer/mdevq.c:71-95 | calls every handler of that queue once and in order, answers the first error, empties that queue alone |
| EventQueue.EventQueues.Deinit | core/buffer/mdevq.c:97-110 | frees both queues and calls nothing |
| ChunkEvents.AttachIsAdd | decoders/mddecoder.c:305-307 | attaching an event to a chunk is adding its handler to the queue of that type |
| ChunkEvents.LoadIsRun | core/buffer/mdbufll.c:174-175 | walking onto a chunk is running its take-in queue: the handlers called are those whose callbacks are heard, in order, before the load |
| ChunkEvents.DropIsRun | core/buffer/mdgarbage.c:61 | cleaning a chunk is running its take-out queue |
| ChunkEvents.FreeDropsTheRest | core/buffer/mdbufchunk.c:64-73 | freeing a chunk drops no handler if and only if none is attached, and none is on a chunk that was walked onto and cleaned |
| PlaylistSignals.SleepyPlaylistExactly | core/mdplaylist.c:131-171 | with sleeping threads, signals and spurious wakeups: when nothing but a spurious wakeup can happen, the calls of `md_play_async` are exactly the playlist, once each and in order, and all is delivered, if and only if every file is deliverable, every file handed over that has a successor had a start event that could be computed and was on time by it, and the driver has neither overcommitted nor been left asleep by the clearing of the current decoder |
| PlaylistSignals.DefaultSettingsPlayAll | core/mdplaylist.c:250-251 | with the built-in settings and deliverable files, everything is played if and only if the driver has neither overcommitted nor been left asleep, provided each non-last file has two chunks, 615 bits a second or more, whole-byte samples, and a length and a count that fit its metadata, and comes at an unseen address or after a file whose length is no multiple of the buffer size |
| PlaylistSignals.SleepyPlayIsBounded | core/mdplaylist.c:147-161 | the steps of any run of that composition that are not spurious wakeups are no more than a number that depends on the files alone, and the spurious wakeups |
| PlaylistSignals.SleepyRequestsExactly | core/buffer/mdbufll.c:239-255 | the sets of requests with which, whatever the playlist and however threads sleep, it is played in full exactly when its files are deliverable and on time are those whose exact requests are for one chunk |
| PlaylistRun.SafeForPlaylistsExactly | core/buffer/mdbufll.c:92-94 | what the queue's size alone asks of a driver, wakeups apart: the sets of requests with which every playlist is played in full exactly when its files are deliverable and on time are those without an exact request for more chunks than the queue holds |
| PlaylistRun.PlaylistDeadlock | core/buffer/mdbufll.c:92-94 | for every exact request above the maximum, when the first file alone has more chunks than that, a run of playlist and pipeline that blocks for good |
| PlaylistRun.PlaysInOrder | core/mdplaylist.c:147-171 | while every file handed over that has a successor is on time, in every reachable state the calls so far are a beginning of the playlist, files take over the engine in its order, at most one decoder is queued, and no null entry is met |
| PlaylistRun.PlayIsPipeline | core/mdplaylist.c:262-275 | every reachable state of the composition is one of the pipeline |
| PlaylistRun.PlayStepsDecreaseWork | core/mdplaylist.c:147-161 | every step of the composition, with the threads it starts, decreases the work left |
| PlaylistRun.RunPlays | core/mdplaylist.c:131-171 | after every run the playlist's entry and start event fit the chunks loaded so far, unless a file was late |
| Playlist.StartsNextExactly | core/mdplaylist.c:131-171 | over all callbacks about a non-last file: the program divides by zero or overflows an int if and only if the file has two chunks, is announced and its start event cannot be computed; its successor is started, once and nothing else, if and only if that is not so and the file is on time by its own start event, or, when it is not announced, by what is left of the one before |
| Playlist.CanSetupExactly | core/mdplaylist.c:75-95 | the start event can be computed if and only if the mode is another than microseconds, or there is a bit rate, its product fits an int, and a buffer plays for a microsecond or more |
| Playlist.DummyFileStops | decoders/dummy/mddummydec.c:21-23 | with the built-in settings, a first file of two chunks without a bit rate and with a successor stops the program |
| Playlist.SingleChunkSkips | core/mdplaylist.c:147-171 | a first file of one chunk makes the playlist start the third file and not the second |
| Playlist.LookAheadExactly | core/mdplaylist.c:87-105 | counting chunks back from the end, on time if and only if the look-ahead is two, or three for a prediction one too many |
| Playlist.ThreeBuffersSuffice | core/mdplaylist.c:87-95 | in the microseconds mode the playing time of three buffers is enough |
| Playlist.DefaultSuffices | core/mdplaylist.c:250-251 | the built-in minute is enough, and its start event can be computed, from 615 bits a second up to what fits an int |
| Playlist.FileList.Append | core/mdplaylist.c:183-214 | appends one entry, doubly linked and numbered by its place |
| Playlist.FileList.PlayAll | core/mdplaylist.c:262-275 | starts the first entry, or dereferences null exactly on an empty playlist |
| Playlist.FileList.StartTakeIn | core/mdplaylist.c:131-145 | sets the start event if there is a next entry, or faults exactly on a null entry or an event that cannot be computed |
| Playlist.FileList.WillLoadChunk | core/mdplaylist.c:147-161 | starts the next entry at the start event, and clears the event at the announced last chunk |
| Playlist.FileList.LastChunkTakeIn | core/mdplaylist.c:163-171 | moves on to the next entry, or off the list, or dereferences null exactly when it is off already |
| Playlist.StartEventIs | core/mdplaylist.c:75-113 | the start event is the share of the announced chunks rounded down, or the order at which as many chunks are left as the look-ahead, zero exactly when there are no more than that |
| Playlist.StartEventTiming | core/mdplaylist.c:87-95 | from a start event after the first chunk, the announced rest plays for more than the setting less one chunk and for at most the setting and a microsecond a chunk |
| Timing.LookAheadAccurate | core/utils/mdtime.c:15-19 | k chunks play for at most usec + k microseconds and for more than usec less one chunk, despite two truncations |
| Timing.DivisionExactly | core/utils/mdtime.c:3-19 | the product of the rates fits an int and neither division is by zero if and only if there is a bit rate, it fits an int, and a buffer plays for a microsecond or more |
| Timing.QuotientsExactly | core/utils/mdtime.c:3-19 | both quotients are rounded down and by less than one |
| Timing.RateFitsInt | core/utils/mdtime.c:5-12 | the documented maxima keep the product of the rates below 2^31 |
| Timing.CountFitsExactly | decoders/include/mddecoder.h:109-111 | the products behind the count stay within an int if and only if that of samples, channels and whole bytes per sample, or one, does |
| Timing.CountAtMaxima | decoders/include/mddecoder.h:109-111 | at 24 bits, 8 channels and 192 kHz that is up to 89478485 samples, 466 seconds and not 467; for stereo up to 357913941 |
| Timing.PredictionExactly | decoders/include/mddecoder.h:105-114 | for every record: the prediction is exact if and only if its products fit an int and the emitted bytes fit into the predicted chunks but not into one fewer; and no less than what comes if and only if they fit an int and the bytes fit |
| Timing.PredictedExactly | decoders/include/mddecoder.h:105-114 | the count is one more than the chunks that whole bytes a sample, rounded down, fill |
| Timing.SampleWidthExactly | decoders/flac/mdflac.c:115-117 | the bytes a sample is written in are the fewest that hold its bits |
| Timing.PredictionWholeBytes | decoders/include/mddecoder.h:105-114 | for whole-byte samples the predicted chunk count is undefined if its products leave an int, which they do if and only if the byte count does; otherwise one too many if the byte count is a multiple of the buffer size, and exact if not |
| Timing.PredictionOfPartialBytes | decoders/include/mddecoder.h:105-114 | 12-bit samples for which the prediction is met, and twice as many for which it falls short |
| Timing.DecoderRecord.SetMetadata | decoders/include/mddecoder.h:105-114 | fills in the count only if it was left at zero, and then never leaves it so, unless the product leaves an int |
| Flac.FrameRoundTrip | decoders/flac/mdflac.c:106-145 | the bytes of a frame, read as little-endian two's complement, give back sample i of channel c at place i * channels + c |
| Flac.FrameLength | decoders/flac/mdflac.c:106-145 | a frame is blocksize * channels * width bytes |
| Flac.SampleRoundTrip | decoders/flac/mdflac.c:113-119 | one sample survives if and only if it fits in its bytes |
| Flac.SerializeRoundTrip | decoders/flac/mdflac.c:111-120 | so does every sequence of fitting samples |
| Flac.SampleOfBits | decoders/flac/mdflac.c:115-117 | every signed sample of so many bits is written in as few bytes as hold them, and these read back as the sample |
| Flac.FrameOfBits | decoders/flac/mdflac.c:106-145 | so is a frame of such samples, each read back at place i * channels + c |
| Flac.InterleavedAt | decoders/flac/mdflac.c:111-120 | where each channel's samples stand in a frame |
| Flac.ProcessSample | decoders/flac/mdflac.c:113-119 | the loop over bit offsets emits exactly the bytes of the sample, or stops right after the byte that failed; a sample of `bps` bits reads back from what was emitted, in as few bytes as hold the bits |
| Flac.ProcessBlock | decoders/flac/mdflac.c:106-123 | the same over the channels of one sample index |
| Flac.WriteFrame | decoders/flac/mdflac.c:129-159 | the same over the whole frame; when no byte fails, a block of samples of `bps` bits reads back from what was emitted, sample i of channel c at place i * channels + c |

## Left out

- Sound output, libFLAC, dynamic loading, file reading, thread creation, logging, settings and command
  handling: foreign or trivial. `md_flac_read_cb` is not part of the model either; it drops a short final read.
- Allocation failure: every allocation succeeds. The `-ENOMEM` paths are not modelled.
- `Pipeline` has no stop, flush, resume or signalled error. Those are modelled where they act: on the
  queue in `BufList`, on the engine in `Engine` and `EngineSignals`, and on the whole pipeline in
  `PipelineStops` and `PipelineLoss`, which promise contiguity, exclusivity and what is not lost, and not that
  runs end in full delivery.
- `Pipeline.Abandoned` stands for every way a decoder ends without clearing the engine; which errors lead
  there besides a missing or refused last chunk is foreign code.
- The events still attached to chunks that `md_buf_flush` frees, and so leaks, are not modelled.
- The `loaded_metadata`, `stopped` and user callbacks: they pass through and change nothing here.
- Playlists that grow while they play, and a stop of a playlist. `md_playlist_append` is modelled before the start.
- PlaylistSignals.SleepyPlaylistExactly: has one thread per file, so a file that is started a second time
  shows in the sequence of starts but gets no second thread. Such a run is already one in which the claim is
  false, and it stays false.
- PipelineStatic.AddressComesBack: the model lets metadata be allocated at any address, in use or not, so
  what is proved for all runs covers more than an allocator can do; in the run shown here the address is
  free.
- EventQueue.EventQueues.RunQueue: its handlers do not add to or run the queue they are called from, which no
  handler in the repository does.
- The engine's and the queue's mutexes appear as the atomicity of steps; that every access is under its
  mutex is read off the source, not proved.
- Underrun averaging and the generic pause and resume of drivers: wall clock, floating point, and a macro
  that tests a constant.
