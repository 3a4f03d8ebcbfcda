# UniMRCP toolkit and media framework: verified model

A Dafny model of six components of UniMRCP 1.6.0, with proofs of what they keep over whole runs.
`dafny verify dfyconfig.toml` checks everything.

- **Jitter buffer** (`JitterBuffer*.dfy`). The ring of media frames with adaptive playout delay, skew
  detection and event tracking. The ring refines a log from frame number to frame; the theorem
  `Delivery` says that each read returns exactly what was accepted for its timestamp, and `ReadsOnTime`
  that this is what a timetable made from the operations alone has for it.
- **Task tree** (`TaskTree*.dfy`). Start, offline and online requests, counted through a tree of tasks,
  under every interleaving of the mailboxes. A task whose thread is running refuses to be started again,
  and the theorems say who is then reached.
- **Timer queue** (`Timer*.dfy`). The sorted list with its rebased clock refines a map of absolute
  deadlines; timer procedures may set and kill timers while they are fired. `RunBehavesIff` says when
  the reports of a whole run are the right ones.
- **Media context** (`MediaContext.dfy`). The association matrix with cached counters, and the topology
  of bridges, multipliers and mixers derived from it.
- **Text messages and multipart content** (`Text*.dfy`, `Multipart*.dfy`). Incremental parsing, generation
  into buffers of any sizes, and the round trips between them (sections 2.1 and 2.2 of RFC 5322, section
  5.1.1 of RFC 2046).
- **RTP, ports, DTMF, queues** (`Rtp*.dfy`, `PortAllocation.dfy`, `Dtmf*.dfy`, `ChunkBuffer.dfy`,
  `CyclicQueue.dfy`, `MediaEngine.dfy`). Extended sequence numbers and reports (appendices A.1 and A.3 of
  RFC 3550), packetisation and named events (sections 2.5.1 and 2.5.2 of RFC 4733), port ranges, the media
  buffer, and the batching of media requests.

Each component is written twice: as functions on values, which the theorems are about, and as a class
whose fields the methods update in place with the loops of the C code; every method is proved to do what
its function says. `Machine.dfy` has the widths of C's integers.

## Where the code does less than one would expect

The code is modelled as it is. Each of these is stated as an equivalence, a concrete run, or both.

- The jitter buffer's too-early test is unsigned: it catches a full ring but lets a packet further ahead
  overwrite live frames (`TooEarlyTest`, `OverrunReplacesFrame`). A restart leaves frames in the ring, which
  are then not read (`RestartDropsPending`, `RestartLosesFrame`), and an initial delay that is not a multiple
  of ten milliseconds may be rounded beyond the maximum (`CreationValid`).
- Rebasing the timer clock is invisible if and only if no timer is overdue (`TickModelsIff`,
  `OverdueMissesReport`, `OverdueIsLost`). A timeout that takes the 32-bit clock round schedules the timer
  too early (`ObeyModelsIff`). A timer due exactly at a rebase is linked at time zero, which
  reads as "not linked": a procedure that kills it has no effect, and it is reported all the same
  (`ObeyModelsIff`, `RunBehavesIff`, `KilledIsReported`); one that sets it links it twice. The reset flag is
  cleared only when the current timeout is asked for, which the media engine's clock never does
  (`FrozenUntilAsked`, `LastRemovalFreezes`).
- A task that processes a request while it waits for the completions of an earlier one raises one completion
  for both (`HistoryOwes`, `MergesIff`, `OverlapMerges`). Its parent goes on waiting for the other, for ever:
  overlapping requests leave a tree calm if and only if no task but the root merges any (`CalmAgainIff`,
  `AllAnsweredIff`, `RootWaitsForever`).
- Header fields that do not fit are dropped, and success is reported if the last end of line fits
  (`SectionFits`, `SectionSucceeds`, `DroppedField`).
- The parser does not wait for continuation lines: a header reads the same wherever it is cut if and only
  if it has none (`SectionCutIff`, `CallsCutIff`, `ReceiveInvariantIff`, `FoldedLineCut`).
- A boundary that starts with a hyphen, or ends in a space or two hyphens, is not read back
  (`BoundaryReadsBack`). A header field of a part is recognised by the beginning of its name: "Content" alone
  is taken for the length (`RecognisedIff`).
- The first packet of a new segment of an event is taken for an update of the event that it has just
  replaced as the tracked one, equal to itself, and is not written to the ring (`EventTracked`, `NamedMatches`).
- The loss fraction is wrong if and only if 2^24 packets or more are lost between two reports, which the shift
  by eight bits does not leave room for (`ReportIsExactIff`, `SparseReportsNone`); source 0 may need 256
  packets to take over (`AttemptsBounded`).
- An event-only frame in the middle of a packet stretches the packet over more ticks than its timestamp
  promises (`WindowLength`).
- An engine assigned after ports were allocated may leave the cursor of the first one outside its new range,
  where it offers a port of another engine (`NoOverlapIff`, `EnginesCollide`) and a search that finds no free
  port never ends (`SearchReturns`, `LateAssignmentIff`, `LateAssignment`). Engines also overlap with fewer than
  two ports for each. A range up to
  port 65535 is left by a search from an even port, unless it starts at 0 (`WrapEscapes`).
- Restarting the media buffer keeps the advertised size (`SizeIsUnread`). The cyclic queue's emptiness
  test is inverted (`IsEmpty`) and a queue of one entry does not grow (`Resize`).
- A tone that does not outlast a frame is never detected (`DetectedIff`). A tone that ends in the first
  tick of a further segment has its end retransmitted with the duration 65535 (`EndsAgreeIff`,
  `EndsDisagree`).

## Model

| member | source | states |
|---|---|---|
| `JitterBufferLatePath.CreationValid` | unimrcp-1.6.0/libs/mpf/src/mpf_jitter_buffer.c:76-133 | A created buffer starts within its own maximum delay, and in the invariant, if and only if the initial delay rounded up to ten milliseconds does not exceed the maximum. |
| `JitterBufferLatePath.DeltaCovers` | unimrcp-1.6.0/libs/mpf/src/mpf_jitter_buffer.c:261-272 | While the read clock is below 2^31 less four spans of the ring, the adjustment of a late packet, enlarged by the statistics and aligned, is at least its distance to the read position. |
| `JitterBufferLatePath.SkewKeeps` | unimrcp-1.6.0/libs/mpf/src/mpf_jitter_buffer.c:274-295 | Under the same bound on the read clock, shifting the offset for a detected skew keeps the invariant and moves the packet's write position by exactly the skew. |
| `JitterBufferLatePath.GrowKeeps` | unimrcp-1.6.0/libs/mpf/src/mpf_jitter_buffer.c:298-321 | Under the same bound on the read clock, growing the playout delay keeps minimum and maximum length ordered and the delay within its maximum, and moves the packet by exactly the adjustment. |
| `JitterBufferLatePath.PlacedAheadOfReader` | unimrcp-1.6.0/libs/mpf/src/mpf_jitter_buffer.c:196-322 | From every state in the invariant with the read clock below 2^31 less four spans of the ring, every packet that survives the late branch is placed at or after the read position, and the invariant is kept. |
| `JitterBufferRing.SlotInjective` | unimrcp-1.6.0/libs/mpf/src/mpf_jitter_buffer.c:157-161 | Frames of the window that the ring covers never share a slot. |
| `JitterBufferRing.WriteRefines` | unimrcp-1.6.0/libs/mpf/src/mpf_jitter_buffer.c:222-354 | Under the same bound on the read clock, a packet within reach changes the ring exactly as it changes a log from frame number to frame. |
| `JitterBufferRing.EventRefines` | unimrcp-1.6.0/libs/mpf/src/mpf_jitter_buffer.c:356-465 | Under the same bound on the read clock, an event write, at any timestamp, changes the ring exactly as it changes the log, and never behind the reader. |
| `JitterBufferRing.ReadRefines` | unimrcp-1.6.0/libs/mpf/src/mpf_jitter_buffer.c:467-499 | Under the same bound on the read clock, a read returns the logged frame of its own timestamp, or an empty one, underflow included; it removes nothing from the log. |
| `JitterBufferRing.RunKeepsInvariant` | unimrcp-1.6.0/libs/mpf/src/mpf_jitter_buffer.c:139-499 | After every admissible run, restarts included, the length statistics are ordered, the delay is within its maximum and the write position within the ring. |
| `JitterBufferRing.Delivery` | unimrcp-1.6.0/libs/mpf/src/mpf_jitter_buffer.c:324-354 | Over a run of which every restart finds nothing to be read in the ring, the i-th read returns exactly what the whole run accepted for the i-th frame number, and an empty frame where nothing was. |
| `JitterBufferRing.DeliveryFromCreation` | unimrcp-1.6.0/libs/mpf/src/mpf_jitter_buffer.c:76-133 | So it does from the creation of the buffer on. |
| `JitterBufferRing.StoredFrame` | unimrcp-1.6.0/libs/mpf/src/mpf_jitter_buffer.c:334-350 | Frame k of an accepted packet is logged k frames after its first and holds the k-th piece of its payload. |
| `JitterBufferRing.TooEarlyTest` | unimrcp-1.6.0/libs/mpf/src/mpf_jitter_buffer.c:325-329 | The unsigned too-early test reports a full ring exactly if the packet is not further ahead than the ring is long. |
| `JitterBufferRing.OverrunReplacesFrame` | unimrcp-1.6.0/libs/mpf/src/mpf_jitter_buffer.c:324-333 | A packet two ring lengths ahead is accepted and replaces the frame about to be read. |
| `JitterBufferRing.RestartDropsPending` | unimrcp-1.6.0/libs/mpf/src/mpf_jitter_buffer.c:139-155 | After a restart the write position still bounds the frames in the ring if and only if there was nothing to be read in any slot. |
| `JitterBufferRing.RestartLosesFrame` | unimrcp-1.6.0/libs/mpf/src/mpf_jitter_buffer.c:139-155 | A write, a restart and a read: the frame was accepted, but the read returns an empty one. |
| `JitterBufferTimetable.PrepareIsDue` | unimrcp-1.6.0/libs/mpf/src/mpf_jitter_buffer.c:196-220 | The write position of a packet is the reader's position at the last synchronisation, plus what its timestamp is behind the packet synchronised with, plus the delay, cut down to a frame; a synchronisation takes the packet and the reader of that moment. |
| `JitterBufferTimetable.LateIsBelated` | unimrcp-1.6.0/libs/mpf/src/mpf_jitter_buffer.c:244-322 | A late packet is dropped if it is out of order or may not delay the rest; otherwise the delay, or with a detected skew the anchor of the synchronisation, gains what it was late, or what the measured lengths call for. |
| `JitterBufferTimetable.NamedMatches` | unimrcp-1.6.0/libs/mpf/src/mpf_jitter_buffer.c:356-465 | A new event is told of where it is due, an update as long behind its event as that was known to last, and only if it says more; a further segment is noted and not told of. |
| `JitterBufferTimetable.ReadMatches` | unimrcp-1.6.0/libs/mpf/src/mpf_jitter_buffer.c:163-188 | Each read measures the length left, and fifty measurements are summed up in their mean. |
| `JitterBufferTimetable.StepMatches` | unimrcp-1.6.0/libs/mpf/src/mpf_jitter_buffer.c:139-499 | Each operation moves the buffer as it moves a timetable that has no ring and no offset: delay, reader, end, statistics, tracked event, and what is to be played. |
| `JitterBufferTimetable.ReadsOnTime` | unimrcp-1.6.0/libs/mpf/src/mpf_jitter_buffer.c:467-499 | Over every run that the timetable can play, from the creation of the buffer on, each read returns what the timetable, made from the operations alone, has for its frame. |
| `JitterBufferOnTime.PlayedOnTime` | unimrcp-1.6.0/libs/mpf/src/mpf_jitter_buffer.c:196-220 | After a synchronisation with a packet, and as long as nothing is late, the pieces of a packet are what the reads return from the frame on that lies behind the reader's position then by the difference of the timestamps and the delay. |
| `JitterBufferOnTime.PutInTime` | unimrcp-1.6.0/libs/mpf/src/mpf_jitter_buffer.c:324-354 | A packet in time puts its k-th piece into the k-th frame from its place on, and leaves every frame but those of its pieces alone. |
| `JitterBufferOnTime.LateDelays` | unimrcp-1.6.0/libs/mpf/src/mpf_jitter_buffer.c:297-321 | Without time-skew detection, a late packet that is played is played at once, and everything after it is due as much later as it was late; it is dropped exactly if the buffer is not adaptive or the delay would exceed its maximum. |
| `JitterBufferOnTime.LateMoves` | unimrcp-1.6.0/libs/mpf/src/mpf_jitter_buffer.c:274-321 | With time-skew detection, what the delay and the anchor gain is what everything after a late packet is due later by. |
| `JitterBufferEvents.DerefStable` | unimrcp-1.6.0/libs/mpf/src/mpf_jitter_buffer.c:222-354 | Writing audio into recycled slots, or reading them, never changes the event that the update pointer refers to. |
| `JitterBufferEvents.EventTracked` | unimrcp-1.6.0/libs/mpf/src/mpf_jitter_buffer.c:356-465 | After an event write the update pointer refers to the event written, unless it was a stale or dropped update, and an update is recorded only if longer, or as long and ended. |
| `JitterBufferEvents.EventsTracked` | unimrcp-1.6.0/libs/mpf/src/mpf_jitter_buffer.c:356-465 | Over every run, the pointer refers to the last event of its segment, and the recorded durations and end bits of a segment strictly increase. |
| `JitterBuffer.Buffer.constructor` | unimrcp-1.6.0/libs/mpf/src/mpf_jitter_buffer.c:76-133 | A new buffer has the initial state of its configuration. |
| `JitterBuffer.Buffer.RestartBuffer` | unimrcp-1.6.0/libs/mpf/src/mpf_jitter_buffer.c:139-155 | Resynchronises and returns the write position to the reader, as the restart function says; frames stay. |
| `JitterBuffer.Buffer.PrepareWrite` | unimrcp-1.6.0/libs/mpf/src/mpf_jitter_buffer.c:196-220 | Synchronises the offset if asked to and returns the aligned write position. |
| `JitterBuffer.Buffer.Adjustment` | unimrcp-1.6.0/libs/mpf/src/mpf_jitter_buffer.c:261-272 | Computes the specified adjustment of a late packet. |
| `JitterBuffer.Buffer.ShiftForSkew` | unimrcp-1.6.0/libs/mpf/src/mpf_jitter_buffer.c:274-287 | Shifts offset and statistics by the specified skew. |
| `JitterBuffer.Buffer.GrowDelay` | unimrcp-1.6.0/libs/mpf/src/mpf_jitter_buffer.c:298-321 | Raises the delay by the adjustment or gives the packet up as too late. |
| `JitterBuffer.Buffer.PlaceLate` | unimrcp-1.6.0/libs/mpf/src/mpf_jitter_buffer.c:244-322 | The late branch as specified, whatever combination of its parts applies. |
| `JitterBuffer.Buffer.WriteAudio` | unimrcp-1.6.0/libs/mpf/src/mpf_jitter_buffer.c:222-354 | The whole write on the ring array equals the write function: state, slots and result. |
| `JitterBuffer.Buffer.TrackEvent` | unimrcp-1.6.0/libs/mpf/src/mpf_jitter_buffer.c:356-409 | Decides between new event, new segment and update of the tracked one as specified. |
| `JitterBuffer.Buffer.PlaceNamed` | unimrcp-1.6.0/libs/mpf/src/mpf_jitter_buffer.c:411-444 | Brings a new event into the ring or drops it, as specified. |
| `JitterBuffer.Buffer.WriteNamedEvent` | unimrcp-1.6.0/libs/mpf/src/mpf_jitter_buffer.c:356-465 | The whole event write on the ring array equals the event write function. |
| `JitterBuffer.Buffer.LastUpdate` | unimrcp-1.6.0/libs/mpf/src/mpf_jitter_buffer.c:392-408 | Reads the event that the update pointer refers to, base event or slot. |
| `JitterBuffer.Buffer.ReadFrame` | unimrcp-1.6.0/libs/mpf/src/mpf_jitter_buffer.c:467-499 | The whole read on the ring array equals the read function, and its frame is the one returned. |
| `JitterBuffer.Buffer.UpdateStatistics` | unimrcp-1.6.0/libs/mpf/src/mpf_jitter_buffer.c:163-188 | Updates minimum and maximum length over windows of fifty reads as specified. |
| `TaskTree.AskEffect` | unimrcp-1.6.0/libs/apr-toolkit/src/apt_task.c:360-374 | Asking the children of a task sends one request to each child that accepts, and counts exactly those. |
| `TaskTree.RequestKeeps` | unimrcp-1.6.0/libs/apr-toolkit/src/apt_task.c:360-374 | Processing a request keeps the invariant: every pending counter is the number of children asked and not yet accounted for. |
| `TaskTree.CompleteKeeps` | unimrcp-1.6.0/libs/apr-toolkit/src/apt_task.c:500-511 | Processing a completion keeps the invariant, and its task is waiting for it. |
| `TaskTreeRuns.DescendantsFirst` | unimrcp-1.6.0/libs/apr-toolkit/src/apt_task.c:526-562 | A task raises completion at most once, and only after every descendant the request got to has raised it. |
| `TaskTreeRuns.RunCounts` | unimrcp-1.6.0/libs/apr-toolkit/src/apt_task.c:301-330 | Along every run, the steps made and the steps that remain add up to the same number. |
| `TaskTreeRuns.WaveCompletes` | unimrcp-1.6.0/libs/apr-toolkit/src/apt_task.c:360-374 | From a calm tree, under every interleaving, a request ends after exactly two messages per task reached, less one; then each task reached has raised completion once, no other has, and the tree is calm again. |
| `TaskTreeRuns.CompletionsAreAwaited` | unimrcp-1.6.0/libs/apr-toolkit/src/apt_task.c:500-504 | In every state of a single request on its way through a calm tree, a task has no more completions in its mailbox than it is waiting for, so the error branch is not taken. |
| `TaskTreeRuns.DrainedIsDone` | unimrcp-1.6.0/libs/apr-toolkit/src/apt_task.c:467-478 | With all mailboxes empty, exactly the tasks reached have completed, and exactly those have been started. |
| `TaskTreeRuns.HistoryOwes` | unimrcp-1.6.0/libs/apr-toolkit/src/apt_task.c:406-420 | In every history of requests submitted at any time and messages processed in any order, the completions a task has raised, and one more while it waits, are as many as the requests it processed less those it processed while it was waiting. |
| `TaskTreeRuns.MergesIff` | unimrcp-1.6.0/libs/apr-toolkit/src/apt_task.c:500-511 | From a moment at which a task waits for nothing, each request it processes has raised a completion of its own if and only if it processed none while waiting and does not wait at the end. |
| `TaskTreeRuns.HistoryWaits` | unimrcp-1.6.0/libs/apr-toolkit/src/apt_task.c:360-374 | In every history that submits requests to the root of a calm tree, a task waits for the completions in its mailbox and, for each child, for its requests not processed yet, the requests it has merged, and one more if it is waiting itself; it never has more completions than it waits for. |
| `TaskTreeRuns.CalmAgainIff` | unimrcp-1.6.0/libs/apr-toolkit/src/apt_task.c:500-511 | With all mailboxes empty again, the tree is calm if and only if no task but the root has processed a request while it was waiting; otherwise some task waits for ever. |
| `TaskTreeRuns.AllAnsweredIff` | unimrcp-1.6.0/libs/apr-toolkit/src/apt_task.c:406-420 | With all mailboxes empty again, every task has raised a completion of its own for each of its requests if and only if the root has processed none while it was waiting; and so has the root alone. |
| `TaskTreeRuns.RootWaitsForever` | unimrcp-1.6.0/libs/apr-toolkit/src/apt_task.c:500-511 | Three tasks in a row and two overlapping requests: the middle task merges them, and the root waits for ever with all mailboxes empty. |
| `TaskTreeRuns.OverlapMerges` | unimrcp-1.6.0/libs/apr-toolkit/src/apt_task.c:406-420 | With only one child, two overlapping requests are both taken, and the root raises one completion for both. |
| `TaskTreeTasks.Tasks.constructor` | unimrcp-1.6.0/libs/apr-toolkit/src/apt_task.c:77-114 | A new tree is idle: no messages, no counters, every task accepting. |
| `TaskTreeTasks.Tasks.Request` | unimrcp-1.6.0/libs/apr-toolkit/src/apt_task.c:146-182 | A request is accepted by a task that is open to it, and then queued; starting closes the task. |
| `TaskTreeTasks.Tasks.RequestProcess` | unimrcp-1.6.0/libs/apr-toolkit/src/apt_task.c:406-420 | The loop over the child ring asks every child, counts acceptances, and raises completion at once if there is none. |
| `TaskTreeTasks.Tasks.RequestComplete` | unimrcp-1.6.0/libs/apr-toolkit/src/apt_task.c:500-511 | Counts a completion down and raises completion at zero; refused if none is pending. |
| `TaskTreeTasks.Tasks.CompleteRaise` | unimrcp-1.6.0/libs/apr-toolkit/src/apt_task.c:546-553 | Raises completion and tells the parent, if any. |
| `TaskTreeTasks.Tasks.Process` | unimrcp-1.6.0/libs/apr-toolkit/src/apt_task.c:301-330 | Takes a message out of a mailbox and dispatches it: one step of the protocol. |
| `TimerDeadlines.ReportsExact` | unimrcp-1.6.0/libs/apr-toolkit/src/apt_timer_queue.c:97-115 | One advance reports each timer at most once, earliest deadline first and ties in set order, only timers due, and every due one that no timer procedure touched. |
| `TimerDeadlines.FirstAdvance` | unimrcp-1.6.0/libs/apr-toolkit/src/apt_timer_queue.c:72-115 | One operation reports only timers that it makes due, and every one of them that no procedure touches. |
| `TimerDeadlines.FiresOnce` | unimrcp-1.6.0/libs/apr-toolkit/src/apt_timer_queue.c:72-115 | Over every run that behaves, and up to each of its operations: a timer that none of them touches has been reported once if the running time has reached its deadline, and not at all before. |
| `TimerDeadlines.SetFiresOnce` | unimrcp-1.6.0/libs/apr-toolkit/src/apt_timer_queue.c:161-187 | A timer set once is reported exactly once, in the first advance by which its timeout has passed. |
| `TimerRefinement.ObeyModels` | unimrcp-1.6.0/libs/apr-toolkit/src/apt_timer_queue.c:161-199 | Setting or killing a timer on the sorted list is setting or killing its absolute deadline, unless the timer is linked at time zero or the time it is scheduled at does not fit 32 bits. |
| `TimerRefinement.ObeyModelsIff` | unimrcp-1.6.0/libs/apr-toolkit/src/apt_timer_queue.c:161-199 | A command does to the list what it does to the deadlines if and only if the timer is not linked at time zero, where its scheduled time reads as "not linked", or the command is refused for its zero timeout, and the time it schedules fits 32 bits. |
| `TimerRefinement.FireModels` | unimrcp-1.6.0/libs/apr-toolkit/src/apt_timer_queue.c:97-115 | The firing loop, with procedures that set and kill timers, themselves included, is a legal sequence of reports of the deadlines, and ends, as long as no procedure addresses a timer linked at time zero. |
| `TimerRefinement.RebaseInvisible` | unimrcp-1.6.0/libs/apr-toolkit/src/apt_timer_queue.c:232-242 | Rebasing leaves every deadline where it was if and only if no timer is overdue. |
| `TimerRefinement.TickModelsIff` | unimrcp-1.6.0/libs/apr-toolkit/src/apt_timer_queue.c:85-95 | While time passes the list keeps following the deadlines, rebased or not, if and only if the 32-bit clock does not wrap and no timer is overdue at a rebase. |
| `TimerRefinement.OverdueMissesReport` | unimrcp-1.6.0/libs/apr-toolkit/src/apt_timer_queue.c:88-93 | A timer overdue at a rebase is moved to the end of the 32-bit clock instead of being reported. |
| `TimerRefinement.TimeoutIsNext` | unimrcp-1.6.0/libs/apr-toolkit/src/apt_timer_queue.c:124-146 | The first timer of the list has the earliest deadline, and the timeout handed out is the time left until it, unless that has passed. |
| `TimerRuns.RunBehaves` | unimrcp-1.6.0/libs/apr-toolkit/src/apt_timer_queue.c:72-242 | Over every run in which the 32-bit clock does not wrap, no timer is overdue at a rebase and no procedure sets or kills a timer due exactly at one, the queue reports what the deadlines call for, however often it is rebased. |
| `TimerRuns.RunBehavesIff` | unimrcp-1.6.0/libs/apr-toolkit/src/apt_timer_queue.c:72-242 | Over every run in which no procedure sets a timer due exactly at a rebase: the reports are those the deadlines call for if and only if the 32-bit clock never wraps, no timer is ever overdue at a rebase, and no procedure kills one due exactly at a rebase. |
| `TimerRuns.NewQueueBehavesIff` | unimrcp-1.6.0/libs/apr-toolkit/src/apt_timer_queue.c:56-64 | The same of every run that starts with a new queue. |
| `TimerRuns.KilledIsReported` | unimrcp-1.6.0/libs/apr-toolkit/src/apt_timer_queue.c:189-193 | Two timers due exactly at a rebase, the first of which kills the second: from a new queue, both are reported. |
| `TimerRuns.OverdueIsLost` | unimrcp-1.6.0/libs/apr-toolkit/src/apt_timer_queue.c:88-93 | From a new queue, a timer for 65534 is not reported by advances of 65530 and 10, but moved to the end of the 32-bit clock. |
| `TimerRuns.FrozenUntilAsked` | unimrcp-1.6.0/libs/apr-toolkit/src/apt_timer_queue.c:128-131 | While the reset flag is set, no advance reports anything until the current timeout is asked for. |
| `TimerRuns.LastRemovalFreezes` | unimrcp-1.6.0/libs/apr-toolkit/src/apt_timer_queue.c:217-230 | Killing the only linked timer, or setting it again, sets the reset flag. |
| `TimerRuns.GuardIff` | unimrcp-1.6.0/libs/apr-toolkit/src/apt_timer_queue.c:72-115 | An advance is one of those that behave, whatever its procedures do, if and only if at a rebase no timer is overdue and at most one is due. |
| `TimerQueue.Queue.constructor` | unimrcp-1.6.0/libs/apr-toolkit/src/apt_timer_queue.c:56-64 | An empty queue at time zero. |
| `TimerQueue.Queue.CreateTimer` | unimrcp-1.6.0/libs/apr-toolkit/src/apt_timer_queue.c:149-159 | A new timer, not linked. |
| `TimerQueue.Queue.SetOne` | unimrcp-1.6.0/libs/apr-toolkit/src/apt_timer_queue.c:161-187 | Relinks the timer at its new time; a zero timeout is refused before the list is touched. |
| `TimerQueue.Queue.KillOne` | unimrcp-1.6.0/libs/apr-toolkit/src/apt_timer_queue.c:189-199 | Unlinks a linked timer; says whether it was. |
| `TimerQueue.Queue.InsertSorted` | unimrcp-1.6.0/libs/apr-toolkit/src/apt_timer_queue.c:201-215 | Walks the list from its end and links the timer behind all that are not later. |
| `TimerQueue.Queue.Remove` | unimrcp-1.6.0/libs/apr-toolkit/src/apt_timer_queue.c:217-230 | Unlinks a timer, resetting the clock when the list becomes empty. |
| `TimerQueue.Queue.Reschedule` | unimrcp-1.6.0/libs/apr-toolkit/src/apt_timer_queue.c:232-242 | The loop subtracts the elapsed time from every timer and zeroes it. |
| `TimerQueue.Queue.AdvanceBy` | unimrcp-1.6.0/libs/apr-toolkit/src/apt_timer_queue.c:72-115 | The whole advance: elapsed time, rebase, and the firing loop. |
| `TimerQueue.Queue.Timeout` | unimrcp-1.6.0/libs/apr-toolkit/src/apt_timer_queue.c:124-147 | Returns the time to the first timer and clears the reset flag, as specified. |
| `TextSegments.SectionSplit` | unimrcp-1.6.0/libs/apr-toolkit/src/apt_text_message.c:127-152 | Parsing a header section without continuation lines in two pieces, cut anywhere, a cut between CR and LF included, gives the fields and rest of parsing it whole. |
| `TextSegments.RunSplit` | unimrcp-1.6.0/libs/apr-toolkit/src/apt_text_message.c:254-341 | Without continuation lines, one call of the parser on two pieces together does what a call on the first and a call on the rest do. |
| `TextSegments.DrainSplit` | unimrcp-1.6.0/libs/apr-toolkit/src/apt_text_message.c:254-341 | The same, without continuation lines, for all the messages the pieces hold. |
| `TextSegments.ReceiveInvariant` | unimrcp-1.6.0/libs/apr-toolkit/src/apt_text_message.c:254-341 | Without continuation lines, for every split into non-empty segments, the messages, the unread tail and the parser's state are those of the whole input. |
| `TextFolding.SectionCutIff` | unimrcp-1.6.0/libs/apr-toolkit/src/apt_text_message.c:65-152 | A header section reads the same wherever it is cut in two if and only if none of its header lines is followed by a continuation line. |
| `TextFolding.CallCutIff` | unimrcp-1.6.0/libs/apr-toolkit/src/apt_text_message.c:254-341 | One call of the parser can be cut anywhere without changing what comes of it if and only if the header section it reads has no continuation lines. |
| `TextFolding.CallsCutIff` | unimrcp-1.6.0/libs/apr-toolkit/src/apt_text_message.c:254-341 | All the calls that are made to drain an input can be cut anywhere if and only if no header in it has continuation lines. |
| `TextFolding.ReceiveInvariantIff` | unimrcp-1.6.0/libs/apr-toolkit/src/apt_text_message.c:254-341 | For every input whose first continuation line, if any, has text or is not terminated: messages, unread tail and state of the parser are the same for all segmentations if and only if there is no continuation line. |
| `TextFolding.FoldedLineCut` | unimrcp-1.6.0/libs/apr-toolkit/src/apt_text_message.c:65-86 | For example, a field with a continuation line that is cut before its end loses that line, while read at once it does not. |
| `TextFolding.WhiteFoldUnseen` | unimrcp-1.6.0/libs/apr-toolkit/src/apt_text_message.c:65-86 | A cut in front of a continuation line of white space changes the call but may leave the messages as they are, if what follows makes up for it. |
| `TextRoundTrip.SectionOf` | unimrcp-1.6.0/libs/apr-toolkit/src/apt_text_message.c:127-152 | The text of a list of well-formed fields parses to that list, leaving exactly what follows. |
| `TextGrammar.SectionReads` | unimrcp-1.6.0/libs/apr-toolkit/src/apt_text_message.c:52-152 | A section of any lines, each ended by CR LF, CR or LF, is read as the fields the lines tell: a line with a colon is a field, one that starts with white space continues the field before it, if there is one, and any other is ignored; what follows the empty line is left alone. |
| `TextRoundTrip.MessageOf` | unimrcp-1.6.0/libs/apr-toolkit/src/apt_text_message.c:254-341 | The text of a message parses to that message, leaving exactly what follows. |
| `TextRoundTrip.RoundTrip` | unimrcp-1.6.0/libs/apr-toolkit/src/apt_text_message.c:254-341 | Any number of messages, back to back and cut anywhere, is read back in order with nothing left. |
| `TextGenerator.InsertPairFits` | unimrcp-1.6.0/libs/apr-toolkit/src/apt_text_stream.c:226-242 | A field is inserted whole, with room for the terminator, or only partly; which, is decided by its size alone. |
| `TextGenerator.SectionFits` | unimrcp-1.6.0/libs/apr-toolkit/src/apt_text_message.c:155-165 | The header section is generated completely, and success reported, if and only if it is shorter than the room left; otherwise less than the whole is written. |
| `TextGenerator.SectionSucceeds` | unimrcp-1.6.0/libs/apr-toolkit/src/apt_text_message.c:155-165 | Success is reported if and only if the last end of line fits behind what has been written of the fields, whichever of them were left out. |
| `TextGenerator.DroppedField` | unimrcp-1.6.0/libs/apr-toolkit/src/apt_text_message.c:158-162 | A field that does not fit is dropped and success is reported. |
| `TextGenerator.GeneratesText` | unimrcp-1.6.0/libs/apr-toolkit/src/apt_text_message.c:385-439 | If the head fits the first buffer, the buffers together hold exactly the message text, and generation completes exactly if they are large enough. |
| `TextGenerator.GeneratedIsParsed` | unimrcp-1.6.0/libs/apr-toolkit/src/apt_text_message.c:385-439 | What is generated into buffers of any sizes parses back to the message, every byte consumed. |
| `TextStream.ScannedIsParsed` | unimrcp-1.6.0/libs/apr-toolkit/src/apt_text_stream.c:81-146 | The one-pass scan of a header line finds the name and value that the definition of a header line gives. |
| `TextStream.Stream.LineRead` | unimrcp-1.6.0/libs/apr-toolkit/src/apt_text_stream.c:29-67 | Reads up to CR LF, CR or LF, or nothing if there is no terminator. |
| `TextStream.Stream.ScanLine` | unimrcp-1.6.0/libs/apr-toolkit/src/apt_text_stream.c:83-129 | The scanning loop finds name, colon and value. |
| `TextStream.Stream.HeaderRead` | unimrcp-1.6.0/libs/apr-toolkit/src/apt_text_stream.c:81-146 | Reads one header line as field, malformed or blank. |
| `TextStream.Stream.FoldLines` | unimrcp-1.6.0/libs/apr-toolkit/src/apt_text_message.c:65-86 | Appends the continuation lines to the value. |
| `TextStream.Stream.SectionParse` | unimrcp-1.6.0/libs/apr-toolkit/src/apt_text_message.c:127-152 | The loop reads fields until a blank line or the end. |
| `TextStream.MessageParser.SegmentationTest` | unimrcp-1.6.0/libs/apr-toolkit/src/apt_text_message.c:244-252 | Prepares to skip an LF exactly if the stream ends in CR. |
| `TextStream.MessageParser.BodyRead` | unimrcp-1.6.0/libs/apr-toolkit/src/apt_text_message.c:167-193 | Reads what is missing of the body, or all there is. |
| `TextStream.MessageParser.HeaderRun` | unimrcp-1.6.0/libs/apr-toolkit/src/apt_text_message.c:282-320 | The header stage, going on with the body that the header announces. |
| `TextStream.MessageParser.StartLineRead` | unimrcp-1.6.0/libs/apr-toolkit/src/apt_text_message.c:268-280 | The start-line stage. |
| `TextStream.MessageParser.ParserRun` | unimrcp-1.6.0/libs/apr-toolkit/src/apt_text_message.c:254-341 | The whole call equals the parser function: state, unread bytes and status. |
| `TextOutput.Output.StringInsert` | unimrcp-1.6.0/libs/apr-toolkit/src/apt_text_stream.c:452-463 | Inserts a string only if it fits. |
| `TextOutput.Output.PairInsert` | unimrcp-1.6.0/libs/apr-toolkit/src/apt_text_stream.c:226-242 | Inserts a field as the pair function says, even if partly. |
| `TextOutput.Output.SectionGenerate` | unimrcp-1.6.0/libs/apr-toolkit/src/apt_text_message.c:155-165 | The loop passes over fields that do not fit. |
| `TextOutput.MessageGenerator.BodyWrite` | unimrcp-1.6.0/libs/apr-toolkit/src/apt_text_message.c:195-224 | Writes the body piece the buffer has room for. |
| `TextOutput.MessageGenerator.GeneratorRun` | unimrcp-1.6.0/libs/apr-toolkit/src/apt_text_message.c:385-439 | The whole call equals the generator function: buffer, state and status. |
| `Multipart.DecimalReadsBack` | unimrcp-1.6.0/libs/apr-toolkit/src/apt_text_stream.c:388-411 | A length written in decimal is read back as the same number. |
| `Multipart.PiecesFit` | unimrcp-1.6.0/libs/apr-toolkit/src/apt_multipart_content.c:107-157 | Insertion succeeds exactly if the text is shorter than the room left, and then has written exactly that text. |
| `Multipart.BoundaryReadsBack` | unimrcp-1.6.0/libs/apr-toolkit/src/apt_multipart_content.c:232-259 | A boundary line is read back as its boundary if and only if the boundary neither starts with a hyphen nor ends in a space or two hyphens. |
| `Multipart.FinalReadsBack` | unimrcp-1.6.0/libs/apr-toolkit/src/apt_multipart_content.c:249-259 | A final boundary line is read back as final. |
| `Multipart.GetPartOf` | unimrcp-1.6.0/libs/apr-toolkit/src/apt_multipart_content.c:220-310 | A generated part is read back with its type, id and body, whatever bytes the body holds, leaving exactly what follows. |
| `Multipart.BoundaryDecides` | unimrcp-1.6.0/libs/apr-toolkit/src/apt_multipart_content.c:260-271 | A reader that was told a boundary reads exactly the parts with that boundary, whatever the case of its letters; one that was not reads every part and learns it. |
| `Multipart.RecognisedIff` | unimrcp-1.6.0/libs/apr-toolkit/src/apt_multipart_content.c:284-296 | A header field of a part is recognised by its whole name if and only if its name is not just the beginning of one of the three looked for. |
| `Multipart.RecognisedAll` | unimrcp-1.6.0/libs/apr-toolkit/src/apt_multipart_content.c:284-296 | So it is for whole headers without such names. |
| `Multipart.ContentReadsBack` | unimrcp-1.6.0/libs/apr-toolkit/src/apt_multipart_content.c:220-310 | All parts come back in order and then the final boundary, whether the reader is told the boundary or learns it. |
| `Multipart.ContentGenerated` | unimrcp-1.6.0/libs/apr-toolkit/src/apt_multipart_content.c:107-185 | Initialisation, parts and finalisation yield that text if and only if it fits. |
| `MultipartContent.Writer.AddPart` | unimrcp-1.6.0/libs/apr-toolkit/src/apt_multipart_content.c:107-157 | Adds a part piece by piece, stopping at the first that does not fit. |
| `MultipartContent.Writer.Finalize` | unimrcp-1.6.0/libs/apr-toolkit/src/apt_multipart_content.c:159-185 | Writes the final boundary. |
| `MultipartContent.PartReader.BoundaryRead` | unimrcp-1.6.0/libs/apr-toolkit/src/apt_multipart_content.c:232-259 | Skips to a boundary line and reads it. |
| `MultipartContent.PartReader.Get` | unimrcp-1.6.0/libs/apr-toolkit/src/apt_multipart_content.c:220-310 | The whole call equals the reader function: part, final flag and position. |
| `MediaContext.EdgeKeeps` | unimrcp-1.6.0/libs/mpf/src/mpf_context.c:242-320 | Switching one edge with its two counters keeps counters equal to row and column sums and edges between occupied slots only. |
| `MediaContext.CountersInRange` | unimrcp-1.6.0/libs/mpf/src/mpf_context.c:264-280 | A set edge has positive counters and a clear one counters below the capacity, so with at most 255 slots no byte counter ever wraps. |
| `MediaContext.TopologyCovers` | unimrcp-1.6.0/libs/mpf/src/mpf_context.c:381-415 | Every edge is carried by exactly one media object, by exactly two if it both fans out and is mixed, and where there is no edge nothing is carried. |
| `MediaContext.ObjectsFit` | unimrcp-1.6.0/libs/mpf/src/mpf_context.c:381-415 | Every object of the topology is a bridge between a slot that sends to no other and one that receives from no other, a multiplier to all of several sinks, or a mixer of all of several sources. |
| `MediaContext.ArraysFilled` | unimrcp-1.6.0/libs/mpf/src/mpf_context.c:479-535 | Sink and source arrays have exactly as many entries as the cached counters, in order, without duplicates, and exactly the partners of the slot. |
| `MediaContext.Context.constructor` | unimrcp-1.6.0/libs/mpf/src/mpf_context.c:112-149 | All slots vacant, no edges. |
| `MediaContext.Context.AddTermination` | unimrcp-1.6.0/libs/mpf/src/mpf_context.c:170-193 | Occupies the first vacant slot, if any; edges stay. |
| `MediaContext.Context.SubtractTermination` | unimrcp-1.6.0/libs/mpf/src/mpf_context.c:195-240 | Clears row and column of the slot and vacates it, with the early exit of its scan; refused for a termination that is not here. |
| `MediaContext.Context.AddAssociation` | unimrcp-1.6.0/libs/mpf/src/mpf_context.c:242-282 | Sets exactly the edges the two directions allow; refused unless both are here. |
| `MediaContext.Context.RemoveAssociation` | unimrcp-1.6.0/libs/mpf/src/mpf_context.c:284-320 | Clears both edges; refused unless both are here. |
| `MediaContext.Context.ResetAssociations` | unimrcp-1.6.0/libs/mpf/src/mpf_context.c:322-366 | Clears every edge and counter, despite the half-matrix scan and its early exits, and destroys the topology. |
| `MediaContext.Context.SetEdge` | unimrcp-1.6.0/libs/mpf/src/mpf_context.c:264-271 | Switches one edge and its counters, keeping the invariant. |
| `MediaContext.Context.SendersOf` | unimrcp-1.6.0/libs/mpf/src/mpf_context.c:397-407 | Selects bridge, multiplier or nothing for a slot. |
| `MediaContext.Context.BridgeOf` | unimrcp-1.6.0/libs/mpf/src/mpf_context.c:445-477 | Finds the only sink; no bridge to a mixed sink. |
| `MediaContext.Context.Sinks` | unimrcp-1.6.0/libs/mpf/src/mpf_context.c:479-506 | The scan with early exit collects all sinks. |
| `MediaContext.Context.Sources` | unimrcp-1.6.0/libs/mpf/src/mpf_context.c:508-535 | The scan with early exit collects all sources. |
| `MediaContext.Context.ApplyTopology` | unimrcp-1.6.0/libs/mpf/src/mpf_context.c:381-415 | The loop with its early exit builds the objects of all slots. |
| `RtpReceiver.FractionExact` | unimrcp-1.6.0/libs/mpf/src/mpf_rtp_stream.c:640-646 | For an interval that expected packets, the eight bits are the 256th parts lost if and only if fewer than 2^24 were lost, so that the shift stays within 32 bits, and any packet arrived. |
| `RtpReceiver.TracksIff` | unimrcp-1.6.0/libs/mpf/src/mpf_rtp_stream.c:703-725 | A packet keeps the extended sequence number at the true highest if and only if its true number is in reach, across any number of wraps. |
| `RtpReceiver.RunTracks` | unimrcp-1.6.0/libs/mpf/src/mpf_rtp_stream.c:788-860 | Over every run with packets in reach and no source taking over, packets are counted and the highest true number is tracked. |
| `RtpReceiver.NearRunTracks` | unimrcp-1.6.0/libs/mpf/src/mpf_rtp_stream.c:703-725 | So it is as long as each number is at most 2999 above the highest before it, or 62536 below. |
| `RtpReceiver.ExpectedIsSpan` | unimrcp-1.6.0/libs/mpf/src/mpf_rtp_stream.c:614-621 | The expected packets are the true highest number less the first, plus one. |
| `RtpReceiver.ReportsTelescope` | unimrcp-1.6.0/libs/mpf/src/mpf_rtp_stream.c:607-638 | The expected and received intervals of the reports add up to the totals of the last report. |
| `RtpReceiver.ReportIsExactIff` | unimrcp-1.6.0/libs/mpf/src/mpf_rtp_stream.c:607-658 | Over every run of packets from any sources, restarts and reports: no interval without a packet expects any, a report that expected none tells zero, and any other report tells the 256th parts lost if and only if fewer than 2^24 packets were lost. |
| `RtpReceiver.SparseReportsNone` | unimrcp-1.6.0/libs/mpf/src/mpf_rtp_stream.c:640-646 | 5601 packets numbered 0, 2999, 5998 and so on, from a new receiver: 255 in 256 parts are lost, and the report tells zero. |
| `RtpReceiver.TakesOver` | unimrcp-1.6.0/libs/mpf/src/mpf_rtp_stream.c:666-695 | A new source takes over with exactly the last of its attempts in a row, and not before. |
| `RtpReceiver.AttemptsBounded` | unimrcp-1.6.0/libs/mpf/src/mpf_rtp_stream.c:666-695 | Any source but 0 needs at most six packets in a row; source 0, with no other on probation before it, 256. |
| `RtpSessions.SessionStands` | unimrcp-1.6.0/libs/mpf/src/mpf_rtp_stream.c:788-860 | Over every run, from the creation of the receiver on, it counts and tracks the packets of its session alone, those of one source since it took over or since a packet failed; packets of others are ignored and counted as such, until one has sent as many in a row as it needs. |
| `RtpSessions.StepStands` | unimrcp-1.6.0/libs/mpf/src/mpf_rtp_stream.c:788-860 | Each input does to the receiver what it does to the session, and a packet is passed on exactly if it is the session's own or begins a new one, and does not fail. |
| `RtpSessions.ReportTellsSession` | unimrcp-1.6.0/libs/mpf/src/mpf_rtp_stream.c:607-658 | A report tells what is missing from the span of the numbers of its session, in all and since the report before, whatever other sources sent. |
| `RtpReceiver.Receiver.RxStatInit` | unimrcp-1.6.0/libs/mpf/src/mpf_rtp_stream.c:561-567 | Base and highest number from the packet. |
| `RtpReceiver.Receiver.HistoryReset` | unimrcp-1.6.0/libs/mpf/src/mpf_rtp_stream.c:554-559 | Clears the sequence history. |
| `RtpReceiver.Receiver.OverallStatReset` | unimrcp-1.6.0/libs/mpf/src/mpf_rtp_stream.c:554-559 | Clears statistics and histories, not the reports. |
| `RtpReceiver.Receiver.RxRestart` | unimrcp-1.6.0/libs/mpf/src/mpf_rtp_stream.c:569-575 | The same, keeping and counting restarts. |
| `RtpReceiver.Receiver.RxSsrcUpdate` | unimrcp-1.6.0/libs/mpf/src/mpf_rtp_stream.c:666-695 | Probation of a new source as specified. |
| `RtpReceiver.Receiver.RxSeqUpdate` | unimrcp-1.6.0/libs/mpf/src/mpf_rtp_stream.c:703-725 | Sequence update and its classification as specified. |
| `RtpReceiver.Receiver.PacketReceive` | unimrcp-1.6.0/libs/mpf/src/mpf_rtp_stream.c:788-860 | One packet as specified, restart included. |
| `RtpReceiver.Receiver.PeriodicHistoryUpdate` | unimrcp-1.6.0/libs/mpf/src/mpf_rtp_stream.c:607-658 | One report as specified. |
| `RtpTransmitter.PlanIsGood` | unimrcp-1.6.0/libs/mpf/src/mpf_rtp_stream.c:1034-1094 | Packets are planned one after the other, each with the right number of frames and beginning with audio, and no audio frame is left between them. |
| `RtpTransmitter.WindowLength` | unimrcp-1.6.0/libs/mpf/src/mpf_rtp_stream.c:1042-1091 | A packet covers exactly as many consecutive ticks as it has frames if and only if no frame with only an event came in between. |
| `RtpTransmitter.PacketsAsPlanned` | unimrcp-1.6.0/libs/mpf/src/mpf_rtp_stream.c:960-993 | Over every run, the audio packets sent are the planned ones: timestamp of the first tick, payload of its frames in order, marker exactly on the first after inactivity. |
| `RtpTransmitter.NumbersStep` | unimrcp-1.6.0/libs/mpf/src/mpf_rtp_stream.c:970-971 | Sequence numbers step by one modulo 65536 over audio and event packets alike. |
| `RtpTransmitter.ClockAdds` | unimrcp-1.6.0/libs/mpf/src/mpf_rtp_stream.c:1040 | The timestamp after k ticks is the first plus k frames, modulo 2 to the 32. |
| `RtpEventPackets.EventsConveyed` | unimrcp-1.6.0/libs/mpf/src/mpf_rtp_stream.c:995-1075 | Over every run, from the frames alone: one packet for each event frame if events were negotiated and none otherwise, with its identity and duration, the marker exactly on a start, the edge exactly on an end, and the clock of the last start or new segment; and the place of every event and audio packet among all packets. |
| `RtpTransmitter.Transmitter.HeaderPrepare` | unimrcp-1.6.0/libs/mpf/src/mpf_rtp_stream.c:943-958 | Prepares the header with the inactivity as marker, and ends the inactivity. |
| `RtpTransmitter.Transmitter.SendData` | unimrcp-1.6.0/libs/mpf/src/mpf_rtp_stream.c:960-993 | Appends a frame and sends the packet when it is full. |
| `RtpTransmitter.Transmitter.SendEvent` | unimrcp-1.6.0/libs/mpf/src/mpf_rtp_stream.c:995-1032 | Sends an event at once. |
| `RtpTransmitter.Transmitter.TransmitFrame` | unimrcp-1.6.0/libs/mpf/src/mpf_rtp_stream.c:1034-1094 | One tick as specified, for every frame type. |
| `PortAllocation.SearchReturns` | unimrcp-1.6.0/libs/mpf/src/mpf_rtp_stream.c:172-186 | With no port free, the search returns to where it began if and only if it began at a pair of its range, or at an even port while the range ends at 65535; within a range that it does not leave, after exactly as many steps as there are pairs. |
| `PortAllocation.OffersEach` | unimrcp-1.6.0/libs/mpf/src/mpf_rtp_stream.c:175-186 | On the way every pair of the range is offered exactly once. |
| `PortAllocation.WrapEscapes` | unimrcp-1.6.0/libs/mpf/src/mpf_rtp_stream.c:177-180 | A search from a pair of its range never leaves the range if and only if the range ends below port 65535, or starts at an odd port, or at 0, where the 16-bit cursor wraps to. |
| `PortAllocation.RangesPartition` | unimrcp-1.6.0/libs/mpf/src/mpf_rtp_termination_factory.c:145-178 | With at least two ports each, the engines' ranges partition the whole range at even offsets. |
| `PortAllocation.EqualShares` | unimrcp-1.6.0/libs/mpf/src/mpf_rtp_termination_factory.c:145-178 | Every engine but the last has the greatest even number of ports that does not exceed an equal share; the last has all the rest. |
| `PortAllocation.LateAssignmentIff` | unimrcp-1.6.0/libs/mpf/src/mpf_rtp_termination_factory.c:155-158 | After one more engine is assigned, the first one, whose cursor stays, comes to the end of a search without a free port if and only if the cursor is below its new maximum. |
| `PortAllocation.LateAssignment` | unimrcp-1.6.0/libs/mpf/src/mpf_rtp_termination_factory.c:155-158 | For example, a second engine is assigned while the cursor of the first is in the upper half of the whole range. |
| `PortAllocation.EnginesCollide` | unimrcp-1.6.0/libs/mpf/src/mpf_rtp_termination_factory.c:155-158 | There the first engine offers a port of the second, which offers it as well. |
| `PortAllocation.NoOverlapIff` | unimrcp-1.6.0/libs/mpf/src/mpf_rtp_termination_factory.c:145-178 | Whatever ports two engines ever offer, their pairs do not overlap, if and only if there are at least two ports for each engine, the cursor of the first has not been left beyond its range, and the whole range ends below port 65535 or starts at an odd one. |
| `PortAllocation.Factory.EngineAssign` | unimrcp-1.6.0/libs/mpf/src/mpf_rtp_termination_factory.c:120-180 | Whatever was allocated before, after an assignment the slots have exactly the ranges of the split; all cursors start over but that of the first slot, which stays; an engine already known changes nothing. |
| `PortAllocation.Factory.Search` | unimrcp-1.6.0/libs/mpf/src/mpf_rtp_stream.c:169-196 | Finds the first free pair on the way and leaves the cursor behind it, or finds that none of the range is free, with the cursor back where it was. |
| `ChunkBuffer.ReadTakesNext` | unimrcp-1.6.0/libs/mpf/src/mpf_buffer.c:119-168 | A frame holds the next unread bytes in order, and what is left is the rest of them. |
| `ChunkBuffer.ReadTypes` | unimrcp-1.6.0/libs/mpf/src/mpf_buffer.c:137 | The type of a frame is the union of the types of the chunks it touches, zero-length event chunks included. |
| `ChunkBuffer.BytesAreAudio` | unimrcp-1.6.0/libs/mpf/src/mpf_buffer.c:83-100 | In every run, a frame with bytes in it is one of audio. |
| `ChunkBuffer.EventShows` | unimrcp-1.6.0/libs/mpf/src/mpf_buffer.c:102-117 | What an event was written with shows in the first frame that takes more bytes than were unread before it, or begins with it. |
| `ChunkBuffer.BytesInOrder` | unimrcp-1.6.0/libs/mpf/src/mpf_buffer.c:83-168 | Without restart, what was delivered followed by what is unread is what was written. |
| `ChunkBuffer.SizeIsUnread` | unimrcp-1.6.0/libs/mpf/src/mpf_buffer.c:59-65 | The advertised size exceeds the unread bytes by exactly those that restarts found queued. |
| `ChunkBuffer.MediaBuffer.RestartBuffer` | unimrcp-1.6.0/libs/mpf/src/mpf_buffer.c:59-65 | Empties the queue, keeping current chunk and size. |
| `ChunkBuffer.MediaBuffer.AudioWrite` | unimrcp-1.6.0/libs/mpf/src/mpf_buffer.c:83-100 | Queues a chunk and adds its size. |
| `ChunkBuffer.MediaBuffer.EventWrite` | unimrcp-1.6.0/libs/mpf/src/mpf_buffer.c:102-117 | Queues a chunk without bytes. |
| `ChunkBuffer.MediaBuffer.ChunkRead` | unimrcp-1.6.0/libs/mpf/src/mpf_buffer.c:73-81 | Takes the next chunk unless one is being read. |
| `ChunkBuffer.MediaBuffer.CopyChunk` | unimrcp-1.6.0/libs/mpf/src/mpf_buffer.c:135-158 | Copies from the current chunk what the frame has room for. |
| `ChunkBuffer.MediaBuffer.FrameRead` | unimrcp-1.6.0/libs/mpf/src/mpf_buffer.c:119-168 | The loop ends and fills the frame with the bytes read, padded with zeros, adding the types. |
| `CyclicQueue.SlotInjective` | unimrcp-1.6.0/libs/apr-toolkit/src/apt_cyclic_queue.c:58-59 | Elements of the queue never share an entry of the ring. |
| `CyclicQueue.Queue.constructor` | unimrcp-1.6.0/libs/apr-toolkit/src/apt_cyclic_queue.c:31-39 | An empty queue of the given size. |
| `CyclicQueue.Queue.Push` | unimrcp-1.6.0/libs/apr-toolkit/src/apt_cyclic_queue.c:50-62 | Appends an element, growing the ring if it is full. |
| `CyclicQueue.Queue.Pop` | unimrcp-1.6.0/libs/apr-toolkit/src/apt_cyclic_queue.c:64-73 | Takes the oldest element, if any. |
| `CyclicQueue.Queue.Clear` | unimrcp-1.6.0/libs/apr-toolkit/src/apt_cyclic_queue.c:75-79 | Empties the queue. |
| `CyclicQueue.Queue.IsEmpty` | unimrcp-1.6.0/libs/apr-toolkit/src/apt_cyclic_queue.c:81-84 | True, despite its name, exactly if there is an element. |
| `CyclicQueue.Queue.Resize` | unimrcp-1.6.0/libs/apr-toolkit/src/apt_cyclic_queue.c:86-104 | Moves a full ring's elements, in order, to the front of a ring half as large again; from a single entry there is no growth. |
| `MediaEngine.ResponsesAligned` | unimrcp-1.6.0/libs/mpf/src/mpf_engine.c:316-328 | Replies and media state are those of serving a container if and only if at the index of each request stands a response with its body that tells whether the request succeeded in the state left by the ones before it, and any other message stands as it was. |
| `MediaEngine.RepliesTell` | unimrcp-1.6.0/libs/mpf/src/mpf_engine.c:297-392 | In every run, every request served has such a response at its place in the replies, told from the media state left by all the requests before it. |
| `MediaEngine.FullUnlessAsked` | unimrcp-1.6.0/libs/mpf/src/mpf_engine.c:129-151 | A container is sent before it is full only when its producer asks for it. |
| `MediaEngine.RequestsInOrder` | unimrcp-1.6.0/libs/mpf/src/mpf_engine.c:129-151 | Of each producer, what was served, what is queued and what is being packed are, in this order, exactly what was added. |
| `MediaEngine.DrainedIsServed` | unimrcp-1.6.0/libs/mpf/src/mpf_engine.c:394-408 | Once a producer has sent everything and the queue is drained, all its requests have been served, in order. |
| `MediaEngine.ContainersArePacked` | unimrcp-1.6.0/libs/mpf/src/mpf_engine.c:133-141 | Every container on its way holds between one and five requests. |
| `MediaEngine.ServedInSequence` | unimrcp-1.6.0/libs/mpf/src/mpf_engine.c:297-392 | The media state is that of executing the served requests one after the other, and each container is answered from the state it was reached in. |
| `MediaEngine.DrainIsRun` | unimrcp-1.6.0/libs/mpf/src/mpf_engine.c:400-408 | Draining is a run of as many servings as there are containers queued. |
| `MediaEngine.Engine.MessageSend` | unimrcp-1.6.0/libs/mpf/src/mpf_engine.c:215-223 | Queues the container being packed, if any. |
| `MediaEngine.Engine.MessageAdd` | unimrcp-1.6.0/libs/mpf/src/mpf_engine.c:129-172 | Packs a request, sending a full container first. |
| `MediaEngine.Engine.MsgProcess` | unimrcp-1.6.0/libs/mpf/src/mpf_engine.c:297-392 | The loop executes the requests in order and overwrites each copy with its response. |
| `MediaEngine.Engine.ServeAll` | unimrcp-1.6.0/libs/mpf/src/mpf_engine.c:394-408 | Serves the queue until it is empty. |
| `Dtmf.DigitsAreEvents` | unimrcp-1.6.0/libs/mpf/src/mpf_named_event.c:48-74 | Digits and events 0 to 15 correspond one to one, in both directions. |
| `Dtmf.TakeDigits` | unimrcp-1.6.0/libs/mpf/src/mpf_dtmf_generator.c:206-211 | The loop over the queue skips to the first valid digit and loses none. |
| `Dtmf.StartIsMarked` | unimrcp-1.6.0/libs/mpf/src/mpf_dtmf_generator.c:280-288 | A tick carries the start marker exactly if it starts a digit and the tone outlasts a frame. |
| `Dtmf.EndToEnd` | unimrcp-1.6.0/libs/mpf/src/mpf_dtmf_detector.c:267-280 | Over every run, resets of the generator included: the digits accepted and not withdrawn by a reset are, in order, those started and those queued; recorded plus lost digits are as many as were started, the recorded in order, and none is recorded if the tone does not outlast a frame. |
| `Dtmf.DetectedIff` | unimrcp-1.6.0/libs/mpf/src/mpf_dtmf_detector.c:267-280 | Without loss, the recorded digits are those started if and only if the tone outlasts a frame. |
| `Dtmf.SentIsStarted` | unimrcp-1.6.0/libs/mpf/src/mpf_dtmf_generator.c:194-198 | Once the generator is not sending, every valid digit accepted, and not withdrawn by a reset, has been started. |
| `Dtmf.NothingLostIff` | unimrcp-1.6.0/libs/mpf/src/mpf_dtmf_detector.c:167-179 | If the tone outlasts a frame, no digit is lost if and only if at no moment of the run more than 32 digits were started and not fetched. |
| `Dtmf.QueueFits` | unimrcp-1.6.0/libs/mpf/src/mpf_dtmf_generator.c:161-182 | In every run, a string of digits is accepted whole if there is room for it among 32 characters, and not at all otherwise. |
| `Dtmf.ResetStops` | unimrcp-1.6.0/libs/mpf/src/mpf_dtmf_generator.c:185-191 | A reset stops the tone at once: nothing is queued, and the next tick sends nothing. |
| `DtmfTiming.CycleTick` | unimrcp-1.6.0/libs/mpf/src/mpf_dtmf_generator.c:201-339 | Each tick of a digit sends the frame that its number in the cycle calls for: start, segments and durations of the tone, three ends, silence; and the cycle goes on to its end. |
| `DtmfTiming.SignalAt` | unimrcp-1.6.0/libs/mpf/src/mpf_dtmf_generator.c:201-339 | The whole signal of an idle generator: the digits of its queue, one cycle each, and nothing once there are none. |
| `DtmfTiming.NextDigitStarts` | unimrcp-1.6.0/libs/mpf/src/mpf_dtmf_generator.c:304-336 | Whatever is queued or fetched after a tone, the next digit starts when the silence has lasted as configured, the retransmitted ends counted, and not before. |
| `DtmfTiming.AllDigitsStart` | unimrcp-1.6.0/libs/mpf/src/mpf_dtmf_generator.c:201-339 | From wherever a run has taken the generator, a cycle of ticks for each character queued, and one for the digit under way, leave it not sending, and every valid digit accepted has been started. |
| `Dtmf.EndDurations` | unimrcp-1.6.0/libs/mpf/src/mpf_dtmf_generator.c:268-331 | At the end of a tone, in every run, three frames with the end marker follow one another: the first tells how long the last segment was, and the other two repeat it, or say 65535 if that segment was one tick long and not the first. |
| `Dtmf.EndsAgreeIff` | unimrcp-1.6.0/libs/mpf/src/mpf_dtmf_generator.c:268-331 | The ends of all runs repeat the duration of the first one if and only if the tone does not end in the first tick of a further segment, which is a matter of the numbers of ticks of tone and segment. |
| `Dtmf.EndIsReached` | unimrcp-1.6.0/libs/mpf/src/mpf_dtmf_generator.c:201-279 | With every configuration, a digit queued is at the end of its tone after as many ticks as the tone takes. |
| `Dtmf.EndIsRepeated` | unimrcp-1.6.0/libs/mpf/src/mpf_dtmf_generator.c:304-331 | The end is retransmitted twice with the same duration. |
| `Dtmf.EndsDisagree` | unimrcp-1.6.0/libs/mpf/src/mpf_dtmf_generator.c:317-321 | A digit of 8210 ms at 8000 Hz, from a silent generator: its end says 80, and is retransmitted twice as 65535. |
| `Dtmf.DtmfGenerator.EnqueueDigits` | unimrcp-1.6.0/libs/mpf/src/mpf_dtmf_generator.c:161-182 | Appends all digits or none. |
| `Dtmf.DtmfGenerator.Reset` | unimrcp-1.6.0/libs/mpf/src/mpf_dtmf_generator.c:185-191 | Back to idle with an empty queue. |
| `Dtmf.DtmfGenerator.IsSending` | unimrcp-1.6.0/libs/mpf/src/mpf_dtmf_generator.c:194-198 | Whether digits wait, or a tone or its end is being sent. |
| `Dtmf.DtmfGenerator.NextDigit` | unimrcp-1.6.0/libs/mpf/src/mpf_dtmf_generator.c:206-234 | The loop starts the next valid digit, if any. |
| `Dtmf.DtmfGenerator.ToneFrame` | unimrcp-1.6.0/libs/mpf/src/mpf_dtmf_generator.c:264-295 | The event of a tick within a tone, segments and end included. |
| `Dtmf.DtmfGenerator.Tick` | unimrcp-1.6.0/libs/mpf/src/mpf_dtmf_generator.c:201-339 | One tick in every state as specified. |
| `Dtmf.DtmfDetector.DigitAdd` | unimrcp-1.6.0/libs/mpf/src/mpf_dtmf_detector.c:167-179 | Records a digit, or counts it as lost if the buffer is full. |
| `Dtmf.DtmfDetector.FrameGet` | unimrcp-1.6.0/libs/mpf/src/mpf_dtmf_detector.c:267-280 | Records the digit of a start of an event. |
| `Dtmf.DtmfDetector.DigitGet` | unimrcp-1.6.0/libs/mpf/src/mpf_dtmf_detector.c:137-148 | Takes the oldest digit off the buffer. |

## Left out

- JitterBuffer.Buffer.WriteAudio: codecs that bring their own frame dissector are not modelled; payloads are cut into frames of fixed size. Volume and reserved bits of events are not modelled.
- JitterBufferRing.Delivery: assumes a read clock below 2^31 less four spans of the ring (one frame more than it holds), the range of the signed statistics, and packets within reach of the ring.
- JitterBufferRing.DeliveryFromCreation: under the same assumptions.
- JitterBufferTimetable.ReadsOnTime: under the same assumptions, stated of the timetable (`Playable`).
- JitterBufferOnTime.PlayedOnTime: under the same assumptions.
- JitterBufferTimetable.StepMatches: under the same assumptions.
- JitterBufferTimetable.LateIsBelated: under the same assumption on the read clock.
- JitterBufferTimetable.NamedMatches: under the same assumption on the read clock.
- JitterBufferTimetable.ReadMatches: under the same assumption on the read clock.
- JitterBufferRing.RunKeepsInvariant: under the same assumptions.
- JitterBufferRing.WriteRefines: under the same assumption on the read clock, and within reach.
- JitterBufferRing.EventRefines: under the same assumption on the read clock.
- JitterBufferRing.ReadRefines: under the same assumption on the read clock.
- JitterBufferLatePath.PlacedAheadOfReader: under the same assumption on the read clock.
- JitterBufferLatePath.DeltaCovers: under the same assumption on the read clock.
- JitterBufferLatePath.SkewKeeps: under the same assumption on the read clock.
- JitterBufferLatePath.GrowKeeps: under the same assumption on the read clock.
- TimerRuns.RunBehavesIff: runs in which no procedure sets a timer linked at zero, with timeouts below 2^32 less 65536; what a longer one does is said by `ObeyModelsIff` for one command, but a procedure that sets one may keep the firing loop going for ever.
- TimerRuns.RunBehaves: timeouts below 2^32 less 65536.
- TimerRuns.NewQueueBehavesIff: the same runs as `RunBehavesIff`.
- TimerQueue.Queue.SetOne: requires that the timer is not linked at time zero; the C code would link it a second time and break the ring, which a sequence of timers does not capture.
- TimerQueue.Queue.AdvanceBy: requires that no procedure sets a timer linked at time zero, for the same reason.
- TimerQueue.Queue.InsertSorted: the doubly linked ring is a sequence of timer objects; the times live in the objects.
- TextSegments.ReceiveInvariant: header fields without continuation lines, for which it is false (`ReceiveInvariantIff`).
- TextSegments.SectionSplit: header sections without continuation lines, exactly those for which it holds (`SectionCutIff`).
- TextSegments.RunSplit: the same (`CallCutIff`).
- TextSegments.DrainSplit: the same.
- TextFolding.ReceiveInvariantIff: where the first continuation line is only white space, a cut in front of it changes the outcome of the call (`CallsCutIff`), but whether the messages show it depends on what follows (`WhiteFoldUnseen`); no condition is given.
- TextRoundTrip.RoundTrip: names non-empty, without colon, CR or LF, names and values not starting with white space; the start line is one line.
- TextStream.MessageParser.ParserRun: the handlers for start line and complete header are a line read and a body length given as a function of the fields; handlers that reject a message are not modelled.
- MultipartContent.PartReader.Get: a content length is its leading digits; white space or a sign in front of them, and numbers beyond the width of an int, are not modelled. The C code reads a negative one as a size that passes the test for the end.
- Multipart.ContentReadsBack: boundaries without CR or LF; types and ids not starting with white space.
- MediaContext.Context.ApplyTopology: creation of media objects always succeeds; what the objects do with the audio is not modelled.
- MediaContext.Context.AddTermination: the ring of contexts of the context factory and the destruction of a context are not modelled.
- TaskTreeTasks.Tasks.Request: thread creation always succeeds; tasks that are not ready on their own, extra start requests added by hand, and termination, which joins threads, are not modelled. The three kinds of request are one class, since they differ only in their counters, messages and the refusal to start twice.
- RtpReceiver.RunTracks: fewer than 2 to the 32 packets between restarts; a timestamp drift or too many discarded packets are an input that makes the receiver restart.
- RtpReceiver.ReportIsExactIff: runs of fewer than 2 to the 32 packets and reports.
- RtpSessions.SessionStands: runs of fewer than 2 to the 32 packets and reports, with the numbers of each session in reach of the receiver.
- RtpSessions.ReportTellsSession: the same runs.
- RtpReceiver.Receiver.PeriodicHistoryUpdate: the cumulative loss is kept in 32 bits rather than 24; jitter, arrival times and the parsing of RTP headers are not modelled.
- RtpTransmitter.Transmitter.SendData: the outcome of sending does not change the transmitter, so packets handed to the socket are recorded; RTCP reports and goodbyes are not modelled.
- PortAllocation.Factory.Search: requires a cursor at a pair of the range and a range that the search does not leave; elsewhere a search without free ports need not end.
- CyclicQueue.Queue.Push: requires a free entry or a ring that grows, which one of a single entry does not.
- MediaEngine.Engine.MsgProcess: the commands themselves are a parameter, any function from media state and request to media state and success. The `MediaContext` methods are what the termination, association and topology commands call.
- MediaEngine.Engine.ServeAll: requests queued while the drain is under way are covered by the runs of `RequestsInOrder`, not by this method.
- Dtmf.DtmfGenerator.Tick: out-of-band digits only; tone synthesis and in-band detection are floating point. The counters are not cut to 32 bits.
- Dtmf.EndsAgreeIff: an event in every tick, as generators are created.
- DtmfTiming.CycleTick: an event in every tick, as generators are created.
- Sockets, pollers, threads, mutexes, clocks, memory pools and logging are reliable or infallible.
- G.711 and L16 conversion, mixing of samples, NLSML, XML configuration, directory layout and log rotation are not modelled.
- The MRCP client, server and engine layers are not modelled.
