# Verified models of the engine runtime's self-contained cores

The engine wraps graphics, audio and script libraries; the parts modelled here stand on their own and
make promises that no single function body shows. Each part is a Dafny model of the source's own state
and steps, and the promises are theorems about every input, every run or every reachable state.

- **Thread pool** (`ThreadPool*.dfy`): workers, main thread, `_mutex`, the condition variable, the idle, abort
  and inited flags and the task queue as a step system. A step is what a thread does between two points
  at which another could notice. Clock and wake-up order are free choices. What holds in every run stands beside
  what some run can do: `Reaches` says that one state can lead to another. What a call has done when it returns is
  stated on the states in which it begins and ends (`ThreadPoolCalls.dfy`).
- **Scheduler and timers** (`Timers.dfy`, `Scheduler*.dfy`): a timer's update in exact real arithmetic, and a
  scheduler object whose callbacks call back into it while a target's timers are walked. The two are tied together
  for every target that the callbacks leave alone, whatever they do to others: its timers are updated as the timer
  function says, frame after frame.
- **CRC** (`Crc32*.dfy`, `Crc16*.dfy`, `ByteTables.dfy`, `MessageBits.dfy`, `PolynomialDivision.dfy`): both tables
  entry by entry, and the checksums as remainders of long division of polynomials over two elements.
- **Base64** (`Base64.dfy`, `Bitstrings.dfy`): encoder and decoder against regrouping of bits, as section 4 of
  RFC 4648 has it; characters outside the alphabet are skipped, as section 6.8 of RFC 2045 has it. Input that stops
  inside a group without `=` is accepted and its last, incomplete group is dropped without an error.
- **Staging buffers** (`MeshBuffer.dfy`): `IOBuffer` and `MeshBuffer` refine an unbounded stream of bytes.
- **Reference counts** (`RefHeap.dfy`, `RefContainers.dfy`, `RefWorld.dfy`, `RefOwners.dfy`): `Vector`, `Map` and one
  autorelease pool sharing objects. Over every sequence of operations everybody holds what a plain specification says,
  each count is the number of owners, and each operation gives and takes exactly the references it should.
- **Audio registry** (`AudioEngine.dfy`): the indexes by id, path and profile agree in every reachable state.
- **Middleware list** (`Middleware.dfy`): removal that waits for the end of a pass, and the one-pass order test.
- **String splitting** (`StringSplit.dfy`): the scanner with its `npos` wrap-around against maximal runs.

`Wrappers.dfy` holds what several parts share. `dfyconfig.toml` names all files.

Where code and documentation disagree, or a promise has a limit, the model follows the code and a theorem says where
the limit is:

- `stopTasksByType` puts tasks back without a notification. A call of it can leave a task queued with nobody awake to
  take it exactly if, when it is called, a task of another type is queued (`StopTasksByTypeStrandsExactlyIf`, with a
  concrete run in `StopTasksByTypeCanStrand`). Without such calls a pool can strand a task exactly if its minimum of
  threads is zero, because a push can then end the last threads before it enqueues (`StrandsExactlyWithoutMinimum`).
- The destructor can delete a task exactly if, when it is called, a task is queued and every thread there is has just
  found the queue empty and not yet looked at `_isDone` (`StopLosesExactlyIfUnattended`, with a concrete run of a pool of one in
  `DestructorCanLoseATask`). A pool of two threads or more is never in that state, and neither is a pool of one
  without put back tasks (`TwoThreadsAttend`, `NothingPutBackInARun`).
- `repeat` has two values without end: the documented one and the largest 32-bit number, because the counter wraps
  before it can exceed it (`Timers.Capped`).
- A frame that uploads no indices for a segment, or no vertices at all, leaves the chunk of an earlier frame in place,
  and a mesh with a smaller vertex size loses uploads that its chunks cannot hold; exactly then the joined chunks are
  not what was written (`VertexStream`, `IndexStream`).
- After the callback at the end of a timer's delay the source does not look whether that callback has unscheduled the
  target: one more callback can follow in the same update. After any other callback it does look (`PassTime`).
- `Vector::replace` by the object that is there already destroys it if nobody else holds it (`Vector.Replace`).
- A sound that the program pauses while the application is in the background is resumed with the others if it was
  playing before (`ForegroundResumes`, `PauseInBackgroundIsUndone`).
- An editor that is removed and added again during a pass survives exactly if it was not listed and at most one
  removal of it waited, or it was listed and none did (`AddedLastSurvivesIff`). So it is lost if it was listed and its
  removal waited (`ListedIsLost`), and also if it was not listed but was removed twice (`RemovedTwiceIsLost`).
- The 32-bit size of an encoded text is right exactly up to 3221225469 bytes of input; beyond that it is too small, and
  so is the buffer (`EncodedLength32IsRight`, `Base64Encode`).
- A delimiter at the beginning of a string counts towards the limit of `split` (`LimitedPieces`).

## Model

| member | source | states |
|---|---|---|
| ThreadPoolBooks.StepKeepsBooks | cocos/base/ThreadPool.cpp:139-378 | every step of every thread keeps: who holds the mutex, what each flag means for its slot, both counters, the minimum of threads |
| ThreadPoolBooks.Bookkeeping | cocos/base/ThreadPool.cpp:115-209 | in every reachable state both counters are exact, an idle flag means a live thread, a shrink joins distinct existing threads it has aborted and never goes below the minimum |
| ThreadPoolBooks.CallsNeverDeadlock | cocos/base/ThreadPool.cpp:158-172 | inside a call of the main thread some thread can always move: no shrink and no destructor waits for a sleeping thread |
| ThreadPoolPaths.CallsReturn | cocos/base/ThreadPool.cpp:139-335 | inside a call each move of the main thread or of a worker lessens a measure, so every call returns after finitely many moves between spurious wake-ups |
| ThreadPoolWakeup.StepKeepsWake | cocos/base/ThreadPool.cpp:232-245 | every step keeps the invariant that relates queued tasks to the threads that will poll again |
| ThreadPoolWakeup.NoLostWakeup | cocos/base/ThreadPool.cpp:343-374 | whenever a task is queued and its notification has been sent, some live thread is not asleep, although the enqueue is outside the mutex and the predicate pops |
| ThreadPoolWakeup.WorkerStepsLessen | cocos/base/ThreadPool.cpp:344-375 | each move of a worker lessens a measure, so workers left alone come to rest |
| ThreadPoolWakeup.QuietMeansDone | cocos/base/ThreadPool.cpp:344-375 | when no worker can move, the queue is empty and no worker holds a task |
| ThreadPoolTasks.TasksAreConserved | cocos/base/ThreadPool.cpp:211-273 | each pushed task is in exactly one place (queued, held, set aside, run, deleted), no other task is anywhere, and the queue is in the order of the pushes |
| ThreadPoolTasks.StopTasksByTypeIsExact | cocos/base/ThreadPool.cpp:254-273 | only tasks of the given type are deleted and afterwards none of that type is queued |
| ThreadPoolTasks.EveryTaskIsServed | cocos/base/ThreadPool.cpp:343-373 | between two calls the workers make boundedly many moves, and when they stop every task ever pushed has been run or was deleted by a stop |
| ThreadPoolStop.StopLosesExactlyIfUnattended | cocos/base/ThreadPool.cpp:315-335 | from any state between two calls: a run that begins with `stop` can delete a task if and only if a task is queued and every thread that exists has polled the empty queue and not yet looked at `_isDone` |
| ThreadPoolStop.TwoThreadsAttend | cocos/base/ThreadPool.cpp:356-365 | in a pool of two threads or more that is never so, because `_mutex` lets only one thread be there |
| ThreadPoolStop.NothingPutBackInARun | cocos/base/ThreadPool.cpp:356-365 | nor in any run of a pool with a minimum of one in which nothing has been put back |
| ThreadPoolStop.DestructorRunsEveryTask | cocos/base/ThreadPool.cpp:103-106 | if that is not so when the destructor is called, then when it returns every task not deleted before has been run, whatever was put back earlier |
| ThreadPoolStop.PoolsOfTwoLoseNothing | cocos/base/ThreadPool.cpp:103-106 | so the destructor of a pool of two threads or more runs every task, in every run |
| ThreadPoolStranding.StopTasksByTypeStrandsExactlyIf | cocos/base/ThreadPool.cpp:254-273 | from any state between two calls: `stopTasksByType` can end with a queued task and only sleeping threads if and only if a task of another type is queued when it is called |
| ThreadPoolStranding.StopTasksByTypeInARun | cocos/base/ThreadPool.cpp:254-273 | the same for every state of every run of every pool, fixed or cached |
| ThreadPoolMinimum.StrandsExactlyWithoutMinimum | cocos/base/ThreadPool.cpp:211-245 | without calls of `stopTasksByType`, a pool of any configuration can strand a task if and only if its minimum is zero; what a push does to the number of threads is said by `PushStretches` and `PushShrinks` |
| ThreadPoolLimits.StopTasksByTypeCanStrand | cocos/base/ThreadPool.cpp:268-272 | a concrete run of a pool of one in which a task that was put back is queued and everybody sleeps |
| ThreadPoolLimits.DestructorCanLoseATask | cocos/base/ThreadPool.cpp:360-373 | a concrete run in which the destructor deletes a task that was put back, with a thread there that nobody aborted |
| ThreadPoolCalls.PushStretches | cocos/base/ThreadPool.cpp:183-230 | from the moment of a push in a cached pool to its return, whatever the workers do: if it reads that no thread is idle, the threads become more by the stretch step, as far as the maximum allows, in the lowest free slots, and none ends; if some are idle but no more than the minimum, they stay as they were |
| ThreadPoolCalls.PushShrinks | cocos/base/ThreadPool.cpp:218-227 | if it reads more idle threads than the minimum, the pool shrinks exactly if the queue is then found empty and the interval is over, and otherwise keeps its threads |
| ThreadPoolCalls.ShrinkEndsIdleThreads | cocos/base/ThreadPool.cpp:139-181 | a shrink ends only threads whose idle flag was up at some moment of it, no more than its step and not below the minimum; if it ends fewer than that, the flag of each thread that is left was down at some moment |
| ThreadPoolCalls.FixedPoolsHaveMinimum | cocos/base/ThreadPool.cpp:115-136 | a pool of fixed size has exactly its minimum of threads in every reachable state, until it is asked to shrink or to stop |
| ThreadPoolCalls.FixedPoolsStay | cocos/base/ThreadPool.cpp:211-213 | no push changes the threads of a pool of fixed size |
| ThreadPoolCalls.CallsHandleTasks | cocos/base/ThreadPool.cpp:211-273 | a push adds exactly its task and no other call adds one; pushes and shrinks delete nothing; `stopAllTasks` returns with an empty queue |
| ThreadPoolCalls.PushWakesOne | cocos/base/ThreadPool.cpp:241-244 | the move with which a push returns wakes one thread if any is asleep by then, and no other |
| ThreadPoolCalls.AbortedThreadsEnd | cocos/base/ThreadPool.cpp:347-352 | a thread that is told to end while it holds a task takes no other one |
| ThreadPoolCalls.StopLeavesNothing | cocos/base/ThreadPool.cpp:315-335 | when `stop` is over there is no thread, and the queue is empty |
| Timers.TickTracks | cocos/base/Scheduler.cpp:57-103 | one update keeps the timer in step with the count that is due for the time passed |
| Timers.FrameRateIndependence | cocos/base/Scheduler.cpp:48-103 | with an interval, the number of triggers depends only on the time since the first update, with delay and repeat, however it is cut into frames |
| Timers.ZeroIntervalFiresEachFrame | cocos/base/Scheduler.cpp:83-85 | without an interval it is once a frame, up to the cap, and twice in the frame that reaches the delay |
| Scheduling.Scheduler.ScheduleTimer | cocos/base/Scheduler.cpp:153-188 | a timer of the target with that key gets the interval and nothing else changes; without one, a timer with the given settings, whose clock has not started, is appended to the target's list, in a new entry if there is none; every other target is as before |
| Scheduling.Scheduler.UnscheduleTimer | cocos/base/Scheduler.cpp:190-233 | afterwards no timer listed for the target has the key, whether the target is being walked or not; the others stay listed in their order with their values, the one removed exists only if it is running, an emptied entry is gone or marked as salvaged, every other target is as before; the running timer is salvaged once and the position corrected |
| Scheduling.Scheduler.UnscheduleAllForTarget | cocos/base/Scheduler.cpp:262-291 | the target's list is empty and its entry gone, or marked as salvaged if it is being walked; of its timers only the running one still exists; every other target is as before |
| Scheduling.Scheduler.UnscheduleEverything | cocos/base/Scheduler.cpp:256-260 | all that is left is the running timer, and the entry that is being walked, without timers |
| Scheduling.Scheduler.SetPaused | cocos/base/Scheduler.cpp:293-311 | the target's entry is paused or not as asked, and nothing else changes |
| Scheduling.Scheduler.Perform | cocos/base/Scheduler.cpp:153-311 | each call of a callback does what the method called promises, whatever it is about |
| Scheduling.Scheduler.Trigger | cocos/base/Scheduler.cpp:116-120 | callback number n makes the calls that are laid down for n, one after the other; if the last one unschedules the target that is walked, that is marked as salvaged |
| SchedulerCalls.OnlyOneFound | cocos/base/Scheduler.cpp:196-229 | as keys are distinct, the list without the timer that is found is the list of all timers with other keys, in order |
| SchedulerCalls.NoLongerScheduled | cocos/base/Scheduler.cpp:190-233 | after `unschedule` the timer is not scheduled any more in the sense of `isScheduled` |
| Scheduling.Scheduler.CatchUpLoop | cocos/base/Scheduler.cpp:85-102 | whatever the callbacks do: there is a callback if and only if the timer is due, they go on until the timer is at its cap, the time left does not reach the interval or one of them has left the current target salvaged, and after such a one there is no other; if the callbacks leave a target alone, the loop does to it what the catch-up function says, or nothing if it is another's loop |
| SchedulerAlone.CatchUpGoesOn | cocos/base/Scheduler.cpp:86-101 | one round keeps what is left to do equal to the rest of the catch-up function, across callbacks that change other targets |
| Scheduling.Scheduler.PassTime | cocos/base/Scheduler.cpp:64-102 | whatever the callbacks do, an update makes a callback if and only if the timer is due or its delay ends; after the delay's callback there is another one if and only if the repetitions are not used up and the time left reaches the interval, even if that callback has unscheduled the target; after any later one that leaves the target salvaged there is none |
| Scheduling.Scheduler.UpdateTimer | cocos/base/Scheduler.cpp:57-103 | a timer's first update triggers nothing; whatever the callbacks do it outlives its update; one callback exactly, if the timer is due without delay and that callback ends by unscheduling the target; if the callbacks leave a target alone, its timer fires and ends as the timer function says, with its cancelling, and another's update leaves it as it was |
| Scheduling.Scheduler.TakeTurn | cocos/base/Scheduler.cpp:349-363 | one turn of the walk: a first turn of the timer at the position; for a target left alone the list, the position and all its timers afterwards |
| Scheduling.Scheduler.Walk | cocos/base/Scheduler.cpp:347-364 | the walk ends, although callbacks may add timers for ever, and leaves a complete report |
| Scheduling.Scheduler.TickTarget | cocos/base/Scheduler.cpp:343-375 | each timer listed at the start is updated exactly once or was unscheduled before its turn, no timer is updated twice, a paused target is left alone; for a target that the callbacks leave alone, each timer ends as the timer function says, made as many callbacks, and the list keeps those that did not cancel |
| Scheduling.Scheduler.Update | cocos/base/Scheduler.cpp:337-379 | for whichever entries an update visits, in whatever order: a report of each visit as in a single tick, and for a target visited once and left alone the effect of the whole frame on its timers |
| Scheduling.Scheduler.PlayFrames | cocos/base/Scheduler.cpp:337-379 | over any number of frames each timer of a target left alone makes exactly the callbacks of the timer function played over the frames' lengths |
| Scheduling.Scheduler.ScheduleAndPlay | cocos/base/Scheduler.cpp:57-188 | frame-rate independence of the scheduler itself: a new timer's callbacks are the capped due count of the time after its first frame, however cut into frames, whatever callbacks do to other targets |
| SchedulerAlone.UnscheduledCongruent | cocos/base/Scheduler.cpp:190-233 | unscheduling one's own timer comes to the same after any changes to other targets |
| SchedulerFrames.WalkedMore | cocos/base/Scheduler.cpp:349-363 | a turn extends the finished part of a walk: survivors listed in order, the rest untouched, nobody else's callbacks counted |
| SchedulerFrames.FramedMore | cocos/base/Scheduler.cpp:342-376 | a visit of the target, or of another one, extends what the frame means for the target |
| SchedulerWorld.ErasedKeepsPass | cocos/base/Scheduler.cpp:211-217 | removing a timer in the middle of a walk keeps the finished positions exactly those up to the index |
| SchedulerWorld.WalkIsComplete | cocos/base/Scheduler.cpp:349-363 | at the end of a walk a listed timer has had a turn if and only if it was not dropped before |
| SchedulerWorld.TurnLessens | cocos/base/Scheduler.cpp:185-187 | a turn of a timer listed at the start lessens the set of those that wait, which is what ends the walk |
| SchedulerWorld.SalvagedRefs | cocos/base/Scheduler.cpp:206-209 | a running timer has exactly one reference, that of its list or that of its salvage |
| SchedulerWorld.BetweenCalls | cocos/base/Scheduler.cpp:137-147 | between calls every entry is filed under its own target with a non-empty list of distinct keys, and each timer has exactly one owner |
| Crc32Table.TableIsRemainders | cocos/math/Math.cpp:69-121 | each of the 256 entries is eight reflected division steps applied to its index |
| Crc16Table.TableIsRemainders | cocos/math/Math.cpp:35-67 | each of the 256 entries is eight division steps applied to its index |
| Crc32.UpdateShifts | cocos/math/Math.cpp:123-125 | one table lookup equals eight bits entering the division register |
| Crc32.CRC32 | cocos/math/Math.cpp:127-137 | the loop's result, as coefficients, is the remainder of the long division of the bits of the bytes followed by the byte that is the length modulo 256, with the first 32 complemented |
| Crc32.ChecksumIsRemainder | cocos/math/Math.cpp:127-137 | the same for the checksum as a function, for every string and the byte that is its length modulo 256 |
| Crc32.CoefficientsAreInjective | cocos/math/Math.cpp:127-137 | a register is determined by its coefficients, so the remainder determines the checksum |
| Crc32.CRC32NoCase | cocos/math/Math.cpp:139-149 | the same remainder for the bytes in lower case, followed by the length modulo 256 |
| Crc32.LowerIsLetterByLetter | cocos/math/Math.cpp:145 | the letters A to Z become a to z, one by one in their places, and no other byte changes |
| Crc32.BurstsOf32BitsAreDetected | cocos/math/Math.cpp:123-137 | strings whose bits differ only within 32 neighbouring bits have the same checksum only if they are equal |
| Crc32.ChangedBytesAreDetected | cocos/math/Math.cpp:123-137 | up to four neighbouring bytes replaced by others always change the checksum |
| Crc32.OneByteIsDetected | cocos/math/Math.cpp:123-137 | replacing one byte keeps the checksum if and only if the byte is the same |
| Crc32.OneByteIsDetectedNoCase | cocos/math/Math.cpp:139-149 | without regard to case, if and only if the bytes are the same letter |
| Crc16.CRC16 | cocos/math/Math.cpp:151-158 | the loop's result is the remainder of the long division by 0x11021, most significant bit first, from 0 |
| Crc16.ChecksumIsRemainder | cocos/math/Math.cpp:151-158 | the same for the checksum as a function, for every string |
| Crc16.BurstsOf16BitsAreDetected | cocos/math/Math.cpp:151-158 | strings whose bits differ only within 16 neighbouring bits have the same checksum only if they are equal |
| PolynomialDivision.RegisterDivides | cocos/math/Math.cpp:123-158 | a shift register that takes one message bit at a time holds the remainder of schoolbook long division |
| PolynomialDivision.BurstsAreDetected | cocos/math/Math.cpp:123-158 | a difference inside a window no longer than the register always changes the remainder |
| Base64.BuildTables | cocos/base/base64.cpp:37-53 | the lookup tables accept exactly the 64 letters and invert the alphabet |
| Base64.DoBase64Encode | cocos/base/base64.cpp:110-150 | the output is the input's bits in groups of six, as letters, padded to groups of four, and a NUL; nothing else is written |
| Base64.DoBase64Decode | cocos/base/base64.cpp:39-108 | output, its length and the error count for arbitrary input; nothing beyond the decoded bytes is written and the accumulator stays below 2^24 |
| Base64.DecodedFits | cocos/base/base64.cpp:152-156 | the decoded bytes never exceed the size that the wrapper allocates |
| Base64.Base64Decode | cocos/base/base64.cpp:152-167 | an error gives no buffer and length 0, otherwise the buffer holds the decoded bytes |
| Base64.EncodedLength32IsRight | cocos/base/base64.cpp:169-171 | the 32-bit size is the text's length if and only if the input has at most 3221225469 bytes, and smaller beyond |
| Base64.Base64Encode | cocos/base/base64.cpp:169-178 | for every 32-bit length: the returned and allocated size; the buffer is exactly the encoded text with its NUL if the size is right, and too small for it otherwise |
| Base64.RoundTrip | cocos/base/base64.cpp:39-150 | decoding the encoder's text reports no error and gives the bytes back, for every byte string |
| Base64.EncodedShape | cocos/base/base64.cpp:134-147 | the text has ceil(n / 3) * 4 characters, padding only at the end, and otherwise only letters |
| Base64.SkippingIsHarmless | cocos/base/base64.cpp:64-66 | deleting all non-alphabet characters before the first `=` changes neither output nor error |
| Base64.IncompleteGroups | cocos/base/base64.cpp:79-104 | an error exactly if a single letter of a group precedes `=`; without `=` the incomplete group is dropped without an error |
| MeshBuffers.IOBuffer.WriteBytes | cocos/editor-support/IOBuffer.h:76-83 | appends all bytes or, without room, nothing, and marks the buffer |
| MeshBuffers.IOBuffer.Resize | cocos/editor-support/IOBuffer.cpp:30-42 | grows only, keeps the contents if they are to be copied, clears the mark |
| MeshBuffers.IOBuffer.CheckSpace | cocos/editor-support/IOBuffer.h:180-200 | afterwards there is room; a full buffer starts again; contents survive unless it was full or they were not copied |
| MeshBuffers.MeshBuffer.constructor | cocos/editor-support/MeshBuffer.cpp:30-47 | sizes, limits and first chunks; at least the default index size establishes the stream invariant, for any vertex size |
| MeshBuffers.MeshBuffer.UploadVB | cocos/editor-support/MeshBuffer.cpp:78-85 | the current chunk takes the staged bytes; an empty buffer leaves it alone |
| MeshBuffers.MeshBuffer.Next | cocos/editor-support/MeshBuffer.cpp:96-107 | one position on, with a new chunk only where there is none |
| MeshBuffers.MeshBuffer.Flush | cocos/editor-support/MeshBuffer.cpp:38-44 | the staged segment is stored as the next one, as far as it fits its chunk, and the invariant is kept |
| MeshBuffers.MeshBuffer.CheckVertexSpace | cocos/editor-support/IOBuffer.h:180-200 | flushes exactly if the bytes do not fit, never loses staged bytes in a resize, copied or not |
| MeshBuffers.MeshBuffer.Draw | cocos/editor-support/MeshBuffer.cpp:34-44 | each write keeps the invariant and extends the packed segments as the specification does |
| MeshBuffers.MeshBuffer.RenderFrame | cocos/editor-support/MeshBuffer.cpp:78-113 | after a frame, for any vertex size, the chunks hold the packed segments that fit; both the vertex and the index chunks joined are the bytes written, in order, if and only if each segment fits its chunk and no older one is left where there is none; with default sizes the vertices are complete exactly if some were written or nothing older is left |
| MeshBuffers.PackedLosesNothing | cocos/editor-support/IOBuffer.h:180-200 | the segments joined are all vertices and all indices written, none is larger than the maximum |
| MeshBuffers.PackedFillsUp | cocos/editor-support/IOBuffer.h:180-189 | no segment could also have taken the vertices of the next one: a flush comes only where the next write does not fit |
| MeshBuffers.VertexStream | cocos/editor-support/MeshBuffer.cpp:78-85 | the vertex chunks at positions 0 to bufferPos joined are the stream if and only if each segment fits its chunk, or none was written and nothing older is left |
| MeshBuffers.IndexStream | cocos/editor-support/MeshBuffer.cpp:87-94 | the index chunks joined are the indices written if and only if no chunk of a segment without indices still holds older ones |
| MeshBuffers.VerticesIntact | cocos/editor-support/MeshBuffer.cpp:78-85 | with chunks of the default size the condition for vertices is that some were written or nothing older is left |
| MeshBuffers.UploadOfFirstWrite | cocos/editor-support/MeshBuffer.cpp:34-36 | the first case of that condition: in a new mesh with another vertex size the first write arrives if and only if it is not larger than that size |
| RefHeap.Heap.Release | cocos/base/Ref.cpp:63-108 | the last release destroys the object, any other lowers its count |
| RefContainers.Vector.PushBack | cocos/base/Vector.h:295-299 | appended, and every other holder's share of every count is kept |
| RefContainers.Vector.PushBackAll | cocos/base/Vector.h:302-307 | the other vector's objects appended, shares kept |
| RefContainers.Vector.Insert | cocos/base/Vector.h:314-319 | inserted at the index, shares kept |
| RefContainers.Vector.PopBack | cocos/base/Vector.h:324-329 | the last one removed, shares kept |
| RefContainers.Vector.EraseObject | cocos/base/Vector.h:336-355 | the first or every occurrence removed, shares kept |
| RefContainers.Vector.EraseAt | cocos/base/Vector.h:386-391 | the one at the index removed, shares kept |
| RefContainers.Vector.EraseRange | cocos/base/Vector.h:374-380 | the range removed, shares kept |
| RefContainers.Vector.Clear | cocos/base/Vector.h:396-401 | everything removed, shares kept |
| RefContainers.Vector.Replace | cocos/base/Vector.h:423-430 | goes wrong if and only if old and new object are the same and nobody else holds it; otherwise replaced, shares kept |
| RefContainers.Vector.CopyFrom | cocos/base/Vector.h:154-162 | the other's contents, shares kept, also for a copy onto itself |
| RefContainers.Vector.MoveFrom | cocos/base/Vector.h:165-172 | the contents move without a change of their counts |
| RefContainers.Vector.Swap | cocos/base/Vector.h:416-420 | two places exchanged, counts untouched |
| RefContainers.RefMap.Insert | cocos/base/Map.h:238-243 | bound to the key in place of what was there, which may be the same object; shares kept |
| RefContainers.RefMap.Erase | cocos/base/Map.h:264-272 | the key removed if it was there, shares kept |
| RefContainers.RefMap.EraseKeys | cocos/base/Map.h:279-283 | all the keys removed, shares kept |
| RefContainers.RefMap.Clear | cocos/base/Map.h:290-296 | empty in whatever order the table has, shares kept |
| RefContainers.RefMap.CopyFrom | cocos/base/Map.h:313-320 | the other's entries, shares kept |
| RefContainers.RefMap.MoveFrom | cocos/base/Map.h:323-329 | own entries released, the other's taken over without a change of their counts |
| RefContainers.AutoreleasePool.Clear | cocos/base/AutoreleasePool.cpp:64-76 | each entry is released once, shares of all others kept |
| RefContainers.AutoreleasePool.Contains | cocos/base/AutoreleasePool.cpp:78-85 | whether the pool holds the object at least once |
| RefWorld.World.PerformOnVector | cocos/base/Vector.h:295-430 | any operation on any vector changes that vector as specified and nothing else anybody holds, and keeps every count equal to its owners |
| RefWorld.World.PerformOnMap | cocos/base/Map.h:238-320 | the same for maps, erasing by keys among them |
| RefWorld.World.PerformMapMove | cocos/base/Map.h:323-329 | the same for a move between two maps, or of a map to itself |
| RefWorld.World.Perform | cocos/base/Vector.h:295-430 | what all vectors, all maps, the pool and the outside owners hold after any operation; one that the source does not allow changes nothing, no count and no object |
| RefWorld.World.Autorelease | cocos/base/Ref.cpp:110-113 | an outside reference becomes the pool's, the count stays |
| RefWorld.World.Run | cocos/base/Ref.cpp:58-113 | after every sequence of operations everybody holds the fold of their effects, and each count equals the owners in it: outside references and occurrences in all containers and the pool |
| RefWorld.World.DestroyedExactlyWhenUnowned | cocos/base/Ref.cpp:63-107 | an object exists exactly while it has an owner and is destroyed exactly once |
| RefWorld.World.HeldObjectsExist | cocos/base/Vector.h:396-401 | what a container or the pool holds has not been destroyed |
| RefOwners.OutsideOwners | cocos/base/Ref.cpp:58-108 | for every state: a new object has one owner, `retain` and `release` of one that may be retained or released change its owners by exactly one and nobody else's |
| RefOwners.PoolOwners | cocos/base/AutoreleasePool.cpp:60-76 | `autorelease` puts the object into the pool and changes nobody's number of owners; clearing takes one owner for each entry and empties the pool |
| RefOwners.AddingOwners | cocos/base/Vector.h:295-319 | pushing or inserting an object that exists, at a valid index, gives it one owner more |
| RefOwners.SharingOwners | cocos/base/Vector.h:154-307 | appending or copying another vector gives one owner for each place there, copying takes one for each old place |
| RefOwners.ErasingOwners | cocos/base/Vector.h:324-391 | erasing an index or the last element takes one owner from the object there |
| RefOwners.ErasingRangeOwners | cocos/base/Vector.h:374-401 | erasing a range or everything takes one owner for each place |
| RefOwners.ErasingObjectOwners | cocos/base/Vector.h:336-355 | erasing an object takes one owner if it is there, or one for each of its places |
| RefOwners.ReplacingOwners | cocos/base/Vector.h:423-430 | replacing gives the new object an owner and takes one from the old, unless they are the same with a single owner |
| RefOwners.BindingOwners | cocos/base/Map.h:238-272 | binding a key gives the object an owner and takes one from the object bound before; erasing a key takes one |
| RefOwners.VectorKeepsAlive | cocos/base/Vector.h:295-299 | an object that its maker puts into a vector and releases has the vector as its only owner |
| RefOwners.PoolLetsGo | cocos/base/AutoreleasePool.cpp:60-76 | one that its maker autoreleases has no owner once the pool has been cleared |
| Audio.AudioEngine.Play2d | cocos/audio/AudioEngine.cpp:191-255 | refused exactly if the file is missing, the engine is full, or the profile that counts already has as many of the sounds there are as its limit says or was used too recently; the clamped volume, and the new sound in all three indexes; a refusal changes no index |
| Audio.AudioEngine.Pause | cocos/audio/AudioEngine.cpp:284-290 | only a playing sound is paused |
| Audio.AudioEngine.Resume | cocos/audio/AudioEngine.cpp:302-308 | only a paused sound is resumed |
| Audio.AudioEngine.OnEnterBackground | cocos/audio/AudioEngine.cpp:320-335 | exactly the playing sounds are paused and listed |
| Audio.AudioEngine.OnEnterForeground | cocos/audio/AudioEngine.cpp:337-353 | exactly the listed sounds that are paused play again, and the list is empty |
| Audio.AudioEngine.Remove | cocos/audio/AudioEngine.cpp:364-373 | the id leaves all three indexes |
| Audio.AudioEngine.Stop | cocos/audio/AudioEngine.cpp:355-362 | the same, also if the backend removes the sound while it stops it |
| Audio.AudioEngine.StopAll | cocos/audio/AudioEngine.cpp:375-388 | all indexes are empty, also if the backend removes some sounds first |
| Audio.AudioEngine.Uncache | cocos/audio/AudioEngine.cpp:390-415 | exactly the path's sounds and its list are gone, whichever the backend removes itself |
| Audio.AudioEngine.SetMaxAudioInstance | cocos/audio/AudioEngine.cpp:471-478 | accepted exactly between 1 and the platform's maximum |
| Audio.AudioEngine.Run | cocos/audio/AudioEngine.cpp:191-478 | over every sequence of calls each call does what it promises to every sound; the indexes agree, the limit is the last one accepted, there are never more sounds than the highest limit so far and so never more than the limit while no accepted one is below its predecessor, and untouched sounds keep their state |
| Audio.AudioEngine.Perform | cocos/audio/AudioEngine.cpp:191-478 | what any call makes of every sound there is, and of the list of the interrupted ones; a sound that is new stems from a call that plays it and fitted its profile's limit |
| Audio.ProfileLimitHolds | cocos/audio/AudioEngine.cpp:207-221 | over every run, a profile that is always passed with a limit of at most n never has more than n sounds |
| Audio.GoneIsGone | cocos/audio/AudioEngine.cpp:355-373 | over every run, a sound that was stopped or has finished is not there again before the backend answers with its id again |
| Audio.AudioEngine.Interrupt | cocos/audio/AudioEngine.cpp:320-353 | to the background and back with anything in between: each untouched sound is as before, user-paused ones stay paused |
| Audio.ForegroundResumes | cocos/audio/AudioEngine.cpp:337-345 | a paused sound is made to play if and only if it was playing when the application left |
| Audio.AudioEngine.PauseInBackgroundIsUndone | cocos/audio/AudioEngine.cpp:337-345 | resumed and paused again in between, a sound is resumed all the same |
| Audio.RemovedAgrees | cocos/audio/AudioEngine.cpp:366-371 | taking an id out of the three indexes keeps their agreement |
| Middleware.MiddlewareManager.AddTimer | cocos/editor-support/MiddlewareManager.cpp:153-164 | nothing if it is listed; otherwise appended, and the first removal of it that waits is taken from its list |
| Middleware.MiddlewareManager.RemoveTimer | cocos/editor-support/MiddlewareManager.cpp:166-175 | during a pass exactly one more removal of the editor waits and nothing else changes, whether it is listed or not; otherwise it is taken from the list, whose rest keeps its order |
| Middleware.MiddlewareManager.ClearRemoveList | cocos/editor-support/MiddlewareManager.cpp:57-67 | everything that waits is erased from the list |
| Middleware.MiddlewareManager.Walk | cocos/editor-support/MiddlewareManager.cpp:87-107 | the lists and the updated editors after a pass with arbitrary callbacks, and dirty if and only if some editor showed a smaller order than an earlier one |
| Middleware.MiddlewareManager.Update | cocos/editor-support/MiddlewareManager.cpp:69-116 | the final list is a permutation of what is left, sorted if dirty, and sorted in any case if no order is set after its editor's turn and nothing was added |
| Middleware.MiddlewareManager.Render | cocos/editor-support/MiddlewareManager.cpp:118-151 | the same pass without sorting |
| Middleware.DeferredRemovalPass | cocos/editor-support/MiddlewareManager.cpp:84-109 | no duplicates; left is exactly what does not wait for removal; each listed editor not waiting at its turn is updated once, no other is |
| Middleware.CleanPassIsSorted | cocos/editor-support/MiddlewareManager.cpp:102-106 | if no order is set after its editor's turn and nothing was added, a pass that finds no smaller order after a larger one leaves a sorted list |
| Middleware.AddedLastSurvivesIff | cocos/editor-support/MiddlewareManager.cpp:153-175 | an editor whose last call in a pass adds it is left at the end if and only if it was listed with no removal waiting, or not listed with at most one |
| Middleware.RemovedLastIsGone | cocos/editor-support/MiddlewareManager.cpp:57-175 | an editor whose last call in a pass removes it is gone at the end, and if that comes before its turn it is not updated in the pass |
| Middleware.ListedIsLost | cocos/editor-support/MiddlewareManager.cpp:153-157 | adding a listed editor whose removal waits does nothing, and it is gone at the end |
| Middleware.RemovedTwiceIsLost | cocos/editor-support/MiddlewareManager.cpp:159-163 | a concrete pass in which an editor that is not listed is removed twice, added, and gone at the end |
| StringSplit.Split | cocos/base/StringUtil.cpp:91-126 | the loop ends and gives the specified pieces, with its wrap from the largest position to 0 |
| StringSplit.RunsAreMaximal | cocos/base/StringUtil.cpp:105-123 | the specified runs are all maximal runs without delimiters, no others, in order |
| StringSplit.NoLimitGivesAllRuns | cocos/base/StringUtil.cpp:91-126 | without a limit the pieces are exactly these runs |
| StringSplit.LimitedPieces | cocos/base/StringUtil.cpp:111-114 | with a limit k there are at most k + 1 pieces, all runs in order but a possible last one that is the rest of the string |

## Left out

- Scheduling.Scheduler.Update: which entries the iteration of the hash table comes to is a parameter, because the source advances twice after it has erased a target and the table may be rehashed; so nothing is claimed about every target being ticked in every update, and `PlayFrames` takes frames that come to its target once. The walk over one target's timers is modelled in full.
- `performFunctionInCocosThread`: a list of functions under a lock, called after the update.
- Floating point: times, intervals, delays and volumes are exact reals, and frame times are not negative.
- `CCASSERT` conditions are preconditions; the one about `paused` in `schedule` is ignored, as in a release build.
- The thread pool as a class: a protocol between threads is a step system over values, so update in place is not captured; memory order, exceptions in tasks and failing thread creation are not modelled.
- ThreadPoolStop.DestructorRunsEveryTask: requires the state in which the destructor loses nothing; `StopLosesExactlyIfUnattended` shows that this is exactly what it needs.
- Base64.Base64Encode: what the source writes into a buffer that is too small is undefined, and not modelled.
- Timers as objects on the heap: the scheduler holds them in a map from numbers, with their reference counts.
- Destructors that call back into containers, the width of the reference count, and the stack of pools in `PoolManager`.
- Objects as classes of their own: a `Heap` maps addresses to counts, so that a destroyed object can be spoken of.
- What a moved-from container holds: it is taken to be empty, as the standard library leaves it.
- Chunks of a mesh buffer as objects: they are values in the list, so aliasing among them is not captured; the script engine's typed arrays are plain bytes, and the rounding in `checkSpace` is that of integers, which is exact up to 2^24.
- The writers of single numbers in `IOBuffer.h`, `move`, and the read positions: the same bounds test as `writeBytes`.
- The audio backends: their answers are parameters, an id in use is never answered again, and time enters only as whether a profile's minimum delay is over.
- `tolower` outside the letters A to Z, and strings with an embedded NUL, which `strlen` would cut.
- `AutoreleasePool` debugging checks, leak detection, logging, out-of-memory paths.
- The order in which `std::sort` leaves editors of equal order.
- Everything that wraps platform, GPU, network or script libraries, and the vector and matrix arithmetic.
