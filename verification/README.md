# Verified model of the clockwork ESP32 runtime

A Dafny model of the hard parts of this repository, with proofs of what they promise. Check it with
`dafny verify dfyconfig.toml`.

## What is modelled

**The LED transmitter** (`RmtFrame`, `RmtStrand`, `RmtTransmission`). A frame of pixels is packed into bytes and
expanded into pulses in a 64-entry hardware block. The driver refills one half of the block from an interrupt while
the hardware drains the other. `RmtFrame` says what a frame looks like on the wire and how an LED reads it.
`RmtStrand` is the driver: its loops write the block in place and are proved equal to a short specification.
`RmtTransmission` is a step machine of hardware and interrupt handler in all interleavings. Of the hardware it is
assumed that the read pointer starts at entry 0 and cycles through the block, that every entry other than the zero
word is sent, that the first zero word ends the transmission, that the threshold event is raised after every 32
entries, and that each refill is done before the next threshold event. Where the block before the frame matters, the
exact condition is proved.

**The runtime** (`Scheduler`, `SchedulerSafety`, `SchedulerRuns`, `TaskLists`, `Process`). `Scheduler` is the
processing task as a step machine: one step is one operation under the runtime mutex, or a stretch of the task that
touches no shared list. Generated code (actions, message handlers, state rules) may perform any operations on any
machine and return anything; it does not write another machine's `execute`, and a state rule changes the state at
most once. Other tasks may mark machines pending and send them messages between any two steps. `SchedulerSafety` has
the invariant, `SchedulerRuns` the properties of whole runs. `TaskLists` is the linked-list memory behind the work
lists, with explicit allocation, so that every access is to an allocated cell. `Process` has the nested loops of the
task over that memory; each operation is recorded as a step, so the results about the step machine hold of the loops.

**The timers** (`RtScheduler`, `TimerRuns`). The timer task collects what is due under its own mutex and then marks
the machines one by one, and the step machine of the runtime goes on between any two marks. `RtScheduler` has the
loops, `TimerRuns` the runs of timer task and runtime together: who is dispatched, and in which order.

**The intrusive list** (`CcanList`) works on real nodes: rings of `next` and `prev` pointers, with ghost sequences
naming what is on them. Each operation's `modifies` clause names the few nodes it writes, so all other lists stay as
they are.

**Smaller parts.** The output handshake as part of the runtime (`OutputHandshake`), the process-image layout and its
bits (`IoMap`), the LED strip down to the light (`LedStrip`), substring counting (`StrCount`), hexadecimal text
(`HexCodec`) and the printed-size bound (`StrMaxChars`).

## What the proofs found

- A frame of exactly four bytes is only safe if the second half of the block starts with a zero entry; the driver
  clears that half, but possibly after the hardware has looked (`RmtTransmission.FaithfulIffReady`). Frames of that
  length leave the block in order for the next one.
- The comment in `cwrt_process.c` at line 63 says that a blocked action moves on to the next machine; the code ends
  the run phase of the cycle. The model follows the code (`SchedulerRuns.BlockedEndsRunPhase`). Waiting stays bounded.
- An output that is sent any message other than turnOn and turnOff can lose the acknowledgement of a pin write
  (`OutputHandshake.AgreesIffOnlyCommands`).
- The length computed for the process image counts one byte for all one-bit items together, which is too little for
  more than eight of them (`IoMap.LengthCoversIffEightBits`).
- A delay that carries the trigger time over 2^32 milliseconds fires early (`RtScheduler.PunctualIffNoWrap`).
- `strcount` ends exactly for needles that are not empty (`StrCount.EndsIffNeedle`).
- The timer task marks one machine at a time, and a cycle may end between two marks. Machines that are due together
  then run out of schedule order, and one may no longer be pending when the pass ends (`TimerRuns.SplitPass`). Order
  is kept exactly if no cycle ends between the first mark and the last (`TimerRuns.RunOrderIffNotSplit`); everyone is
  dispatched in any case (`TimerRuns.DueIsDispatched`).
- A strand with 65536 pixel bytes or more gets a buffer that is too short, because its length is cut to 16 bits
  (`RmtStrand.PacksInBoundsIffShort`).

## Model

| member | source | states |
|---|---|---|
| `RmtTransmission.RunIsFaithful` | components/esp32_digital_led_lib/esp32_digital_led_lib.cpp:240-252 | However the refills are timed, what has gone out is always a prefix of the encoded frame, and all of it once the hardware has stopped |
| `RmtTransmission.RunDeliversFrame` | components/esp32_digital_led_lib/esp32_digital_led_lib.cpp:240-263 | A run that cannot go on, or has stopped with no event waiting, has sent exactly the frame and left a block that is fit for the next frame of the same length |
| `RmtTransmission.SentInNumbers` | components/esp32_digital_led_lib/esp32_digital_led_lib.cpp:304-329 | When the hardware has stopped, what was sent is, bit by bit and most significant first, a high and a low phase of the durations of that bit in 50 ns ticks of 15 bits, the last low phase being the reset time |
| `RmtTransmission.RunIsShort` | components/esp32_digital_led_lib/esp32_digital_led_lib.cpp:266-344 | No run is longer than eight steps a byte plus one refill for every four bytes plus two, so every frame ends |
| `RmtTransmission.CanContinue` | components/esp32_digital_led_lib/esp32_digital_led_lib.cpp:346-363 | Until a frame is done, the hardware or the handler can always take a step |
| `RmtTransmission.FaithfulIffReady` | components/esp32_digital_led_lib/esp32_digital_led_lib.cpp:266-344 | Every timing sends the right frame if and only if the block was ready: the second half must start with a zero when the frame has exactly four bytes, and an empty frame needs the dirty flag or a zero first entry; a block that is not ready has a timing that sends garbage |
| `RmtTransmission.StaleSecondHalf` | components/esp32_digital_led_lib/esp32_digital_led_lib.cpp:279-292 | A four-byte frame over a stale second half: a run of 34 states that sends a 33rd entry |
| `RmtTransmission.SessionDeliversFrames` | components/esp32_digital_led_lib/esp32_digital_led_lib.cpp:213-264 | Any number of frames, each started on the block the previous one left: every one is sent in full |
| `RmtTransmission.StepCount` | components/esp32_digital_led_lib/esp32_digital_led_lib.cpp:359-363 | The position in a run equals entries sent plus completed halves refilled plus the stop, so each completed half is refilled once |
| `RmtTransmission.BlockAfter` | components/esp32_digital_led_lib/esp32_digital_led_lib.cpp:346-363 | At every point of a run the driver's state is the first fills followed by one refill for each half left behind |
| `RmtTransmission.NextInv` | components/esp32_digital_led_lib/esp32_digital_led_lib.cpp:266-344 | Every hardware or handler step keeps the double-buffer invariant: the half being read holds its block of the frame and the other half the next one as soon as it was refilled |
| `RmtStrand.Strand.CopyToRmtBlockHalf` | components/esp32_digital_led_lib/esp32_digital_led_lib.cpp:266-344 | The nested loops write 32 consecutive frame entries (zeros beyond the frame) into the half whose turn it is, leave the other half alone, advance the position, and blank one half exactly once when the data is used up |
| `RmtStrand.Strand.ExpandByte` | components/esp32_digital_led_lib/esp32_digital_led_lib.cpp:296-329 | One byte becomes its eight frame entries, the last entry of the frame with the reset time; no other entry changes |
| `RmtStrand.Strand.ShiftOut` | components/esp32_digital_led_lib/esp32_digital_led_lib.cpp:304-314 | Shifting a 16-bit register left eight times stores, most significant bit first, the high and low phase of each bit's durations and levels; no other entry changes |
| `RmtStrand.Strand.UpdatePixels` | components/esp32_digital_led_lib/esp32_digital_led_lib.cpp:213-264 | Pixels are packed in transmission order and the first one or two halves filled; an unsupported byte count is refused without touching anything |
| `RmtStrand.Strand.constructor` | components/esp32_digital_led_lib/esp32_digital_led_lib.cpp:140-159 | The buffer length is the number of pixel bytes cut to 16 bits, and the buffer has that length; block contents and dirty flag are whatever they were |
| `RmtStrand.PacksInBoundsIffShort` | components/esp32_digital_led_lib/esp32_digital_led_lib.cpp:155-236 | No store of the packing loops misses the buffer if and only if the pixel bytes number fewer than 65536 |
| `RmtStrand.ShiftedTopBit` | components/esp32_digital_led_lib/esp32_digital_led_lib.cpp:306-307 | The top bit of the shifted register is bit j of the byte |
| `RmtFrame.WaveformInNumbers` | components/esp32_digital_led_lib/esp32_digital_led_lib.cpp:181-191 | Entry j of a frame in numbers: levels, high phase T1H or T0H, low phase T1L or T0L by the bit's value, and TRS in the last entry |
| `RmtFrame.DecodeEncode` | components/esp32_digital_led_lib/esp32_digital_led_lib.cpp:181-191 | Reading the waveform by high-phase length gives back every byte |
| `RmtFrame.DecodableIff` | components/esp32_digital_led_lib/esp32_digital_led_lib.cpp:181-191 | Reading by high-phase length recovers all byte strings if and only if the two high phases differ in ticks |
| `RmtFrame.PixelRoundTrip` | components/esp32_digital_led_lib/esp32_digital_led_lib.cpp:219-235 | The LEDs receive the pixels that were packed, without the white channel on three-byte LEDs |
| `RmtFrame.DistinctFramesDistinctWaveforms` | components/esp32_digital_led_lib/esp32_digital_led_lib.cpp:219-235 | Two pixel frames have the same waveform if and only if the LEDs cannot show their difference |
| `RmtFrame.UnpackPack` | components/esp32_digital_led_lib/esp32_digital_led_lib.cpp:219-235 | Unpacking green-red-blue(-white) order inverts packing |
| `RmtFrame.WireOrder` | components/esp32_digital_led_lib/esp32_digital_led_lib.cpp:219-235 | The bytes of a pixel are green, red, blue, and then white for four-byte LEDs |
| `RmtFrame.ShippedTypesAreReadable` | components/esp32_digital_led_lib/include/esp32_digital_led_lib.h:100-110 | All nine shipped timings are distinguishable and lose nothing in their 15-bit fields |
| `SchedulerSafety.ReachableIsSafe` | components/clockwork_runtime/src/cwrt_process.c:35-189 | In every reachable state, under all callbacks and interleavings: lists without duplicates, state rules due only for machines with nothing executing, and no lost work |
| `SchedulerSafety.StepInv` | components/clockwork_runtime/src/cwrt_process.c:41-121 | Every single step of the processing task, of its callbacks and of other tasks keeps that invariant |
| `SchedulerSafety.WorkIsNeverLost` | components/clockwork_runtime/src/cwrt_process.c:47-106 | A machine with a queued action or message is pending, on the run list, being dispatched, or asleep in the middle of an action |
| `SchedulerSafety.ChangeStateAssertionHolds` | components/clockwork_runtime/src/runtime.c:491-503 | Whenever a state rule changes the state, nothing is executing, so the assertion in changeMachineState never fails |
| `SchedulerSafety.RunKeepsInv` | components/clockwork_runtime/src/cwrt_process.c:35-189 | The invariant holds at the end of every run that starts in it |
| `SchedulerSafety.ActivateFacts` | components/clockwork_runtime/src/runtime.c:327-339 | Activation keeps the run list in front, adds exactly the pending machines behind it, and introduces no duplicate |
| `SchedulerSafety.MarkPendingFacts` | components/clockwork_runtime/src/runtime.c:304-325 | Marking adds the machine and nothing else, and never twice |
| `SchedulerRuns.BoundedWaiting` | components/clockwork_runtime/src/runtime.c:283-339 | With N machines, whoever is on the run list between two cycles is dispatched before N cycles have ended, even if every cycle is cut short |
| `SchedulerRuns.PendingIsDispatched` | components/clockwork_runtime/src/runtime.c:304-398 | From any moment, a pending machine is dispatched before N + 1 cycles have ended |
| `SchedulerRuns.QueuedIsDispatched` | components/clockwork_runtime/src/cwrt_process.c:41-109 | A machine at position i of the run list is dispatched before more than i cycles (one more if this cycle has already picked) have ended |
| `SchedulerRuns.WaitShrinks` | components/clockwork_runtime/src/runtime.c:354-358 | No step moves a waiting machine back, and each cycle that ends moves it forward |
| `SchedulerRuns.DispatchedOncePerCycle` | components/clockwork_runtime/src/cwrt_process.c:47-106 | Once dispatched, a machine is not dispatched again before the cycle ends |
| `SchedulerRuns.EvaluatedOncePerCycle` | components/clockwork_runtime/src/cwrt_process.c:110-121 | Once its state rules were evaluated, they are not evaluated again before the cycle ends |
| `SchedulerRuns.BlockedEndsRunPhase` | components/clockwork_runtime/src/cwrt_process.c:64-68 | After a blocked action no machine at all is dispatched before the cycle ends |
| `SchedulerRuns.BlockedAwakeIsPending` | components/clockwork_runtime/src/cwrt_process.c:53-68 | A picked machine that blocks without having been put to sleep since is pending again |
| `SchedulerRuns.ActionsInOrder` | components/clockwork_runtime/src/cwrt_process.c:76-84 | Per machine and over every run: actions queued, in order, are the actions started followed by those still queued |
| `SchedulerRuns.QueuedActionsAreStarted` | components/clockwork_runtime/src/cwrt_process.c:52-88 | Over any run, a machine gets to notify its dependents only when every action it had queued has been started, in order, and the last one completed, however often it blocks on the way |
| `SchedulerRuns.PendingStarts` | components/clockwork_runtime/src/cwrt_process.c:47-88 | Whatever a pending machine has queued has been started, in order, when N + 1 cycles have ended, as long as none of its actions blocks |
| `SchedulerRuns.QueuedStarts` | components/clockwork_runtime/src/cwrt_process.c:47-88 | From place i of the run list the same within the wait for that place |
| `SchedulerRuns.AddedActionStarts` | components/clockwork_runtime/src/runtime.c:524-529 | An action that has just been added is started within N + 1 cycle ends if nothing blocks |
| `SchedulerRuns.MachineStep` | components/clockwork_runtime/src/runtime.c:491-515 | All that one step can do to what a machine executes, to its state and to its sleep: returns, takes, state changes with their enter action, falling asleep and waking up; nothing else touches them |
| `SchedulerRuns.ExecutingActionIsKept` | components/clockwork_runtime/src/cwrt_process.c:56-85 | Over any run in which the machine's action does not return, that action stays the executing one and no queued action is started; messages, state rules and other machines cannot end it |
| `SchedulerRuns.BlockedActionResumesFirst` | components/clockwork_runtime/src/cwrt_process.c:59-70 | After an action has blocked it is what the machine executes until it returns, however many cycles that takes, and no later action is started before |
| `SchedulerRuns.MessagesInOrder` | components/clockwork_runtime/src/cwrt_process.c:89-102 | Per machine and over every run: messages that arrive, by sends and announcements, are in order those taken out followed by those still queued |
| `SchedulerRuns.ActionLoopEnds` | components/clockwork_runtime/src/cwrt_process.c:55-85 | If actions finish or block and do not extend their own queue, the action loop goes round at most as often as a measure known when it is entered |
| `SchedulerRuns.LoopMakesProgress` | components/clockwork_runtime/src/cwrt_process.c:55-85 | Each round lowers that measure and nothing else changes it |
| `Process.Runtime.CwrtProcess` | components/clockwork_runtime/src/cwrt_process.c:35-189 | The nested loops perform one cycle of steps of the machine, for any callbacks: a valid trace grows by exactly one cycle end |
| `Process.Runtime.ServePending` | main/clockwork_esp32.c:41-56 | Running more cycles than there are machines dispatches every machine that was pending at the start |
| `Process.Runtime.RunPhase` | components/clockwork_runtime/src/cwrt_process.c:41-109 | When the run phase ends, the run list is empty or the last thing that happened is that an action blocked |
| `Process.Runtime.RunMachine` | components/clockwork_runtime/src/cwrt_process.c:47-106 | A machine with an action ends blocked, or with all actions it had queued started in order, nothing executing, and itself pending after its dependents; one without, but with messages, ends with none; any other is put down for its state rules exactly if it has some, and nothing else happens |
| `Process.Runtime.ActionLoop` | components/clockwork_runtime/src/cwrt_process.c:51-88 | The action loop ends for every finite script, blocked or with nothing executing and all actions that were queued started, in order |
| `Process.Runtime.ReturnFromAction` | components/clockwork_runtime/src/cwrt_process.c:59-70 | A failed return with work left blocks; anything else continues the loop |
| `Process.Runtime.BlockMachine` | components/clockwork_runtime/src/cwrt_process.c:64-68 | A blocked machine is marked pending exactly if it is not asleep |
| `Process.Runtime.DrainMessages` | components/clockwork_runtime/src/cwrt_process.c:89-102 | Draining ends for every finite script, and with an empty queue |
| `Process.Runtime.CheckPass` | components/clockwork_runtime/src/cwrt_process.c:110-121 | Due state rules are evaluated until none is due; the state-check list is empty afterwards |
| `Process.Runtime.ChangeMachineState` | components/clockwork_runtime/src/runtime.c:491-503 | Requires that nothing is executing, which all callers prove; when the state differs, takes over the state and its enter action, and otherwise changes nothing |
| `Process.Runtime.GotoSleep` | components/clockwork_runtime/src/runtime.c:505-507 | The machine is asleep and nothing else changes |
| `Process.Runtime.CwSend` | components/clockwork_runtime/src/runtime.c:549-559 | Appends the message and marks the receiver pending |
| `Process.Runtime.MachineActionsAdd` | components/clockwork_runtime/src/runtime.c:524-529 | Appends the action and marks the machine pending |
| `Process.Runtime.NotifyDependents` | components/clockwork_runtime/src/runtime.c:540-547 | The pending list gains the dependents one after the other and then the machine itself; nothing else changes |
| `Process.Runtime.NotifyNext` | components/clockwork_runtime/src/runtime.c:540-547 | One mark: the next dependent, or at the end the machine itself |
| `Process.Runtime.AnnounceNext` | components/clockwork_runtime/src/runtime.c:531-538 | The next dependent gets one message, from this machine and with its state as the code, and is marked pending |
| `Process.Runtime.NotifyStateChange` | components/clockwork_runtime/src/runtime.c:531-538 | All dependents are marked pending in turn |
| `Process.Runtime.EndCycle` | components/clockwork_runtime/src/cwrt_process.c:188 | The pending list is emptied into the run list, which is the one step that ends the cycle |
| `Process.Runtime.constructor` | components/clockwork_runtime/src/runtime.c:458-483 | The runtime after set-up is a state in which no work is lost |
| `TaskLists.Lists.MarkPending` | components/clockwork_runtime/src/runtime.c:304-325 | Allocates and links a cell in front unless the machine is listed; every allocated cell stays on exactly one list |
| `TaskLists.Lists.MarkRunnable` | components/clockwork_runtime/src/runtime.c:283-302 | Allocates and links a cell at the end unless the machine is listed |
| `TaskLists.Lists.ActivatePending` | components/clockwork_runtime/src/runtime.c:327-339 | Empties the pending list into the run list and frees each of its cells once |
| `TaskLists.Lists.NextRunnable` | components/clockwork_runtime/src/runtime.c:354-398 | Unlinks the head of the run list, frees the previously popped cell, and keeps the new one as the only cell to be cleared |
| `TaskLists.Lists.NextStateCheck` | components/clockwork_runtime/src/runtime.c:404-438 | The same for the state-check list |
| `TaskLists.Lists.MarkStateCheck` | components/clockwork_runtime/src/runtime.c:410-420 | Links a new cell in front without looking for duplicates |
| `TaskLists.Lists.ClearTaskList` | components/clockwork_runtime/src/runtime.c:341-349 | Frees every cell left to clear and no other |
| `TaskLists.Lists.PopTask` | components/clockwork_runtime/src/runtime.c:354-358 | Takes the head off; the cell is then on no list and still allocated |
| `TaskLists.Lists.Find` | components/clockwork_runtime/src/runtime.c:288-294 | The search ends, finds the machine if it is listed, and otherwise stops at the last cell |
| `TaskLists.CellsAreConserved` | components/clockwork_runtime/src/runtime.c:265-438 | The allocated cells are exactly those on the four lists, each on one list only |
| `TaskLists.OneListChanged` | components/clockwork_runtime/src/runtime.c:265-438 | An operation that writes only cells of one list leaves all lists acyclic and the other lists' machines unchanged |
| `CcanList.CheckNode` | components/ccan/list/list.c:20-36 | Ends on every finite closed heap, however corrupt; succeeds exactly when every forward step can be undone, and then the node is on a ring; otherwise names the first faulty node and its count |
| `CcanList.StepIsNew` | components/ccan/list/list.c:26-30 | A walk whose backward checks all passed can only close at its start |
| `CcanList.RingRepeats` | components/ccan/list/list.c:20-36 | Around a ring every forward step can be undone, for ever |
| `CcanList.AddAfter` | components/ccan/list/list.h:178-188 | The node follows its predecessor in the ring; only the three nodes involved are written |
| `CcanList.AddBefore` | components/ccan/list/list.h:227-237 | The node precedes its successor; before the head means at the end |
| `CcanList.Add` | components/ccan/list/list.h:204-209 | The element becomes the first of the list |
| `CcanList.AddTail` | components/ccan/list/list.h:250-255 | The element becomes the last of the list |
| `CcanList.Del` | components/ccan/list/list.h:324-333 | The ring closes without the node, whose own links stay |
| `CcanList.Swap` | components/ccan/list/list.h:405-417 | The new node takes the old one's place |
| `CcanList.Pop` | components/ccan/list/list.h:475-484 | Null on an empty list, else the first element, which leaves the list |
| `CcanList.Empty` | components/ccan/list/list.h:267-271 | True exactly for a list without elements |
| `CcanList.Top` | components/ccan/list/list.h:451-456 | The first element, or null |
| `CcanList.Tail` | components/ccan/list/list.h:503-508 | The last element, or null |
| `CcanList.AppendList` | components/ccan/list/list.h:640-656 | The source's elements follow the target's and the source is empty, for empty and non-empty lists alike |
| `CcanList.PrependList` | components/ccan/list/list.h:672-688 | The source's elements precede the target's and the source is empty |
| `CcanList.DelWhere` | components/ccan/list/list.h:698-706 | Deleting during safe iteration removes exactly the chosen elements and keeps the order of the others |
| `CcanList.WithoutKeepsRest` | components/ccan/list/list.h:698-706 | What deletion leaves is every element that was not chosen, in the old order, and nothing else |
| `RtScheduler.RtScheduler.Pass` | components/clockwork_runtime/src/rtscheduler.c:127-159 | For any steps of other tasks between the marks, a pass is a run of the timed machine that begins by collecting what is due and ends with an empty stack |
| `RtScheduler.RtScheduler.CollectDue` | components/clockwork_runtime/src/rtscheduler.c:137-152 | The safe loop with deletion filters the schedule and stacks the fired machines: exactly those with an active item whose time has come |
| `RtScheduler.RtScheduler.MarkOne` | components/clockwork_runtime/src/rtscheduler.c:153-158 | The machine on top of the stack is marked pending and taken off |
| `RtScheduler.RtScheduler.Add` | components/clockwork_runtime/src/rtscheduler.c:82-84 | New items go to the front |
| `RtScheduler.KeptAreNotDue` | components/clockwork_runtime/src/rtscheduler.c:143-151 | What stays is exactly the items that are not active or whose time has not come, in their order |
| `RtScheduler.OnlyDueFire` | components/clockwork_runtime/src/rtscheduler.c:143-148 | What fires is exactly the machines of the active items whose time has come, in the order of the items |
| `RtScheduler.FiredAsOftenAsDue` | components/clockwork_runtime/src/rtscheduler.c:143-148 | Each machine fires as often as there are items due for it |
| `TimerRuns.FiredAreMarked` | components/clockwork_runtime/src/rtscheduler.c:143-158 | Over every run and any number of passes, the machines marked are those that fired, in stack order, up to those still on the stack |
| `TimerRuns.MarkedWasDue` | components/clockwork_runtime/src/rtscheduler.c:143-158 | Over every run, when the timer task marks a machine, a pass before found an active item for it whose time had come |
| `TimerRuns.NoMarkBeforeDelay` | components/clockwork_runtime/src/rtscheduler.c:69-75 | An item made at some uptime with some delay, whose trigger time does not wrap, does not get its machine marked before that time has passed |
| `TimerRuns.DueIsDispatched` | components/clockwork_runtime/src/rtscheduler.c:143-158 | Every machine with an item that is due when a pass begins is dispatched within N + 1 cycle ends of the end of the pass, whatever the other tasks do in between and afterwards |
| `TimerRuns.FiredIsDispatched` | components/clockwork_runtime/src/rtscheduler.c:153-158 | The same for every machine on the stack |
| `TimerRuns.CoreRuns` | components/clockwork_runtime/src/rtscheduler.c:153-158 | To the runtime, marks by the timer task are marks like any other: its runs are runs of the runtime |
| `TimerRuns.RunOrderIffNotSplit` | components/clockwork_runtime/src/rtscheduler.c:35-40 | Different machines that fire together, none queued and none marked by others meanwhile, reach the run list in schedule order if and only if no cycle ends between the first mark and the last |
| `TimerRuns.PairInOrderIffNotParted` | components/clockwork_runtime/src/rtscheduler.c:153-158 | Of two machines that fire in one pass the one earlier on the schedule runs first, unless a cycle ends when only the other has been marked; and then it does not |
| `TimerRuns.SplitPass` | components/clockwork_runtime/src/rtscheduler.c:153-158 | A run in which a cycle ends between the two marks of a pass: the later machine is on the run list and no longer pending, the earlier one only pending |
| `TimerRuns.DueTogetherRunInOrder` | components/clockwork_runtime/src/rtscheduler.c:35-40 | Marked and activated with nothing in between, such machines stand next to each other on the run list, in schedule order, through the stack and the pending list |
| `RtScheduler.PunctualIffNoWrap` | components/clockwork_runtime/src/rtscheduler.c:69-75 | Within the first 2^32 milliseconds an item is due exactly from its delay on, if and only if its trigger time does not wrap |
| `OutputHandshake.HandshakeIsSafe` | components/clockwork_runtime/src/pointoutput.c:32-57 | In every interleaving of commands, pin writes, pin reads and state rules: DONE implies that the pin has the commanded bit and the machine is queued or being dispatched; STABLE implies that pin, bit and machine state agree |
| `OutputHandshake.BitFollowsCommands` | components/clockwork_runtime/src/pointoutput.c:99-107 | Over every run the commanded bit is on exactly if the last command handled was turnOn, and as it was before while there is none |
| `OutputHandshake.PinObeysLastCommand` | components/clockwork_runtime/src/pointoutput.c:32-57 | From set-up on and in every interleaving: once DONE, the pin is on exactly if the last handled message was turnOn; once STABLE, so are pin and machine state |
| `OutputHandshake.PendingIsServed` | components/clockwork_runtime/src/iointerface.c:114-198 | A pin write serves a pending command, a pin read exactly if the pin agrees already; both then mark the machine pending, and neither changes the bit |
| `OutputHandshake.AgreesIffOnlyCommands` | components/clockwork_runtime/src/pointoutput.c:32-42 | That holds in all programs if and only if the output is sent nothing but turnOn and turnOff |
| `OutputHandshake.Stranded` | components/clockwork_runtime/src/pointoutput.c:32-57 | Turn on, write the pin, then any other message: DONE stays behind with the machine on no list |
| `OutputHandshake.IoStepInv` | components/clockwork_runtime/src/iointerface.c:114-198 | Each step of the processing task and each write or read by the I/O task keeps the handshake invariant |
| `OutputHandshake.WillLookStays` | components/clockwork_runtime/src/cwrt_process.c:47-121 | A queued machine stays queued or dispatched, except when it leaves its drain, its rule or a blocked action |
| `IoMap.CreateIoMap` | components/clockwork_runtime/src/iointerface.c:202-258 | Every record gets offset and bit position of its last listing, the offset cut to eight bits; items of other widths and all values are left alone; the length is as computed; and while no byte begins at 256 or beyond, no two records address the same bit |
| `IoMap.SlotWidth` | components/clockwork_runtime/src/iointerface.c:215-247 | An item gets exactly as many bits as it has, for the widths 1, 8, 16 and 32, and no other item gets any |
| `IoMap.SlotsAreDisjoint` | components/clockwork_runtime/src/iointerface.c:213-251 | No bit is given to two items and all lie below the final byte offset |
| `IoMap.ItemsShareNoBit` | components/clockwork_runtime/src/iointerface.c:213-251 | In numbers: the bit ranges of two items, each as long as the item is wide, do not overlap |
| `IoMap.ImageSize` | components/clockwork_runtime/src/iointerface.c:213-251 | The final byte offset is the whole bytes plus one byte for each started group of eight bits |
| `IoMap.ImageBits` | components/clockwork_runtime/src/iointerface.c:213-252 | The image in bits: the widths of the whole-byte items and eight for every started group of single bits; the allocation is the former and eight |
| `IoMap.LengthCoversIffEightBits` | components/clockwork_runtime/src/iointerface.c:252 | The computed length covers the layout if and only if there are at most eight one-bit items |
| `IoMap.StoredDisjointIffStartsFit` | components/clockwork_runtime/src/iointerface.c:215-251 | The eight-bit addresses that are stored are disjoint if and only if no item that begins a byte has 256 or more bytes in front of it, counting whole-byte items and started groups of eight bits |
| `IoMap.SmallImagesFit` | components/clockwork_runtime/src/iointerface.c:213-251 | Which holds for every layout of at most 256 bytes |
| `IoMap.IoAddress.SetIoBit` | components/clockwork_runtime/src/rtio.c:21-30 | Writes the addressed bit; the read-back assertion holds exactly for the values 0 and 1 |
| `IoMap.BitReadsBack` | components/clockwork_runtime/src/rtio.c:21-48 | A write reads back at its own position and changes no other |
| `IoMap.WithBitShifts` | components/clockwork_runtime/src/rtio.c:21-28 | The bit written is one shifted left by the position |
| `LedStrip.StripShowsLatestLeds` | components/clockwork_runtime/src/cw_LEDSTRIP.c:36-46 | End to end: when the hardware has stopped, each LED has received red, green and blue, in eight bits each, of the LED added last at its place, or black |
| `LedStrip.BuiltIsSortedPermutation` | components/clockwork_runtime/src/cw_LEDSTRIP.c:118-129 | However LEDs are added, the strip holds exactly them, sorted by position |
| `LedStrip.LatestOfBuilt` | components/clockwork_runtime/src/cw_LEDSTRIP.c:118-129 | At every position the last LED of the strip is the one added there last |
| `LedStrip.LedStrip.AddLed` | components/clockwork_runtime/src/cw_LEDSTRIP.c:118-129 | The search loop inserts behind all LEDs at the same or a lower position, at the end if there is no higher one |
| `LedStrip.LedStrip.Draw` | components/clockwork_runtime/src/cw_LEDSTRIP.c:40-45 | Drawing in list order over black pixels shows the latest LED at each position; positions outside the strip are ignored |
| `LedStrip.LedStrip.Render` | components/clockwork_runtime/src/cw_LEDSTRIP.c:36-46 | A round that begins with a ready block sends exactly the strip's picture, after the black frame, and leaves the block ready for the next round |
| `LedStrip.RoundShowsPicture` | components/clockwork_runtime/src/cw_LEDSTRIP.c:36-46 | For all timings of both transmissions: from a ready block, a black frame and then a picture deliver the picture and leave the block ready |
| `StrCount.StrCount` | components/ccan/str/str.c:4-13 | For a non-empty needle the count is the largest number of occurrences that can be chosen without overlap |
| `StrCount.GreedyIsMaximum` | components/ccan/str/str.c:8-11 | Counting from the left is optimal from every starting point |
| `StrCount.EndsIffNeedle` | components/ccan/str/str.c:8-11 | The loop comes to an end if and only if the needle is not empty |
| `StrCount.EmptyNeedleStandsStill` | components/ccan/str/str.c:8-11 | With an empty needle the search stands at the start after any number of rounds |
| `HexCodec.HexDecode` | components/ccan/str/hex/hex.c:24-40 | Succeeds exactly when the text is twice as long as the buffer and all hex digits, and then the buffer holds the bytes spelled |
| `HexCodec.HexEncode` | components/ccan/str/hex/hex.c:51-66 | Succeeds exactly when text and terminator fit; otherwise nothing is written |
| `HexCodec.DigitMeans` | components/ccan/str/hex/hex.c:7-22 | A character stands for a value exactly if it is that digit of 0123456789abcdef, in either case |
| `HexCodec.SpellingInDigits` | components/ccan/str/hex/hex.c:58-62 | The text of a byte is the digit of its high half and then that of its low half |
| `HexCodec.SpelledFromDigits` | components/ccan/str/hex/hex.c:29-37 | Two digits spell sixteen times the first and the second |
| `HexCodec.DecodeAfterEncode` | components/ccan/str/hex/hex.c:7-66 | Decoding the encoded bytes gives them back |
| `HexCodec.EncodeAfterDecode` | components/ccan/str/hex/hex.c:7-66 | Encoding the decoded text gives its lower-case form |
| `StrMaxChars.PrintedValueFits` | components/ccan/str/str.h:90-92 | For every byte width the bound holds signed and unsigned decimal, 0x-hexadecimal and 0-octal text with the terminator |
| `StrMaxChars.RenderReadsBack` | components/ccan/str/str.h:83-90 | The text of a number in a base reads back as the number, digit by digit, and has no zero in front |
| `StrMaxChars.BoundIsTight` | components/ccan/str/str.h:90-92 | For one and two bytes some value takes all the room, so no smaller bound will do |
| `StrMaxChars.NineBits` | components/ccan/str/str.h:90-92 | Nine bits need at most three decimal digits and exactly three octal ones |

## Left out

- FreeRTOS semaphores, task creation and timeouts: a mutex-protected function is a step that succeeds.
- Register set-up for GPIO, LEDC, ADC and RMT, WiFi, and the MQTT client and its queues.
- Command texts (DESCRIBE, LIST), logging, `describe` functions, and the `TIMER` and `START` fields.
- The limit of ten external messages a cycle; the model allows any number.
- The coroutine macros: an action is a callback that returns and says what is left to execute.
- Machines in `Scheduler` and `Process` are values in a table rather than heap objects; their queues are sequences.
- The schedule, the LED list and the I/O item list are sequences; the ring operations they use are in `CcanList`.
- Several strands at once: the application initialises the library with one strand at a time.
- A hardware that also stops at an entry with a zero duration but a level bit set, and timings that round to zero.
- `RmtStrand.Strand.UpdatePixels`: only for frames that fit the buffer, which is fewer than 65536 bytes.
- `RtScheduler.RtScheduler.Pass`: collecting what is due is one step, as it runs under the scheduler's mutex; the
  runtime it shares with the other tasks is a value there, whose lists in memory are in `TaskLists`.
- `OutputHandshake.HandshakeIsSafe`: covers one output; a command, a pin write, a pin read and a rule are each atomic.
- Inputs, PWM and the ADC branch of `readIO`.
- `HexCodec.HexDecode`: says nothing about what a failed call has left in the buffer.
- `list_del_from`, `list_del_init`, iteration without deletion, and the offset variants of the list macros.
- `strends` and the character-class wrappers of `str.h`.
- Per-class variable back-ups and lookups, and the generated machine classes.
