# Phosphor frontend and validation cores, modelled in Dafny

Phosphor is an arcade emulator. This project models the parts of it that carry state from
one frame, one thread, one session or one file to another, and proves what the rest of the
program relies on them for:

- **the audio ring** (`RingProtocol`, `SpscRingObject`): two threads over wrapping indices
  and masked slots. The protocol is interleaved one atomic step at a time; an acquire load
  of the other side's index may return any value published since the last one seen, and a
  relaxed slot load may return any store the index loads have not ruled out. The object is
  the same ring as a class with the source's own loops.
- **the clock loop** (`ClockLoop`): the saturated controller that paces frames against the
  sound card, over reals and a quantised fill.
- **recording, replay and the main loop** (`MachineModel`, `MovieLog`, `Movies`, `Session`,
  `SessionClaims`, `Emulator`, `Headless`): the machine is any deterministic board, given as functions of
  its state. A take is a log of (frame, record). `Session` says what a turn of the window's
  loop does to a session as a value, and proves what whole runs of turns keep; `Emulator`
  is the loop over objects, each method proved against those functions. The headless loop
  replays. `Examples` holds the concrete boards on which a replay goes astray.
- **the debugger** (`Debugger`, `DebuggerClaims`): the frame executor over run mode,
  breakpoints, watchpoints and takes, against a relation between snapshots, and what that
  relation means over whole debugging sessions.
- **the calendar and file names** (`CivilCalendar`, `Decimal`, `ScreenshotName`).
- **the m68000 container** (`M68000Bin`, `M68000Reader`, `M68000Container`,
  `M68000Grammar`): the format as functions of bytes and a position, the cursor with its
  loops, a matching encoder, and the layout of an accepted container byte by byte.
- **the 68000 test buses** (`Buses68k`) and **8088 trace extraction** (`I8088Trace`).
- **input** (`InputTokens`, `DefaultInputs`, `InputBindings`, `BindingsEquality`,
  `Dispatch`) and **host hotkeys** (`HostKeys`).
- **the dirty bitset** (`DirtyBitsets`).

Code that changes things in place is a class or a loop proved against a function or a
relation on values; the properties are lemmas about those and invariants of the classes.

## What turned out not to hold everywhere

Each of these is stated as an exact condition, with a concrete failing input beside it.

- The clock loop keeps the ring from emptying and filling for every capacity of three or
  more, and not for two (`ClockLoop.NeverEmptiesOrFills`). A fill that does not saturate the
  controller never comes to exactly when the setpoint is even or at least seven
  (`ClockLoop.StaysUnsaturatedIff`); the ring's own capacities other than two are among
  those.
- Screenshot names sort by time exactly up to year 9999
  (`ScreenshotName.NamesSortUntilYear10000`, `ScreenshotName.OrderBreaks`).
- A mouse button beyond left, right and middle is saved as the left one. A binding set is
  restored exactly when it binds none of those (`InputTokens.RoundTripIff`,
  `InputBindings.RestoredIff`); the rebinding capture can bind them.
- `bindings_eq` compares tuning as floats, so a NaN makes a list differ from itself and a
  zero that changed sign goes unnoticed (`BindingsEquality.NaNAndZeroSignFool`). It can be
  trusted on exactly the tuning values without a NaN and without both signs of zero
  (`BindingsEquality.DecidesOnIff`).
- With recording stopped, the write half of an announced read-modify-write still edits the
  last log entry of the recording bus (`Buses68k.StoppedLogMoves`,
  `Buses68k.StopIsNotAFreeze`).
- A cycle or instruction breakpoint returns before watchpoint hits are drained
  (`DebuggerClaims.HitsLeftBehind`). The hit it leaves queued breaks the next run at its
  first tick (`DebuggerClaims.LeftoverBreaksNextRun`), which the drain's own comment means
  to avoid; `Examples.HitSurfacesLate` is such a session.
- Takes replay exactly on the boards that ignore a zero relative delta, on which setting
  the recorded bank to the byte read back does what the change did, and on which each event
  does what the event its record comes back as does (`MovieLog.MappedTakesReplayIff`); and
  takes with events outside the control table exactly if the board ignores those as well
  (`MovieLog.AllTakesReplayIff`). Unique names, at most 256 banks and banks that read back
  what they are set to are enough (`MovieLog.LawfulIsFaithful`). `Examples` has a board and
  a one-operation take for a zero delta, a switch, the 257th bank, twin names and an
  unmapped event.
- A recording starts from a machine rebuilt from ROM; `--movie`, in the window and headless,
  starts from the machine the program has already powered on with the player's own memory
  file and persisted switches. The replay reproduces every take exactly when taking over a
  session's conditions leaves that machine where it leaves one built from ROM
  (`Headless.ReproducedIff`), as it does whatever the memory file and switches if resets
  latch nothing (`Headless.LatchingNothingReproduces`). `Headless.LatchedSwitchDiverges`
  shows an invented board whose reset latches a switch; no machine in `machines/` declares
  such an option today, though the interface provides for them
  (`DipApplyTiming::OnReset`). The source's comments promise the same starting conditions.

## Model

| member | source | states |
|---|---|---|
| RingProtocol.NewCapacity | frontend/src/audio.rs:57-67 | the ring has a power of two of slots, at least the request and less than twice it |
| MachineWords.AndIsBitwise | frontend/src/audio.rs:41-49 | the mask is taken bit by bit |
| RingProtocol.SlotIsPosition | frontend/src/audio.rs:41-49 | masking the wrapped index gives the true position modulo the capacity after any number of wraps |
| RingProtocol.StepKeeps | frontend/src/audio.rs:104-151 | every atomic step of either thread keeps the protocol invariant, stale index loads and relaxed slot loads included |
| RingProtocol.NothingLostOrReordered | frontend/src/audio.rs:104-151 | in every run the delivered samples are a prefix of the accepted ones, the fill stays in the ring, offered is accepted plus dropped and requested is delivered plus starved |
| RingProtocol.PartialDrainIsInOrder | frontend/src/audio.rs:131-151 | samples copied out before the release already continue the stream in order |
| RingProtocol.LoadReturnsTheSample | frontend/src/audio.rs:131-151 | whatever a relaxed slot load may return is the one sample accepted at that position: nothing torn |
| RingProtocol.StoreHitsNoUnreadSlot | frontend/src/audio.rs:104-129 | the producer never stores to a slot whose sample is unread |
| RingProtocol.ProducerLen | frontend/src/audio.rs:75-79 | the producer's length lies between the fill and the capacity, and is the fill exactly when its load was current |
| RingProtocol.ConsumerLen | frontend/src/audio.rs:75-79 | the consumer's length never exceeds the fill, and is the fill exactly when its load was current |
| RingProtocol.UninterruptedPush | frontend/src/audio.rs:104-129 | a push alone accepts min(offered, free) samples, oldest first, and drops the rest |
| RingProtocol.UninterruptedPop | frontend/src/audio.rs:131-151 | a pop alone delivers min(requested, fill) samples from the front |
| SpscRingObject.SpscRing.constructor | frontend/src/audio.rs:57-67 | a new ring is empty with the rounded capacity |
| SpscRingObject.SpscRing.PushSlice | frontend/src/audio.rs:104-129 | the contents grow by the accepted prefix, the rest is counted as dropped |
| SpscRingObject.SpscRing.PopSlice | frontend/src/audio.rs:131-151 | the front of the contents is moved out, the rest of the buffer is untouched, the shortfall is counted |
| SpscRingObject.StoreAppends | frontend/src/audio.rs:104-129 | storing one past the unread samples appends to them and disturbs none |
| SpscRingObject.AdvanceDrops | frontend/src/audio.rs:131-151 | moving the wrapped read index drops exactly the oldest samples |
| ClockLoop.TrimAuthority | frontend/src/audio.rs:158-198 | the trim stays within half a percent of one for every fill and capacity |
| ClockLoop.NeverEmptiesOrFills | frontend/src/audio.rs:194-198 | on every run from every start inside the ring it never empties or fills, exactly when the capacity is at least three |
| ClockLoop.BandIsInvariant | frontend/src/audio.rs:463-508 | the unsaturated middle band, up to one sample, is never left |
| ClockLoop.StaysUnsaturatedIff | frontend/src/audio.rs:194-198 | a fill that does not saturate the controller never comes to, exactly when the setpoint is even or at least seven |
| ClockLoop.ReachesTheBand | frontend/src/audio.rs:463-508 | from anywhere inside the ring the band is reached once enough samples were produced |
| ClockLoop.StepTowardsEquilibrium | frontend/src/audio.rs:194-198 | while unsaturated, at every capacity, one frame moves the fill by the loop gain times the distance of the quantised fill from the equilibrium |
| ClockLoop.SettlesGeometrically | frontend/src/audio.rs:463-508 | at every capacity that stays unsaturated the distance to the equilibrium shrinks geometrically up to one sample |
| ClockLoop.SettlesFromAnywhere | frontend/src/audio.rs:463-508 | in every ring of four slots or more, from any start inside it, once enough samples were produced the trim stays off its limits and the distance to the equilibrium shrinks geometrically up to one sample |
| ClockLoop.EquilibriumIsClose | frontend/src/audio.rs:158-198 | at 200 ppm of drift the equilibrium is within about one percent of the capacity from the setpoint |
| MachineModel.Machine.AdoptConditions | frontend/src/movie.rs:146-154 | reset, then battery-backed memory, then every bank in order |
| MachineModel.Machine.StartingConditions | frontend/src/movie.rs:131-138 | the live memory image and every bank's live byte are what carries over |
| MachineModel.AdoptedReadsBack | frontend/src/movie.rs:131-154 | on a board that reads back what it is given, a machine that adopted conditions hands on the same conditions, whatever state it was in |
| MachineModel.OptionSetsItsBits | core/src/core/machine.rs:702-713 | an option change sets the bits of its mask to the value's, leaves the other bits and banks as they were, and out of range changes nothing |
| MachineModel.OptionsAreIndependent | core/src/core/machine.rs:702-713 | setting one option leaves another of the same bank as it was |
| MachineModel.QueuedIs | core/src/core/watchpoint.rs:215-235 | hits queue in order, and past 4096 the latest are lost |
| MovieLog.EventsComeBack | harness/src/movie.rs:336-359 | with unique ids and names every table event is replayed exactly, payload bits and all |
| MovieLog.NamesMustBeUnique | harness/src/movie.rs:986-1005 | given unique ids, all table events come back exactly when the names are unique |
| MovieLog.BindsToItsOwnTable | harness/src/movie.rs:986-1005 | a movie always binds to the table it was recorded against |
| MovieLog.IdsFitSixteenBits | harness/src/movie.rs:812-816 | unique ids cannot outnumber the narrowed indices, so narrowing loses nothing |
| MovieLog.Span | harness/src/movie.rs:943-951 | the span is past every record's frame and no larger than needed |
| MovieLog.NotedExactly | harness/src/movie.rs:835-878 | a zero delta leaves no record; any other event of the table, a position of zero included, leaves exactly one, in the frame in progress, with its payload and against a control of its id; anything else is counted |
| MovieLog.ReadableResolves | harness/src/movie.rs:336-359 | in a movie the reader accepts every button, position and motion record stands for an event, inside the span and in frame order |
| MovieLog.EventKeeps | frontend/src/movie.rs:52-55 | an event through the tee keeps the replay promise of the take |
| MovieLog.DipKeeps | frontend/src/session.rs:629-637 | a switch change recorded as the byte read back keeps the replay promise |
| MovieLog.FrameKeeps | frontend/src/movie.rs:184-193 | a whole frame closes the frame in progress and keeps the promise |
| MachineModel.Machine.PowerOn | frontend/src/main.rs:341-441 | memory file, persisted switches, then the reset that latches them |
| MovieLog.TakeKeeps | frontend/src/movie.rs:1-30 | on a faithful board any interleaving of input, releases, switches, pauses and frames replays to the same machine at every frame boundary and in the frame in progress, while nothing went unmapped or the board ignores what did |
| MovieLog.MappedTakesReplayIff | frontend/src/movie.rs:1-30 | every take in which nothing went unmapped replays exactly when the board is faithful: zero deltas idle, switch changes read back, and each event does what the event its record comes back as does |
| MovieLog.AllTakesReplayIff | harness/src/movie.rs:856-859 | every take whatever replays exactly when the board is faithful and ignores events outside its table |
| MovieLog.LawfulIsFaithful | harness/src/movie.rs:812-878 | ids and names once each, at most 256 banks, idle zero deltas and banks that read back what they were set to suffice |
| MovieLog.RunsOnWithoutInput | frontend/src/movie.rs:332-336 | past its last record a replay runs the machine on without input |
| MovieLog.OneEventTake | harness/src/movie.rs:835-878 | the take of one event replays exactly when its record, if any, does in its place what it did |
| MovieLog.OneSwitchTake | frontend/src/session.rs:629-637 | the take of one switch change replays exactly when setting the narrowed bank to the byte read back does what the change did |
| Examples.ZeroDeltaIsMissed | harness/src/movie.rs:836-850 | a board that counts every event: the replay of one zero delta misses it |
| Examples.SwitchIsLost | frontend/src/session.rs:629-637 | a bank that reads back zero: the replay of one change sets zero |
| Examples.LastBankIsMisnumbered | frontend/src/session.rs:629-637 | a change of the 257th bank is recorded, and replayed, as one of the first |
| Examples.TwinIsSwapped | harness/src/movie.rs:986-1005 | two controls of one name: a press of the second is replayed on the first |
| Examples.UnmappedIsMissed | harness/src/movie.rs:856-859 | an event outside the table moves the machine, is counted and is not replayed |
| Movies.MovieRecorder.Finish | harness/src/movie.rs:943-966 | the movie holds every record under a span that covers them, and the reader accepts it |
| Movies.Recording.HandleInput | frontend/src/movie.rs:52-55 | the call reaches the machine and the recorder alike |
| Movies.Recording.ReleaseAllInputs | frontend/src/movie.rs:57-63 | a release of everything is recorded whole and forwarded |
| Movies.MovieCapture.ArmFresh | frontend/src/movie.rs:167-182 | arming adopts the conditions and starts an empty log that remembers them |
| Movies.MovieCapture.ReleaseAllInputs | frontend/src/movie.rs:122-127 | through the tee while recording, straight to the machine otherwise |
| Movies.MovieCapture.Stop | frontend/src/movie.rs:208-216 | stopping yields the readable movie of the take, or nothing when none ran |
| Movies.MoviePlayer.TakeFrame | harness/src/movie.rs:1013-1032 | with the cursor at or before a frame, exactly that frame's records; a second request gives none, and skipped frames are dropped |
| Movies.MoviePlayer.Deliver | harness/src/movie.rs:1071-1094 | the machine becomes what delivering those records in order makes of it |
| Movies.MoviePlayback.Bind | frontend/src/movie.rs:294-312 | the machine is put in the movie's starting conditions and playback is in step, or a name is missing |
| Movies.MoviePlayback.Deliver | frontend/src/movie.rs:315-317 | playback stays in step, and delivering again while paused changes nothing |
| Movies.MoviePlayback.AdvanceFrame | frontend/src/movie.rs:319-324 | after a whole frame playback is in step with the next one |
| Session.AcceptedKeepsTake | frontend/src/session.rs:298-317 | while recording no accepted command moves the machine except a switch change, and the take survives it |
| Session.AcceptedKeepsReplay | frontend/src/session.rs:318-341 | while replaying no accepted command moves the machine or arms a recording |
| Session.TakesRefuseOnlyDisturbances | frontend/src/session.rs:298-393 | a take refuses the disturbing commands and nothing else that live play allows, plus switches and arming while replaying |
| Session.RefusedCommandsCanMove | frontend/src/session.rs:298-317 | each refused command that touches the machine can move some board unrecorded |
| Session.ClosingUndoesOnlyItself | frontend/src/session.rs:429-438 | closing the debugger panel undoes its own automatic pause and leaves a pause or a step the user chose alone |
| Session.BegunKeeps | frontend/src/emulator.rs:570-620 | a hard reset or an arming leaves the session good, the new take at the state its replay starts from |
| Session.FedAllKeeps | frontend/src/emulator.rs:1169-1190 | any polled input, release or panel toggle keeps the take, and moves no replay |
| Session.DrainedKeeps | frontend/src/session.rs:448-697 | any batch of commands keeps the session good; the take in progress goes on or ends with exactly one movie saved, its own; a replay is not moved |
| Session.GatheredKeeps | frontend/src/emulator.rs:668-1287 | so does everything a turn does before its frame |
| Session.CountedKeeps | frontend/src/emulator.rs:1296-1308 | so does the frame, whatever the debugger makes of it, when only whole frames are counted |
| Session.TurnAccounts | frontend/src/emulator.rs:567-1343 | in one turn a take goes on with its conditions, its records extended and the frame that ran appended to its history, or it ends and exactly one movie is appended, of its own records, conditions and history; otherwise the saved list is untouched |
| Session.HistoryIsTheRun | frontend/src/emulator.rs:567-1343 | what a running recording holds is what the session did since it was armed: the rebuilt machine and the machine after every turn that ran a frame |
| Session.StoppedTakeIsTheRun | frontend/src/emulator.rs:567-1343 | the movie of a take armed in one turn and stopped in another holds the conditions and every frame boundary of the turns between, and replays through them from ROM |
| Session.SavedAreTheTakes | frontend/src/emulator.rs:567-1343 | over a whole session the saved movies are exactly those of its takes, in the order they ended, and each replays |
| Session.SavedOnlyGrows | frontend/src/emulator.rs:567-1343 | the saved list of an earlier turn is a prefix of that of a later one |
| Session.QuitTakeIsTheRun | frontend/src/emulator.rs:1754-1762 | a take still recording when the window closes is saved whole, and replays |
| Session.OnlyStepsAsk | frontend/src/debug_ui.rs:646-660 | a run in which no instruction step is submitted asks nothing of the board, and one that has steps asks only that the processors chosen from then on reach a boundary |
| Emulator.Loop.ServiceRebuild | frontend/src/emulator.rs:570-620 | a rebuilt machine with the live memory image and switches, and for an arming an empty recording that remembers them; the requests are gone |
| Emulator.Loop.EnterMode | frontend/src/emulator.rs:622-653 | the mode is derived; entering a take clears watchpoints and queued hits, leaving one marks them for re-applying; the session is untouched |
| Emulator.Loop.Poll | frontend/src/emulator.rs:668-1190 | polled input goes through the tee, and while a movie plays none gets through; the panel toggle still works |
| Session.DrainEnds | frontend/src/session.rs:440-482 | a drain ends with an empty queue or at the command that asked for a rebuild, the rest still queued in order |
| Session.StopUnfreezesTheBatch | frontend/src/session.rs:440-447 | within one batch a reset behind the stop of a recording runs and one ahead of it is refused |
| Session.SwitchCommandSetsItsBits | frontend/src/session.rs:629-637 | a drained switch change shows in the bits of its option and nowhere else |
| SessionClaims.WhatRunsWhen | frontend/src/session.rs:298-393 | which command runs when, command by command |
| SessionClaims.WhatTheDrainSees | frontend/src/session.rs:448-469 | what the check before each command is made against |
| SessionClaims.CommandsDo | frontend/src/session.rs:481-697 | what each command makes of a session that is not recording, the whole of it |
| SessionClaims.CommandsDoInATake | frontend/src/session.rs:481-697 | in a take commands do the same, a switch change is recorded as the byte then read, and the toggle saves the take |
| SessionClaims.SaveThenLoadRestores | frontend/src/session.rs:511-554 | a saved state, loaded later, is the machine that was saved |
| SessionClaims.RebuildsDo | frontend/src/emulator.rs:570-620 | a rebuild replaces the machine by one from ROM that took over memory and switches, and what else starts over |
| SessionClaims.PowerCycleKeeps | frontend/src/emulator.rs:570-599 | switches and battery-backed memory outlive a power cycle |
| SessionClaims.PolledDo | frontend/src/emulator.rs:668-1190 | input reaches the machine, and the recording, unless a movie plays; the panel toggles where there is a debugger |
| SessionClaims.OpeningHolds | frontend/src/session.rs:429-438 | opening the panel holds the machine and remembers whether it ran |
| SessionClaims.GatheredInOrder | frontend/src/emulator.rs:668-1287 | a turn feeds what was polled, then runs the queue with what was submitted behind it, then re-asserts |
| SessionClaims.ResyncedWhenAsked | frontend/src/emulator.rs:1270-1287 | live device state is re-asserted exactly when something asked for it, once |
| SessionClaims.CountsWholeFrames | frontend/src/emulator.rs:1296-1308 | a whole frame adds itself to the recording, and nothing else does |
| SessionClaims.MovieOfIs | harness/src/movie.rs:943-966 | the saved movie holds the controls by name, the conditions, the records and a length past all of them |
| Emulator.Loop.Drain | frontend/src/session.rs:448-697 | machine, recording, saved movies, mode, counters, save file, requests and queue end as running the queue one command at a time leaves them |
| Emulator.Loop.Gather | frontend/src/emulator.rs:668-1287 | before the frame: polled input, then the queue with what was submitted, then the devices' live state if anything asked for it |
| Emulator.Loop.StopTake | frontend/src/session.rs:638-655 | one movie is appended, of the recorder's records, conditions and history, and nothing else changes |
| Emulator.Loop.Execute | frontend/src/emulator.rs:1296-1308 | the frame is the debugger's, and exactly the whole frames advance the take or the replay |
| Emulator.Loop.Unbind | frontend/src/emulator.rs:1330-1342 | only a finished playback is unbound, every input released and a resync asked for |
| Emulator.Loop.TakeTurn | frontend/src/emulator.rs:567-1343 | one turn, whatever reaches it: a turn of the session as a value with its take accounted for, or a bound movie moved on by the frame that ran and at its end unbound where the replay of its span leaves the machine |
| Emulator.Loop.Run | frontend/src/emulator.rs:567-1343 | after any number of turns what happened is a run of the session as a value; the saved movies have only grown, and each replays what it recorded |
| Emulator.Loop.PlayOut | frontend/src/emulator.rs:567-1343 | while a movie plays nothing is recorded or saved, only whole frames move it on, and it ends after exactly as many as it has |
| Emulator.Loop.Quit | frontend/src/emulator.rs:1754-1762 | closing the window lets in what was polled, runs nothing queued, and stops and saves a recording that still runs |
| Emulator.Loop.constructor | frontend/src/emulator.rs:459-565 | a session starts on the powered-on machine, paused with the debugger open when asked to and possible, arming first when asked to record |
| Emulator.Loop.Watch | frontend/src/emulator.rs:518-536 | a watched movie starts in step from its starting conditions adopted on the machine at hand, or names a control it lacks |
| Headless.Replay | frontend/src/headless.rs:85-95 | the machine at every frame boundary is the replay's, from the starting conditions adopted on the machine at hand |
| Headless.ReplayReproduces | frontend/src/headless.rs:85-95 | a saved movie replays through exactly the recorded states when the machine adopts the recording's start |
| Headless.ReproducedIff | frontend/src/main.rs:341-441 | on a faithful board a power-on with this memory file and these switches reproduces every take of every session exactly when taking over a session's conditions leaves it where a machine built from ROM is left |
| Headless.LatchingNothingStartsAlike | frontend/src/movie.rs:131-154 | if resets latch nothing and loads and switches leave no trace of what they replace, the power-on loses itself in the conditions taken over |
| Headless.LatchingNothingReproduces | frontend/src/main.rs:341-441 | so every take of such a board is reproduced, on the recording's own memory file and switches or any others |
| Headless.NothingPersistedReplays | frontend/src/main.rs:341-441 | with no memory file and no persisted switches the powered-on machine gets to the recording's start |
| Headless.LatchedSwitchDiverges | core/src/core/machine.rs:596-608 | on an invented board a switch latched at reset makes the replay start elsewhere |
| Headless.SpanEndsInput | frontend/src/headless.rs:74-80 | past the movie's span the machine runs on with no further input |
| Debugger.DebugState.ExecuteFrame | frontend/src/debug_ui.rs:471-704 | one call does what the mode, the breakpoints and the take allow, stated as a relation of snapshots in closed form |
| Debugger.DebugState.PushWatchpointHit | frontend/src/debug_ui.rs:331-337 | the history is the newest 256 of all hits ever drained, oldest first |
| Debugger.DebugState.DrainWatchpointHits | frontend/src/debug_ui.rs:451-458 | every queued hit moves to the history in order, and the answer says whether there was one |
| Debugger.DebugState.HasAny | frontend/src/debug_ui.rs:345-349 | any cycle, instruction or memory breakpoint is noticed |
| Debugger.DebugState.SyncWatchpoints | frontend/src/debug_ui.rs:504-515 | changed watchpoints replace the machine's unless suspended |
| Debugger.TickedChecked | frontend/src/debug_ui.rs:587-630 | testing the three breaks tick by tick agrees with the closed form of where a run stops and what it leaves |
| DebuggerClaims.FrameAccounting | frontend/src/debug_ui.rs:471-704 | a call reports a frame exactly when the frame counter rose, and then by one |
| DebuggerClaims.CycleAccounting | frontend/src/debug_ui.rs:471-704 | the machine ran one whole frame or exactly the ticks the cycle counter rose by |
| DebuggerClaims.TakesRunWholeFrames | frontend/src/debug_ui.rs:517-584 | a take never ticks, drains nothing, and ends running or paused |
| DebuggerClaims.ModeSettles | frontend/src/debug_ui.rs:471-704 | no call leaves a step armed |
| DebuggerClaims.KeepsSuspension | frontend/src/debug_ui.rs:504-515 | suspended watchpoints stay off the machine |
| DebuggerClaims.RunStopsAtFirst | frontend/src/debug_ui.rs:585-639 | a live run stops at the first tick that meets a condition and runs the whole frame exactly when none does |
| DebuggerClaims.LiveRunIs | frontend/src/debug_ui.rs:585-639 | a live run ends at the first tick at which the cycle target is reached, a processor ends an instruction at one of its breakpoints, or a hit is found, and runs the frame whole when there is none |
| DebuggerClaims.EachBreakStops | frontend/src/debug_ui.rs:585-639 | each of the three stops the run by itself, no later than its tick |
| DebuggerClaims.CycleTargetIsSpent | frontend/src/debug_ui.rs:592-601 | the cycle target is cleared by the break it makes and by nothing else |
| DebuggerClaims.FrameTargetHolds | frontend/src/debug_ui.rs:555-569 | a frame target that is due holds the machine before the frame, in takes too, and is spent |
| DebuggerClaims.ClosedRunsFrames | frontend/src/debug_ui.rs:471-502 | with the debugger closed only running and a frame step run a frame, and only running goes on |
| DebuggerClaims.InstructionStepIs | frontend/src/debug_ui.rs:646-660 | an instruction step ticks to the chosen processor's next boundary and no further |
| DebuggerClaims.WatchpointsArrive | frontend/src/debug_ui.rs:504-515 | changed watchpoints replace the machine's, each once, unless suspended |
| DebuggerClaims.WholeFramesQueueHits | frontend/src/debug_ui.rs:471-584 | a frame run whole queues what the watchpoints saw in it behind what waited |
| DebuggerClaims.EveryProcessorIsReady | frontend/src/debug_ui.rs:405-440 | after any call of the open debugger every processor has a breakpoint set, none was changed, and the step target exists |
| DebuggerClaims.NothingToReady | frontend/src/debug_ui.rs:405-440 | without processors to debug the breakpoint sets and the step target stay as they are |
| DebuggerClaims.HistoryIsTheLatest | frontend/src/debug_ui.rs:331-337 | the panel's list is the latest 256 hits ever drained |
| DebuggerClaims.DebuggingIsTransparent | frontend/src/debug_ui.rs:555-703 | after any calls and edits the core is the tick applied as often as the counter says |
| DebuggerClaims.SameCyclesSameMachine | frontend/src/debug_ui.rs:555-703 | sessions that count the same cycles leave the same machine however they were cut |
| DebuggerClaims.FrameStepIsCycleSteps | frontend/src/debug_ui.rs:661-702 | a frame step equals as many cycle steps in machine, counter, history and queue |
| DebuggerClaims.HitsAreKept | frontend/src/debug_ui.rs:444-458 | every hit queued by a call's ticks is in the history or the queue, once, in order |
| DebuggerClaims.HitsLeftBehind | frontend/src/debug_ui.rs:592-619 | a break leaves hits queued exactly when a cycle or instruction breakpoint stopped the tick that raised them |
| DebuggerClaims.LeftoverBreaksNextRun | frontend/src/debug_ui.rs:621-628 | a hit left behind breaks the next run at its first tick |
| Examples.HitSurfacesLate | frontend/src/debug_ui.rs:592-628 | a cycle breakpoint on the tick of a watched store, and the next run breaking at a tick that touched nothing watched |
| CivilCalendar.IsTheGregorianCalendar | frontend/src/screenshot.rs:52-65 | for every day number the divisions give the date reached by that many calendar successors from 1970-01-01 |
| CivilCalendar.InverseRecovers | frontend/src/screenshot.rs:52-65 | the result is a real date and counting back gives the day number |
| CivilCalendar.RecoversDate | frontend/src/screenshot.rs:52-65 | every date from 1970 on is the result for its own day number |
| CivilCalendar.LaterDaysAreLaterDates | frontend/src/screenshot.rs:52-65 | dates compare as their day numbers |
| ScreenshotName.TimeRecomposes | frontend/src/screenshot.rs:23-33 | hours, minutes and seconds are in range and recompose to the second |
| ScreenshotName.NamesAreDistinct | frontend/src/screenshot.rs:23-33 | one name, one second, for all times |
| ScreenshotName.NamesSortUntilYear10000 | frontend/src/screenshot.rs:23-33 | names sort as times over every span ending in a four-digit year, and over no longer one |
| ScreenshotName.OrderBreaks | frontend/src/screenshot.rs:23-33 | the first second of year 10000 sorts before the last of 9999 |
| M68000Bin.Decoded | cpu-validation/src/m68000_bin.rs:283-311 | acceptance reads the input to its end and fixes its length, rejection points inside it |
| M68000Bin.TestsAt | cpu-validation/src/m68000_bin.rs:295-301 | as many cases as counted, taking exactly their encoded size |
| M68000Reader.Reader.Take | cpu-validation/src/m68000_bin.rs:82-92 | the next bytes and the cursor past them, or an error at the cursor |
| M68000Reader.Reader.ReadSection | cpu-validation/src/m68000_bin.rs:108-120 | a header is accepted by its magic alone, an error names its start |
| M68000Reader.Reader.ReadState | cpu-validation/src/m68000_bin.rs:140-185 | value, error and cursor are the format's |
| M68000Reader.Reader.ReadTransactions | cpu-validation/src/m68000_bin.rs:187-251 | value, error and cursor are the format's |
| M68000Reader.Reader.ReadTest | cpu-validation/src/m68000_bin.rs:253-276 | value, error and cursor are the format's |
| M68000Reader.Decode | cpu-validation/src/m68000_bin.rs:283-311 | for every input the loops give exactly the format's cases or error |
| M68000Container.RoundTrip | cpu-validation/src/m68000_bin.rs:140-311 | decoding an encoded list of well-formed cases gives back exactly the list |
| M68000Container.DecodedOk | cpu-validation/src/m68000_bin.rs:140-276 | an accepted container yields only well-formed cases |
| M68000Container.AcceptedNormalises | cpu-validation/src/m68000_bin.rs:106-311 | any accepted input, however its ignored words were written, re-encodes to the same length and the same cases |
| M68000Container.ExtensionRejected | cpu-validation/src/m68000_bin.rs:303-308 | anything after an accepted container is rejected, at its first extra byte |
| M68000Container.PrefixRejected | cpu-validation/src/m68000_bin.rs:82-92 | every proper prefix of an accepted container is rejected |
| M68000Container.SizeIsAccounted | cpu-validation/src/m68000_bin.rs:187-311 | acceptance forces the length to the byte by names, memory words, idles and transfers; errors lie inside the input |
| M68000Grammar.AcceptedIff | cpu-validation/src/m68000_bin.rs:82-311 | the decoder accepts exactly the inputs laid out as the format says, byte by byte, and gives the cases they hold |
| M68000Grammar.ErrorsAreSo | cpu-validation/src/m68000_bin.rs:82-308 | every rejection is true of the input at the place it names, and of a case the container counts |
| Buses68k.SelectReadsByte | core/src/core/bus.rs:160-166 | reading a word and selecting a byte reads that byte |
| Buses68k.MergeWritesByte | core/src/core/bus.rs:176-190 | reading, splicing and writing back a word changes that byte and no other |
| Buses68k.WordsAreBigEndian | cpu-validation/src/lib.rs:1321-1332 | a word is the bytes at its even and odd address, the even one on top, read and written |
| Buses68k.AddressesWrap | cpu-validation/src/lib.rs:1321-1332 | addresses repeat every sixteen megabytes |
| Buses68k.TracingBus68k.Do | cpu-validation/src/lib.rs:1321-1356 | memory, answer and dirty list of the plain bus |
| Buses68k.RecordingBus68k.Do | cpu-validation/src/lib.rs:1451-1562 | memory, answer, dirty list and log of the recording bus |
| Buses68k.RunBoth | cpu-validation/src/lib.rs:1298-1562 | after any operations the two buses gave equal answers and hold equal memory and dirty lists |
| Buses68k.DirtyIsComplete | cpu-validation/src/lib.rs:1300-1303 | a byte that changed lies in a listed word, whatever ran |
| Buses68k.ZeroingTheListClears | cpu-validation/src/lib.rs:1300-1303 | from zeroed memory every non-zero byte lies in a listed word |
| Buses68k.OneEntryPerCycle | cpu-validation/src/lib.rs:1391-1562 | announced cycles leave one entry each with their own function code; a read-modify-write leaves one, holding the written byte |
| Buses68k.RecordingIsItsCycles | cpu-validation/src/lib.rs:1426-1437 | between a start and a stop the log is exactly the cycles run, whatever was recorded, announced or half done before |
| Buses68k.CodeIsUsedOnce | cpu-validation/src/lib.rs:1439-1442 | a transfer that nobody announced after another is logged without a code |
| Buses68k.PairTakesOneWrite | cpu-validation/src/lib.rs:1535-1548 | a second write to the place of a read-modify-write is a transfer of its own |
| Buses68k.PairEndsAtAnyByteWrite | cpu-validation/src/lib.rs:1535-1548 | a byte written elsewhere ends a read-modify-write that waits for its write |
| Buses68k.ClockStartsAtZero | cpu-validation/src/lib.rs:1426-1433 | a recording counts its clock from zero |
| Buses68k.UnannouncedIsVisible | cpu-validation/src/lib.rs:1378-1384 | function code zero marks exactly the unannounced transfers, and only a write half adds no entry |
| Buses68k.StoppedLogMoves | cpu-validation/src/lib.rs:1542-1548 | short of a new start, a stopped log changes exactly on the write half of an announced pair carrying a new byte |
| Buses68k.StoppedRunKeepsEntries | cpu-validation/src/lib.rs:1435-1548 | over any run after a stop no entry comes, goes or changes but for the data of the last, and not that unless a pair was open or is announced |
| Buses68k.StopIsNotAFreeze | cpu-validation/src/lib.rs:1435-1437 | stopping between the halves of such a pair lets the log change |
| I8088Trace.PortReads | cpu-validation/src/lib.rs:544-557 | the loop gives the fold of the trace |
| I8088Trace.PortWrites | cpu-validation/src/lib.rs:561-575 | the loop gives the fold of the trace |
| I8088Trace.Traffic | cpu-validation/src/lib.rs:544-588 | from a trace of bus operations with arbitrary idle clocks, exactly the port reads and the port writes, in order |
| I8088Trace.ReadsAreReal | cpu-validation/src/lib.rs:544-557 | on any trace, every reported read is the data of a T3 whose last latched address began an I/O read |
| I8088Trace.EachClockExactly | cpu-validation/src/lib.rs:544-575 | on any trace a clock adds a read exactly when it is the first T3 of an I/O read with no address latched since, and a write likewise with its port |
| I8088Trace.AddressIsLatched | cpu-validation/src/lib.rs:579-588 | there is an address exactly when one is latched, and it is the low twenty lines |
| InputTokens.TokenLoadsAs | frontend/src/input.rs:67-162 | a saved token loads as its input, the extra mouse buttons as the left one |
| InputTokens.RoundTripIff | frontend/src/input.rs:67-162 | parse after print is the identity exactly off the extra mouse buttons |
| InputTokens.TokensAreDistinct | frontend/src/input.rs:67-96 | distinct inputs have distinct tokens off the extra mouse buttons |
| InputTokens.LoadedIsStable | frontend/src/input.rs:134-162 | whatever spelling was loaded, also one only the device library knows, saving and loading again changes nothing |
| InputTokens.TokensLookLike | frontend/src/input.rs:63-96 | the text of a token, kind by kind |
| InputTokens.KeyTokens | frontend/src/input.rs:134-139 | key tokens read as the numbers the library has a key for, signed, within 32 bits |
| InputTokens.PadTokens | frontend/src/input.rs:140-150 | pad tokens read as whatever the library has a button or axis for, the direction behind the last colon |
| InputTokens.MouseTokens | frontend/src/input.rs:151-160 | which mouse tokens are read, and as what |
| InputTokens.OtherTokens | frontend/src/input.rs:134-162 | nothing else is read |
| InputBindings.BindingSet.FromControls | frontend/src/input.rs:323-344 | the suggested defaults of every control, translated, in table order |
| DefaultInputs.TranslationIsInjective | frontend/src/input.rs:764-846 | distinct suggestions become distinct physical inputs |
| DefaultInputs.SuggestionsAreKnown | frontend/src/input.rs:764-846 | every suggestion becomes an input that can be saved and loaded again |
| DefaultInputs.PrimariesShareTheKeyboard | core/src/core/machine.rs:264-279 | two players' main actions are on one key exactly when both or neither is player two, so two can share a keyboard |
| DefaultInputs.TheLadder | core/src/core/machine.rs:264-279 | what each rank suggests to each player |
| DefaultInputs.KeysByUsage | frontend/src/input.rs:820-846 | keys carry their numbers on the keyboard page of the USB usage tables |
| DefaultInputs.PadsInOrder | frontend/src/input.rs:788-818 | buttons and axes carry their places in the controller library's lists |
| DefaultInputs.KindsStay | frontend/src/input.rs:764-786 | each kind of suggestion becomes an input of its own kind, number and side |
| InputBindings.DefaultsAre | frontend/src/input.rs:323-344 | the defaults are a fresh binding for every suggestion of every control, and nothing else |
| InputBindings.BindingSet.ApplyOverrides | frontend/src/input.rs:371-397 | controls named by the saved list lose their bindings to the readable saved entries |
| InputBindings.RebindFrame | frontend/src/input.rs:412-424 | bindings of other controls and other categories survive, and of this one only the new stays |
| InputBindings.RebindIs | frontend/src/input.rs:412-424 | a rebind keeps in order exactly the bindings of other controls and categories and puts the new one last, at full scale, past a stick's rest and for the control's player |
| InputBindings.OverlayIs | frontend/src/input.rs:366-397 | controls the saved list does not mention keep their bindings in order; those it mentions have exactly what its readable entries stand for |
| InputBindings.TuningTouchesOnly | frontend/src/input.rs:425-448 | a scale or a deadzone is set on that control alone, the deadzone on its sticks, and nothing else changes |
| InputBindings.SuggestedIs | core/src/core/machine.rs:264-290 | what a control's rank suggests comes before its own suggestions |
| InputBindings.FloatsCompare | frontend/src/input.rs:475-480 | what equality of tuning values is, pattern by pattern |
| InputBindings.SavedOmitsDefaults | frontend/src/input.rs:346-364 | a saved entry leaves out default tuning and says the rest bit for bit |
| InputBindings.SavedLoads | frontend/src/input.rs:349-397 | one saved binding loads with its target, slot, scale and deadzone bit for bit |
| InputBindings.EditKeeps | frontend/src/input.rs:415-448 | every edit keeps slots that follow from the table and leaves no default control bare |
| InputBindings.RestoredIff | frontend/src/input.rs:323-448 | after any session, overlaying the saved form on the defaults restores the identical list exactly when no extra mouse button is bound |
| BindingsEquality.OrderedIsUnique | frontend/src/input.rs:482-493 | the sort key leaves one order, so sorting decides equality up to order |
| BindingsEquality.SameEntriesCompareEqual | frontend/src/input.rs:475-495 | lists of the same entries compare equal exactly when no tuning is a NaN |
| BindingsEquality.DecidesMultisets | frontend/src/input.rs:475-495 | without NaN and negative zero, equal exactly when the multisets are |
| BindingsEquality.EqualExactly | frontend/src/input.rs:475-495 | for any two lists, equal exactly when the first holds no NaN and the sorted lists agree once the sign of zero is dropped |
| BindingsEquality.DecidesOnIff | frontend/src/input.rs:475-495 | over all lists tuned within a set of values it decides equality up to order exactly when the set holds no NaN and not both signs of zero |
| BindingsEquality.NaNAndZeroSignFool | frontend/src/input.rs:475-495 | a NaN list differs from itself, a changed zero sign goes unnoticed |
| Dispatch.LatestGetsThrough | frontend/src/input.rs:521-545 | the last value let through is the latest value |
| Dispatch.DigitalAlternates | frontend/src/input.rs:521-545 | presses and releases let through strictly alternate, a press first |
| Dispatch.LatchKeeps | frontend/src/input.rs:521-545 | per key, what was sent stays the changes of what was seen |
| Dispatch.DispatchState.DigitalChanged | frontend/src/input.rs:523-533 | a change is reported exactly when the latched state, or rest, differs |
| Dispatch.DispatchState.DispatchEvent | frontend/src/input.rs:569-679 | a stick motion sends what the latches let through; other events send all their targets, releases whatever the focus |
| Dispatch.ButtonsReachTheirControls | frontend/src/input.rs:577-612 | a button's event goes to every control its input drives, in order, as a press or a release as it was one; only a press can be kept from the game |
| Dispatch.MotionsReachTheirControls | frontend/src/input.rs:645-660 | a mouse motion goes to the controls of each mouse axis, scaled, and only while the mouse is the game's |
| Dispatch.SamplesAre | frontend/src/input.rs:613-627 | a stick motion shows the latch one state for each direction bound to that axis for that pad, past its own deadzone or not |
| Dispatch.AnalogSamplesAre | frontend/src/input.rs:628-643 | and one value for each control the whole axis drives |
| Dispatch.DispatchState.DispatchAll | frontend/src/input.rs:569-679 | over any run of events what each key saw is its samples of the run in order, what was emitted for stick motions is what was sent, each key's events alternate, and with one binding the last one is the thresholded deflection of the last motion that reached it |
| Dispatch.LastShown | frontend/src/input.rs:616-629 | with one binding the last state a key saw in a run is the threshold of the last motion of its axis from a matching pad, whatever came after |
| Dispatch.AnalogIsALine | frontend/src/input.rs:201-207 | from the deadzone edge to full deflection the value is a straight line from nothing to the scale, constant past it and odd |
| Dispatch.AllTravelIsDead | frontend/src/input.rs:201-207 | a deadzone of all the travel lets nothing short of it through |
| Dispatch.NormalizedIs | frontend/src/input.rs:613-615 | a stick value is its share of 32768 |
| Dispatch.AnalogRamps | frontend/src/input.rs:201-207 | the analog value is zero exactly inside the deadzone, never decreases, reaches the scale at full deflection and carries the sign |
| Dispatch.DeflectionsAre | frontend/src/input.rs:738-750 | resync re-asserts one deflection for each control a whole axis drives, in order |
| Dispatch.HeldIsDown | frontend/src/input.rs:726-737 | which bindings are held, as their own device says |
| Dispatch.Resync | frontend/src/input.rs:711-758 | one button event for each control with a digital binding, pressed exactly when any of its bindings is held, after the analog deflections |
| HostKeys.SessionKeys | frontend/src/host_keys.rs:189-226 | the session keys by their numbers in the USB usage tables |
| HostKeys.PanelKeys | frontend/src/host_keys.rs:189-226 | the panel keys likewise |
| HostKeys.StepKeys | frontend/src/host_keys.rs:182-226 | the step keys likewise, side by side |
| HostKeys.DefaultsAreDistinct | frontend/src/host_keys.rs:189-226 | no two factory chords are the same |
| HostKeys.HostBindings.Rebind | frontend/src/host_keys.rs:397-411 | the displaced action is unbound before the new chord is set |
| HostKeys.TriggersIffBound | frontend/src/host_keys.rs:370-393 | while no chord is shared, a chord triggers an action exactly when the action is bound to it |
| HostKeys.KeyForIs | frontend/src/host_keys.rs:370-393 | an action has no key while unbound, what its override says if that is a key, and its factory chord otherwise |
| HostKeys.RebindFrame | frontend/src/host_keys.rs:397-411 | a rebind changes the named action and the one that held the chord, which is left without any |
| HostKeys.EveryHistoryIsGood | frontend/src/host_keys.rs:370-425 | after any rebinds and resets from the factory table no chord is shared and the two lists are disjoint without repeats |
| HostKeys.DisplacedStaysUnbound | frontend/src/host_keys.rs:397-419 | a displaced action gets no chord back from rebinding others |
| DirtyBitsets.SetBit | core/src/dirty_bitset.rs:26-28 | setting a word's bit sets that bit and no other |
| DirtyBitsets.DirtyBitset.NewAllDirty | core/src/dirty_bitset.rs:17-22 | everything is dirty |
| DirtyBitsets.DirtyBitset.Mark | core/src/dirty_bitset.rs:26-28 | exactly one element is added |
| DirtyBitsets.DirtyBitset.IsDirty | core/src/dirty_bitset.rs:38-40 | membership in the set |
| DirtyBitsets.DirtyBitset.Merge | core/src/dirty_bitset.rs:44-52 | union, whichever side holds the lazy flag |
| DirtyBitsets.DirtyBitset.Clear | core/src/dirty_bitset.rs:56-59 | the set is empty |
| DirtyBitsets.DirtyBitset.Run | core/src/dirty_bitset.rs:15-60 | any run of operations is the same run on a plain set |
| DirtyBitsets.DirtyIffMarked | core/src/dirty_bitset.rs:15-60 | dirty exactly when marked directly, in bulk or by merge since the last clear |

## Left out

- RingProtocol.NewCapacity: requests whose rounding does not fit the machine word are excluded; the source cannot allocate them.
- The ring's length read by a third thread, and the wrap of the 64-bit dropped and starved counters.
- `AudioPlayer::callback`, its fade and its resampling: floating-point sound shaping.
- ClockLoop.SettlesGeometrically: over reals, without the rounding of double precision; capacities whose setpoint is odd and below seven are out because fills there do come to saturate.
- Movies.MovieRecorder.AdvanceFrame: the frame number is unbounded; the source's 32-bit count would overflow after two years of play.
- The movie file's own bytes, its checksum and compression, `load_for_playback`, and the checks of machine name and ROM digest.
- The script console, which reads and changes the machine after the frame; while a take runs its mutating verbs are refused (`frontend/src/emulator.rs:1738-1742`).
- Emulator.Loop.PlayOut: a session that starts by watching a movie is `PlayOut` and then `Run` on the turns left; the two are one loop in the source.
- Emulator.Loop.Quit: a movie that cannot be written to disk is lost in the source; here the list always takes it.
- Emulator.Loop.QuickSave: a save state is kept as its bytes, and failing disk writes are not modelled.
- Emulator.Loop.Manage: display settings, event traces and screenshots change nothing modelled.
- Emulator.Loop.Poll: which device events exist and which hotkeys they hit is `Dispatch` and `HostKeys`; here they are any events, releases and panel toggles, and the commands are any commands. What the panel writes directly is what the frame finds there.
- Debugger.DebugState.ExecuteFrame: an armed instruction step outside a take requires that the chosen processor reaches an instruction boundary from there (`Session.CanStep`, for runs `Session.RunCanStep`); the source loops forever when it does not. Boundary masks beyond 32 processors, event traces and panel snapshots are not modelled, nor is the count of hits a full queue drops.
- A machine's own watchpoint matching: what a tick raises is any function of its state and the watchpoints, and ticking never depends on them.
- The alignment of the frame counter with the machine's frames after a break inside a frame.
- M68000Reader.Decode: the library's UTF-8 check is a parameter, vectors are not preallocated from the counts, and file reading is absent.
- `execution_pc` and the field-by-field use of a case by the validators.
- I8088Trace.Traffic: data is taken on T3, as the source does; a wait state after T3 would carry it on the last Tw.
- InputTokens.RoundTripIff: the device library's button names, axis names and scancode numbers are parameters; its lookups find at least those names, each as itself, and may accept further spellings.
- Dispatch.DispatchState.DispatchEvent: deflections, deadzones and scales are reals; NaN is not modelled, nor a deadzone of exactly one, where the source divides by zero.
- The latch across a release of all inputs, a resync or a hotplug, none of which touch it.
- Host bindings read from an edited or older file, which may already collide; `conflicts`, labels and the text-entry exemption.
- SDL, egui, OpenGL, shaders, panels, window sizing, logging, ROM loading and the processor cores.
