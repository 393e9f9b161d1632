/** The session's steps by what a user would look for: when each command runs, what it does,
    what a rebuild carries over, and what polling and the frame leave. */
module SessionClaims {
  import opened Basics
  import opened MachineModel
  import opened MovieLog
  import opened Session
  import Debugger

  // ---------------------------------------------------------------------------
  // Commands
  // ---------------------------------------------------------------------------

  /** Which command runs when, command by command. */
  lemma WhatRunsWhen(ctx: EnableCtx, cmd: Command)
    ensures Enable(ctx, cmd) <==> match cmd
      case ResetSoft => ctx.mode == Live
      case ResetHard => ctx.mode == Live
      case TogglePause => true
      case AdvanceFrame => true
      case StepInstruction => ctx.mode == Live && ctx.debugOpen && ctx.paused
      case StepCycle => ctx.mode == Live && ctx.debugOpen && ctx.paused
      case StepFrame => ctx.paused
      case SaveState => true
      case LoadState => ctx.mode == Live && ctx.saveFileExists
      case CaptureFrame => true
      case SetDisplay => true
      case SetDipOption(bank, option, _) =>
        ctx.mode != Replaying && bank < |ctx.dipOptionCounts| && option < ctx.dipOptionCounts[bank]
      case SetBreakpoint(_, _) => true
      case ClearBreakpoint(_, _) => true
      case SetWatchpoint(_) => true
      case ClearWatchpoint(_) => true
      case SetTraceEnabled(_) => true
      case ClearTrace => true
      case PokeMemory(_, _, _) => ctx.mode == Live && ctx.hasDebugBus
      case DeviceControl(_, _, _) => ctx.mode == Live && ctx.hasDebugBus
      case MovieRecordToggle => ctx.mode != Replaying
  {
  }

  /** What the drain sees of the session when it asks: recording comes before replaying, and
      anything but running is paused. */
  lemma WhatTheDrainSees<S(!new)>(board: Board<S>, replaying: bool, d: Desk<S>)
    ensures var ctx := Ctx(board, replaying, d);
      && (ctx.mode == Live <==> d.reel == None && !replaying) && (ctx.mode == MovieMode.Recording <==> d.reel.Some?)
      && (ctx.paused <==> d.mode != Debugger.Running) && ctx.debugOpen == d.open
      && ctx.hasDebugBus == board.hasDebugBus && (ctx.saveFileExists <==> d.file != None)
      && |ctx.dipOptionCounts| == |board.dipMasks|
      && forall bank :: 0 <= bank < |board.dipMasks| ==> ctx.dipOptionCounts[bank] == |board.dipMasks[bank]|
  {
  }

  // The machine was put back to an earlier state: held inputs and the frame count start over.
  ghost predicate PutBack<S(!new)>(d: Desk<S>, core: S, e: Desk<S>) {
    e == d.(core := core, frames := 0, resync := true)
  }

  ghost predicate Chose<S(!new)>(d: Desk<S>, mode: Debugger.RunMode, e: Desk<S>) {
    e == d.(mode := mode, autoPaused := false)
  }

  /** What each command does to a session that is not recording. */
  lemma CommandsDo<S(!new)>(board: Board<S>, d: Desk<S>, cmd: Command)
    requires d.reel == None
    ensures var e := Accepted(board, d, cmd);
      match cmd
      case ResetSoft => PutBack(d, board.reset(d.core), e)
      case ResetHard => e == d.(rebuild := Some(HardReset))
      case TogglePause => Chose(d, if d.mode.Running? then Debugger.Paused else Debugger.Running, e)
      case AdvanceFrame => Chose(d, Debugger.StepFrame, e)
      case StepInstruction => Chose(d, Debugger.StepInstruction, e)
      case StepCycle => Chose(d, Debugger.StepCycle, e)
      case StepFrame => Chose(d, Debugger.StepFrame, e)
      case SaveState => e == (if board.saveState(d.core) == None then d else d.(file := board.saveState(d.core)))
      case LoadState =>
        if d.file.Some? && board.loadState(d.core, d.file.value).Some?
        then PutBack(d, board.loadState(d.core, d.file.value).value, e) else e == d
      case SetDipOption(bank, option, value) => e == d.(core := WithDipOption(board, d.core, bank, option, value))
      case PokeMemory(cpu, addr, byte) => e == d.(core := board.poke(d.core, cpu, addr, byte))
      case DeviceControl(n, register, content) => e == d.(core := board.device(d.core, n, register, content))
      case MovieRecordToggle => e == d.(rebuild := Some(MovieArm))
      case _ => e == d
  {
    hide WithDipOption;
  }

  lemma SwitchesAreRecorded<S(!new)>(board: Board<S>, d: Desk<S>, cmd: Command)
    requires d.reel.Some? && cmd.SetDipOption?
    ensures var r := d.reel.value;
      var core := WithDipOption(board, d.core, cmd.bank, cmd.option, cmd.value);
      var record := DipRecord(r.log.frame, cmd.bank % 256, board.dipValue(core, cmd.bank));
      Accepted(board, d, cmd)
      == d.(core := core, reel := Some(r.(log := r.log.(records := r.log.records + [record]))))
  {
    hide WithDipOption;
  }

  lemma OthersDoTheSame<S(!new)>(board: Board<S>, d: Desk<S>, cmd: Command)
    requires d.reel.Some? && !cmd.SetDipOption? && !cmd.MovieRecordToggle?
    ensures Accepted(board, d, cmd) == Accepted(board, d.(reel := None), cmd).(reel := d.reel)
  {
    if !cmd.ResetHard? {
      PerformsTheSame(board, d, cmd);
    }
    hide Performed;
  }

  lemma PerformsTheSame<S(!new)>(board: Board<S>, d: Desk<S>, cmd: Command)
    requires d.reel.Some? && !cmd.SetDipOption?
    ensures Performed(board, d, cmd) == Performed(board, d.(reel := None), cmd).(reel := d.reel)
  {
    hide Effect, Rewrites, FileAfter, ModeAfter, ChoosesMode;
    assert Relogged(d.reel, log => NotedCommand(board, cmd, d.core, log)) == d.reel;
    hide Relogged, NotedCommand;
  }

  /** And to one that is: the same commands that run in a take do the same, a switch change is
      recorded in the frame in progress as the byte then read, and the toggle stops the take. */
  lemma CommandsDoInATake<S(!new)>(board: Board<S>, d: Desk<S>, cmd: Command)
    requires d.reel.Some?
    ensures var e := Accepted(board, d, cmd); var r := d.reel.value;
      if cmd.MovieRecordToggle? then e == d.(reel := None, saved := d.saved + [SavedOf(board, r)])
      else if cmd.SetDipOption? then
        var core := WithDipOption(board, d.core, cmd.bank, cmd.option, cmd.value);
        var record := DipRecord(r.log.frame, cmd.bank % 256, board.dipValue(core, cmd.bank));
        e == d.(core := core, reel := Some(r.(log := r.log.(records := r.log.records + [record]))))
      else e == Accepted(board, d.(reel := None), cmd).(reel := d.reel)
  {
    if cmd.SetDipOption? {
      SwitchesAreRecorded(board, d, cmd);
    } else if !cmd.MovieRecordToggle? {
      OthersDoTheSame(board, d, cmd);
    }
    hide Performed, WithDipOption, SavedOf;
  }

  /** A saved state, loaded later in live play, is the machine that was saved. */
  lemma SaveThenLoadRestores<S(!new)>(board: Board<S>, d: Desk<S>, later: S)
    requires d.reel == None && board.saveState(d.core).Some?
    requires board.loadState(later, board.saveState(d.core).value) == Some(d.core)
    ensures var saved := Accepted(board, d, SaveState);
      Accepted(board, saved.(core := later), LoadState).core == d.core
  {
    CommandsDo(board, d, SaveState);
    CommandsDo(board, Accepted(board, d, SaveState).(core := later), LoadState);
    hide Accepted;
  }

  // ---------------------------------------------------------------------------
  // Rebuilding
  // ---------------------------------------------------------------------------

  /** A power cycle and an arming replace the machine by one built from ROM that took over the
      memory and the switches, and start the frame count over. A power cycle asks for the
      held inputs again; an arming starts an empty recording of that machine. */
  lemma RebuildsDo<S(!new)>(board: Board<S>, d: Desk<S>)
    ensures var e := Begun(board, d);
      var core := Adopted(board, board.fromRom, board.nvram(d.core), DipBytes(board, d.core));
      match d.rebuild
      case None => e == d
      case Some(HardReset) => e == d.(core := core, frames := 0, rebuild := None, resync := true)
      case Some(MovieArm) =>
        && e.reel.Some? && e.reel.value.log == Log([], 0, 0) && e.reel.value.history == [core]
        && e.reel.value.dip == DipBytes(board, d.core) && e.reel.value.nvram == board.nvram(d.core)
        && e == d.(core := core, frames := 0, rebuild := None, reel := e.reel)
  {
    hide Adopted, DipBytes;
  }

  /** So on a board that reads back what it is given, the switches and the battery's memory
      outlive a power cycle. */
  lemma PowerCycleKeeps<S(!new)>(board: Board<S>, d: Desk<S>)
    requires BanksReadBack(board) && MemoryReadsBack(board) && d.rebuild == Some(HardReset)
    ensures var core := Begun(board, d).core;
      && DipBytes(board, core) == DipBytes(board, d.core)
      && (board.nvram(d.core).Some? ==> board.nvram(core) == board.nvram(d.core))
  {
    AdoptedReadsBack(board, board.fromRom, board.nvram(d.core), DipBytes(board, d.core));
    hide Adopted, DipBytes, BanksReadBack, MemoryReadsBack;
  }

  // ---------------------------------------------------------------------------
  // Polling and the frame
  // ---------------------------------------------------------------------------

  /** What one polled event does: game input reaches the machine, and the recording if one
      runs, unless a movie plays; the panel toggles where there is a debugger. */
  lemma PolledDo<S(!new)>(board: Board<S>, replaying: bool, d: Desk<S>, p: Polled)
    ensures var e := FedOne(board, replaying, d, p);
      match p
      case InputPolled(event) =>
        if replaying then e == d
        else e == d.(core := board.handle(d.core, event), reel := e.reel)
             && (d.reel == None ==> e.reel == None)
             && (d.reel.Some? ==>
                   e.reel == Some(d.reel.value.(log := Noted(d.reel.value.log, board.controls, event))))
      case ReleasePolled =>
        if replaying then e == d
        else e == d.(core := board.releaseAll(d.core), reel := e.reel)
             && (d.reel == None ==> e.reel == None)
             && (d.reel.Some? ==>
                   var log := d.reel.value.log;
                   e.reel == Some(d.reel.value.(log := log.(records := log.records + [ReleaseAllRecord(log.frame)]))))
      case PanelToggled => e == if board.hasDebugBus then PanelNoted(d, !d.open) else d
  {
    hide Noted;
  }

  /** Opening the panel holds the machine and remembers whether that was its own doing. */
  lemma OpeningHolds<S(!new)>(d: Desk<S>)
    ensures PanelNoted(d, true) == d.(open := true, mode := Debugger.Paused, autoPaused := d.mode.Running?)
  {
  }

  /** Events are fed in the order they were polled. */
  lemma {:induction false} FedInOrder<S(!new)>(board: Board<S>, replaying: bool, d: Desk<S>, first: seq<Polled>,
                                               second: seq<Polled>)
    ensures FedAll(board, replaying, d, first + second)
         == FedAll(board, replaying, FedAll(board, replaying, d, first), second)
    ensures forall p :: FedAll(board, replaying, d, [p]) == FedOne(board, replaying, d, p)
    decreases |second|
  {
    forall p
      ensures FedAll(board, replaying, d, [p]) == FedOne(board, replaying, d, p)
    {
      assert [p][..0] == [];
    }
    hide FedOne;
    if second == [] {
      assert first + second == first;
    } else {
      var n := |second| - 1;
      assert (first + second)[..|first + second| - 1] == first + second[..n];
      FedInOrder(board, replaying, d, first, second[..n]);
    }
  }

  /** The devices' live state is re-asserted exactly when a rebuild, a reset, a load or the
      window asked for it, once, and as input of the game. */
  lemma ResyncedWhenAsked<S(!new)>(board: Board<S>, replaying: bool, d: Desk<S>, t: Turn)
    ensures var e := Resynced(board, replaying, d, t);
      && !e.resync
      && (!d.resync && !t.resync ==> e == d)
      && (d.resync || t.resync ==>
            e == FedAll(board, replaying, d, AsPolled(t.held)).(resync := false))
    ensures |AsPolled(t.held)| == |t.held| && forall i :: 0 <= i < |t.held| ==> AsPolled(t.held)[i] == InputPolled(t.held[i])
  {
    hide FedAll;
  }

  /** Before the frame a turn feeds what was polled, then runs what was queued and what was
      submitted behind it, then re-asserts. */
  lemma GatheredInOrder<S(!new)>(board: Board<S>, replaying: bool, d: Desk<S>, t: Turn)
    ensures var fed := FedAll(board, replaying, d, t.polled);
      var drained := Drained(board, replaying, fed.(queue := fed.queue + t.submitted));
      Gathered(board, replaying, d, t) == Resynced(board, replaying, drained, t)
  {
  }

  /** A whole frame adds itself to the recording and moves it to the next frame; nothing else
      does. */
  lemma CountsWholeFrames<S(!new)>(d: Desk<S>, ran: bool)
    ensures var e := Counted(d, ran);
      if ran && d.reel.Some? then
        var r := d.reel.value;
        && e.reel.Some? && e == d.(reel := e.reel)
        && e.reel.value == r.(history := r.history + [d.core], log := e.reel.value.log)
        && e.reel.value.log == r.log.(frame := r.log.frame + 1)
      else e == d
  {
  }

  /** The movie of a recording: its controls by name, the conditions it started from, its
      records, and a length past every one of them and of the frames it ran. */
  lemma MovieOfIs<S(!new)>(board: Board<S>, r: Reel<S>)
    ensures var s := SavedOf(board, r);
      && s.movie.records == r.log.records && s.history == r.history && s.unmapped == r.log.unmapped
      && s.movie.header.dip == r.dip && s.movie.header.nvram == r.nvram
      && |s.movie.header.controls| == |board.controls|
      && (forall i :: 0 <= i < |board.controls| ==> s.movie.header.controls[i] == board.controls[i].name)
      && s.movie.header.frames >= r.log.frame
      && (forall i :: 0 <= i < |r.log.records| ==> r.log.records[i].frame < s.movie.header.frames)
      && (s.movie.header.frames == r.log.frame
          || exists i :: 0 <= i < |r.log.records| && s.movie.header.frames == r.log.records[i].frame + 1)
  {
    var records := r.log.records;
    if Span(records) > r.log.frame {
      var last :| last in records && Span(records) == last.frame + 1;
      var i :| 0 <= i < |records| && records[i] == last;
    }
  }
}
