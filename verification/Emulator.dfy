/** The window's main loop, as far as a take depends on it: rebuilds first, then polled
    input, then queued commands, then the reconciled devices, then the replayed input, and
    only then the frame. The methods change the objects; `Now` is what they hold, and the
    functions of Session say what becomes of it. */
module Emulator {
  import opened Basics
  import opened MachineModel
  import opened MovieLog
  import opened Movies
  import opened Session
  import Debugger
  import DebuggerClaims

  class Loop<S(!new)> {
    const board: Board<S>
    const debug: Debugger.DebugState
    const capture: MovieCapture
    var machine: Machine<S>
    var playback: MoviePlayback?
    var commands: seq<Command>
    var autoPaused: bool
    var saveFile: SaveFile
    var armRequested: bool
    var hardResetRequested: bool
    var pendingResync: bool
    ghost var history: seq<S>
    ghost var start: S
    ghost var delivered: bool
    ghost var saved: seq<Saved<S>>

    ghost function Movies(): set<object>
      reads this, capture, playback
    {
      (if capture.recorder != null then {capture.recorder} else {}) + Players()
    }

    ghost function Players(): set<object>
      reads this, playback
    {
      if playback != null then {playback, playback.player} else {}
    }

    ghost function Taped(): Option<Reel<S>>
      reads this`history, capture, capture.recorder
    {
      if capture.recorder == null then None
      else Some(Reel(capture.recorder.State(), capture.recorder.dip, capture.recorder.nvram, history))
    }

    /** The session as a value. */
    ghost function Now(): Desk<S>
      reads this, machine, debug, capture, capture.recorder
    {
      Desk(machine.core, Taped(), saved, debug.mode, debug.frameCount, debug.active, autoPaused, saveFile,
           if armRequested then Some(MovieArm) else if hardResetRequested then Some(Session.HardReset) else None,
           pendingResync, commands)
    }

    // What holds of the objects at every point of a turn.
    ghost predicate Objects()
      reads this, machine, debug, capture, Movies()
    {
      && machine.board == board && debug.Valid()
      && (debug.watchpointsSuspended ==> machine.watches == [])
      && (capture.recorder != null ==> playback == null && capture.recorder.controls == board.controls)
      && (playback != null ==> playback.player.Valid())
      && !(armRequested && hardResetRequested)
      && (armRequested || hardResetRequested ==> capture.recorder == null && playback == null)
    }

    /** Between turns: while recording, the log reproduces the session; while replaying, the
        machine is in step with the movie; what was saved replays. Recording and replaying
        never overlap, and a rebuild is pending only when neither runs. */
    ghost predicate Valid()
      reads this, machine, debug, capture, Movies()
    {
      && Objects() && Faithful(board) && DeskOk(board, Now()) && Settled(Now())
      && (Playing() ==> playback.InStep(board, Now().core, start, delivered))
    }

    // A movie is bound and has frames left.
    predicate Playing()
      reads this, playback
    {
      playback != null && !playback.Finished()
    }

    // A finished playback counts as live.
    predicate Taking()
      reads this, capture, playback
    {
      ModeOf(capture.recorder != null, Playing()) != Live
    }

    /** A session on a machine just built, recording from its first frame and with the
        debugger open if asked to. */
    constructor (board: Board<S>, file: Option<seq<bv8>>, switches: seq<bv8>, state: SaveFile,
                 record: bool, debugOpen: bool)
      requires Faithful(board)
      ensures Valid() && this.board == board && playback == null && capture.recorder == null
      ensures var open := debugOpen && board.hasDebugBus;
        Now() == Desk(PoweredOn(board, file, switches), None, [], if open then Debugger.Paused else Debugger.Running,
                      0, open, false, state, if record then Some(MovieArm) else None, false, [])
      ensures fresh(machine) && fresh(debug) && fresh(capture)
    {
      hide PoweredOn, Faithful, SavedOk, ReelOk, Debugger.DebugState.Valid, MoviePlayer.Valid;
      var m := new Machine(board);
      m.PowerOn(file, switches);
      var d := NewDebugger(m, debugOpen);
      this.board, machine, debug := board, m, d;
      capture := new MovieCapture();
      playback := null;
      commands, autoPaused, saveFile := [], false, state;
      armRequested, hardResetRequested, pendingResync := record, false, false;
      history, start, delivered, saved := [], m.core, false, [];
    }

    // The debugger as a session starts with it: open, and then paused, if asked for.
    static method NewDebugger(m: Machine<S>, open: bool) returns (d: Debugger.DebugState)
      ensures fresh(d) && d.Valid() && d.active == (open && m.board.hasDebugBus)
      ensures d.mode == (if d.active then Debugger.Paused else Debugger.Running)
      ensures d.frameCount == 0 && !d.watchpointsSuspended
    {
      d := new Debugger.DebugState();
      d.Refresh(m);
      if open && m.board.hasDebugBus {
        d.active := true;
        d.mode := Debugger.Paused;
      }
    }

    /** Bind a movie to watch, before the first turn. It starts from the machine at hand. */
    method Watch(movie: Movie) returns (bound: bool)
      requires Valid() && capture.recorder == null && playback == null && !armRequested && !hardResetRequested
      requires Ascending(movie.records)
      modifies this`playback, this`start, this`delivered, machine`core
      ensures Valid() && (bound <==> playback != null)
      ensures bound <==> Bound(movie.header.controls, board.controls).Some?
      ensures Now() == old(Now()).(core := Adopted(board, old(machine.core), movie.header.nvram, movie.header.dip))
      ensures bound ==> playback.frame == 0 && playback.player.movie == movie && start == machine.core && !delivered
    {
      hide Faithful, SavedOk, Adopted, CursorAt, Replayed, Delivered, FrameRecords, Bound;
      var bind := MoviePlayback.Bind(movie, machine);
      bound := bind.Some?;
      if bound {
        playback, start, delivered := bind.value, machine.core, false;
      }
    }

    // -------------------------------------------------------------------------
    // The top of a turn
    // -------------------------------------------------------------------------

    // A machine built from ROM that took over the live memory and switches.
    method Rebuild() returns (rebuilt: Machine<S>)
      requires machine.board == board
      ensures fresh(rebuilt) && rebuilt.board == board && rebuilt.watches == [] && rebuilt.pending == []
      ensures rebuilt.core == Rebuilt(board, machine.core)
    {
      hide Adopted, DipBytes;
      var nvram, dip := machine.StartingConditions();
      rebuilt := new Machine(board);
      rebuilt.AdoptConditions(nvram, dip);
    }

    // The same, with a recording of it started.
    method RebuildRecorded() returns (rebuilt: Machine<S>)
      requires machine.board == board
      modifies capture
      ensures fresh(rebuilt) && rebuilt.board == board && rebuilt.watches == [] && rebuilt.pending == []
      ensures rebuilt.core == Rebuilt(board, machine.core)
      ensures fresh(capture.recorder) && capture.recorder.controls == board.controls
      ensures capture.recorder.State() == Log([], 0, 0)
      ensures capture.recorder.dip == DipBytes(board, machine.core) && capture.recorder.nvram == board.nvram(machine.core)
    {
      hide Adopted, DipBytes;
      var nvram, dip := machine.StartingConditions();
      rebuilt := new Machine(board);
      capture.ArmFresh(rebuilt, nvram, dip);
    }

    // A power cycle: battery-backed memory and switches carry over.
    method PowerCycle()
      requires Objects() && hardResetRequested
      modifies this`hardResetRequested, this`machine, this`pendingResync
      modifies debug`frameCount, debug`watchpointsDirty
      ensures Objects() && fresh(machine) && Now() == Begun(board, old(Now()))
    {
      hide Rebuilt, Debugger.DebugState.Valid, MoviePlayer.Valid;
      hardResetRequested := false;
      machine := Rebuild();
      debug.frameCount := 0;
      debug.watchpointsDirty := true;
      pendingResync := true;
    }

    /** Arming rebuilds from ROM, so the take starts where its replay will. */
    method Arm()
      requires Objects() && armRequested
      modifies this`armRequested, this`machine, this`history, capture
      modifies debug`frameCount, debug`watchpointsDirty
      ensures Objects() && fresh(machine) && fresh(capture.recorder) && Now() == Begun(board, old(Now()))
    {
      hide Rebuilt, DipBytes, Debugger.DebugState.Valid, MoviePlayer.Valid;
      armRequested := false;
      machine := RebuildRecorded();
      history := [machine.core];
      debug.frameCount := 0;
      debug.watchpointsDirty := true;
    }

    // Rebuilds replace the machine wholesale, so they are serviced before it is used.
    method ServiceRebuild()
      requires Objects()
      modifies this`hardResetRequested, this`machine, this`pendingResync, this`armRequested, this`history, capture
      modifies debug`frameCount, debug`watchpointsDirty
      ensures Objects() && Now() == Begun(board, old(Now())) && !armRequested && !hardResetRequested
      ensures machine == old(machine) || fresh(machine)
      ensures capture.recorder == old(capture.recorder) || fresh(capture.recorder)
    {
      hide Rebuilt, DipBytes;
      if hardResetRequested {
        PowerCycle();
      }
      if armRequested {
        Arm();
      }
    }

    /** Entering a take clears the machine's watchpoints and what they had queued; leaving
        one marks the set for re-applying. */
    method EnterMode() returns (take: bool)
      requires Objects()
      modifies debug`watchpointsSuspended, debug`watchpointsDirty, machine`watches, machine`pending
      ensures Objects() && Now() == old(Now()) && take == Taking() && debug.watchpointsSuspended == take
      ensures take && !old(debug.watchpointsSuspended) ==> machine.watches == [] && machine.pending == []
      ensures !take && old(debug.watchpointsSuspended) ==> debug.watchpointsDirty
    {
      take := Taking();
      if take && !debug.watchpointsSuspended {
        machine.ClearAllWatchpoints();
        DiscardHits();
        debug.watchpointsSuspended := true;
      } else if !take && debug.watchpointsSuspended {
        debug.watchpointsSuspended := false;
        debug.watchpointsDirty := true;
      }
    }

    method DiscardHits()
      modifies machine`pending
      ensures machine.pending == []
    {
      var hit := machine.TakeWatchpointHit();
      while hit.Some?
        invariant hit == None ==> machine.pending == []
        decreases |machine.pending| + if hit.Some? then 1 else 0
      {
        hit := machine.TakeWatchpointHit();
      }
    }

    // Rebuilds, then the mode every guard of this turn goes by.
    method Begin() returns (take: bool)
      requires Objects()
      modifies this`hardResetRequested, this`machine, this`pendingResync, this`armRequested, this`history
      modifies capture, debug`frameCount, debug`watchpointsDirty, debug`watchpointsSuspended
      modifies machine`watches, machine`pending
      ensures Objects() && Now() == Begun(board, old(Now())) && !armRequested && !hardResetRequested
      ensures take == Taking() == debug.watchpointsSuspended
      ensures machine == old(machine) || fresh(machine)
      ensures capture.recorder == old(capture.recorder) || fresh(capture.recorder)
    {
      hide Begun;
      ServiceRebuild();
      take := EnterMode();
    }

    // -------------------------------------------------------------------------
    // Input and commands
    // -------------------------------------------------------------------------

    // One polled event. Input goes through the tee while a take runs, and nowhere while a
    // movie plays.
    method Feed(p: Polled)
      requires Objects()
      modifies machine`core, capture.recorder, this`autoPaused
      modifies debug`active, debug`mode, debug`breakpoints, debug`stepCpu
      ensures Objects() && Now() == FedOne(board, playback != null, old(Now()), p)
    {
      hide Noted;
      match p
      case InputPolled(e) =>
        if playback == null {
          capture.HandleInput(machine, e);
        }
      case ReleasePolled =>
        if playback == null {
          capture.ReleaseAllInputs(machine);
        }
      case PanelToggled =>
        if machine.board.hasDebugBus {
          TogglePanel();
        }
    }

    method TogglePanel()
      requires Objects()
      modifies this`autoPaused, debug`active, debug`mode, debug`breakpoints, debug`stepCpu
      ensures Objects() && Now() == PanelNoted(old(Now()), !old(debug.active))
    {
      hide Debugger.DebugState.Valid, MoviePlayer.Valid, Debugger.Refreshed;
      debug.active := !debug.active;
      if debug.active {
        debug.Refresh(machine);
      }
      NotePanel(debug.active);
    }

    method NotePanel(open: bool)
      modifies this`autoPaused, debug`mode
      ensures autoPaused == if open then old(debug.mode) == Debugger.Running else false
      ensures debug.mode == if open then Debugger.Paused else if old(autoPaused) then Debugger.Running else old(debug.mode)
    {
      if open {
        autoPaused := debug.mode == Debugger.Running;
        debug.mode := Debugger.Paused;
      } else if autoPaused {
        autoPaused := false;
        debug.mode := Debugger.Running;
      }
    }

    method Poll(polled: seq<Polled>)
      requires Objects()
      modifies machine`core, capture.recorder, this`autoPaused
      modifies debug`active, debug`mode, debug`breakpoints, debug`stepCpu
      ensures Objects() && Now() == FedAll(board, playback != null, old(Now()), polled)
    {
      hide Objects, Now, FedOne;
      for i := 0 to |polled|
        invariant Objects() && Now() == FedAll(board, playback != null, old(Now()), polled[..i])
      {
        assert polled[..i + 1][..i] == polled[..i];
        Feed(polled[i]);
      }
      assert polled[..|polled|] == polled;
    }

    // What the hotkeys and panels queued, and the fields the panel writes directly.
    method Stage(panel: Panel, submitted: seq<Command>)
      requires Objects()
      modifies this`commands, debug`cycleBreakpoint, debug`frameBreakpoint, debug`stepCpu
      ensures Objects() && Now() == old(Now()).(queue := old(commands) + submitted) && debug.stepCpu == panel.stepCpu
    {
      debug.cycleBreakpoint, debug.frameBreakpoint, debug.stepCpu := panel.cycleBreak, panel.frameBreak, panel.stepCpu;
      commands := commands + submitted;
    }

    function Snapshot(): EnableCtx
      reads this, debug, capture, machine
    {
      EnableCtx(machine.board.hasDebugBus, ModeOf(capture.recorder != null, playback != null),
                saveFile.Some?, OptionCounts(machine.board.dipMasks), debug.mode != Debugger.Running, debug.active)
    }

    // Stopping saves the movie, and with it what the machine did.
    method StopTake()
      requires Objects() && capture.recorder != null
      modifies capture`recorder, this`saved
      ensures Objects() && capture.recorder == null
      ensures Now() == old(Now()).(reel := None, saved := old(saved) + [SavedOf(board, old(Now()).reel.value)])
    {
      hide Readable, InOrder, Addressed, Max, Span, Names, Debugger.DebugState.Valid, MoviePlayer.Valid;
      ghost var tape := Taped().value;
      var movie := capture.Stop();
      saved := saved + [Saved(movie.value, tape.log.unmapped, tape.history)];
    }

    method ChangeDip(cmd: Command)
      requires Objects() && cmd.SetDipOption?
      modifies machine`core, capture.recorder
      ensures Objects() && Now() == Performed(board, old(Now()), cmd)
    {
      hide WithDipOption;
      machine.SetDipOption(cmd.bank, cmd.option, cmd.value);
      capture.PushDip(cmd.bank % 0x100, machine.board.dipValue(machine.core, cmd.bank));
    }

    method SoftReset()
      requires Objects()
      modifies machine`core, debug`frameCount, this`pendingResync
      ensures Objects() && Now() == Performed(board, old(Now()), ResetSoft)
    {
      hide Debugger.DebugState.Valid, MoviePlayer.Valid;
      machine.Reset();
      debug.frameCount := 0;
      pendingResync := true;
    }

    method QuickLoad()
      requires Objects()
      modifies machine`core, debug`frameCount, this`pendingResync
      ensures Objects() && Now() == Performed(board, old(Now()), LoadState)
    {
      hide Debugger.DebugState.Valid, MoviePlayer.Valid;
      if saveFile.Some? {
        match board.loadState(machine.core, saveFile.value)
        case None =>
        case Some(loaded) =>
          machine.core := loaded;
          debug.frameCount := 0;
          pendingResync := true;
      }
    }

    method Reach(cmd: Command)
      requires Objects() && (cmd.PokeMemory? || cmd.DeviceControl?)
      modifies machine`core
      ensures Objects() && Now() == Performed(board, old(Now()), cmd)
    {
      hide Debugger.DebugState.Valid, MoviePlayer.Valid;
      match cmd
      case PokeMemory(cpu, addr, value) => machine.core := board.poke(machine.core, cpu, addr, value);
      case DeviceControl(device, register, value) =>
        machine.core := board.device(machine.core, device, register, value);
    }

    // A pause or a step is the user's own choice.
    method ChooseMode(cmd: Command)
      requires Objects() && ChoosesMode(cmd)
      modifies debug`mode, this`autoPaused
      ensures Objects() && Now() == Performed(board, old(Now()), cmd)
    {
      hide Debugger.DebugState.Valid, MoviePlayer.Valid;
      autoPaused := false;
      match cmd
      case TogglePause =>
        debug.mode := if debug.mode == Debugger.Running then Debugger.Paused else Debugger.Running;
      case AdvanceFrame => debug.mode := Debugger.StepFrame;
      case StepFrame => debug.mode := Debugger.StepFrame;
      case StepInstruction => debug.mode := Debugger.StepInstruction;
      case StepCycle => debug.mode := Debugger.StepCycle;
    }

    method QuickSave()
      requires Objects()
      modifies this`saveFile
      ensures Objects() && Now() == Performed(board, old(Now()), SaveState)
    {
      hide Debugger.DebugState.Valid, MoviePlayer.Valid;
      match board.saveState(machine.core)
      case Some(data) => saveFile := Some(data);
      case None =>
    }

    // The debugger's lists, the display, the trace and the screenshot: nothing a take sees.
    method Manage(cmd: Command)
      requires Objects() && !ChoosesMode(cmd) && !Disturbs(cmd)
      requires !cmd.SetDipOption? && !cmd.MovieRecordToggle? && !cmd.SaveState?
      modifies debug`breakpoints, debug`watchpoints, debug`watchpointsDirty
      ensures Objects() && Now() == Performed(board, old(Now()), cmd)
    {
      hide Debugger.DebugState.Valid, MoviePlayer.Valid;
      match cmd {
        case SetBreakpoint(cpu, addr) => debug.AddBreakpoint(cpu, addr);
        case ClearBreakpoint(cpu, addr) =>
          if cpu < |debug.breakpoints| {
            debug.breakpoints := debug.breakpoints[cpu := debug.breakpoints[cpu] - {addr}];
          }
        case SetWatchpoint(watch) =>
          if watch !in debug.watchpoints {
            debug.watchpoints := debug.watchpoints + [watch];
            debug.watchpointsDirty := true;
          }
        case ClearWatchpoint(watch) =>
          debug.watchpoints := Without(debug.watchpoints, watch);
          debug.watchpointsDirty := true;
        case _ =>
      }
      NothingPerformed(old(Now()), cmd);
    }

    lemma NothingPerformed(d: Desk<S>, cmd: Command)
      requires !ChoosesMode(cmd) && !Disturbs(cmd) && !cmd.SetDipOption? && !cmd.SaveState?
      ensures Performed(board, d, cmd) == d
    {
    }

    method RequestRebuild(cmd: Command)
      requires Objects() && !armRequested && !hardResetRequested && capture.recorder == null && playback == null
      requires cmd.ResetHard? || cmd.MovieRecordToggle?
      modifies this`armRequested, this`hardResetRequested
      ensures Objects() && Now() == old(Now()).(rebuild := Some(if cmd.ResetHard? then Session.HardReset else MovieArm))
    {
      if cmd.ResetHard? {
        hardResetRequested := true;
      } else {
        armRequested := true;
      }
    }

    method Perform(cmd: Command)
      requires Objects() && !cmd.ResetHard? && !cmd.MovieRecordToggle?
      modifies this`saveFile, this`autoPaused, this`pendingResync, machine`core, capture.recorder
      modifies debug`frameCount, debug`mode, debug`breakpoints, debug`watchpoints, debug`watchpointsDirty
      ensures Objects() && Now() == Performed(board, old(Now()), cmd)
    {
      hide Objects, Now, Performed;
      if cmd.ResetSoft? {
        SoftReset();
      } else if cmd.LoadState? {
        QuickLoad();
      } else if cmd.SaveState? {
        QuickSave();
      } else if cmd.PokeMemory? || cmd.DeviceControl? {
        Reach(cmd);
      } else if cmd.SetDipOption? {
        ChangeDip(cmd);
      } else if ChoosesMode(cmd) {
        ChooseMode(cmd);
      } else {
        Manage(cmd);
      }
    }

    // A command that may run.
    method RunAccepted(cmd: Command)
      requires Objects() && !armRequested && !hardResetRequested && Enable(Snapshot(), cmd)
      modifies this`saveFile, this`saved, this`armRequested, this`hardResetRequested, this`autoPaused
      modifies this`pendingResync, capture`recorder, machine`core, capture.recorder
      modifies debug`frameCount, debug`mode, debug`breakpoints, debug`watchpoints, debug`watchpointsDirty
      ensures Objects() && Now() == Accepted(board, old(Now()), cmd)
      ensures capture.recorder == old(capture.recorder) || capture.recorder == null
    {
      hide Objects, Performed, OptionCounts, SavedOf;
      if cmd.ResetHard? || (cmd.MovieRecordToggle? && capture.recorder == null) {
        RequestRebuild(cmd);
      } else if cmd.MovieRecordToggle? {
        StopTake();
      } else {
        Perform(cmd);
      }
    }

    lemma SnapshotIsCtx()
      requires Objects()
      ensures Snapshot() == Ctx(board, playback != null, Now())
    {
      hide OptionCounts;
    }

    method Dequeue()
      requires Objects() && commands != []
      modifies this`commands
      ensures Objects() && Now() == old(Now()).(queue := old(commands)[1..])
    {
      commands := commands[1..];
    }

    // The next command of the batch.
    method RunNext()
      requires Objects() && !armRequested && !hardResetRequested && commands != []
      modifies this`commands, this`saveFile, this`saved, this`armRequested, this`hardResetRequested, this`autoPaused
      modifies this`pendingResync, capture`recorder, machine`core, capture.recorder
      modifies debug`frameCount, debug`mode, debug`breakpoints, debug`watchpoints, debug`watchpointsDirty
      ensures Objects() && Now() == Step(board, playback != null, old(Now()))
      ensures capture.recorder == old(capture.recorder) || capture.recorder == null
    {
      hide Objects, Accepted, Enable, OptionCounts;
      var cmd := commands[0];
      Dequeue();
      SnapshotIsCtx();
      if Enable(Snapshot(), cmd) {
        RunAccepted(cmd);
      }
    }

    /** Run the queued commands in order, each checked against the state the ones before it
        left. A rebuild ends the drain and the rest stays queued. */
    method Drain()
      requires Objects() && !armRequested && !hardResetRequested
      modifies this`commands, this`saveFile, this`saved, this`armRequested, this`hardResetRequested, this`autoPaused
      modifies this`pendingResync, capture`recorder, machine`core, capture.recorder
      modifies debug`frameCount, debug`mode, debug`breakpoints, debug`watchpoints, debug`watchpointsDirty
      ensures Objects() && Now() == Drained(board, playback != null, old(Now()))
      ensures capture.recorder == old(capture.recorder) || capture.recorder == null
    {
      hide Objects, Drained, Step;
      ghost var goal := Drained(board, playback != null, Now());
      while commands != []
        invariant Objects() && !armRequested && !hardResetRequested
        invariant goal == Drained(board, playback != null, Now())
        invariant capture.recorder == old(capture.recorder) || capture.recorder == null
        decreases |commands|
      {
        Unfold(board, playback != null, Now());
        StepPops(board, playback != null, Now());
        RunNext();
        if armRequested || hardResetRequested {
          DrainStops(board, playback != null, Now());
          return;
        }
      }
      DrainStops(board, playback != null, Now());
    }

    // The devices' live state goes in as events, unless a movie plays.
    method Reassert(held: seq<Event>)
      requires Objects()
      modifies machine`core, capture.recorder
      ensures Objects() && Now() == FedAll(board, playback != null, old(Now()), AsPolled(held))
    {
      hide Noted, Debugger.DebugState.Valid, MoviePlayer.Valid;
      ghost var polled := AsPolled(held);
      if playback == null {
        for i := 0 to |held|
          invariant Objects() && Now() == FedAll(board, false, old(Now()), polled[..i])
        {
          assert polled[..i + 1][..i] == polled[..i];
          capture.HandleInput(machine, held[i]);
        }
        assert polled[..|held|] == polled;
      } else {
        NothingFed(board, Now(), polled);
      }
    }

    // Reconcile the machine with what the physical devices hold.
    method Resync(asked: bool, held: seq<Event>)
      requires Objects()
      modifies this`pendingResync, machine`core, capture.recorder
      ensures Objects()
      ensures forall t: Turn :: t.resync == asked && t.held == held ==>
                Now() == Resynced(board, playback != null, old(Now()), t)
    {
      hide FedAll, AsPolled, Debugger.DebugState.Valid, MoviePlayer.Valid;
      if pendingResync || asked {
        Reassert(held);
      }
      pendingResync := false;
    }

    // Everything a turn feeds the machine before the frame, in the loop's order.
    method Gather(t: Turn)
      requires Objects() && !armRequested && !hardResetRequested
      modifies this`commands, this`saveFile, this`saved, this`armRequested, this`hardResetRequested, this`autoPaused
      modifies this`pendingResync, capture`recorder, machine`core, capture.recorder
      modifies debug`active, debug`stepCpu, debug`cycleBreakpoint, debug`frameBreakpoint
      modifies debug`frameCount, debug`mode, debug`breakpoints, debug`watchpoints, debug`watchpointsDirty
      ensures Objects() && Now() == Gathered(board, playback != null, old(Now()), t)
      ensures debug.stepCpu == t.panel.stepCpu
      ensures capture.recorder == old(capture.recorder) || capture.recorder == null
    {
      hide Objects, FedAll, Drained, Resynced;
      Poll(t.polled);
      Stage(t.panel, t.submitted);
      Drain();
      Resync(t.resync, t.held);
    }

    // -------------------------------------------------------------------------
    // The frame
    // -------------------------------------------------------------------------

    // The replayed input, at the point live input is delivered at.
    method Deliver()
      requires Objects()
      modifies this`delivered, machine`core, Players()
      ensures Objects() && Now() == old(Now()).(core := machine.core)
      ensures playback != null ==> delivered && playback.frame == old(playback.frame)
      ensures playback == null ==> machine.core == old(machine.core) && delivered == old(delivered)
      ensures playback != null && old(playback.InStep(board, machine.core, start, delivered)) ==>
                playback.InStep(board, machine.core, start, true) && (old(delivered) ==> machine.core == old(machine.core))
    {
      hide MoviePlayback.InStep, Debugger.DebugState.Valid;
      if playback != null {
        playback.Deliver(machine, start, delivered);
        delivered := true;
      }
    }

    // The frame itself. An instruction step needs a processor that can take it.
    method RunFrame(take: bool) returns (ran: bool)
      requires Objects() && debug.watchpointsSuspended == take
      requires !take ==> StepCanEnd(board, Now(), debug.stepCpu)
      modifies debug, machine`core, machine`watches, machine`pending
      ensures Objects() && debug.watchpointsSuspended == take
      ensures FrameFrom(board, old(Now()), take, Now(), ran) && Settled(Now())
    {
      ghost var bound: nat := 0;
      if debug.active && !take && debug.mode == Debugger.StepInstruction {
        bound :| board.boundary(Debugger.Ticked(board, machine.core, bound), debug.stepCpu);
      }
      ghost var d, before := Now(), debug.Snap(machine);
      hide Debugger.Executed, FrameFrom, Debugger.DebugState.Valid, MoviePlayer.Valid;
      ran := debug.ExecuteFrame(machine, take, bound);
      DebuggerClaims.KeepsSuspension(board, before, take, debug.Snap(machine), ran);
      FrameIs(board, d, before, take, Now(), debug.Snap(machine), ran);
    }

    // Only a whole frame advances the take or the replay.
    method Count(ran: bool)
      requires Objects()
      modifies this`delivered, this`history, capture.recorder, playback
      ensures Objects() && Now() == Counted(old(Now()), ran)
      ensures playback != null ==>
                && playback.frame == old(playback.frame) + (if ran then 1 else 0) && delivered == (old(delivered) && !ran)
                && (ran && old(playback.Advances(board, machine.core, start)) ==>
                      playback.InStep(board, machine.core, start, false))
                && (!ran && old(playback.InStep(board, machine.core, start, delivered)) ==>
                      playback.InStep(board, machine.core, start, delivered))
    {
      hide MoviePlayback.InStep, MoviePlayback.Advances, Debugger.DebugState.Valid;
      if ran {
        capture.AdvanceFrame();
        if capture.recorder != null {
          history := history + [machine.core];
        }
        if playback != null {
          playback.AdvanceFrame(board, machine.core, start);
          delivered := false;
        }
      }
    }

    /** A finished playback hands the machine back: what the movie held is released. */
    method Unbind()
      requires Objects()
      modifies this`playback, this`pendingResync, machine`core
      ensures Objects()
      ensures old(playback) != null && old(playback.Finished()) ==>
                playback == null && Now() == old(Now()).(core := board.releaseAll(old(machine.core)), resync := true)
      ensures !(old(playback) != null && old(playback.Finished())) ==>
                playback == old(playback) && Now() == old(Now())
    {
      hide Debugger.DebugState.Valid, MoviePlayer.Valid;
      if playback != null && playback.Finished() {
        playback := null;
        capture.ReleaseAllInputs(machine);
        pendingResync := true;
      }
    }

    // -------------------------------------------------------------------------
    // Turns
    // -------------------------------------------------------------------------

    // The frame and its count.
    method Execute(take: bool) returns (ran: bool, ghost framed: Desk<S>)
      requires Objects() && debug.watchpointsSuspended == take
      requires !take ==> StepCanEnd(board, Now(), debug.stepCpu)
      modifies this`delivered, this`history, debug, machine`core, machine`watches, machine`pending
      modifies capture.recorder, playback
      ensures Objects() && FrameFrom(board, old(Now()), take, framed, ran) && Now() == Counted(framed, ran)
      ensures Settled(Now())
      ensures playback != null ==>
                playback.frame == old(playback.frame) + (if ran then 1 else 0) && delivered == (old(delivered) && !ran)
      ensures playback != null && take && old(delivered && playback.InStep(board, machine.core, start, true)) ==>
                playback.InStep(board, machine.core, start, !ran)
    {
      hide FrameFrom;
      ghost var d := Now();
      ran := RunFrame(take);
      framed := Now();
      if take {
        FrameOfTake(board, d, framed, ran);
        if playback != null {
          if ran && playback.InStep(board, d.core, start, true) {
            playback.FrameAdvances(board, d.core, start);
          }
        }
      }
      CountedSettles(board, d, take, framed, ran);
      hide Objects, MoviePlayback.InStep, MoviePlayback.Advances;
      Count(ran);
    }

    /** What a turn does to the movie bound at its start: only a whole frame moves it on, and
        after its last one it is unbound, the machine where the replay of its whole span
        leaves it with every input released. */
    twostate predicate Advanced(before: MoviePlayback, ran: bool)
      reads this, machine, debug, capture, capture.recorder, before, before.player
    {
      && Now().reel == None && Now().saved == old(Now()).saved && start == old(start)
      && before.frame == old(before.frame) + (if ran then 1 else 0)
      && (before.Finished() ==> playback == null) && (!before.Finished() ==> playback == before && delivered == !ran)
      && (before.Finished() && !old(before.Finished()) ==>
            Now().core == board.releaseAll(
              Replayed(board, before.player.ids, before.player.movie.records, start, before.total)))
    }

    lemma OneAtATime()
      requires Objects()
      ensures playback == null || (capture.recorder == null && Now().reel == None && Now().rebuild == None)
    {
    }

    // The replayed input, the frame, and the end of a replay.
    method Play(take: bool) returns (ran: bool, ghost framed: Desk<S>)
      requires Objects() && debug.watchpointsSuspended == take && (Playing() ==> take)
      requires !take ==> StepCanEnd(board, Now(), debug.stepCpu)
      requires playback != null ==> Now().mode != Debugger.StepInstruction
      requires Playing() ==> playback.InStep(board, Now().core, start, delivered)
      modifies this`delivered, this`history, this`playback, this`pendingResync
      modifies debug, machine`core, machine`watches, machine`pending, Movies()
      ensures Objects() && Settled(Now()) && capture.recorder == old(capture.recorder)
      ensures old(playback) == null ==>
                && playback == null && FrameFrom(board, old(Now()), take, framed, ran) && Now() == Counted(framed, ran)
      ensures old(playback) != null ==> Advanced(old(playback), ran)
      ensures Playing() ==> playback.InStep(board, Now().core, start, delivered)
    {
      hide Objects, FrameFrom, Counted, MoviePlayback.InStep, Replayed;
      ghost var before := playback;
      OneAtATime();
      Deliver();
      assert StepCanEnd(board, Now(), debug.stepCpu) || take;
      ran, framed := Execute(take);
      if before != null && before.Finished() && old(Playing()) {
        before.AtBoundary(board, machine.core, start);
      }
      Unbind();
    }

    /** One turn of the loop, whatever reaches it. With no movie bound it is a turn of the
        session as a value; a movie bound moves on by the frame that ran, if one did. */
    method TakeTurn(t: Turn) returns (ran: bool)
      requires Valid() && (playback == null ==> CanStep(board, Now(), t))
      modifies this, machine, debug, capture, Movies()
      ensures Valid()
      ensures machine == old(machine) || fresh(machine)
      ensures capture.recorder == null || capture.recorder == old(capture.recorder) || fresh(capture.recorder)
      ensures old(playback) == null ==>
                && playback == null && TurnStep(board, old(Now()), t, Now(), ran)
                && Begun(board, old(Now())).saved == old(Now()).saved
                && Accounted(board, Begun(board, old(Now())), Now(), ran)
      ensures old(playback) != null ==> Advanced(old(playback), ran)
    {
      hide ReadyFor, FrameFrom, Counted, MoviePlayback.InStep, Objects, Now, Faithful, DeskOk, StepCanEnd,
        CanStep, Settled, Begun, Accounted, TurnStep, Replayed;
      ghost var d, movie := Now(), playback;
      OneAtATime();
      ReadyToPlay(board, movie != null, d, t);
      var take := Prepare(t);
      ghost var ready := Now();
      ghost var framed;
      ran, framed := Play(take);
      if movie == null {
        TurnHolds(board, d, t, framed, Now(), ran);
      } else {
        OnlySaved(board, ready, Now());
      }
    }

    // Everything before the frame.
    method Prepare(t: Turn) returns (take: bool)
      requires Objects()
      modifies this`machine, this`history, this`commands, this`saveFile, this`saved, this`autoPaused
      modifies this`armRequested, this`hardResetRequested, this`pendingResync, capture, machine, capture.recorder
      modifies debug
      ensures Objects() && Now() == ReadyFor(board, playback != null, old(Now()), t)
      ensures take == debug.watchpointsSuspended && debug.stepCpu == t.panel.stepCpu
      ensures take == if playback == null then Begun(board, old(Now())).reel.Some? else !playback.Finished()
      ensures machine == old(machine) || fresh(machine)
      ensures capture.recorder == null || capture.recorder == old(capture.recorder) || fresh(capture.recorder)
    {
      hide Objects, Begun, Gathered;
      take := Begin();
      OneAtATime();
      Gather(t);
    }

    /** However long the session runs, what it did is a run of the session as a value. */
    method Run(turns: seq<Turn>) returns (rans: seq<bool>, ghost trace: seq<Desk<S>>)
      requires Valid() && playback == null && RunCanStep(board, Now(), turns)
      modifies this, machine, debug, capture, Movies()
      ensures Valid() && playback == null
      ensures IsRun(board, turns, trace, rans) && trace[0] == old(Now()) && trace[|turns|] == Now()
      ensures old(Now()).saved <= Now().saved && forall s :: s in Now().saved ==> SavedOk(board, s)
    {
      hide Objects, Faithful, Settled, SavedOk, ReelOk, Now, TurnStep, CanStep;
      ghost var d := Now();
      rans, trace := [], [d];
      for i := 0 to |turns|
        invariant Valid() && playback == null
        invariant IsRun(board, turns[..i], trace, rans) && trace[0] == d && trace[i] == Now()
        invariant machine == old(machine) || fresh(machine)
        invariant capture.recorder == null || capture.recorder == old(capture.recorder) || fresh(capture.recorder)
      {
        assert CanStep(board, trace[i], turns[i]);
        var ran := TakeTurn(turns[i]);
        assert turns[..i + 1] == turns[..i] + [turns[i]];
        RunGrows(board, turns[..i], trace, rans, turns[i], Now(), ran);
        rans, trace := rans + [ran], trace + [Now()];
      }
      assert turns[..|turns|] == turns;
      SavedOnlyGrows(board, turns, trace, rans, 0, |turns|);
    }

    /** Turns while the movie bound at the start plays. None of them records or saves, and
        only whole frames move the movie on; after its last one it is unbound, the machine
        where the replay of its whole span leaves it, and the turns left over are live. */
    method PlayOut(turns: seq<Turn>) returns (rans: seq<bool>)
      requires Valid() && Playing()
      modifies this, machine, debug, capture, Movies()
      ensures Valid() && Now().reel == None && Now().saved == old(Now()).saved && |rans| <= |turns|
      ensures old(playback).frame == old(playback.frame) + WholeFrames(rans)
      ensures if old(playback).Finished() then playback == null
              else playback == old(playback) && start == old(start) && |rans| == |turns|
      ensures playback == null ==>
                var movie := old(playback);
                Now().core == board.releaseAll(
                  Replayed(board, movie.player.ids, movie.player.movie.records, old(start), movie.total))
    {
      hide Objects, DeskOk, Faithful, Now, Replayed, MoviePlayback.InStep;
      OneAtATime();
      ghost var movie := playback;
      rans := [];
      while |rans| < |turns| && playback != null
        invariant Valid() && |rans| <= |turns| && movie.frame == old(playback.frame) + WholeFrames(rans)
        invariant Now().reel == None && Now().saved == old(Now()).saved && start == old(start)
        invariant machine == old(machine) || fresh(machine)
        invariant capture.recorder == null || capture.recorder == old(capture.recorder) || fresh(capture.recorder)
        invariant if movie.Finished() then playback == null else playback == movie
        invariant movie.Finished() ==>
                    Now().core == board.releaseAll(
                      Replayed(board, movie.player.ids, movie.player.movie.records, start, movie.total))
        decreases |turns| - |rans|
      {
        var ran := TakeTurn(turns[|rans|]);
        assert (rans + [ran])[..|rans|] == rans;
        rans := rans + [ran];
      }
    }

    /** Closing the window while a turn polls. A recording still running gets its movie. */
    method Quit(polled: seq<Polled>)
      requires Valid()
      modifies this, machine, debug, capture, Movies()
      ensures Now() == Closed(board, old(playback) != null, old(Now()), polled) && DeskOk(board, Now())
    {
      hide Objects, DeskOk, Begun, FedAll, SavedOf;
      ClosedKeeps(board, playback != null, Now(), polled);
      var _ := Begin();
      Poll(polled);
      if capture.recorder != null {
        StopTake();
      }
    }
  }
}
