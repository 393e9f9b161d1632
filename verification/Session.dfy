/** Session commands: which may run when, and what the drain does with them. */
module Session {
  import opened Basics
  import opened MachineModel
  import opened MovieLog
  import Debugger
  import DebuggerClaims

  datatype MovieMode = Live | Recording | Replaying

  function ModeOf(recording: bool, replaying: bool): MovieMode {
    if recording then MovieMode.Recording else if replaying then Replaying else Live
  }

  datatype Command =
    | ResetSoft | ResetHard | TogglePause | AdvanceFrame
    | StepInstruction | StepCycle | StepFrame
    | SaveState | LoadState | CaptureFrame | SetDisplay
    | SetDipOption(bank: nat, option: nat, value: bv8)
    | SetBreakpoint(cpu: nat, addr: u32) | ClearBreakpoint(cpu: nat, addr: u32)
    | SetWatchpoint(watch: Watch) | ClearWatchpoint(watch: Watch)
    | SetTraceEnabled(on: bool) | ClearTrace
    | PokeMemory(cpu: nat, addr: u32, byte: bv8)
    | DeviceControl(device: nat, register: nat, content: bv8)
    | MovieRecordToggle

  datatype EnableCtx = EnableCtx(hasDebugBus: bool, mode: MovieMode, saveFileExists: bool,
                                 dipOptionCounts: seq<nat>, paused: bool, debugOpen: bool)

  // A change of machine state outside the input stream, or a step below a frame.
  predicate Disturbs(cmd: Command) {
    cmd.ResetSoft? || cmd.ResetHard? || cmd.LoadState? || cmd.PokeMemory? || cmd.DeviceControl?
    || cmd.StepInstruction? || cmd.StepCycle?
  }

  function Enable(ctx: EnableCtx, cmd: Command): bool {
    && !(ctx.mode != Live && Disturbs(cmd))
    && !(ctx.mode == Replaying && (cmd.SetDipOption? || cmd.MovieRecordToggle?))
    && match cmd
       case StepInstruction => ctx.debugOpen && ctx.paused
       case StepCycle => ctx.debugOpen && ctx.paused
       case StepFrame => ctx.paused
       case LoadState => ctx.saveFileExists
       case PokeMemory(_, _, _) => ctx.hasDebugBus
       case DeviceControl(_, _, _) => ctx.hasDebugBus
       case SetDipOption(bank, option, _) =>
         bank < |ctx.dipOptionCounts| && option < ctx.dipOptionCounts[bank]
       case _ => true
  }

  // What a command asks of the loop: a machine rebuilt from ROM.
  datatype Rebuild = HardReset | MovieArm

  // The bytes of the save file, if there is one.
  type SaveFile = Option<seq<bv8>>

  /** What an accepted command does to the machine's state. */
  function Effect<S(!new)>(board: Board<S>, cmd: Command, file: SaveFile, s: S): S {
    match cmd
    case ResetSoft => board.reset(s)
    case LoadState =>
      (match file
       case None => s
       case Some(data) => match board.loadState(s, data)
         case None => s
         case Some(loaded) => loaded)
    case PokeMemory(cpu, addr, value) => board.poke(s, cpu, addr, value)
    case DeviceControl(device, register, value) => board.device(s, device, register, value)
    case SetDipOption(bank, option, value) => WithDipOption(board, s, bank, option, value)
    case _ => s
  }

  // The recorder after an accepted command that did not stop it.
  function NotedCommand<S(!new)>(board: Board<S>, cmd: Command, s: S, log: Log): Log {
    if cmd.SetDipOption? then
      DipNoted(log, cmd.bank, board.dipValue(WithDipOption(board, s, cmd.bank, cmd.option, cmd.value), cmd.bank))
    else log
  }

  function OptionCounts(masks: seq<seq<bv8>>): (counts: seq<nat>)
    ensures |counts| == |masks| && forall b :: 0 <= b < |masks| ==> counts[b] == |masks[b]|
  {
    seq(|masks|, b requires 0 <= b < |masks| => |masks[b]|)
  }

  // ---------------------------------------------------------------------------
  // The session between two steps
  // ---------------------------------------------------------------------------

  /** A recording in progress: its log, the conditions it started from, and what the machine
      did, `history[k]` after `k` whole frames. */
  datatype Reel<S(!new)> = Reel(log: Log, dip: seq<bv8>, nvram: Option<seq<bv8>>, history: seq<S>)

  /** A movie the session saved, with what the machine did while it was recorded. */
  datatype Saved<S(!new)> = Saved(movie: Movie, unmapped: nat, history: seq<S>)

  /** What a session carries from step to step beside the breakpoint lists. */
  datatype Desk<!S(!new)> = Desk(core: S, reel: Option<Reel<S>>, saved: seq<Saved<S>>, mode: Debugger.RunMode,
                                 frames: nat, open: bool, autoPaused: bool, file: SaveFile,
                                 rebuild: Option<Rebuild>, resync: bool, queue: seq<Command>)

  function MovieOf<S(!new)>(board: Board<S>, reel: Reel<S>): Movie {
    Movie(Header(Names(board.controls), reel.dip, reel.nvram, Max(Span(reel.log.records), reel.log.frame)),
          reel.log.records)
  }

  function SavedOf<S(!new)>(board: Board<S>, reel: Reel<S>): Saved<S> {
    Saved(MovieOf(board, reel), reel.log.unmapped, reel.history)
  }

  /** Replaying the movie from ROM passes through the same machine states at every frame
      boundary. */
  ghost predicate Replays<S(!new)>(board: Board<S>, movie: Movie, history: seq<S>) {
    && |history| > 0 && Bound(movie.header.controls, board.controls) == Some(Ids(board))
    && history[0] == Adopted(board, board.fromRom, movie.header.nvram, movie.header.dip)
    && forall k :: 0 <= k < |history| ==>
         history[k] == Replayed(board, Ids(board), movie.records, history[0], k)
  }

  ghost predicate SavedOk<S(!new)>(board: Board<S>, s: Saved<S>) {
    && Readable(s.movie) && 0 < |s.history| <= s.movie.header.frames + 1
    && (s.unmapped == 0 ==> Replays(board, s.movie, s.history))
  }

  /** The log of a recording reproduces the session since it was armed. */
  ghost predicate ReelOk<S(!new)>(board: Board<S>, reel: Reel<S>, core: S) {
    && TakeOk(board, reel.log, reel.history, core)
    && reel.history[0] == Adopted(board, board.fromRom, reel.nvram, reel.dip)
  }

  /** While recording the reel is good, what was saved replays, and a rebuild is pending
      only when nothing records. */
  ghost predicate DeskOk<S(!new)>(board: Board<S>, d: Desk<S>) {
    && (d.reel.Some? ==> ReelOk(board, d.reel.value, d.core) && d.rebuild == None)
    && forall s :: s in d.saved ==> SavedOk(board, s)
  }

  /** Stopping a take that held saves a movie that is readable and replays it. */
  lemma StoppedTakeReplays<S(!new)>(board: Board<S>, reel: Reel<S>, core: S)
    requires ReelOk(board, reel, core)
    ensures SavedOk(board, SavedOf(board, reel))
  {
    BindsToItsOwnTable(board.controls);
    hide Replayed, Delivered, FrameRecords, Adopted, Bound;
  }

  // ---------------------------------------------------------------------------
  // Rebuilding
  // ---------------------------------------------------------------------------

  /** Where a rebuilt machine starts: reset, with the live memory image and switches. */
  function Rebuilt<S(!new)>(board: Board<S>, core: S): S {
    Adopted(board, board.fromRom, board.nvram(core), DipBytes(board, core))
  }

  function Begun<S(!new)>(board: Board<S>, d: Desk<S>): Desk<S> {
    match d.rebuild
    case None => d
    case Some(HardReset) => d.(core := Rebuilt(board, d.core), frames := 0, rebuild := None, resync := true)
    case Some(MovieArm) =>
      var core := Rebuilt(board, d.core);
      d.(core := core, frames := 0, rebuild := None,
         reel := Some(Reel(Log([], 0, 0), DipBytes(board, d.core), board.nvram(d.core), [core])))
  }

  lemma BegunKeeps<S(!new)>(board: Board<S>, d: Desk<S>)
    requires DeskOk(board, d)
    ensures DeskOk(board, Begun(board, d)) && Begun(board, d).rebuild == None && Begun(board, d).saved == d.saved
  {
    TakeStarts(board, Rebuilt(board, d.core));
    hide TakeOkIf, SavedOk, Adopted, DipBytes;
  }

  // ---------------------------------------------------------------------------
  // Polling
  // ---------------------------------------------------------------------------

  datatype Polled = InputPolled(event: Event) | ReleasePolled | PanelToggled

  /** Opening the debugger pauses a running machine and remembers having done so; closing
      it resumes only then. */
  function PanelNoted<S(!new)>(d: Desk<S>, open: bool): Desk<S> {
    if open then d.(open := true, autoPaused := d.mode == Debugger.Running, mode := Debugger.Paused)
    else if d.autoPaused then d.(open := false, autoPaused := false, mode := Debugger.Running)
    else d.(open := false)
  }

  // Game input goes through the tee while a take runs, and nowhere while a movie plays.
  function FedOne<S(!new)>(board: Board<S>, replaying: bool, d: Desk<S>, p: Polled): Desk<S> {
    match p
    case InputPolled(e) =>
      if replaying then d
      else d.(core := board.handle(d.core, e),
              reel := Relogged(d.reel, log => Noted(log, board.controls, e)))
    case ReleasePolled =>
      if replaying then d
      else d.(core := board.releaseAll(d.core), reel := Relogged(d.reel, ReleaseNoted))
    case PanelToggled => if board.hasDebugBus then PanelNoted(d, !d.open) else d
  }

  function Relogged<S(!new)>(reel: Option<Reel<S>>, note: Log -> Log): Option<Reel<S>> {
    match reel
    case None => None
    case Some(r) => Some(r.(log := note(r.log)))
  }

  function ReleaseNoted(log: Log): Log {
    log.(records := log.records + [ReleaseAllRecord(log.frame)])
  }

  function FedAll<S(!new)>(board: Board<S>, replaying: bool, d: Desk<S>, polled: seq<Polled>): Desk<S> {
    if polled == [] then d
    else FedOne(board, replaying, FedAll(board, replaying, d, polled[..|polled| - 1]), polled[|polled| - 1])
  }

  // A replay takes no input.
  lemma {:induction false} NothingFed<S(!new)>(board: Board<S>, d: Desk<S>, polled: seq<Polled>)
    requires forall p :: p in polled ==> !p.PanelToggled?
    ensures FedAll(board, true, d, polled) == d
    decreases |polled|
  {
    if polled != [] {
      NothingFed(board, d, polled[..|polled| - 1]);
    }
  }

  // Two steps of one session, with no take begun or ended between them: the recording, if
  // any, has only grown, within the frame in progress.
  ghost predicate SameTake<S(!new)>(d: Desk<S>, e: Desk<S>) {
    && e.saved == d.saved && (e.reel.Some? <==> d.reel.Some?)
    && (d.reel.Some? ==> Grown(d.reel.value, e.reel.value))
  }

  ghost predicate Grown<S(!new)>(r: Reel<S>, q: Reel<S>) {
    && q.history == r.history && q.dip == r.dip && q.nvram == r.nvram && q.log.frame == r.log.frame
    && r.log.records <= q.log.records && r.log.unmapped <= q.log.unmapped
  }

  lemma FedOneKeeps<S(!new)>(board: Board<S>, replaying: bool, d: Desk<S>, p: Polled)
    requires Faithful(board) && DeskOk(board, d)
    ensures var e := FedOne(board, replaying, d, p);
      DeskOk(board, e) && SameTake(d, e) && e.rebuild == d.rebuild && e.queue == d.queue && e.frames == d.frames
      && e.file == d.file && e.resync == d.resync && (replaying ==> e.core == d.core)
  {
    hide Faithful, TakeOkIf, SavedOk, Adopted;
    if d.reel.Some? && !replaying {
      var r := d.reel.value;
      match p
      case InputPolled(e) => EventKeeps(board, r.log, r.history, d.core, e);
      case ReleasePolled => ReleaseKeeps(board, r.log, r.history, d.core, r.log.unmapped == 0);
      case PanelToggled =>
    }
  }

  lemma {:induction false} FedAllKeeps<S(!new)>(board: Board<S>, replaying: bool, d: Desk<S>, polled: seq<Polled>)
    requires Faithful(board) && DeskOk(board, d)
    ensures var e := FedAll(board, replaying, d, polled);
      DeskOk(board, e) && SameTake(d, e) && e.rebuild == d.rebuild && e.queue == d.queue && e.frames == d.frames
      && e.file == d.file && e.resync == d.resync && (replaying ==> e.core == d.core)
    decreases |polled|
  {
    hide Faithful, DeskOk, FedOne;
    if polled != [] {
      var before := polled[..|polled| - 1];
      FedAllKeeps(board, replaying, d, before);
      FedOneKeeps(board, replaying, FedAll(board, replaying, d, before), polled[|polled| - 1]);
    }
  }

  // ---------------------------------------------------------------------------
  // Draining a batch
  // ---------------------------------------------------------------------------

  function ModeAfter(cmd: Command, mode: Debugger.RunMode): Debugger.RunMode {
    match cmd
    case TogglePause => if mode == Debugger.Running then Debugger.Paused else Debugger.Running
    case AdvanceFrame => Debugger.StepFrame
    case StepFrame => Debugger.StepFrame
    case StepInstruction => Debugger.StepInstruction
    case StepCycle => Debugger.StepCycle
    case _ => mode
  }

  // A pause or a step the user chose ends the panel's automatic one.
  predicate ChoosesMode(cmd: Command) {
    cmd.TogglePause? || cmd.AdvanceFrame? || cmd.StepFrame? || cmd.StepInstruction? || cmd.StepCycle?
  }

  function FileAfter<S(!new)>(board: Board<S>, cmd: Command, s: S, file: SaveFile): SaveFile {
    if cmd.SaveState? && board.saveState(s).Some? then board.saveState(s) else file
  }

  // The port bits were rewritten: held inputs must be re-asserted, frames count afresh.
  predicate Rewrites<S(!new)>(board: Board<S>, cmd: Command, file: SaveFile, s: S) {
    cmd.ResetSoft? || (cmd.LoadState? && file.Some? && board.loadState(s, file.value).Some?)
  }

  function Ctx<S(!new)>(board: Board<S>, replaying: bool, d: Desk<S>): EnableCtx {
    EnableCtx(board.hasDebugBus, ModeOf(d.reel.Some?, replaying), d.file.Some?, OptionCounts(board.dipMasks),
              d.mode != Debugger.Running, d.open)
  }

  // A command that neither rebuilds nor starts or stops a recording.
  function Performed<S(!new)>(board: Board<S>, d: Desk<S>, cmd: Command): Desk<S> {
    var rewrites := Rewrites(board, cmd, d.file, d.core);
    d.(core := Effect(board, cmd, d.file, d.core),
       reel := Relogged(d.reel, log => NotedCommand(board, cmd, d.core, log)),
       mode := ModeAfter(cmd, d.mode), autoPaused := d.autoPaused && !ChoosesMode(cmd),
       frames := if rewrites then 0 else d.frames, file := FileAfter(board, cmd, d.core, d.file),
       resync := d.resync || rewrites)
  }

  /** Closing the panel undoes only its own pause: between the steps of a machine it gives
      back the mode the panel found, unless a pause or a step was chosen in between, and
      then it leaves that choice alone. */
  lemma ClosingUndoesOnlyItself<S(!new)>(board: Board<S>, d: Desk<S>, cmd: Command)
    requires Settled(d) && !d.open && !d.autoPaused
    ensures var shown := PanelNoted(d, true);
      && shown.mode == Debugger.Paused && PanelNoted(shown, false) == d
      && PanelNoted(Performed(board, shown, cmd), false).mode
         == if ChoosesMode(cmd) then ModeAfter(cmd, Debugger.Paused) else d.mode
  {
    hide Effect, Rewrites, FileAfter;
  }

  // What an accepted command leaves.
  function Accepted<S(!new)>(board: Board<S>, d: Desk<S>, cmd: Command): Desk<S> {
    if cmd.ResetHard? then d.(rebuild := Some(HardReset))
    else if cmd.MovieRecordToggle? then
      match d.reel
      case Some(reel) => d.(reel := None, saved := d.saved + [SavedOf(board, reel)])
      case None => d.(rebuild := Some(MovieArm))
    else Performed(board, d, cmd)
  }

  // One command off the queue, checked against what the ones before it left.
  function Step<S(!new)>(board: Board<S>, replaying: bool, d: Desk<S>): Desk<S>
    requires d.queue != []
  {
    var cmd, rest := d.queue[0], d.(queue := d.queue[1..]);
    if Enable(Ctx(board, replaying, rest), cmd) then Accepted(board, rest, cmd) else rest
  }

  function Drained<S(!new)>(board: Board<S>, replaying: bool, d: Desk<S>): Desk<S>
    decreases |d.queue|
  {
    if d.queue == [] || d.rebuild.Some? then d else Drained(board, replaying, Step(board, replaying, d))
  }

  lemma StepPops<S(!new)>(board: Board<S>, replaying: bool, d: Desk<S>)
    requires d.queue != []
    ensures Step(board, replaying, d).queue == d.queue[1..]
  {
    hide Enable, Effect, Rewrites, ModeAfter, FileAfter;
  }

  /** A drain ends with an empty queue or at the command that asked for a rebuild, whose
      successors wait for the new machine. */
  lemma {:induction false} DrainEnds<S(!new)>(board: Board<S>, replaying: bool, d: Desk<S>)
    ensures var e := Drained(board, replaying, d);
      && (e.queue == [] || e.rebuild.Some?)
      && |e.queue| <= |d.queue| && e.queue == d.queue[|d.queue| - |e.queue|..]
    decreases |d.queue|
  {
    hide Step;
    if d.queue != [] && !d.rebuild.Some? {
      StepPops(board, replaying, d);
      DrainEnds(board, replaying, Step(board, replaying, d));
    }
  }

  lemma Unfold<S(!new)>(board: Board<S>, replaying: bool, d: Desk<S>)
    requires d.queue != [] && d.rebuild == None
    ensures Drained(board, replaying, d) == Drained(board, replaying, Step(board, replaying, d))
  {
  }

  lemma DrainStops<S(!new)>(board: Board<S>, replaying: bool, d: Desk<S>)
    requires d.queue == [] || d.rebuild.Some?
    ensures Drained(board, replaying, d) == d
  {
  }

  /** Order matters within a batch: a reset behind the stop of a recording runs, one ahead
      of it is refused. */
  lemma StopUnfreezesTheBatch<S(!new)>(board: Board<S>, d: Desk<S>)
    requires d.reel.Some? && d.rebuild == None
    ensures Drained(board, false, d.(queue := [MovieRecordToggle, ResetSoft])).core == board.reset(d.core)
    ensures Drained(board, false, d.(queue := [ResetSoft, MovieRecordToggle])).core == d.core
  {
    hide OptionCounts, SavedOf;
    var first := d.(queue := [MovieRecordToggle, ResetSoft]);
    Unfold(board, false, first);
    Unfold(board, false, Step(board, false, first));
    var second := d.(queue := [ResetSoft, MovieRecordToggle]);
    Unfold(board, false, second);
    Unfold(board, false, Step(board, false, second));
  }

  /** A switch change drained, recording or not, shows in its own bits and nowhere else. */
  lemma SwitchCommandSetsItsBits<S(!new)>(board: Board<S>, d: Desk<S>, bank: nat, option: nat, value: bv8)
    requires BanksReadBack(board) && d.rebuild == None
    requires bank < |board.dipMasks| && option < |board.dipMasks[bank]|
    ensures var after := Drained(board, false, d.(queue := [SetDipOption(bank, option, value)])).core;
      && Merges(board.dipValue(d.core, bank), board.dipValue(after, bank), board.dipMasks[bank][option], value)
      && forall other: nat :: other != bank ==> board.dipValue(after, other) == board.dipValue(d.core, other)
  {
    hide WithDipOption, Merges, BanksReadBack, SavedOf, FileAfter;
    var queued := d.(queue := [SetDipOption(bank, option, value)]);
    Unfold(board, false, queued);
    OptionSetsItsBits(board, d.core, bank, option, value);
  }

  /** The take that ran at `d` is over at `e`: exactly one movie was saved, that of the
      recording as it had grown within the frame in progress. */
  ghost predicate Ended<S(!new)>(board: Board<S>, d: Desk<S>, e: Desk<S>) {
    && d.reel.Some? && e.reel == None
    && exists reel :: Grown(d.reel.value, reel) && e.saved == d.saved + [SavedOf(board, reel)]
  }

  /** While a take records, no accepted command moves the machine except a switch change,
      and that one is recorded: the take survives every command that may run. */
  lemma AcceptedKeepsTake<S(!new)>(board: Board<S>, ctx: EnableCtx, cmd: Command, file: SaveFile,
                                   log: Log, history: seq<S>, s: S)
    requires Faithful(board) && TakeOk(board, log, history, s)
    requires ctx.mode == MovieMode.Recording && ctx.dipOptionCounts == OptionCounts(board.dipMasks)
    requires Enable(ctx, cmd)
    ensures TakeOk(board, NotedCommand(board, cmd, s, log), history, Effect(board, cmd, file, s))
    ensures !cmd.SetDipOption? ==> Effect(board, cmd, file, s) == s
  {
    hide TakeOkIf, Faithful;
    if cmd.SetDipOption? {
      DipKeeps(board, log, history, s, cmd.bank, cmd.option, cmd.value, log.unmapped == 0);
    }
  }

  lemma AcceptedKeeps<S(!new)>(board: Board<S>, replaying: bool, d: Desk<S>, cmd: Command)
    requires Faithful(board) && DeskOk(board, d) && Enable(Ctx(board, replaying, d), cmd) && d.rebuild == None
    requires replaying ==> d.reel == None
    ensures DeskOk(board, Accepted(board, d, cmd))
    ensures SameTake(d, Accepted(board, d, cmd)) || Ended(board, d, Accepted(board, d, cmd))
    ensures replaying ==> Accepted(board, d, cmd).core == d.core && Accepted(board, d, cmd).rebuild == None
  {
    hide Faithful, TakeOkIf, SavedOk, Adopted, OptionCounts, MovieOf, Rewrites, FileAfter, ModeAfter;
    if replaying {
      AcceptedKeepsReplay(board, Ctx(board, replaying, d), cmd, d.file, d.core);
    }
    if d.reel.Some? {
      var r := d.reel.value;
      if cmd.MovieRecordToggle? {
        StoppedTakeReplays(board, r, d.core);
        assert Grown(r, r);
      } else {
        AcceptedKeepsTake(board, Ctx(board, replaying, d), cmd, d.file, r.log, r.history, d.core);
      }
    }
  }

  lemma StepKeeps<S(!new)>(board: Board<S>, replaying: bool, d: Desk<S>)
    requires Faithful(board) && DeskOk(board, d) && d.queue != [] && d.rebuild == None
    requires replaying ==> d.reel == None
    ensures var e := Step(board, replaying, d);
      && DeskOk(board, e) && (SameTake(d, e) || Ended(board, d, e))
      && (replaying ==> e.core == d.core && e.rebuild == None)
  {
    hide Faithful, Enable, Accepted, SavedOk, ReelOk, SavedOf;
    var rest := d.(queue := d.queue[1..]);
    if Enable(Ctx(board, replaying, rest), d.queue[0]) {
      AcceptedKeeps(board, replaying, rest, d.queue[0]);
    }
  }

  // A take may go on, or end once; none begins.
  lemma GoesOn<S(!new)>(board: Board<S>, d: Desk<S>, e: Desk<S>, f: Desk<S>)
    requires SameTake(d, e) || Ended(board, d, e)
    requires SameTake(e, f) || Ended(board, e, f)
    ensures SameTake(d, f) || Ended(board, d, f)
  {
    hide SavedOf;
    if SameTake(d, e) && Ended(board, e, f) {
      var reel :| Grown(e.reel.value, reel) && f.saved == e.saved + [SavedOf(board, reel)];
      assert Grown(d.reel.value, reel);
    }
  }

  /** A drain keeps the session good; the take goes on or ends with exactly one movie; and a
      replay is not moved. */
  lemma {:induction false} DrainedKeeps<S(!new)>(board: Board<S>, replaying: bool, d: Desk<S>)
    requires Faithful(board) && DeskOk(board, d) && d.rebuild == None && (replaying ==> d.reel == None)
    ensures var e := Drained(board, replaying, d);
      && DeskOk(board, e) && (SameTake(d, e) || Ended(board, d, e))
      && (replaying ==> e.core == d.core && e.rebuild == None)
    decreases |d.queue|
  {
    hide Faithful, Step, DeskOk, SameTake, Ended;
    if d.queue == [] {
      GoesOnAlone(d);
    } else {
      var e := Step(board, replaying, d);
      StepKeeps(board, replaying, d);
      StepPops(board, replaying, d);
      Stays(board, d, e);
      if e.rebuild == None {
        DrainedKeeps(board, replaying, e);
        GoesOn(board, d, e, Drained(board, replaying, e));
      }
    }
  }

  lemma GoesOnAlone<S(!new)>(d: Desk<S>)
    ensures SameTake(d, d)
  {
  }

  lemma Stays<S(!new)>(board: Board<S>, d: Desk<S>, e: Desk<S>)
    requires SameTake(d, e) || Ended(board, d, e)
    ensures d.reel == None ==> e.reel == None && e.saved == d.saved
  {
  }

  // ---------------------------------------------------------------------------
  // One turn, up to the frame
  // ---------------------------------------------------------------------------

  // Debugger fields the panel writes directly.
  datatype Panel = Panel(cycleBreak: Option<nat>, frameBreak: Option<nat>, stepCpu: nat)

  /** What happens to reach one turn of the loop. */
  datatype Turn = Turn(panel: Panel, polled: seq<Polled>, submitted: seq<Command>, resync: bool, held: seq<Event>)

  function AsPolled(held: seq<Event>): seq<Polled> {
    seq(|held|, i requires 0 <= i < |held| => InputPolled(held[i]))
  }

  // The devices' live state, if anything asked for it.
  function Resynced<S(!new)>(board: Board<S>, replaying: bool, d: Desk<S>, t: Turn): Desk<S> {
    (if d.resync || t.resync then FedAll(board, replaying, d, AsPolled(t.held)) else d).(resync := false)
  }

  /** The order of work before the frame: polled input, then the queue with what was just
      submitted, then the devices' live state. */
  function Gathered<S(!new)>(board: Board<S>, replaying: bool, d: Desk<S>, t: Turn): Desk<S> {
    var fed := FedAll(board, replaying, d, t.polled);
    Resynced(board, replaying, Drained(board, replaying, fed.(queue := fed.queue + t.submitted)), t)
  }

  lemma ResyncedKeeps<S(!new)>(board: Board<S>, replaying: bool, d: Desk<S>, t: Turn)
    requires Faithful(board) && DeskOk(board, d)
    ensures var e := Resynced(board, replaying, d, t);
      DeskOk(board, e) && SameTake(d, e) && e.rebuild == d.rebuild && (replaying ==> e.core == d.core)
  {
    FedAllKeeps(board, replaying, d, AsPolled(t.held));
    hide Faithful, FedAll, AsPolled, SavedOk, ReelOk;
  }

  /** Whatever a turn gathers keeps the session good; the take goes on or ends with exactly
      one movie; and a replay is not moved. */
  lemma GatheredKeeps<S(!new)>(board: Board<S>, replaying: bool, d: Desk<S>, t: Turn)
    requires Faithful(board) && DeskOk(board, d) && d.rebuild == None && (replaying ==> d.reel == None)
    ensures var e := Gathered(board, replaying, d, t);
      && DeskOk(board, e) && (SameTake(d, e) || Ended(board, d, e))
      && (replaying ==> e.core == d.core && e.rebuild == None)
  {
    hide Faithful, FedAll, Drained, Resynced, ReelOk, SavedOk, Ended;
    var fed := FedAll(board, replaying, d, t.polled);
    var queued := fed.(queue := fed.queue + t.submitted);
    FedAllKeeps(board, replaying, d, t.polled);
    DrainedKeeps(board, replaying, queued);
    var drained := Drained(board, replaying, queued);
    ResyncedKeeps(board, replaying, drained, t);
    GoesOn(board, d, queued, drained);
    GoesOn(board, d, drained, Resynced(board, replaying, drained, t));
  }

  // ---------------------------------------------------------------------------
  // The frame
  // ---------------------------------------------------------------------------

  /** The frame executor took the machine, the run mode and the frame counter from `d` to
      `e`, and touched nothing else of the session. */
  ghost predicate FrameFrom<S(!new)>(board: Board<S>, d: Desk<S>, take: bool, e: Desk<S>, ran: bool) {
    && e == d.(core := e.core, mode := e.mode, frames := e.frames)
    && exists s, u :: Shows(d, s) && Shows(e, u) && Debugger.Executed(board, s, take, u, ran)
  }

  ghost predicate Shows<S(!new)>(d: Desk<S>, s: Debugger.Snapshot<S>) {
    s.core == d.core && s.mode == d.mode && s.frames == d.frames && s.active == d.open
  }

  lemma FrameIs<S(!new)>(board: Board<S>, d: Desk<S>, s: Debugger.Snapshot<S>, take: bool,
                         e: Desk<S>, u: Debugger.Snapshot<S>, ran: bool)
    requires Shows(d, s) && Shows(e, u) && Debugger.Executed(board, s, take, u, ran)
    requires e == d.(core := e.core, mode := e.mode, frames := e.frames)
    ensures FrameFrom(board, d, take, e, ran) && Settled(e)
  {
    DebuggerClaims.ModeSettles(board, s, take, u, ran);
    hide Debugger.Executed;
  }

  // Only whole frames advance a recording.
  function Counted<S(!new)>(d: Desk<S>, ran: bool): Desk<S> {
    if ran && d.reel.Some? then
      var r := d.reel.value;
      d.(reel := Some(r.(log := r.log.(frame := r.log.frame + 1), history := r.history + [d.core])))
    else d
  }

  /** A take advances by whole frames only: none, or the board's own. */
  lemma FrameOfTake<S(!new)>(board: Board<S>, d: Desk<S>, e: Desk<S>, ran: bool)
    requires FrameFrom(board, d, true, e, ran)
    ensures e.core == (if ran then board.runFrame(d.core) else d.core)
    ensures e.mode == Debugger.Running || e.mode == Debugger.Paused
  {
    var s, u :| Shows(d, s) && Shows(e, u) && Debugger.Executed(board, s, true, u, ran);
    DebuggerClaims.TakesRunWholeFrames(board, s, u, ran);
    hide Debugger.Executed;
  }

  lemma CountedKeeps<S(!new)>(board: Board<S>, d: Desk<S>, take: bool, e: Desk<S>, ran: bool)
    requires DeskOk(board, d) && FrameFrom(board, d, take, e, ran) && (d.reel.Some? ==> take)
    ensures DeskOk(board, Counted(e, ran))
  {
    hide FrameFrom, TakeOkIf, SavedOk, Adopted;
    FrameTouches(board, d, take, e, ran);
    if d.reel.Some? {
      var r := d.reel.value;
      FrameOfTake(board, d, e, ran);
      HasStart(board, r, d.core);
      if ran {
        FrameKeeps(board, r.log, r.history, d.core, r.log.unmapped == 0);
        assert (r.history + [e.core])[0] == r.history[0];
      }
    }
  }

  lemma FrameTouches<S(!new)>(board: Board<S>, d: Desk<S>, take: bool, e: Desk<S>, ran: bool)
    requires FrameFrom(board, d, take, e, ran)
    ensures e == d.(core := e.core, mode := e.mode, frames := e.frames)
  {
  }

  lemma CountedSettles<S(!new)>(board: Board<S>, d: Desk<S>, take: bool, e: Desk<S>, ran: bool)
    requires FrameFrom(board, d, take, e, ran)
    ensures Settled(Counted(e, ran)) && Counted(e, ran).queue == d.queue
  {
    var s, u :| Shows(d, s) && Shows(e, u) && Debugger.Executed(board, s, take, u, ran);
    FrameIs(board, d, s, take, e, u, ran);
    hide Debugger.Executed;
  }

  // With nothing recording it is the saved movies alone that have to be good.
  lemma OnlySaved<S(!new)>(board: Board<S>, d: Desk<S>, e: Desk<S>)
    requires DeskOk(board, d) && e.reel == None && e.saved == d.saved
    ensures DeskOk(board, e)
  {
  }

  lemma HasStart<S(!new)>(board: Board<S>, reel: Reel<S>, core: S)
    requires ReelOk(board, reel, core)
    ensures |reel.history| > 0
  {
  }

  // ---------------------------------------------------------------------------
  // Turns and runs
  // ---------------------------------------------------------------------------

  // The session as the frame of a turn finds it.
  function ReadyFor<S(!new)>(board: Board<S>, replaying: bool, d: Desk<S>, t: Turn): Desk<S> {
    Gathered(board, replaying, Begun(board, d), t)
  }

  // A processor reaches an instruction boundary from here.
  ghost predicate Reaches<S(!new)>(board: Board<S>, s: S, cpu: nat) {
    exists n :: board.boundary(Debugger.Ticked(board, s, n), cpu)
  }

  /** If the frame is to be an instruction step, the chosen processor can take it. */
  ghost predicate StepCanEnd<S(!new)>(board: Board<S>, ready: Desk<S>, cpu: nat) {
    ready.open && ready.mode == Debugger.StepInstruction ==> Reaches(board, ready.core, cpu)
  }

  /** What a live turn asks of the board: only an instruction step that it arms, outside a
      take and with the debugger open, has to find its boundary. */
  ghost predicate CanStep<S(!new)>(board: Board<S>, d: Desk<S>, t: Turn) {
    Begun(board, d).reel == None ==> StepCanEnd(board, ReadyFor(board, false, d, t), t.panel.stepCpu)
  }

  // Not in the middle of a step.
  predicate Settled<S(!new)>(d: Desk<S>) {
    d.mode == Debugger.Running || d.mode == Debugger.Paused
  }

  lemma {:induction false} FedAllArms<S(!new)>(board: Board<S>, replaying: bool, d: Desk<S>, polled: seq<Polled>)
    requires d.mode != Debugger.StepInstruction
    ensures FedAll(board, replaying, d, polled).mode != Debugger.StepInstruction
    decreases |polled|
  {
    if polled != [] {
      FedAllArms(board, replaying, d, polled[..|polled| - 1]);
    }
  }

  lemma {:induction false} DrainedArms<S(!new)>(board: Board<S>, replaying: bool, d: Desk<S>)
    requires d.mode != Debugger.StepInstruction
    ensures Drained(board, replaying, d).mode == Debugger.StepInstruction ==> StepInstruction in d.queue && !replaying
    decreases |d.queue|
  {
    hide Effect, Rewrites, FileAfter, SavedOf;
    if d.queue != [] && d.rebuild == None {
      var e := Step(board, replaying, d);
      StepPops(board, replaying, d);
      if e.mode != Debugger.StepInstruction {
        DrainedArms(board, replaying, e);
      }
    }
  }

  /** Only a command of the turn arms an instruction step, and none does in a replay. */
  lemma ReadyArms<S(!new)>(board: Board<S>, replaying: bool, d: Desk<S>, t: Turn)
    requires Faithful(board) && DeskOk(board, d) && Settled(d) && (replaying ==> d.reel == None && d.rebuild == None)
    ensures var ready := ReadyFor(board, replaying, d, t);
      && (ready.mode == Debugger.StepInstruction ==> StepInstruction in d.queue + t.submitted && !replaying)
      && forall c :: c in ready.queue ==> c in d.queue + t.submitted
  {
    hide Faithful, DeskOk, FedAll, Drained;
    var begun := Begun(board, d);
    var fed := FedAll(board, replaying, begun, t.polled);
    var queued := fed.(queue := fed.queue + t.submitted);
    var drained := Drained(board, replaying, queued);
    BegunKeeps(board, d);
    FedAllKeeps(board, replaying, begun, t.polled);
    FedAllArms(board, replaying, begun, t.polled);
    DrainedArms(board, replaying, queued);
    DrainEnds(board, replaying, queued);
    GatheredQueue(board, replaying, drained, t);
  }

  /** The session a turn plays its frame on is good; and a replay's is the one it began
      with, no step armed. */
  lemma ReadyToPlay<S(!new)>(board: Board<S>, replaying: bool, d: Desk<S>, t: Turn)
    requires Faithful(board) && DeskOk(board, d) && Settled(d)
    requires if replaying then d.reel == None && d.rebuild == None else CanStep(board, d, t)
    ensures var ready := ReadyFor(board, replaying, d, t);
      && DeskOk(board, ready)
      && (replaying || Begun(board, d).reel == None ==> StepCanEnd(board, ready, t.panel.stepCpu))
      && (replaying ==> ready.core == d.core && ready.saved == d.saved && ready.reel == None && ready.rebuild == None
                        && ready.mode != Debugger.StepInstruction)
  {
    BegunKeeps(board, d);
    ReadyArms(board, replaying, d, t);
    GatheredKeeps(board, replaying, Begun(board, d), t);
    Stays(board, Begun(board, d), ReadyFor(board, replaying, d, t));
    hide Faithful, DeskOk, Gathered, Rebuilt;
  }

  lemma {:induction false} FedAllQueue<S(!new)>(board: Board<S>, replaying: bool, d: Desk<S>, polled: seq<Polled>)
    requires forall p :: p in polled ==> !p.PanelToggled?
    ensures var e := FedAll(board, replaying, d, polled);
      e.queue == d.queue && e.mode == d.mode
    decreases |polled|
  {
    if polled != [] {
      FedAllQueue(board, replaying, d, polled[..|polled| - 1]);
    }
  }

  lemma GatheredQueue<S(!new)>(board: Board<S>, replaying: bool, d: Desk<S>, t: Turn)
    ensures Resynced(board, replaying, d, t).queue == d.queue && Resynced(board, replaying, d, t).mode == d.mode
  {
    FedAllQueue(board, replaying, d, AsPolled(t.held));
    hide FedAll;
  }

  /** One turn with no movie playing: rebuild, gather, run the frame, count it. The take the
      frame runs in is the one the turn began with. */
  ghost predicate TurnStep<S(!new)>(board: Board<S>, d: Desk<S>, t: Turn, e: Desk<S>, ran: bool) {
    exists f :: FrameFrom(board, ReadyFor(board, false, d, t), Begun(board, d).reel.Some?, f, ran) && e == Counted(f, ran)
  }

  lemma TurnKeeps<S(!new)>(board: Board<S>, d: Desk<S>, t: Turn, e: Desk<S>, ran: bool)
    requires Faithful(board) && DeskOk(board, d) && TurnStep(board, d, t, e, ran)
    ensures DeskOk(board, e)
  {
    hide Faithful, DeskOk, Begun, Gathered, FrameFrom, Counted, Ended;
    var begun, ready := Begun(board, d), ReadyFor(board, false, d, t);
    var f :| FrameFrom(board, ready, begun.reel.Some?, f, ran) && e == Counted(f, ran);
    BegunKeeps(board, d);
    GatheredKeeps(board, false, begun, t);
    Stays(board, begun, ready);
    CountedKeeps(board, ready, begun.reel.Some?, f, ran);
  }

  /** What one turn does to the recording and to the saved movies. A take that goes on keeps
      its conditions and gains the frame that ran; one that ends appends exactly one movie,
      of its own records, conditions and history; nothing else touches the list. */
  ghost predicate Accounted<S(!new)>(board: Board<S>, begun: Desk<S>, e: Desk<S>, ran: bool) {
    match begun.reel
    case None => e.reel == None && e.saved == begun.saved
    case Some(r) =>
      if e.reel.Some? then
        var q := e.reel.value;
        && e.saved == begun.saved && q.dip == r.dip && q.nvram == r.nvram && r.log.records <= q.log.records
        && q.history == r.history + (if ran then [e.core] else [])
      else
        exists q :: Grown(r, q) && e.saved == begun.saved + [SavedOf(board, q)]
  }

  lemma TurnAccounts<S(!new)>(board: Board<S>, d: Desk<S>, t: Turn, e: Desk<S>, ran: bool)
    requires Faithful(board) && DeskOk(board, d) && TurnStep(board, d, t, e, ran)
    ensures Begun(board, d).saved == d.saved && Accounted(board, Begun(board, d), e, ran)
  {
    hide Faithful, DeskOk, Begun, Gathered, SavedOf, Debugger.Executed;
    var begun, ready := Begun(board, d), ReadyFor(board, false, d, t);
    var f :| FrameFrom(board, ready, begun.reel.Some?, f, ran) && e == Counted(f, ran);
    BegunKeeps(board, d);
    GatheredKeeps(board, false, begun, t);
    if Ended(board, begun, ready) {
      var q :| Grown(begun.reel.value, q) && ready.saved == begun.saved + [SavedOf(board, q)];
      assert e.saved == begun.saved + [SavedOf(board, q)];
    }
  }

  lemma TurnHolds<S(!new)>(board: Board<S>, d: Desk<S>, t: Turn, f: Desk<S>, e: Desk<S>, ran: bool)
    requires Faithful(board) && DeskOk(board, d) && e == Counted(f, ran)
    requires FrameFrom(board, ReadyFor(board, false, d, t), Begun(board, d).reel.Some?, f, ran)
    ensures TurnStep(board, d, t, e, ran) && DeskOk(board, e)
    ensures Begun(board, d).saved == d.saved && Accounted(board, Begun(board, d), e, ran)
  {
    hide Faithful, DeskOk, FrameFrom, ReadyFor, Begun, Counted, Accounted;
    TurnKeeps(board, d, t, e, ran);
    TurnAccounts(board, d, t, e, ran);
  }

  /** A run of the loop: the session before and after every turn, and whether a frame ran. */
  ghost predicate IsRun<S(!new)>(board: Board<S>, turns: seq<Turn>, trace: seq<Desk<S>>, rans: seq<bool>) {
    && |trace| == |turns| + 1 && |rans| == |turns|
    && forall i :: 0 <= i < |turns| ==> TurnStep(board, trace[i], turns[i], trace[i + 1], rans[i])
  }

  lemma RunGrows<S(!new)>(board: Board<S>, turns: seq<Turn>, trace: seq<Desk<S>>, rans: seq<bool>,
                          t: Turn, e: Desk<S>, ran: bool)
    requires IsRun(board, turns, trace, rans) && TurnStep(board, trace[|turns|], t, e, ran)
    ensures IsRun(board, turns + [t], trace + [e], rans + [ran])
  {
    hide TurnStep;
  }

  lemma {:induction false} RunKeeps<S(!new)>(board: Board<S>, turns: seq<Turn>, trace: seq<Desk<S>>, rans: seq<bool>,
                                             i: nat)
    requires Faithful(board) && IsRun(board, turns, trace, rans) && DeskOk(board, trace[0]) && i <= |turns|
    ensures DeskOk(board, trace[i])
  {
    hide Faithful, DeskOk, TurnStep;
    if i > 0 {
      RunKeeps(board, turns, trace, rans, i - 1);
      TurnKeeps(board, trace[i - 1], turns[i - 1], trace[i], rans[i - 1]);
    }
  }

  // How many turns ran a whole frame.
  function WholeFrames(rans: seq<bool>): nat {
    if rans == [] then 0 else WholeFrames(rans[..|rans| - 1]) + if rans[|rans| - 1] then 1 else 0
  }

  /** What a run asks of the board: in every session it can come to, the turn ahead can
      take the instruction step it arms, if it arms one. */
  ghost predicate RunCanStep<S(!new)>(board: Board<S>, d: Desk<S>, turns: seq<Turn>) {
    forall i, trace, rans :: 0 <= i < |turns| && IsRun(board, turns[..i], trace, rans) && trace[0] == d ==>
      CanStep(board, trace[i], turns[i])
  }

  // Queued at the start, or submitted before turn `i`.
  ghost predicate Submitted<S(!new)>(d: Desk<S>, turns: seq<Turn>, i: nat, c: Command) {
    c in d.queue || exists j :: 0 <= j < i && j < |turns| && c in turns[j].submitted
  }

  ghost predicate QueueIsSubmitted<S(!new)>(d: Desk<S>, turns: seq<Turn>, i: nat, e: Desk<S>) {
    forall c :: c in e.queue ==> Submitted(d, turns, i, c)
  }

  lemma TurnSettles<S(!new)>(board: Board<S>, d: Desk<S>, t: Turn, e: Desk<S>, ran: bool)
    requires Faithful(board) && DeskOk(board, d) && Settled(d) && TurnStep(board, d, t, e, ran)
    ensures Settled(e) && forall c :: c in e.queue ==> c in d.queue || c in t.submitted
  {
    hide Faithful, DeskOk, ReadyFor, FrameFrom, Counted, Begun, Settled;
    var f :| FrameFrom(board, ReadyFor(board, false, d, t), Begun(board, d).reel.Some?, f, ran) && e == Counted(f, ran);
    CountedSettles(board, ReadyFor(board, false, d, t), Begun(board, d).reel.Some?, f, ran);
    ReadyArms(board, false, d, t);
  }

  lemma {:induction false} RunSettles<S(!new)>(board: Board<S>, turns: seq<Turn>, trace: seq<Desk<S>>,
                                               rans: seq<bool>, i: nat)
    requires Faithful(board) && IsRun(board, turns, trace, rans) && DeskOk(board, trace[0]) && Settled(trace[0])
    requires i <= |turns|
    ensures DeskOk(board, trace[i]) && Settled(trace[i]) && QueueIsSubmitted(trace[0], turns, i, trace[i])
  {
    hide Faithful, DeskOk, TurnStep, Settled;
    if i > 0 {
      RunSettles(board, turns, trace, rans, i - 1);
      TurnKeeps(board, trace[i - 1], turns[i - 1], trace[i], rans[i - 1]);
      TurnSettles(board, trace[i - 1], turns[i - 1], trace[i], rans[i - 1]);
    }
  }

  /** So a run in which nobody steps an instruction asks nothing, and one that does asks it
      only of the processors chosen from then on. */
  lemma OnlyStepsAsk<S(!new)>(board: Board<S>, d: Desk<S>, turns: seq<Turn>)
    requires Faithful(board) && DeskOk(board, d) && Settled(d)
    requires forall i, s :: 0 <= i < |turns| && Submitted(d, turns, i + 1, StepInstruction) ==>
               Reaches(board, s, turns[i].panel.stepCpu)
    ensures RunCanStep(board, d, turns)
  {
    hide Faithful, DeskOk, CanStep, TurnStep, Reaches;
    forall i, trace, rans | 0 <= i < |turns| && IsRun(board, turns[..i], trace, rans) && trace[0] == d
      ensures CanStep(board, trace[i], turns[i])
    {
      TurnCanStep(board, d, turns, i, trace, rans);
    }
  }

  lemma TurnCanStep<S(!new)>(board: Board<S>, d: Desk<S>, turns: seq<Turn>, i: nat, trace: seq<Desk<S>>, rans: seq<bool>)
    requires Faithful(board) && DeskOk(board, d) && Settled(d) && i < |turns|
    requires Submitted(d, turns, i + 1, StepInstruction) ==> forall s :: Reaches(board, s, turns[i].panel.stepCpu)
    requires IsRun(board, turns[..i], trace, rans) && trace[0] == d
    ensures CanStep(board, trace[i], turns[i])
  {
    hide Faithful, DeskOk, TurnStep, Reaches, Settled, ReadyFor, Begun;
    RunSettles(board, turns[..i], trace, rans, i);
    ReadyArms(board, false, trace[i], turns[i]);
    if StepInstruction in trace[i].queue + turns[i].submitted {
      assert StepInstruction in trace[i].queue || StepInstruction in turns[i].submitted;
      assert Submitted(d, turns[..i], i, StepInstruction) ==> Submitted(d, turns, i + 1, StepInstruction);
    }
  }

  // The machine after each turn from `a` to `b` that ran a frame.
  function FramesRun<S(!new)>(trace: seq<Desk<S>>, rans: seq<bool>, a: nat, b: nat): seq<S>
    requires a <= b <= |rans| && |trace| == |rans| + 1
    decreases b
  {
    if a == b then [] else FramesRun(trace, rans, a, b - 1) + if rans[b - 1] then [trace[b].core] else []
  }

  // A recording is armed at turn `a` and still running after every later turn up to `b - 1`.
  ghost predicate RecordsThrough<S(!new)>(trace: seq<Desk<S>>, a: nat, b: nat) {
    a <= b < |trace| && trace[a].rebuild == Some(MovieArm) && forall j :: a < j <= b ==> trace[j].reel.Some?
  }

  /** What a running recording holds is what the session did since it was armed: the machine
      as it was rebuilt, then the machine after every turn that ran a frame. */
  lemma {:induction false} HistoryIsTheRun<S(!new)>(board: Board<S>, turns: seq<Turn>, trace: seq<Desk<S>>,
                                                    rans: seq<bool>, a: nat, b: nat)
    requires Faithful(board) && IsRun(board, turns, trace, rans) && DeskOk(board, trace[0])
    requires a < b && RecordsThrough(trace, a, b)
    ensures var reel := trace[b].reel.value;
      && reel.history == [Rebuilt(board, trace[a].core)] + FramesRun(trace, rans, a, b)
      && reel.dip == DipBytes(board, trace[a].core) && reel.nvram == board.nvram(trace[a].core)
    decreases b
  {
    hide Faithful, DeskOk, TurnStep, Rebuilt, DipBytes, SavedOf;
    RunKeeps(board, turns, trace, rans, b - 1);
    TurnAccounts(board, trace[b - 1], turns[b - 1], trace[b], rans[b - 1]);
    var now := FramesRun(trace, rans, a, b);
    if a < b - 1 {
      HistoryIsTheRun(board, turns, trace, rans, a, b - 1);
      NoRebuildWhileRecording(board, trace[b - 1]);
      assert [Rebuilt(board, trace[a].core)] + now
          == [Rebuilt(board, trace[a].core)] + FramesRun(trace, rans, a, b - 1)
             + if rans[b - 1] then [trace[b].core] else [];
    } else {
      assert FramesRun(trace, rans, a, a) == [];
    }
  }

  lemma NoRebuildWhileRecording<S(!new)>(board: Board<S>, d: Desk<S>)
    requires DeskOk(board, d) && d.reel.Some?
    ensures Begun(board, d) == d
  {
  }

  // The movie is of the take armed at turn `a` and still recording when turn `b` began, or
  // armed by it.
  ghost predicate IsTakeOf<S(!new)>(board: Board<S>, trace: seq<Desk<S>>, rans: seq<bool>, a: nat, b: nat, s: Saved<S>)
    requires RecordsThrough(trace, a, b) && |trace| == |rans| + 1
  {
    && s.history == [Rebuilt(board, trace[a].core)] + FramesRun(trace, rans, a, b)
    && s.movie.header.dip == DipBytes(board, trace[a].core)
    && s.movie.header.nvram == board.nvram(trace[a].core)
    && (a < b ==> trace[b].reel.value.log.records <= s.movie.records)
  }

  // The recording as turn `b` begins with it.
  lemma ReelAt<S(!new)>(board: Board<S>, turns: seq<Turn>, trace: seq<Desk<S>>, rans: seq<bool>, a: nat, b: nat)
    requires Faithful(board) && IsRun(board, turns, trace, rans) && DeskOk(board, trace[0])
    requires RecordsThrough(trace, a, b)
    ensures DeskOk(board, trace[b]) && Begun(board, trace[b]).reel.Some?
    ensures var reel := Begun(board, trace[b]).reel.value;
      && reel.history == [Rebuilt(board, trace[a].core)] + FramesRun(trace, rans, a, b)
      && reel.dip == DipBytes(board, trace[a].core) && reel.nvram == board.nvram(trace[a].core)
      && (a < b ==> reel == trace[b].reel.value)
  {
    hide Faithful, TurnStep, Rebuilt, DipBytes, SavedOk, ReelOk;
    RunKeeps(board, turns, trace, rans, b);
    if a < b {
      HistoryIsTheRun(board, turns, trace, rans, a, b);
      NoRebuildWhileRecording(board, trace[b]);
    } else {
      assert FramesRun(trace, rans, a, a) == [];
    }
  }

  /** The movie of a take armed at turn `a` and stopped in turn `b` is appended to the list,
      alone; it holds the conditions and the machine of every frame boundary in between, and
      its replay from ROM passes through them. */
  lemma StoppedTakeIsTheRun<S(!new)>(board: Board<S>, turns: seq<Turn>, trace: seq<Desk<S>>, rans: seq<bool>,
                                     a: nat, b: nat) returns (s: Saved<S>)
    requires Faithful(board) && IsRun(board, turns, trace, rans) && DeskOk(board, trace[0])
    requires b < |turns| && RecordsThrough(trace, a, b) && trace[b + 1].reel == None
    ensures trace[b + 1].saved == trace[b].saved + [s] && SavedOk(board, s) && IsTakeOf(board, trace, rans, a, b, s)
  {
    hide Faithful, TurnStep, Rebuilt, DipBytes, SavedOk, ReelOk, Begun;
    ReelAt(board, turns, trace, rans, a, b);
    RunKeeps(board, turns, trace, rans, b + 1);
    TurnAccounts(board, trace[b], turns[b], trace[b + 1], rans[b]);
    var begun := Begun(board, trace[b]);
    var q :| Grown(begun.reel.value, q) && trace[b + 1].saved == begun.saved + [SavedOf(board, q)];
    s := SavedOf(board, q);
    assert s in trace[b + 1].saved;
  }

  // A recording that runs was armed in the run.
  lemma {:induction false} ArmedEarlier<S(!new)>(board: Board<S>, turns: seq<Turn>, trace: seq<Desk<S>>,
                                                 rans: seq<bool>, b: nat) returns (a: nat)
    requires Faithful(board) && IsRun(board, turns, trace, rans) && DeskOk(board, trace[0]) && trace[0].reel == None
    requires b < |turns| && Begun(board, trace[b]).reel.Some?
    ensures RecordsThrough(trace, a, b)
    decreases b
  {
    hide Faithful, TurnStep, DeskOk, Rebuilt, DipBytes, SavedOf;
    a := b;
    if trace[b].reel.Some? {
      RunKeeps(board, turns, trace, rans, b - 1);
      TurnAccounts(board, trace[b - 1], turns[b - 1], trace[b], rans[b - 1]);
      a := ArmedEarlier(board, turns, trace, rans, b - 1);
    }
  }

  // Movie `k` of the list is that of one take of the run, over before turn `n`.
  ghost predicate SavedInRun<S(!new)>(board: Board<S>, trace: seq<Desk<S>>, rans: seq<bool>, n: nat, s: Saved<S>, k: nat)
    requires |trace| == |rans| + 1
  {
    exists a, b :: 0 <= a <= b < n < |trace| && RecordsThrough(trace, a, b) && trace[b + 1].reel == None
                && |trace[b].saved| == k && IsTakeOf(board, trace, rans, a, b, s)
  }

  lemma StillInRun<S(!new)>(board: Board<S>, trace: seq<Desk<S>>, rans: seq<bool>, n: nat, s: Saved<S>, k: nat)
    requires |trace| == |rans| + 1 && n + 1 < |trace| && SavedInRun(board, trace, rans, n, s, k)
    ensures SavedInRun(board, trace, rans, n + 1, s, k)
  {
    hide RecordsThrough, IsTakeOf;
    var a, b :| 0 <= a <= b < n < |trace| && RecordsThrough(trace, a, b) && trace[b + 1].reel == None
                && |trace[b].saved| == k && IsTakeOf(board, trace, rans, a, b, s);
    assert b < n + 1 < |trace|;
  }

  /** Every movie a session ever saved is that of one take of it, the list in the order the
      takes ended: nothing else gets in, and no take twice. */
  lemma {:induction false} SavedAreTheTakes<S(!new)>(board: Board<S>, turns: seq<Turn>, trace: seq<Desk<S>>,
                                                     rans: seq<bool>, n: nat)
    requires Faithful(board) && IsRun(board, turns, trace, rans) && DeskOk(board, trace[0])
    requires trace[0].reel == None && trace[0].saved == [] && n <= |turns|
    ensures forall k :: 0 <= k < |trace[n].saved| ==>
              SavedOk(board, trace[n].saved[k]) && SavedInRun(board, trace, rans, n, trace[n].saved[k], k)
    decreases n
  {
    hide Faithful, TurnStep, Begun, SavedOk, ReelOk, IsTakeOf, RecordsThrough, SavedOf, SavedInRun;
    RunKeeps(board, turns, trace, rans, n);
    if n > 0 {
      var before, now := trace[n - 1].saved, trace[n].saved;
      SavedAreTheTakes(board, turns, trace, rans, n - 1);
      RunKeeps(board, turns, trace, rans, n - 1);
      TurnAccounts(board, trace[n - 1], turns[n - 1], trace[n], rans[n - 1]);
      forall k | 0 <= k < |before|
        ensures SavedInRun(board, trace, rans, n, before[k], k)
      {
        StillInRun(board, trace, rans, n - 1, before[k], k);
      }
      if Begun(board, trace[n - 1]).reel.Some? && trace[n].reel == None {
        NewInRun(board, turns, trace, rans, n - 1);
      } else {
        assert now == before;
      }
    }
  }

  lemma NewInRun<S(!new)>(board: Board<S>, turns: seq<Turn>, trace: seq<Desk<S>>, rans: seq<bool>, b: nat)
    requires Faithful(board) && IsRun(board, turns, trace, rans) && DeskOk(board, trace[0]) && trace[0].reel == None
    requires b < |turns| && Begun(board, trace[b]).reel.Some? && trace[b + 1].reel == None
    ensures var before, now := trace[b].saved, trace[b + 1].saved;
      && |now| == |before| + 1 && (forall k :: 0 <= k < |before| ==> now[k] == before[k])
      && SavedInRun(board, trace, rans, b + 1, now[|before|], |before|)
  {
    hide Faithful, DeskOk, TurnStep, Begun, SavedOk, IsTakeOf, RecordsThrough;
    var a := ArmedEarlier(board, turns, trace, rans, b);
    Ordered(trace, a, b);
    var s := StoppedTakeIsTheRun(board, turns, trace, rans, a, b);
    AppendedLast(trace[b].saved, s, trace[b + 1].saved);
  }

  lemma Ordered<S(!new)>(trace: seq<Desk<S>>, a: nat, b: nat)
    requires RecordsThrough(trace, a, b)
    ensures a <= b < |trace|
  {
  }

  lemma AppendedLast<T>(list: seq<T>, x: T, longer: seq<T>)
    requires longer == list + [x]
    ensures |longer| == |list| + 1 && longer[|list|] == x && forall k :: 0 <= k < |list| ==> longer[k] == list[k]
  {
  }

  /** The window is closed while a turn polls: what was polled before that is in, nothing
      queued is run, and a recording still running is stopped and saved. */
  function Closed<S(!new)>(board: Board<S>, replaying: bool, d: Desk<S>, polled: seq<Polled>): Desk<S> {
    var fed := FedAll(board, replaying, Begun(board, d), polled);
    match fed.reel
    case None => fed
    case Some(reel) => fed.(reel := None, saved := fed.saved + [SavedOf(board, reel)])
  }

  lemma ClosedKeeps<S(!new)>(board: Board<S>, replaying: bool, d: Desk<S>, polled: seq<Polled>)
    requires Faithful(board) && DeskOk(board, d)
    ensures var begun, e := Begun(board, d), Closed(board, replaying, d, polled);
      && DeskOk(board, e) && e.reel == None && begun.saved == d.saved
      && if begun.reel == None then e.saved == d.saved else Ended(board, begun, e)
  {
    BegunKeeps(board, d);
    FedAllKeeps(board, replaying, Begun(board, d), polled);
    hide Faithful, Begun, FedAll, SavedOk, ReelOk, SavedOf;
    var fed := FedAll(board, replaying, Begun(board, d), polled);
    if fed.reel.Some? {
      StoppedTakeReplays(board, fed.reel.value, fed.core);
    }
  }

  /** A take still recording when the window closes is saved too, whole. */
  lemma QuitTakeIsTheRun<S(!new)>(board: Board<S>, turns: seq<Turn>, trace: seq<Desk<S>>, rans: seq<bool>,
                                  a: nat, polled: seq<Polled>) returns (s: Saved<S>)
    requires Faithful(board) && IsRun(board, turns, trace, rans) && DeskOk(board, trace[0])
    requires RecordsThrough(trace, a, |turns|)
    ensures Closed(board, false, trace[|turns|], polled).saved == trace[|turns|].saved + [s]
    ensures SavedOk(board, s) && IsTakeOf(board, trace, rans, a, |turns|, s)
  {
    hide Faithful, TurnStep, Rebuilt, DipBytes, SavedOk, ReelOk, Closed, Begun;
    var last := trace[|turns|];
    ReelAt(board, turns, trace, rans, a, |turns|);
    ClosedKeeps(board, false, last, polled);
    var closed := Closed(board, false, last, polled);
    var q :| Grown(Begun(board, last).reel.value, q) && closed.saved == last.saved + [SavedOf(board, q)];
    s := SavedOf(board, q);
    assert s in closed.saved;
  }

  /** The list only ever grows. */
  lemma {:induction false} SavedOnlyGrows<S(!new)>(board: Board<S>, turns: seq<Turn>, trace: seq<Desk<S>>,
                                                   rans: seq<bool>, i: nat, j: nat)
    requires Faithful(board) && IsRun(board, turns, trace, rans) && DeskOk(board, trace[0])
    requires i <= j <= |turns|
    ensures trace[i].saved <= trace[j].saved
    decreases j
  {
    hide Faithful, DeskOk, TurnStep, SavedOf, Begun;
    if i < j {
      SavedOnlyGrows(board, turns, trace, rans, i, j - 1);
      RunKeeps(board, turns, trace, rans, j - 1);
      TurnAccounts(board, trace[j - 1], turns[j - 1], trace[j], rans[j - 1]);
    }
  }

  /** A replay is not moved by any accepted command, nor can one start a recording. */
  lemma AcceptedKeepsReplay<S(!new)>(board: Board<S>, ctx: EnableCtx, cmd: Command, file: SaveFile, s: S)
    requires ctx.mode == Replaying && Enable(ctx, cmd)
    ensures Effect(board, cmd, file, s) == s && !cmd.MovieRecordToggle?
  {
  }

  /** A take refuses nothing else: beside the disturbing commands, and beside switches and
      recording while a movie plays, whatever live play allows is allowed. */
  lemma TakesRefuseOnlyDisturbances(ctx: EnableCtx, cmd: Command)
    ensures Enable(ctx.(mode := MovieMode.Recording), cmd) <==> Enable(ctx.(mode := Live), cmd) && !Disturbs(cmd)
    ensures Enable(ctx.(mode := Replaying), cmd)
       <==> Enable(ctx.(mode := Live), cmd) && !Disturbs(cmd) && !cmd.SetDipOption? && !cmd.MovieRecordToggle?
  {
  }

  /** The refusals are needed: each refused command that touches the machine can move it,
      on some board, without a record. */
  lemma RefusedCommandsCanMove(cmd: Command)
    requires cmd.ResetSoft? || cmd.LoadState? || cmd.PokeMemory? || cmd.DeviceControl?
    ensures exists board: Board<int>, file: SaveFile, s: int, log: Log ::
              Effect(board, cmd, file, s) != s && NotedCommand(board, cmd, s, log) == log
  {
    var board: Board<int> := Board([], [], 0, true, 0, 0, s => s + 1, s => None, (s, n) => s, s => None,
      (s, d) => Some(s + 1), (s, e) => s, s => s, (s, b) => 0, (s, b, v) => s, (s, c, a, v) => s + 1,
      (s, d, r, v) => s + 1, s => s, (s, w) => [], s => s, (s, c) => false, (s, w) => [], (s, c) => 0);
    var file: SaveFile := Some([]);
    assert Effect(board, cmd, file, 0) == 1;
    assert NotedCommand(board, cmd, 0, Log([], 0, 0)) == Log([], 0, 0);
  }
}
