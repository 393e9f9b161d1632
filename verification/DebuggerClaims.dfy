/** What the debugger promises over single calls and whole sessions. */
module DebuggerClaims {
  import opened Basics
  import opened MachineModel
  import opened Debugger

  lemma {:induction false} TickedAdds<S(!new)>(board: Board<S>, s: S, m: nat, n: nat)
    ensures Ticked(board, Ticked(board, s, m), n) == Ticked(board, s, m + n)
  {
    if n > 0 {
      TickedAdds(board, s, m, n - 1);
    }
  }

  // `n` ticks further on, and counted.
  ghost predicate Moved<S(!new)>(board: Board<S>, t: Snapshot<S>, u: Snapshot<S>, n: nat) {
    && u.core == Ticked(board, t.core, n) && u.cycles == t.cycles + n && u.frames == t.frames
    && u.suspended == t.suspended && u.watches == t.watches && u.dirty == t.dirty
  }

  lemma SteppedMoves<S(!new)>(board: Board<S>, t: Snapshot<S>, n: nat)
    ensures Moved(board, t, Stepped(board, t, n), n) && Stepped(board, t, n).mode == t.mode
  {
  }

  lemma RanMoves<S(!new)>(board: Board<S>, t: Snapshot<S>, n: nat)
    ensures Moved(board, t, Ran(board, t, n), n) && Ran(board, t, n).mode == t.mode
  {
    hide Taken, Piled, HasAnyBreakpoints;
  }

  lemma BrokenMoves<S(!new)>(board: Board<S>, t: Snapshot<S>, n: nat)
    requires n > 0
    ensures Moved(board, t, Broken(board, t, n), n) && Broken(board, t, n).mode == Paused
  {
    hide Taken, QueueAt, CycleStop, PcStop;
  }

  lemma PiecesMove<S(!new)>(board: Board<S>, t: Snapshot<S>)
    ensures forall n: nat :: Moved(board, t, Stepped(board, t, n), n) && Stepped(board, t, n).mode == t.mode
    ensures forall n: nat :: Moved(board, t, Ran(board, t, n), n) && Ran(board, t, n).mode == t.mode
    ensures forall n: nat | n > 0 :: Moved(board, t, Broken(board, t, n), n) && Broken(board, t, n).mode == Paused
  {
    hide Stepped, Ran, Broken, Moved;
    forall n: nat
      ensures Moved(board, t, Stepped(board, t, n), n) && Stepped(board, t, n).mode == t.mode
      ensures Moved(board, t, Ran(board, t, n), n) && Ran(board, t, n).mode == t.mode
    {
      SteppedMoves(board, t, n);
      RanMoves(board, t, n);
    }
    forall n: nat | n > 0
      ensures Moved(board, t, Broken(board, t, n), n) && Broken(board, t, n).mode == Paused
    {
      BrokenMoves(board, t, n);
    }
  }

  lemma RefreshingMovesNothing<S(!new)>(board: Board<S>)
    ensures forall u: Snapshot<S> ::
      var v := Refreshed(board, u);
      v.core == u.core && v.cycles == u.cycles && v.frames == u.frames && v.mode == u.mode
      && v.seen == u.seen && v.pending == u.pending && v.suspended == u.suspended && v.watches == u.watches
      && v.dirty == u.dirty
  {
  }

  /** The executor reports a frame exactly when the frame counter rose, and then by one. */
  lemma FrameAccounting<S(!new)>(board: Board<S>, s: Snapshot<S>, take: bool, u: Snapshot<S>, ran: bool)
    requires Executed(board, s, take, u, ran)
    ensures u.frames == s.frames + if ran then 1 else 0
  {
    PiecesMove(board, Synced(s));
    RefreshingMovesNothing(board);
    hide Stepped, Ran, Broken, Refreshed, StopsAt, FirstStop, FirstBoundary, HasAnyBreakpoints;
  }

  /** What a call did to the machine, and the cycles it counted for it: either single
      ticks, each counted, or one whole frame, counted as the board's frame length when
      a take runs under the open debugger. */
  lemma CycleAccounting<S(!new)>(board: Board<S>, s: Snapshot<S>, take: bool, u: Snapshot<S>, ran: bool)
    requires Executed(board, s, take, u, ran)
    ensures
      if ran && (take || !s.active || board.cyclesPerFrame == 0)
      then u.core == board.runFrame(s.core)
           && u.cycles == s.cycles + if s.active then board.cyclesPerFrame else 0
      else u.cycles >= s.cycles && u.core == Ticked(board, s.core, u.cycles - s.cycles)
    ensures !take && s.active && ran ==> u.cycles == s.cycles + board.cyclesPerFrame
    ensures !s.active && !ran ==> u.core == s.core
  {
    PiecesMove(board, Synced(s));
    RefreshingMovesNothing(board);
    hide LiveRun, Stepped, Ran, Broken, Refreshed, FirstBoundary, HasAnyBreakpoints;
    if s.active && LiveRun(board, Synced(s), u, ran) {
      LiveRunMoves(board, Synced(s), u, ran);
    }
  }

  lemma LiveRunMoves<S(!new)>(board: Board<S>, t: Snapshot<S>, u: Snapshot<S>, ran: bool)
    requires LiveRun(board, t, u, ran)
    ensures
      if board.cyclesPerFrame == 0 then ran && u.core == board.runFrame(t.core) && u.cycles == t.cycles
      else u.cycles >= t.cycles && u.core == Ticked(board, t.core, u.cycles - t.cycles)
    ensures ran ==> u.cycles == t.cycles + board.cyclesPerFrame
  {
    PiecesMove(board, t);
    RefreshingMovesNothing(board);
    hide Ran, Broken, Refreshed, FirstStop, StopsAt;
  }

  /** During a take nothing is ever ticked and no hit is drained: a machine that runs short of
      its frame target, and one that steps a frame, runs a whole frame, any other stands; only
      a machine that ran on runs on. */
  lemma TakesRunWholeFrames<S(!new)>(board: Board<S>, s: Snapshot<S>, u: Snapshot<S>, ran: bool)
    requires Executed(board, s, true, u, ran)
    ensures u.core == if ran then board.runFrame(s.core) else s.core
    ensures var held := s.active && s.frameBreak.Some? && s.frames >= s.frameBreak.value;
      ran <==> s.mode == StepFrame || (s.mode == Running && !held)
    ensures u.mode == if ran && s.mode == Running then Running else Paused
    ensures u.seen == s.seen && u.cycleBreak == s.cycleBreak
  {
    hide Ran, Broken, StopsAt, FirstStop, FirstBoundary, Stepped, HasAnyBreakpoints;
  }

  /** No call leaves a step armed. */
  lemma ModeSettles<S(!new)>(board: Board<S>, s: Snapshot<S>, take: bool, u: Snapshot<S>, ran: bool)
    requires Executed(board, s, take, u, ran)
    ensures u.mode == Running || u.mode == Paused
  {
    PiecesMove(board, Synced(s));
    RefreshingMovesNothing(board);
    hide Stepped, Ran, Broken, Refreshed, StopsAt, FirstStop, FirstBoundary, HasAnyBreakpoints;
  }

  /** Suspended watchpoints stay off the machine, whatever the panel asks for. */
  lemma KeepsSuspension<S(!new)>(board: Board<S>, s: Snapshot<S>, take: bool, u: Snapshot<S>, ran: bool)
    requires Executed(board, s, take, u, ran)
    ensures u.suspended == s.suspended && (s.suspended ==> u.watches == s.watches)
  {
    PiecesMove(board, Synced(s));
    RefreshingMovesNothing(board);
    hide Stepped, Ran, Broken, Refreshed, StopsAt, FirstStop, FirstBoundary, HasAnyBreakpoints;
  }

  /** A live run is over at the first tick that meets a cycle, instruction or watchpoint
      condition, and runs the whole frame exactly when no tick of it does. */
  lemma RunStopsAtFirst<S(!new)>(board: Board<S>, s: Snapshot<S>, u: Snapshot<S>, ran: bool)
    requires Executed(board, s, false, u, ran)
    requires s.active && s.mode == Running && !FrameBreakDue(s) && board.cyclesPerFrame > 0
    ensures var t, n := Synced(s), u.cycles - s.cycles;
      && 0 < n <= board.cyclesPerFrame
      && (forall i :: 0 < i < n ==> !StopsAt(board, t, i))
      && (ran <==> forall i :: 0 < i <= board.cyclesPerFrame ==> !StopsAt(board, t, i))
      && (!ran ==> StopsAt(board, t, n) && u.mode == Paused)
      && (ran ==> n == board.cyclesPerFrame && u.mode == Running)
  {
    PiecesMove(board, Synced(s));
    RefreshingMovesNothing(board);
    hide Stepped, Ran, Broken, Refreshed, StopsAt, FirstBoundary, HasAnyBreakpoints;
  }

  // ---------------------------------------------------------------------------
  // The breaks, spelled out on the snapshot and the board
  // ---------------------------------------------------------------------------

  ghost predicate CycleReached<S(!new)>(s: Snapshot<S>, i: nat) {
    s.cycleBreak.Some? && s.cycleBreak.value <= s.cycles + i
  }

  // Tick `i` ended an instruction of a processor whose counter is now at one of its
  // breakpoints.
  ghost predicate AtBreakpoint<S(!new)>(board: Board<S>, s: Snapshot<S>, i: nat)
    requires i > 0
  {
    board.hasDebugBus && exists cpu :: 0 <= cpu < board.cpus && EndsAtBreakpoint(board, s, i, cpu)
  }

  ghost predicate EndsAtBreakpoint<S(!new)>(board: Board<S>, s: Snapshot<S>, i: nat, cpu: nat)
    requires i > 0
  {
    && cpu < |s.breakpoints| && board.boundary(Ticked(board, s.core, i - 1), cpu)
    && board.pc(Ticked(board, s.core, i), cpu) in s.breakpoints[cpu]
  }

  // Tick `i` finds a hit in the queue, its own or one that waited.
  ghost predicate HitRaised<S(!new)>(board: Board<S>, s: Snapshot<S>, i: nat)
    requires i > 0
  {
    || (i == 1 && s.pending != [])
    || (board.hasDebugBus && board.hits(Ticked(board, s.core, i - 1), s.watches) != [])
  }

  // Hits are looked at when the debugger has anything to break on.
  ghost predicate Looking<S(!new)>(s: Snapshot<S>) {
    || s.watchpoints != [] || s.cycleBreak != None
    || exists cpu, addr :: 0 <= cpu < |s.breakpoints| && addr in s.breakpoints[cpu]
  }

  ghost predicate Due<S(!new)>(board: Board<S>, s: Snapshot<S>, i: nat)
    requires i > 0
  {
    CycleReached(s, i) || AtBreakpoint(board, s, i) || (Looking(s) && HitRaised(board, s, i))
  }

  // A run under the open debugger, the watchpoints on the machine and no frame target due.
  ghost predicate RunsLive<S(!new)>(board: Board<S>, s: Snapshot<S>) {
    && s.active && s.mode == Running && board.cyclesPerFrame > 0 && (s.suspended || !s.dirty)
    && (s.frameBreak == None || s.frames < s.frameBreak.value)
  }

  lemma QueueIsRaised<S(!new)>(board: Board<S>, s: Snapshot<S>, i: nat)
    requires i > 0
    ensures QueueAt(board, s, i) != [] <==> HitRaised(board, s, i)
  {
  }

  lemma LookingIs<S(!new)>(s: Snapshot<S>)
    ensures HasAnyBreakpoints(s) <==> Looking(s)
  {
    if i :| 0 <= i < |s.breakpoints| && s.breakpoints[i] != {} {
      var addr :| addr in s.breakpoints[i];
    }
  }

  lemma StopsAreDue<S(!new)>(board: Board<S>, s: Snapshot<S>, i: nat)
    requires i > 0
    ensures StopsAt(board, s, i) <==> Due(board, s, i)
    ensures PcStop(board, s, i) <==> AtBreakpoint(board, s, i)
  {
    QueueIsRaised(board, s, i);
    LookingIs(s);
    PcStopIs(board, s, i);
    if AtBreakpoint(board, s, i) {
      var cpu :| 0 <= cpu < board.cpus && EndsAtBreakpoint(board, s, i, cpu);
      assert s.breakpoints[cpu] != {};
    }
    hide QueueAt, PcStop, HitRaised;
  }

  lemma PcStopIs<S(!new)>(board: Board<S>, s: Snapshot<S>, i: nat)
    requires i > 0
    ensures PcStop(board, s, i) <==> AtBreakpoint(board, s, i)
  {
    var before := Ticked(board, s.core, i - 1);
    assert Ticked(board, s.core, i) == board.tick(before);
    if PcStop(board, s, i) {
      var cpu :| 0 <= cpu < CpuCount(board) && PcStopOf(board, s.breakpoints, before, cpu);
      assert EndsAtBreakpoint(board, s, i, cpu);
    }
    if AtBreakpoint(board, s, i) {
      var cpu :| 0 <= cpu < board.cpus && EndsAtBreakpoint(board, s, i, cpu);
      assert PcStopOf(board, s.breakpoints, before, cpu);
    }
  }

  /** A live run ends at the first tick at which the cycle target is reached, a processor ends
      an instruction at one of its breakpoints, or a hit is found; with no such tick in the
      frame it runs the frame whole. It ticks up to there, counts what it ticked, and holds
      when it broke. */
  lemma LiveRunIs<S(!new)>(board: Board<S>, s: Snapshot<S>, u: Snapshot<S>, ran: bool)
    requires Executed(board, s, false, u, ran) && RunsLive(board, s)
    ensures var n := u.cycles - s.cycles;
      && 0 < n <= board.cyclesPerFrame && u.core == Ticked(board, s.core, n)
      && (forall i :: 0 < i < n ==> !Due(board, s, i))
      && (ran <==> !Due(board, s, n)) && (ran ==> n == board.cyclesPerFrame)
      && u.mode == (if ran then Running else Paused) && u.frames == s.frames + (if ran then 1 else 0)
  {
    RunStopsAtFirst(board, s, u, ran);
    CycleAccounting(board, s, false, u, ran);
    FrameAccounting(board, s, false, u, ran);
    hide Executed, StopsAt, Due, Ticked;
    forall i: nat | i > 0
      ensures StopsAt(board, s, i) <==> Due(board, s, i)
    {
      StopsAreDue(board, s, i);
    }
  }

  /** A cycle target is spent by the break it makes and by nothing else. */
  lemma CycleTargetIsSpent<S(!new)>(board: Board<S>, s: Snapshot<S>, u: Snapshot<S>, ran: bool)
    requires Executed(board, s, false, u, ran) && RunsLive(board, s)
    ensures u.cycleBreak == if !ran && CycleReached(s, u.cycles - s.cycles) then None else s.cycleBreak
  {
    LiveRunIs(board, s, u, ran);
    TargetsMove(board, s);
    hide Stepped, Ran, Broken, Refreshed, StopsAt, FirstStop, HasAnyBreakpoints, Due;
  }

  lemma TargetMoves<S(!new)>(board: Board<S>, t: Snapshot<S>, n: nat)
    ensures Ran(board, t, n).cycleBreak == t.cycleBreak
  {
    hide Taken, Piled, HasAnyBreakpoints, Ticked;
  }

  lemma TargetBreaks<S(!new)>(board: Board<S>, t: Snapshot<S>, n: nat)
    requires n > 0
    ensures Broken(board, t, n).cycleBreak == if CycleStop(t, n) then None else t.cycleBreak
    ensures Broken(board, t, n).cycles == t.cycles + n
  {
    hide Taken, QueueAt, PcStop, CycleStop, Ticked;
  }

  lemma RefreshingKeepsTargets<S(!new)>(board: Board<S>)
    ensures forall u: Snapshot<S> :: Refreshed(board, u).cycleBreak == u.cycleBreak && Refreshed(board, u).cycles == u.cycles
  {
  }

  lemma TargetsMove<S(!new)>(board: Board<S>, t: Snapshot<S>)
    ensures forall n: nat :: Ran(board, t, n).cycleBreak == t.cycleBreak
    ensures forall n: nat | n > 0 :: Broken(board, t, n).cycleBreak == if CycleStop(t, n) then None else t.cycleBreak
    ensures forall n: nat | n > 0 :: Broken(board, t, n).cycles == t.cycles + n
    ensures forall u: Snapshot<S> :: Refreshed(board, u).cycleBreak == u.cycleBreak && Refreshed(board, u).cycles == u.cycles
  {
    hide Ran, Broken, CycleStop, Refreshed;
    RefreshingKeepsTargets(board);
    forall n: nat
      ensures Ran(board, t, n).cycleBreak == t.cycleBreak
    {
      TargetMoves(board, t, n);
    }
    forall n: nat | n > 0
      ensures Broken(board, t, n).cycleBreak == if CycleStop(t, n) then None else t.cycleBreak
      ensures Broken(board, t, n).cycles == t.cycles + n
    {
      TargetBreaks(board, t, n);
    }
  }

  /** Whatever the open debugger does, afterwards there is a set of breakpoints for every
      processor and the step target exists: sets are added empty, none is changed, and a target
      that exists stays. Only a step refused in a take leaves even that undone. */
  lemma EveryProcessorIsReady<S(!new)>(board: Board<S>, s: Snapshot<S>, take: bool, u: Snapshot<S>, ran: bool)
    requires Executed(board, s, take, u, ran) && s.active && board.hasDebugBus && board.cpus > 0
    requires !(take && (s.mode == StepInstruction || s.mode == StepCycle))
    ensures |u.breakpoints| >= board.cpus && s.breakpoints <= u.breakpoints
    ensures forall i :: |s.breakpoints| <= i < |u.breakpoints| ==> u.breakpoints[i] == {}
    ensures u.stepCpu == (if s.stepCpu < board.cpus then s.stepCpu else 0) < board.cpus
  {
    var v := RefreshesLast(board, s, take, u, ran);
    PaddedIs(s.breakpoints, board.cpus);
    hide Executed, Padded;
  }

  // What the call left before its last refresh.
  lemma RefreshesLast<S(!new)>(board: Board<S>, s: Snapshot<S>, take: bool, u: Snapshot<S>, ran: bool)
    returns (v: Snapshot<S>)
    requires Executed(board, s, take, u, ran) && s.active
    requires !(take && (s.mode == StepInstruction || s.mode == StepCycle))
    ensures u == Refreshed(board, v) && SameSets(s, v)
  {
    var t := Synced(s);
    SetsMove(board, t);
    hide Refreshed, Stepped, FirstBoundary, WholeFrame, TakeFrame, LiveRun;
    if FrameBreakDue(t) {
      v := t.(frameBreak := None, mode := Paused);
    } else if take && t.mode != Paused {
      v := TakeFrame(board, t);
    } else if t.mode == Running {
      v := LiveRefreshes(board, t, u, ran);
    } else if t.mode == Paused {
      v := t;
    } else if t.mode == StepInstruction {
      var n :| FirstBoundary(board, t, n) && u == Refreshed(board, Stepped(board, t, n).(mode := Paused));
      v := Stepped(board, t, n).(mode := Paused);
    } else if t.mode == StepCycle {
      v := Stepped(board, t, 1).(mode := Paused);
    } else {
      v := WholeFrame(board, t);
    }
  }

  lemma LiveRefreshes<S(!new)>(board: Board<S>, t: Snapshot<S>, u: Snapshot<S>, ran: bool) returns (v: Snapshot<S>)
    requires LiveRun(board, t, u, ran)
    ensures u == Refreshed(board, v) && SameSets(t, v)
  {
    SetsMove(board, t);
    hide Refreshed, Ran, Broken, FirstStop, StopsAt, Framed;
    if board.cyclesPerFrame == 0 {
      v := Framed(board, t).(frames := t.frames + 1);
    } else if ran {
      v := Ran(board, t, board.cyclesPerFrame).(frames := t.frames + 1);
    } else {
      var n :| 0 < n <= board.cyclesPerFrame && FirstStop(board, t, n) && StopsAt(board, t, n)
        && u == Refreshed(board, Broken(board, t, n));
      v := Broken(board, t, n);
    }
  }

  /** On a machine without processors to debug there is nothing to make ready. */
  lemma NothingToReady<S(!new)>(board: Board<S>, s: Snapshot<S>, take: bool, u: Snapshot<S>, ran: bool)
    requires Executed(board, s, take, u, ran) && s.active && (!board.hasDebugBus || board.cpus == 0)
    requires !(take && (s.mode == StepInstruction || s.mode == StepCycle))
    ensures u.breakpoints == s.breakpoints && u.stepCpu == s.stepCpu
  {
    var v := RefreshesLast(board, s, take, u, ran);
    hide Executed;
  }

  // The hits waiting after a frame that is run whole.
  ghost predicate QueuesFrameHits<S(!new)>(board: Board<S>, before: S, watches: seq<Watch>, waiting: seq<Hit>, now: seq<Hit>) {
    var all := waiting + if board.hasDebugBus then board.frameHits(before, watches) else [];
    |waiting| <= 4096 ==> now == if |all| <= 4096 then all else all[..4096]
  }

  /** A frame that is run whole, in a take, with the debugger closed, or on a board without a
      cycle count, queues what the watchpoints on the machine saw in it behind what waited. */
  lemma WholeFramesQueueHits<S(!new)>(board: Board<S>, s: Snapshot<S>, take: bool, u: Snapshot<S>)
    requires Executed(board, s, take, u, true) && (take || !s.active || board.cyclesPerFrame == 0)
    requires !s.active || s.suspended || !s.dirty
    ensures QueuesFrameHits(board, s.core, s.watches, s.pending, u.pending)
  {
    FramedQueues(board, s);
    RefreshingMovesNothing(board);
    hide Refreshed, Framed, Stepped, Ran, Broken, StopsAt, FirstStop, FirstBoundary, HasAnyBreakpoints, QueuesFrameHits;
  }

  lemma FramedQueues<S(!new)>(board: Board<S>, s: Snapshot<S>)
    ensures QueuesFrameHits(board, s.core, s.watches, s.pending, Framed(board, s).pending)
  {
  }

  /** The panel's list is the latest 256 hits ever drained, oldest first, or all of them. */
  lemma HistoryIsTheLatest(seen: seq<Hit>)
    ensures Newest(seen) == if |seen| < 256 then seen else seen[|seen| - 256..]
  {
  }

  lemma {:induction false} PaddedIs(breakpoints: seq<set<u32>>, n: nat)
    ensures |Padded(breakpoints, n)| >= n && breakpoints <= Padded(breakpoints, n)
    ensures forall i :: |breakpoints| <= i < |Padded(breakpoints, n)| ==> Padded(breakpoints, n)[i] == {}
    decreases n - |breakpoints|
  {
    if |breakpoints| < n {
      PaddedIs(breakpoints + [{}], n);
      var all := Padded(breakpoints, n);
      assert all == Padded(breakpoints + [{}], n) && breakpoints + [{}] <= all;
      assert all[..|breakpoints|] == (breakpoints + [{}])[..|breakpoints|];
      assert all[|breakpoints|] == {};
    }
  }

  // The pieces of a call before its last refresh.
  lemma SetsMove<S(!new)>(board: Board<S>, t: Snapshot<S>)
    ensures forall n: nat :: SameSets(t, Stepped(board, t, n)) && SameSets(t, Ran(board, t, n))
    ensures forall n: nat | n > 0 :: SameSets(t, Broken(board, t, n))
    ensures SameSets(t, WholeFrame(board, t)) && SameSets(t, TakeFrame(board, t)) && SameSets(t, Framed(board, t))
  {
    hide Taken, QueueAt, PcStop, CycleStop, Piled, HasAnyBreakpoints, Ticked;
  }

  ghost predicate SameSets<S(!new)>(t: Snapshot<S>, u: Snapshot<S>) {
    u.breakpoints == t.breakpoints && u.stepCpu == t.stepCpu
  }

  /** Each of them stops the run by itself. */
  lemma EachBreakStops<S(!new)>(board: Board<S>, s: Snapshot<S>, u: Snapshot<S>, ran: bool, i: nat)
    requires Executed(board, s, false, u, ran) && RunsLive(board, s) && 0 < i <= board.cyclesPerFrame
    requires || (s.cycleBreak.Some? && s.cycles + i >= s.cycleBreak.value)
             || AtBreakpoint(board, s, i)
             || (s.watchpoints != [] && board.hasDebugBus && board.hits(Ticked(board, s.core, i - 1), s.watches) != [])
    ensures !ran && u.mode == Paused && u.cycles <= s.cycles + i
  {
    LiveRunIs(board, s, u, ran);
    hide Executed, AtBreakpoint, Ticked;
    assert Due(board, s, i);
  }

  /** The frame target holds the machine before a frame runs, in a take as well as live, and
      is spent by it. */
  lemma FrameTargetHolds<S(!new)>(board: Board<S>, s: Snapshot<S>, take: bool, u: Snapshot<S>, ran: bool)
    requires Executed(board, s, take, u, ran) && s.active && s.mode == Running
    requires s.frameBreak.Some? && s.frames >= s.frameBreak.value
    ensures !ran && u.mode == Paused && u.frameBreak == None
    ensures u.core == s.core && u.frames == s.frames && u.cycles == s.cycles
  {
    hide LiveStep, TakeFrame;
  }

  /** With the debugger closed only running and a frame step run a frame, the board's own,
      and everything but running holds afterwards. */
  lemma ClosedRunsFrames<S(!new)>(board: Board<S>, s: Snapshot<S>, take: bool, u: Snapshot<S>, ran: bool)
    requires Executed(board, s, take, u, ran) && !s.active
    ensures ran <==> s.mode == Running || s.mode == StepFrame
    ensures u.core == (if ran then board.runFrame(s.core) else s.core)
    ensures u.frames == s.frames + (if ran then 1 else 0) && u.cycles == s.cycles
    ensures u.mode == if s.mode == Running then Running else Paused
  {
    hide OpenStep;
  }

  /** An instruction step ticks up to the chosen processor's next boundary and no further. */
  lemma InstructionStepIs<S(!new)>(board: Board<S>, s: Snapshot<S>, u: Snapshot<S>, ran: bool)
    requires Executed(board, s, false, u, ran) && s.active && s.mode == StepInstruction
    ensures var n := u.cycles - s.cycles;
      && !ran && n > 0 && u.mode == Paused && u.frames == s.frames && u.core == Ticked(board, s.core, n)
      && board.boundary(Ticked(board, s.core, n - 1), s.stepCpu)
      && forall i :: 0 <= i < n - 1 ==> !board.boundary(Ticked(board, s.core, i), s.stepCpu)
  {
    PiecesMove(board, Synced(s));
    RefreshingMovesNothing(board);
    hide Stepped, Refreshed, LiveRun, Ran, Broken, WholeFrame;
  }

  /** Changed watchpoints replace the machine's, each once and in order, unless a take
      suspends them; what was queued for the old ones goes with them. Otherwise the open
      debugger leaves the machine's as they are. */
  lemma WatchpointsArrive<S(!new)>(board: Board<S>, s: Snapshot<S>, take: bool, u: Snapshot<S>, ran: bool)
    requires Executed(board, s, take, u, ran) && s.active
    ensures if s.dirty && !s.suspended then !u.dirty && u.watches == Watching(s.watchpoints)
            else u.dirty == s.dirty && u.watches == s.watches
    ensures forall w :: w in Watching(s.watchpoints) <==> w in s.watchpoints
    ensures forall i, j :: 0 <= i < j < |Watching(s.watchpoints)| ==>
              Watching(s.watchpoints)[i] != Watching(s.watchpoints)[j]
    ensures s.dirty && !s.suspended && s.mode == Paused ==> u.pending == []
  {
    WatchingIs(s.watchpoints);
    PiecesMove(board, Synced(s));
    RefreshingMovesNothing(board);
    hide Stepped, Ran, Broken, Refreshed, StopsAt, FirstStop, FirstBoundary, HasAnyBreakpoints, Watching;
  }

  lemma {:induction false} WatchingIs(watchpoints: seq<Watch>)
    ensures forall w :: w in Watching(watchpoints) <==> w in watchpoints
    ensures forall i, j :: 0 <= i < j < |Watching(watchpoints)| ==> Watching(watchpoints)[i] != Watching(watchpoints)[j]
    decreases |watchpoints|
  {
    if watchpoints != [] {
      var n := |watchpoints| - 1;
      WatchingIs(watchpoints[..n]);
      assert watchpoints == watchpoints[..n] + [watchpoints[n]];
    }
  }

  // ---------------------------------------------------------------------------
  // Whole sessions
  // ---------------------------------------------------------------------------

  // Anything a user may change between two calls while the debugger stays open.
  ghost predicate Edited<S(!new)>(s: Snapshot<S>, u: Snapshot<S>) {
    u.core == s.core && u.cycles == s.cycles && u.active
  }

  ghost predicate LiveCall<S(!new)>(board: Board<S>, s: Snapshot<S>, u: Snapshot<S>) {
    s.active && (Executed(board, s, false, u, true) || Executed(board, s, false, u, false))
  }

  ghost predicate LiveSession<S(!new)>(board: Board<S>, trace: seq<Snapshot<S>>) {
    && |trace| > 0
    && forall i :: 0 < i < |trace| ==>
         LiveCall(board, trace[i - 1], trace[i]) || (trace[i - 1].active && Edited(trace[i - 1], trace[i]))
  }

  /** Debugging never perturbs the machine: after any sequence of calls and edits the core
      is the tick applied exactly as often as the cycle counter says, no cycle lost or
      repeated by any step or break. */
  lemma {:induction false} DebuggingIsTransparent<S(!new)>(board: Board<S>, trace: seq<Snapshot<S>>)
    requires LiveSession(board, trace) && board.cyclesPerFrame > 0
    ensures var first, last := trace[0], trace[|trace| - 1];
      last.cycles >= first.cycles && last.core == Ticked(board, first.core, last.cycles - first.cycles)
    decreases |trace|
  {
    hide Executed;
    var k := |trace| - 1;
    if k > 0 {
      var shorter := trace[..k];
      assert LiveSession(board, shorter) by {
        forall i | 0 < i < |shorter|
          ensures LiveCall(board, shorter[i - 1], shorter[i])
               || (shorter[i - 1].active && Edited(shorter[i - 1], shorter[i]))
        {
          assert shorter[i - 1] == trace[i - 1] && shorter[i] == trace[i];
        }
      }
      DebuggingIsTransparent(board, shorter);
      var s, u := trace[k - 1], trace[k];
      if LiveCall(board, s, u) {
        CycleAccounting(board, s, false, u, Executed(board, s, false, u, true));
        TickedAdds(board, trace[0].core, s.cycles - trace[0].cycles, u.cycles - s.cycles);
      }
    }
  }

  /** Two sessions on the same machine that count the same cycles leave it the same,
      however each was cut into frames, instructions and cycles. */
  lemma SameCyclesSameMachine<S(!new)>(board: Board<S>, one: seq<Snapshot<S>>, other: seq<Snapshot<S>>)
    requires LiveSession(board, one) && LiveSession(board, other) && board.cyclesPerFrame > 0
    requires one[0].core == other[0].core && one[0].cycles == other[0].cycles
    requires one[|one| - 1].cycles == other[|other| - 1].cycles
    ensures one[|one| - 1].core == other[|other| - 1].core
  {
    DebuggingIsTransparent(board, one);
    DebuggingIsTransparent(board, other);
  }

  // ---------------------------------------------------------------------------
  // Watchpoint hits
  // ---------------------------------------------------------------------------

  ghost predicate Checked<S(!new)>(t: Snapshot<S>) {
    t.mode != Paused && !FrameBreakDue(t) && (t.mode == Running ==> HasAnyBreakpoints(t))
  }

  /** Every hit a live call's ticks queued is in the history or still in the queue, in
      the order it was raised, once. */
  lemma HitsAreKept<S(!new)>(board: Board<S>, s: Snapshot<S>, u: Snapshot<S>, ran: bool)
    requires Executed(board, s, false, u, ran) && s.active && board.cyclesPerFrame > 0
    requires Checked(Synced(s))
    ensures u.cycles >= s.cycles
         && u.seen + u.pending == s.seen + Taken(board, Synced(s), u.cycles - s.cycles)
  {
    PiecesMove(board, Synced(s));
    RefreshingMovesNothing(board);
    hide Ran, Broken, Stepped, Refreshed, HasAnyBreakpoints, StopsAt, FirstStop, Taken;
    var t, n := Synced(s), u.cycles - s.cycles;
    if t.mode == Running && !ran {
      BrokenKeepsHits(board, t, n);
    } else {
      SteppedKeepsHits(board, t, n);
    }
  }

  lemma SteppedKeepsHits<S(!new)>(board: Board<S>, t: Snapshot<S>, n: nat)
    requires n > 0
    ensures Stepped(board, t, n).seen + Stepped(board, t, n).pending == t.seen + Taken(board, t, n)
    ensures HasAnyBreakpoints(t) ==> Ran(board, t, n) == Stepped(board, t, n)
  {
  }

  lemma BrokenKeepsHits<S(!new)>(board: Board<S>, t: Snapshot<S>, n: nat)
    requires n > 0
    ensures Broken(board, t, n).seen + Broken(board, t, n).pending == t.seen + Taken(board, t, n)
  {
    TakenOneMore(board, t, n);
    hide CycleStop, PcStop, QueueAt, Taken, Ticked;
  }

  lemma TakenOneMore<S(!new)>(board: Board<S>, t: Snapshot<S>, n: nat)
    requires n > 0
    ensures Stepped(board, t, n - 1).seen + QueueAt(board, t, n) == t.seen + Taken(board, t, n)
  {
    hide QueueAt;
    var q := QueueAt(board, t, n);
    assert t.seen + Taken(board, t, n - 1) + q == t.seen + (Taken(board, t, n - 1) + q);
    if n == 1 {
      assert t.seen + Taken(board, t, 0) == t.seen;
    }
  }

  /** A break leaves hits queued exactly when a cycle or instruction breakpoint stopped
      the tick that raised them: those two return before the drain. */
  lemma HitsLeftBehind<S(!new)>(board: Board<S>, s: Snapshot<S>, u: Snapshot<S>)
    requires Executed(board, s, false, u, false)
    requires s.active && s.mode == Running && !FrameBreakDue(s) && board.cyclesPerFrame > 0
    ensures var t, n := Synced(s), u.cycles - s.cycles;
      n > 0 && (u.pending != [] <==>
        (CycleStop(t, n) || PcStop(board, t, n)) && QueueAt(board, t, n) != [])
  {
    RefreshingMovesNothing(board);
    hide Refreshed, HasAnyBreakpoints, StopsAt, CycleStop, PcStop, QueueAt, FirstStop, Taken;
  }

  /** And a hit left behind breaks the next run at its first tick, wherever that is. */
  lemma LeftoverBreaksNextRun<S(!new)>(board: Board<S>, s: Snapshot<S>, u: Snapshot<S>, ran: bool)
    requires Executed(board, s, false, u, ran)
    requires s.active && s.mode == Running && !FrameBreakDue(s) && board.cyclesPerFrame > 0
    requires s.pending != [] && HasAnyBreakpoints(s) && (!s.dirty || s.suspended)
    ensures !ran && u.cycles == s.cycles + 1
  {
    RunStopsAtFirst(board, s, u, ran);
    assert StopsAt(board, s, 1);
  }

  // ---------------------------------------------------------------------------
  // A step is so many cycles
  // ---------------------------------------------------------------------------

  // Calls that each step one cycle, the mode armed again before each.
  ghost predicate CycleSteps<S(!new)>(board: Board<S>, trace: seq<Snapshot<S>>) {
    && |trace| > 0
    && forall i :: 0 < i < |trace| ==>
         Executed(board, trace[i - 1].(mode := StepCycle), false, trace[i], false)
  }

  /** A frame step is as many cycle steps: machine, counter, history and queue alike. */
  lemma FrameStepIsCycleSteps<S(!new)>(board: Board<S>, s: Snapshot<S>, u: Snapshot<S>, trace: seq<Snapshot<S>>)
    requires s.active && s.mode == StepFrame && board.cyclesPerFrame > 0
    requires Executed(board, s, false, u, true)
    requires CycleSteps(board, trace) && trace[0] == s && |trace| == board.cyclesPerFrame + 1
    ensures var v := trace[|trace| - 1];
      u.core == v.core && u.cycles == v.cycles && u.seen == v.seen && u.pending == v.pending
      && u.watches == v.watches && u.mode == v.mode && u.frames == v.frames + 1
  {
    hide Executed, Stepped;
    CycleStepsAre(board, trace);
    StepFrameIs(board, s, u);
  }

  lemma StepFrameIs<S(!new)>(board: Board<S>, s: Snapshot<S>, u: Snapshot<S>)
    requires s.active && s.mode == StepFrame && board.cyclesPerFrame > 0
    requires Executed(board, s, false, u, true)
    ensures u == Refreshed(board, Stepped(board, Synced(s), board.cyclesPerFrame).(frames := s.frames + 1, mode := Paused))
    ensures Stepped(board, Synced(s), board.cyclesPerFrame).frames == s.frames
  {
    hide Taken, LiveRun;
  }

  // Everything but the mode, the breakpoint list and the chosen processor.
  ghost predicate SameRun<S(!new)>(u: Snapshot<S>, v: Snapshot<S>) {
    u == v.(mode := u.mode, breakpoints := u.breakpoints, stepCpu := u.stepCpu)
  }

  lemma CycleStepIs<S(!new)>(board: Board<S>, s: Snapshot<S>, u: Snapshot<S>)
    requires s.active && Executed(board, s.(mode := StepCycle), false, u, false)
    ensures SameRun(u, Drained(board, Synced(s))) && u.mode == Paused
    ensures u.active && (u.suspended || !u.dirty)
  {
    hide LiveRun, FirstBoundary;
    SteppedOnce(board, Synced(s.(mode := StepCycle)), 0);
  }

  lemma {:induction false} CycleStepsAre<S(!new)>(board: Board<S>, trace: seq<Snapshot<S>>)
    requires CycleSteps(board, trace) && |trace| > 1 && trace[0].active
    ensures var n := |trace| - 1;
      SameRun(trace[n], Stepped(board, Synced(trace[0]), n)) && trace[n].mode == Paused
      && trace[n].active && (trace[n].suspended || !trace[n].dirty)
    decreases |trace|
  {
    hide Executed, Stepped, TickHits, Queued;
    var n := |trace| - 1;
    var t := Synced(trace[0]);
    SteppedOnce(board, t, n - 1);
    if n == 1 {
      SteppedNothing(board, t);
      CycleStepIs(board, trace[0], trace[1]);
    } else {
      var shorter := trace[..n];
      assert CycleSteps(board, shorter) by {
        forall i | 0 < i < |shorter|
          ensures Executed(board, shorter[i - 1].(mode := StepCycle), false, shorter[i], false)
        {
          assert shorter[i - 1] == trace[i - 1] && shorter[i] == trace[i];
        }
      }
      CycleStepsAre(board, shorter);
      assert shorter[n - 1] == trace[n - 1];
      CycleStepIs(board, trace[n - 1], trace[n]);
    }
  }
}
