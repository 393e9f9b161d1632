/** The debugger's frame executor: run mode, breakpoints, watchpoints and takes. */
module Debugger {
  import opened Basics
  import opened MachineModel

  datatype RunMode = Running | Paused | StepInstruction | StepCycle | StepFrame

  const WATCHPOINT_HISTORY: nat := 256

  // The newest entries of a history that drops its oldest.
  function Newest(seen: seq<Hit>): seq<Hit> {
    if |seen| <= WATCHPOINT_HISTORY then seen else seen[|seen| - WATCHPOINT_HISTORY..]
  }

  // ---------------------------------------------------------------------------
  // What one call does, as a relation between two snapshots
  // ---------------------------------------------------------------------------

  /** The machine and the debugger together. `seen` is every hit ever drained. */
  datatype Snapshot<!S(!new)> = Snapshot(
    core: S, watches: seq<Watch>, pending: seq<Hit>,
    active: bool, mode: RunMode, frames: nat, cycles: nat,
    breakpoints: seq<set<u32>>, cycleBreak: Option<nat>, frameBreak: Option<nat>,
    watchpoints: seq<Watch>, dirty: bool, suspended: bool,
    seen: seq<Hit>, stepCpu: nat)

  function Ticked<S(!new)>(board: Board<S>, s: S, n: nat): S {
    if n == 0 then s else board.tick(Ticked(board, s, n - 1))
  }

  function CpuCount<S(!new)>(board: Board<S>): nat {
    if board.hasDebugBus then board.cpus else 0
  }

  function Padded(breakpoints: seq<set<u32>>, n: nat): (r: seq<set<u32>>)
    decreases n - |breakpoints|
  {
    if |breakpoints| >= n then breakpoints else Padded(breakpoints + [{}], n)
  }

  // One set of breakpoints a processor, and a step target that exists.
  function Refreshed<S(!new)>(board: Board<S>, t: Snapshot<S>): Snapshot<S>
  {
    t.(breakpoints := Padded(t.breakpoints, CpuCount(board)),
       stepCpu := if t.stepCpu >= CpuCount(board) && CpuCount(board) > 0 then 0 else t.stepCpu)
  }

  lemma RefreshedMode<S(!new)>(board: Board<S>, t: Snapshot<S>)
    ensures Refreshed(board, t).(mode := Paused) == Refreshed(board, t.(mode := Paused))
  {
  }

  function Watching(watchpoints: seq<Watch>): seq<Watch> {
    if watchpoints == [] then []
    else WithWatch(Watching(watchpoints[..|watchpoints| - 1]), watchpoints[|watchpoints| - 1])
  }

  // Changed watchpoints reach the machine, unless a take suspends them.
  function Synced<S(!new)>(t: Snapshot<S>): Snapshot<S> {
    if t.suspended || !t.dirty then t
    else t.(dirty := false, watches := Watching(t.watchpoints), pending := [])
  }

  function Framed<S(!new)>(board: Board<S>, t: Snapshot<S>): Snapshot<S> {
    t.(core := board.runFrame(t.core), pending := Queued(t.pending, FrameHits(board, t.core, t.watches)))
  }

  // The queue right after tick `i`, when every earlier tick's hits were taken.
  function QueueAt<S(!new)>(board: Board<S>, t: Snapshot<S>, i: nat): seq<Hit>
    requires i > 0
  {
    Queued(if i == 1 then t.pending else [], TickHits(board, Ticked(board, t.core, i - 1), t.watches))
  }

  function Taken<S(!new)>(board: Board<S>, t: Snapshot<S>, n: nat): seq<Hit> {
    if n == 0 then [] else Taken(board, t, n - 1) + QueueAt(board, t, n)
  }

  // Nothing takes hits.
  function Piled<S(!new)>(board: Board<S>, t: Snapshot<S>, n: nat): seq<Hit> {
    if n == 0 then t.pending
    else Queued(Piled(board, t, n - 1), TickHits(board, Ticked(board, t.core, n - 1), t.watches))
  }

  // `n` ticks, each followed by taking every hit.
  function Stepped<S(!new)>(board: Board<S>, t: Snapshot<S>, n: nat): Snapshot<S>
  {
    if n == 0 then t
    else t.(core := Ticked(board, t.core, n), cycles := t.cycles + n, pending := [],
            seen := t.seen + Taken(board, t, n))
  }

  // The snapshot one tick and one drain later.
  function Drained<S(!new)>(board: Board<S>, t: Snapshot<S>): Snapshot<S> {
    t.(core := board.tick(t.core), cycles := t.cycles + 1, pending := [],
       seen := t.seen + Queued(t.pending, TickHits(board, t.core, t.watches)))
  }

  lemma SteppedOnce<S(!new)>(board: Board<S>, t: Snapshot<S>, n: nat)
    ensures Stepped(board, t, n + 1) == Drained(board, Stepped(board, t, n))
    ensures Stepped(board, t, n).core == Ticked(board, t.core, n)
  {
    var q := QueueAt(board, t, n + 1);
    assert t.seen + (Taken(board, t, n) + q) == t.seen + Taken(board, t, n) + q;
    if n == 0 {
      assert Taken(board, t, 0) == [];
    }
  }

  ghost predicate HasAnyBreakpoints<S(!new)>(t: Snapshot<S>) {
    t.cycleBreak.Some? || (exists i :: 0 <= i < |t.breakpoints| && t.breakpoints[i] != {})
    || t.watchpoints != []
  }

  ghost predicate CycleStop<S(!new)>(t: Snapshot<S>, i: nat) {
    t.cycleBreak.Some? && t.cycles + i >= t.cycleBreak.value
  }

  // A processor that just finished an instruction is at one of its breakpoints.
  ghost predicate PcStopOf<S(!new)>(board: Board<S>, breakpoints: seq<set<u32>>, before: S, cpu: nat) {
    board.boundary(before, cpu) && cpu < |breakpoints|
    && board.pc(board.tick(before), cpu) in breakpoints[cpu]
  }

  ghost predicate PcStopFrom<S(!new)>(board: Board<S>, breakpoints: seq<set<u32>>, before: S) {
    exists cpu :: 0 <= cpu < CpuCount(board) && PcStopOf(board, breakpoints, before, cpu)
  }

  ghost predicate PcStop<S(!new)>(board: Board<S>, t: Snapshot<S>, i: nat)
    requires i > 0
  {
    PcStopFrom(board, t.breakpoints, Ticked(board, t.core, i - 1))
  }

  ghost predicate StopsAt<S(!new)>(board: Board<S>, t: Snapshot<S>, i: nat)
    requires i > 0
  {
    HasAnyBreakpoints(t)
    && (CycleStop(t, i) || PcStop(board, t, i) || QueueAt(board, t, i) != [])
  }

  // A live run that is still going after `n` ticks.
  ghost function Ran<S(!new)>(board: Board<S>, t: Snapshot<S>, n: nat): Snapshot<S>
  {
    if HasAnyBreakpoints(t) then Stepped(board, t, n)
    else t.(core := Ticked(board, t.core, n), cycles := t.cycles + n, pending := Piled(board, t, n))
  }

  // A live run that broke at tick `n`. Only a watchpoint break takes that tick's hits.
  ghost function Broken<S(!new)>(board: Board<S>, t: Snapshot<S>, n: nat): Snapshot<S>
    requires n > 0
  {
    var u := Stepped(board, t, n - 1).(core := Ticked(board, t.core, n), cycles := t.cycles + n, mode := Paused);
    if CycleStop(t, n) then u.(cycleBreak := None, pending := QueueAt(board, t, n))
    else if PcStop(board, t, n) then u.(pending := QueueAt(board, t, n))
    else u.(pending := [], seen := t.seen + Taken(board, t, n))
  }

  // The same, one tick at a time: a machine that just ticked from `before`.
  ghost predicate BreaksNow<S(!new)>(board: Board<S>, u: Snapshot<S>, before: S) {
    CycleStop(u, 0) || PcStopFrom(board, u.breakpoints, before) || u.pending != []
  }

  ghost function AfterBreaks<S(!new)>(board: Board<S>, u: Snapshot<S>, before: S): Snapshot<S> {
    if CycleStop(u, 0) then u.(cycleBreak := None, mode := Paused)
    else if PcStopFrom(board, u.breakpoints, before) then u.(mode := Paused)
    else u.(pending := [], seen := u.seen + u.pending, mode := if u.pending != [] then Paused else u.mode)
  }

  function JustTicked<S(!new)>(board: Board<S>, r: Snapshot<S>): Snapshot<S> {
    r.(core := board.tick(r.core), cycles := r.cycles + 1,
       pending := Queued(r.pending, TickHits(board, r.core, r.watches)))
  }

  lemma TickedFree<S(!new)>(board: Board<S>, t: Snapshot<S>, n: nat)
    requires !HasAnyBreakpoints(t)
    ensures Ran(board, t, n + 1) == JustTicked(board, Ran(board, t, n))
  {
  }

  lemma TickedChecked<S(!new)>(board: Board<S>, t: Snapshot<S>, n: nat)
    requires HasAnyBreakpoints(t)
    ensures var r := Ran(board, t, n);
      && StopsAt(board, t, n + 1) == BreaksNow(board, JustTicked(board, r), r.core)
      && AfterBreaks(board, JustTicked(board, r), r.core)
         == if StopsAt(board, t, n + 1) then Broken(board, t, n + 1) else Ran(board, t, n + 1)
  {
    hide HasAnyBreakpoints, PcStopFrom;
    SteppedOnce(board, t, n);
    var u := JustTicked(board, Ran(board, t, n));
    assert u.pending == QueueAt(board, t, n + 1);
    assert u.core == Ticked(board, t.core, n + 1) && u.cycles == t.cycles + n + 1;
    assert Drained(board, Stepped(board, t, n)) == u.(pending := [], seen := u.seen + u.pending);
  }

  lemma NoStop<S(!new)>(board: Board<S>, t: Snapshot<S>, n: nat)
    requires n > 0 && !HasAnyBreakpoints(t)
    ensures !StopsAt(board, t, n)
  {
  }

  ghost predicate FirstBoundary<S(!new)>(board: Board<S>, t: Snapshot<S>, n: nat) {
    && n > 0 && board.boundary(Ticked(board, t.core, n - 1), t.stepCpu)
    && forall i :: 0 <= i < n - 1 ==> !board.boundary(Ticked(board, t.core, i), t.stepCpu)
  }

  ghost predicate FirstStop<S(!new)>(board: Board<S>, t: Snapshot<S>, n: nat) {
    n > 0 && forall i :: 0 < i < n ==> !StopsAt(board, t, i)
  }

  lemma SteppedNothing<S(!new)>(board: Board<S>, t: Snapshot<S>)
    ensures Stepped(board, t, 0) == t
  {
  }

  lemma RanNothing<S(!new)>(board: Board<S>, t: Snapshot<S>)
    ensures Ran(board, t, 0) == t
  {
  }

  lemma RanFrames<S(!new)>(board: Board<S>, t: Snapshot<S>, n: nat)
    ensures Ran(board, t, n).frames == t.frames
  {
  }

  ghost predicate ClosedStep<S(!new)>(board: Board<S>, s: Snapshot<S>, u: Snapshot<S>, ran: bool) {
    match s.mode
    case Paused => !ran && u == s
    case StepFrame => ran && u == Framed(board, s).(frames := s.frames + 1, mode := Paused)
    case StepInstruction => !ran && u == s.(mode := Paused)
    case StepCycle => !ran && u == s.(mode := Paused)
    case Running => ran && u == Framed(board, s).(frames := s.frames + 1)
  }

  predicate SubFrame(mode: RunMode) {
    mode == StepInstruction || mode == StepCycle
  }

  ghost predicate FrameBreakDue<S(!new)>(t: Snapshot<S>) {
    t.mode == Running && t.frameBreak.Some? && t.frames >= t.frameBreak.value
  }

  function TakeFrame<S(!new)>(board: Board<S>, t: Snapshot<S>): Snapshot<S> {
    Framed(board, t).(frames := t.frames + 1, cycles := t.cycles + board.cyclesPerFrame,
                      mode := if t.mode == StepFrame then Paused else Running)
  }

  ghost predicate LiveRun<S(!new)>(board: Board<S>, t: Snapshot<S>, u: Snapshot<S>, ran: bool) {
    if board.cyclesPerFrame == 0 then
      ran && u == Refreshed(board, Framed(board, t).(frames := t.frames + 1))
    else if ran then
      && FirstStop(board, t, board.cyclesPerFrame + 1)
      && u == Refreshed(board, Ran(board, t, board.cyclesPerFrame).(frames := t.frames + 1))
    else
      exists n :: 0 < n <= board.cyclesPerFrame && FirstStop(board, t, n) && StopsAt(board, t, n)
               && u == Refreshed(board, Broken(board, t, n))
  }

  // A frame step: every tick of the frame, whatever it raises.
  function WholeFrame<S(!new)>(board: Board<S>, t: Snapshot<S>): Snapshot<S> {
    (if board.cyclesPerFrame > 0 then Stepped(board, t, board.cyclesPerFrame) else Framed(board, t))
      .(frames := t.frames + 1, mode := Paused)
  }

  lemma WholeFrameFrames<S(!new)>(board: Board<S>, t: Snapshot<S>, n: nat)
    ensures Stepped(board, t, n).frames == t.frames && Framed(board, t).frames == t.frames
  {
  }

  ghost predicate LiveStep<S(!new)>(board: Board<S>, t: Snapshot<S>, u: Snapshot<S>, ran: bool) {
    match t.mode
    case Running => LiveRun(board, t, u, ran)
    case Paused => !ran && u == Refreshed(board, t)
    case StepInstruction =>
      !ran && exists n :: FirstBoundary(board, t, n)
                       && u == Refreshed(board, Stepped(board, t, n).(mode := Paused))
    case StepCycle => !ran && u == Refreshed(board, Stepped(board, t, 1).(mode := Paused))
    case StepFrame =>
      ran && u == Refreshed(board, WholeFrame(board, t))
  }

  ghost predicate OpenStep<S(!new)>(board: Board<S>, t: Snapshot<S>, take: bool, u: Snapshot<S>, ran: bool) {
    if take && SubFrame(t.mode) then !ran && u == t.(mode := Paused)
    else if FrameBreakDue(t) then !ran && u == Refreshed(board, t.(frameBreak := None, mode := Paused))
    else if take && t.mode != Paused then ran && u == Refreshed(board, TakeFrame(board, t))
    else LiveStep(board, t, u, ran)
  }

  ghost predicate Executed<S(!new)>(board: Board<S>, s: Snapshot<S>, take: bool, u: Snapshot<S>, ran: bool) {
    if s.active then OpenStep(board, Synced(s), take, u, ran) else ClosedStep(board, s, u, ran)
  }

  // ---------------------------------------------------------------------------
  // The executor
  // ---------------------------------------------------------------------------

  class DebugState {
    var active: bool
    var mode: RunMode
    var frameCount: nat
    var cycleCount: nat
    var breakpoints: seq<set<u32>>
    var cycleBreakpoint: Option<nat>
    var frameBreakpoint: Option<nat>
    var watchpoints: seq<Watch>
    var watchpointsDirty: bool
    var watchpointsSuspended: bool
    var watchpointHits: seq<Hit>
    var stepCpu: nat
    ghost var seen: seq<Hit>

    /** The history is the newest of everything ever drained, oldest first. */
    ghost predicate Valid()
      reads this`watchpointHits, this`seen
    {
      watchpointHits == Newest(seen)
    }

    ghost function Snap<S(!new)>(m: Machine<S>): Snapshot<S>
      reads this, m
    {
      Snapshot(m.core, m.watches, m.pending, active, mode, frameCount, cycleCount, breakpoints,
               cycleBreakpoint, frameBreakpoint, watchpoints, watchpointsDirty, watchpointsSuspended,
               seen, stepCpu)
    }

    constructor ()
      ensures Valid() && seen == []
      ensures !active && mode == Running && frameCount == 0 && cycleCount == 0
      ensures breakpoints == [] && cycleBreakpoint == None && frameBreakpoint == None
      ensures watchpoints == [] && !watchpointsDirty && !watchpointsSuspended && stepCpu == 0
    {
      active, mode, frameCount, cycleCount, breakpoints := false, Running, 0, 0, [];
      cycleBreakpoint, frameBreakpoint, watchpoints := None, None, [];
      watchpointsDirty, watchpointsSuspended, watchpointHits, stepCpu := false, false, [], 0;
      seen := [];
    }

    method PushWatchpointHit(hit: Hit)
      requires Valid()
      modifies this`watchpointHits, this`seen
      ensures Valid() && seen == old(seen) + [hit]
    {
      if |watchpointHits| >= WATCHPOINT_HISTORY {
        watchpointHits := watchpointHits[1..];
      }
      watchpointHits := watchpointHits + [hit];
      seen := seen + [hit];
    }

    method HasAny<S(!new)>(ghost m: Machine<S>) returns (any: bool)
      ensures any == HasAnyBreakpoints(Snap(m))
    {
      any := cycleBreakpoint.Some?;
      for i := 0 to |breakpoints|
        invariant any <==> cycleBreakpoint.Some? || exists j :: 0 <= j < i && breakpoints[j] != {}
      {
        any := any || breakpoints[i] != {};
      }
      any := any || watchpoints != [];
    }

    method Refresh<S(!new)>(m: Machine<S>)
      modifies this`breakpoints, this`stepCpu
      ensures Snap(m) == Refreshed(m.board, old(Snap(m)))
    {
      if m.board.hasDebugBus {
        while |breakpoints| < m.board.cpus
          invariant Padded(breakpoints, m.board.cpus) == Padded(old(breakpoints), m.board.cpus)
          invariant stepCpu == old(stepCpu)
        {
          breakpoints := breakpoints + [{}];
        }
        if stepCpu >= m.board.cpus && m.board.cpus > 0 {
          stepCpu := 0;
        }
      }
    }

    method AddBreakpoint(cpu: nat, addr: u32)
      modifies this`breakpoints
      ensures cpu < |Padded(old(breakpoints), cpu + 1)|
      ensures breakpoints == Padded(old(breakpoints), cpu + 1)[cpu := Padded(old(breakpoints), cpu + 1)[cpu] + {addr}]
    {
      while |breakpoints| <= cpu
        invariant Padded(breakpoints, cpu + 1) == Padded(old(breakpoints), cpu + 1)
      {
        breakpoints := breakpoints + [{}];
      }
      breakpoints := breakpoints[cpu := breakpoints[cpu] + {addr}];
    }

    method DrainWatchpointHits<S(!new)>(m: Machine<S>) returns (any: bool)
      requires Valid()
      modifies this`watchpointHits, this`seen, m`pending
      ensures Valid()
      ensures Snap(m) == old(Snap(m)).(pending := [], seen := old(seen) + old(m.pending))
      ensures any <==> old(m.pending) != []
    {
      any := false;
      var hit := m.TakeWatchpointHit();
      while hit.Some?
        invariant Valid()
        invariant any <==> |m.pending| + (if hit.Some? then 1 else 0) < |old(m.pending)|
        invariant hit == None ==> m.pending == []
        invariant seen + (if hit.Some? then [hit.value] else []) + m.pending == old(seen) + old(m.pending)
        decreases |m.pending| + (if hit.Some? then 1 else 0)
      {
        PushWatchpointHit(hit.value);
        any := true;
        hit := m.TakeWatchpointHit();
      }
    }

    method SyncWatchpoints<S(!new)>(m: Machine<S>)
      modifies this`watchpointsDirty, m`watches, m`pending
      ensures Snap(m) == Synced(old(Snap(m)))
    {
      if !watchpointsSuspended && watchpointsDirty {
        watchpointsDirty := false;
        m.ClearAllWatchpoints();
        for i := 0 to |watchpoints|
          invariant m.watches == Watching(watchpoints[..i]) && m.pending == [] && !watchpointsDirty
        {
          m.SetWatchpoint(watchpoints[i]);
          assert watchpoints[..i + 1][..i] == watchpoints[..i];
        }
        assert watchpoints[..|watchpoints|] == watchpoints;
      }
    }

    method AtPcBreakpoint<S(!new)>(m: Machine<S>, boundaries: int -> bool, ghost before: S) returns (hit: bool)
      requires m.core == m.board.tick(before)
      requires forall cpu: nat :: boundaries(cpu) == m.board.boundary(before, cpu)
      ensures hit <==> PcStopFrom(m.board, breakpoints, before)
    {
      var count := if m.board.hasDebugBus then m.board.cpus else 0;
      for i := 0 to count
        invariant forall cpu :: 0 <= cpu < i ==> !PcStopOf(m.board, breakpoints, before, cpu)
      {
        if boundaries(i) && i < |breakpoints| && m.board.pc(m.core, i) in breakpoints[i] {
          assert PcStopOf(m.board, breakpoints, before, i);
          return true;
        }
      }
      return false;
    }

    /** One tick, and every hit it raised moved to the history. */
    method TickAndDrain<S(!new)>(m: Machine<S>, ghost t: Snapshot<S>, ghost n: nat) returns (boundaries: int -> bool)
      requires Valid() && Snap(m) == Stepped(m.board, t, n)
      modifies this`cycleCount, this`watchpointHits, this`seen, m`core, m`pending
      ensures Valid() && Snap(m) == Stepped(m.board, t, n + 1)
      ensures forall cpu: nat :: boundaries(cpu) == m.board.boundary(Ticked(m.board, t.core, n), cpu)
    {
      SteppedOnce(m.board, t, n);
      hide Stepped;
      boundaries := m.DebugTick();
      cycleCount := cycleCount + 1;
      var _ := DrainWatchpointHits(m);
    }

    // The three breaks, in their order, on a machine that just ticked.
    method AtBreak<S(!new)>(m: Machine<S>, boundaries: int -> bool, ghost before: S) returns (stop: bool)
      requires Valid() && m.core == m.board.tick(before)
      requires forall cpu: nat :: boundaries(cpu) == m.board.boundary(before, cpu)
      modifies this`cycleBreakpoint, this`mode, this`watchpointHits, this`seen, m`pending
      ensures Valid()
      ensures stop == BreaksNow(m.board, old(Snap(m)), before)
      ensures Snap(m) == AfterBreaks(m.board, old(Snap(m)), before)
    {
      if cycleBreakpoint.Some? && cycleCount >= cycleBreakpoint.value {
        cycleBreakpoint := None;
        mode := Paused;
        return true;
      }
      var atPc := AtPcBreakpoint(m, boundaries, before);
      if atPc {
        mode := Paused;
        return true;
      }
      stop := DrainWatchpointHits(m);
      if stop {
        mode := Paused;
      }
    }

    // One tick of a live run.
    method LiveTick<S(!new)>(m: Machine<S>, check: bool, ghost t: Snapshot<S>, ghost n: nat) returns (stop: bool)
      requires Valid() && Snap(m) == Ran(m.board, t, n) && check == HasAnyBreakpoints(t)
      modifies this`cycleCount, this`cycleBreakpoint, this`mode, this`watchpointHits, this`seen
      modifies m`core, m`pending
      ensures Valid() && stop == StopsAt(m.board, t, n + 1)
      ensures Snap(m) == if stop then Broken(m.board, t, n + 1) else Ran(m.board, t, n + 1)
    {
      if check {
        TickedChecked(m.board, t, n);
      } else {
        TickedFree(m.board, t, n);
      }
      hide Ran, Broken, StopsAt, AfterBreaks, BreaksNow;
      ghost var before := m.core;
      var boundaries := m.DebugTick();
      cycleCount := cycleCount + 1;
      if check {
        stop := AtBreak(m, boundaries, before);
      } else {
        NoStop(m.board, t, n + 1);
        stop := false;
      }
    }

    // The ticks of a live frame, up to the first stop.
    method RunTicks<S(!new)>(m: Machine<S>) returns (ran: bool)
      requires Valid() && m.board.cyclesPerFrame > 0
      modifies this`cycleCount, this`cycleBreakpoint, this`mode, this`watchpointHits, this`seen
      modifies this`breakpoints, this`stepCpu, this`frameCount, m`core, m`pending
      ensures Valid() && LiveRun(m.board, old(Snap(m)), Snap(m), ran)
    {
      hide Ran, Broken, StopsAt, HasAnyBreakpoints, Refreshed;
      ghost var t := Snap(m);
      var check := HasAny(m);
      RanNothing(m.board, t);
      for i := 0 to m.board.cyclesPerFrame
        invariant Valid() && Snap(m) == Ran(m.board, t, i)
        invariant FirstStop(m.board, t, i + 1)
      {
        var stop := LiveTick(m, check, t, i);
        if stop {
          Refresh(m);
          return false;
        }
      }
      RanFrames(m.board, t, m.board.cyclesPerFrame);
      frameCount := frameCount + 1;
      Refresh(m);
      return true;
    }

    /** Execute one frame according to the run mode; true when a whole frame ran. */
    method ExecuteFrame<S(!new)>(m: Machine<S>, take: bool, ghost bound: nat) returns (ran: bool)
      requires Valid()
      requires active && !take && mode == StepInstruction ==> m.board.boundary(Ticked(m.board, m.core, bound), stepCpu)
      modifies this`cycleCount, this`cycleBreakpoint, this`frameBreakpoint, this`mode, this`watchpointHits, this`seen
      modifies this`breakpoints, this`stepCpu, this`frameCount, this`watchpointsDirty, m`core, m`watches, m`pending
      ensures Valid() && Executed(m.board, old(Snap(m)), take, Snap(m), ran)
    {
      hide Refreshed, Stepped, LiveRun, FirstBoundary;
      if !active {
        match mode {
          case Paused => return false;
          case StepFrame =>
            m.RunFrame();
            frameCount := frameCount + 1;
            mode := Paused;
            return true;
          case StepInstruction => mode := Paused; return false;
          case StepCycle => mode := Paused; return false;
          case Running =>
        }
        m.RunFrame();
        frameCount := frameCount + 1;
        return true;
      }
      SyncWatchpoints(m);
      ran := OpenFrame(m, take, bound);
    }

    // The debugger governs and the watchpoints are in step.
    method OpenFrame<S(!new)>(m: Machine<S>, take: bool, ghost bound: nat) returns (ran: bool)
      requires Valid()
      requires !take && mode == StepInstruction ==> m.board.boundary(Ticked(m.board, m.core, bound), stepCpu)
      modifies this`cycleCount, this`cycleBreakpoint, this`frameBreakpoint, this`mode, this`watchpointHits, this`seen
      modifies this`breakpoints, this`stepCpu, this`frameCount, m`core, m`pending
      ensures Valid() && OpenStep(m.board, old(Snap(m)), take, Snap(m), ran)
    {
      hide Refreshed, Stepped, LiveRun, FirstBoundary, Framed, WholeFrame, TakeFrame;
      if take && (mode == StepInstruction || mode == StepCycle) {
        mode := Paused;
        return false;
      }
      match mode {
        case Running =>
          if frameBreakpoint.Some? && frameCount >= frameBreakpoint.value {
            frameBreakpoint := None;
            mode := Paused;
            Refresh(m);
            return false;
          }
          if take {
            RunTakeFrame(m);
            return true;
          }
          if m.board.cyclesPerFrame > 0 {
            ran := RunTicks(m);
          } else {
            RunWholeFrame(m);
            ran := true;
          }
        case Paused =>
          Refresh(m);
          ran := false;
        case StepFrame =>
          if take {
            RunTakeFrame(m);
          } else {
            StepWholeFrame(m);
          }
          ran := true;
        case _ =>
          StepSubFrame(m, bound);
          ran := false;
      }
    }

    // A take runs its frames whole, and a step holds after its frame.
    method RunTakeFrame<S(!new)>(m: Machine<S>)
      requires mode == Running || mode == StepFrame
      modifies this`breakpoints, this`stepCpu, this`frameCount, this`cycleCount, this`mode, m`core, m`pending
      ensures Snap(m) == Refreshed(m.board, TakeFrame(m.board, old(Snap(m))))
    {
      m.RunFrame();
      frameCount := frameCount + 1;
      cycleCount := cycleCount + m.board.cyclesPerFrame;
      Refresh(m);
      if mode == StepFrame {
        mode := Paused;
      }
    }

    method StepWholeFrame<S(!new)>(m: Machine<S>)
      requires Valid() && mode == StepFrame
      modifies this`cycleCount, this`mode, this`watchpointHits, this`seen
      modifies this`breakpoints, this`stepCpu, this`frameCount, m`core, m`pending
      ensures Valid() && Snap(m) == Refreshed(m.board, WholeFrame(m.board, old(Snap(m))))
    {
      WholeFrameFrames(m.board, Snap(m), m.board.cyclesPerFrame);
      hide Stepped, Framed, Refreshed;
      if m.board.cyclesPerFrame > 0 {
        TickFrame(m);
      } else {
        RunFramed(m);
      }
      frameCount := frameCount + 1;
      RefreshedMode(m.board, Snap(m));
      Refresh(m);
      mode := Paused;
    }

    method StepSubFrame<S(!new)>(m: Machine<S>, ghost bound: nat)
      requires Valid() && SubFrame(mode)
      requires mode == StepInstruction ==> m.board.boundary(Ticked(m.board, m.core, bound), stepCpu)
      modifies this`cycleCount, this`mode, this`watchpointHits, this`seen
      modifies this`breakpoints, this`stepCpu, m`core, m`pending
      ensures Valid() && LiveStep(m.board, old(Snap(m)), Snap(m), false)
    {
      hide Stepped, FirstBoundary;
      if mode == StepInstruction {
        TickToBoundary(m, bound);
      } else {
        SteppedNothing(m.board, Snap(m));
        var _ := TickAndDrain(m, Snap(m), 0);
      }
      Refresh(m);
      mode := Paused;
    }

    method RunFramed<S(!new)>(m: Machine<S>)
      modifies m`core, m`pending
      ensures Snap(m) == Framed(m.board, old(Snap(m)))
    {
      m.RunFrame();
    }

    // A board without a cycle count runs its frames whole.
    method RunWholeFrame<S(!new)>(m: Machine<S>)
      requires m.board.cyclesPerFrame == 0
      modifies this`breakpoints, this`stepCpu, this`frameCount, m`core, m`pending
      ensures LiveRun(m.board, old(Snap(m)), Snap(m), true)
    {
      m.RunFrame();
      frameCount := frameCount + 1;
      Refresh(m);
    }

    // A full frame of ticks.
    method TickFrame<S(!new)>(m: Machine<S>)
      requires Valid()
      modifies this`cycleCount, this`watchpointHits, this`seen, m`core, m`pending
      ensures Valid() && Snap(m) == Stepped(m.board, old(Snap(m)), m.board.cyclesPerFrame)
    {
      for i := 0 to m.board.cyclesPerFrame
        invariant Valid() && Snap(m) == Stepped(m.board, old(Snap(m)), i)
      {
        var _ := TickAndDrain(m, old(Snap(m)), i);
      }
    }

    // `bound` ticks from here reach an instruction boundary of the chosen processor.
    method TickToBoundary<S(!new)>(m: Machine<S>, ghost bound: nat)
      requires Valid() && m.board.boundary(Ticked(m.board, m.core, bound), stepCpu)
      modifies this`cycleCount, this`watchpointHits, this`seen, m`core, m`pending
      ensures Valid()
      ensures exists n :: FirstBoundary(m.board, old(Snap(m)), n)
                       && Snap(m) == Stepped(m.board, old(Snap(m)), n)
    {
      hide Stepped, Ticked, Valid;
      SteppedNothing(m.board, Snap(m));
      ghost var n := 0;
      while true
        invariant Valid() && Snap(m) == Stepped(m.board, old(Snap(m)), n) && n <= bound
        invariant stepCpu == old(stepCpu)
        invariant forall i :: 0 <= i < n ==> !m.board.boundary(Ticked(m.board, old(m.core), i), stepCpu)
        decreases bound - n
      {
        var boundaries := TickAndDrain(m, old(Snap(m)), n);
        n := n + 1;
        if boundaries(stepCpu) {
          assert FirstBoundary(m.board, old(Snap(m)), n);
          break;
        }
      }
    }
  }
}
