/** Concrete boards: takes on which a replay goes astray, one for each thing a faithful
    board must do and one for an event outside the table, and a debugging session in which
    a hit surfaces late. */
module Examples {
  import opened Basics
  import opened MachineModel
  import opened MovieLog
  import opened Debugger

  // A board on which nothing does anything.
  function Still(controls: seq<Control>, masks: seq<seq<bv8>>): Board<nat> {
    Board(controls, masks, 0, false, 0, 0, s => s, s => None, (s, image) => s, s => None, (s, data) => None,
          (s, e) => s, s => s, (s, bank) => 0, (s, bank, value) => s, (s, cpu, addr, value) => s,
          (s, device, register, value) => s, s => s, (s, watches) => [], s => s, (s, cpu) => false,
          (s, watches) => [], (s, cpu) => 0)
  }

  // Counts every event it is handed.
  function Counting(controls: seq<Control>): Board<nat> {
    Still(controls, []).(handle := (s: nat, e) => s + 1)
  }

  /** A board that counts even a delta of zero: the tee drops the event, so the replay
      misses one. */
  lemma ZeroDeltaIsMissed()
    ensures var board := Counting([Control(0, "spinner")]);
      var p := Take(board, 0, [Fed(Relative(0, 0))]);
      p.core == 1 && p.log.unmapped == 0 && p.log.records == [] && !TakeReplays(board, p)
  {
    var board := Counting([Control(0, "spinner")]);
    OneOp(board, 0, Fed(Relative(0, 0)));
    OneEventTake(board, 0, Relative(0, 0));
  }

  // Remembers the last byte any of its banks was set to, and reads back zero.
  function Mute(masks: seq<seq<bv8>>): Board<nat> {
    Still([], masks).(setDip := (s: nat, bank, value) => if value == 0 then 0 else 1)
  }

  /** A bank that does not read back what it was set to: the replay sets what was read. */
  lemma SwitchIsLost()
    ensures var board := Mute([[0xFF]]);
      var p := Take(board, 0, [Switched(0, 0, 1)]);
      p.core == 1 && p.log.records == [DipRecord(0, 0, 0)] && !TakeReplays(board, p)
  {
    var board := Mute([[0xFF]]);
    OneOp(board, 0, Switched(0, 0, 1));
    OneSwitchTake(board, 0, 0, 0, 1);
    assert WithDipOption(board, 0, 0, 0, 1) == 1;
  }

  // Only the bank numbered 256 does anything, and it reads back what it holds.
  function Wide(): Board<nat> {
    Still([], seq(257, _ => [0xFF])).(
      dipValue := (s, bank) => if bank == 256 && s == 1 then 1 else 0,
      setDip := (s: nat, bank, value) => if bank == 256 then if value == 0 then 0 else 1 else s)
  }

  /** The 257th bank: its number is recorded as zero, and the replay sets the first. */
  lemma LastBankIsMisnumbered()
    ensures var board := Wide();
      var p := Take(board, 0, [Switched(256, 0, 1)]);
      p.core == 1 && p.log.records == [DipRecord(0, 0, 1)] && !TakeReplays(board, p)
  {
    var board := Wide();
    OneOp(board, 0, Switched(256, 0, 1));
    OneSwitchTake(board, 0, 256, 0, 1);
    assert WithDipOption(board, 0, 256, 0, 1) == 1;
  }

  /** Two controls of one name: the second one's press is replayed as the first one's. */
  lemma TwinIsSwapped()
    ensures var board := Still([Control(0, "fire"), Control(1, "fire")], []).(handle := (s: nat, e: Event) => e.id);
      var p := Take(board, 0, [Fed(Button(1, true))]);
      p.core == 1 && p.log.unmapped == 0 && !TakeReplays(board, p)
  {
    var controls := [Control(0, "fire"), Control(1, "fire")];
    var board := Still(controls, []).(handle := (s: nat, e: Event) => e.id);
    var e := Button(1, true);
    OneOp(board, 0, Fed(e));
    OneEventTake(board, 0, e);
    TwinOf(controls);
    assert ReplayedAs(board, e, 0) == 0;
  }

  lemma TwinOf(controls: seq<Control>)
    requires controls == [Control(0, "fire"), Control(1, "fire")]
    ensures IndexOf(controls, 1) == Some(1) && Bound(Names(controls), controls) == Some([0, 0])
  {
    assert controls[1..] == [Control(1, "fire")];
    BindsToItsOwnTable(controls);
    assert FirstNamed(controls, "fire") == Some(0);
    assert Bound(Names(controls), controls).value == [0, 0];
  }

  /** An event from outside the table reaches the machine and is counted, not recorded. */
  lemma UnmappedIsMissed()
    ensures var board := Counting([]);
      var p := Take(board, 0, [Fed(Button(5, true))]);
      p.core == 1 && p.log.unmapped == 1 && !TakeReplays(board, p)
  {
    var board := Counting([]);
    OneOp(board, 0, Fed(Button(5, true)));
    OneEventTake(board, 0, Button(5, true));
  }

  // ---------------------------------------------------------------------------
  // A hit that surfaces late
  // ---------------------------------------------------------------------------

  const WATCHED: Watch := Watch(0, 0x1000, WriteWatch)
  const STORE: Hit := Hit(0, 0x1000, 7)

  // Counts its ticks, and only the first one stores to the watched address.
  function Ticking(): Board<nat> {
    Still([], []).(cpus := 1, hasDebugBus := true, cyclesPerFrame := 4, tick := (s: nat) => s + 1,
                   hits := (s: nat, watches) => if s == 0 && WATCHED in watches then [STORE] else [])
  }

  // Running, with the store watched and a break asked for at cycle one.
  function Before(): Snapshot<nat> {
    Snapshot(0, [WATCHED], [], true, Running, 0, 0, [{}], Some(1), None, [WATCHED], false, false, [], 0)
  }

  function AtBreak(): Snapshot<nat> {
    Before().(core := 1, pending := [STORE], mode := Paused, cycles := 1, cycleBreak := None)
  }

  function AfterResume(): Snapshot<nat> {
    AtBreak().(core := 2, pending := [], cycles := 2, seen := [STORE])
  }

  /** The cycle breakpoint stops the tick of the store and leaves its hit queued; the next
      run stops one tick later, at a tick that touched nothing watched. */
  lemma HitSurfacesLate()
    ensures Executed(Ticking(), Before(), false, AtBreak(), false)
    ensures Executed(Ticking(), AtBreak().(mode := Running), false, AfterResume(), false)
    ensures TickHits(Ticking(), 1, [WATCHED]) == [] && AfterResume().mode == Paused
  {
    FirstBreak();
    SecondBreak();
  }

  lemma FirstBreak()
    ensures Executed(Ticking(), Before(), false, AtBreak(), false)
  {
    var board, t := Ticking(), Before();
    assert Ticked(board, 0, 1) == board.tick(Ticked(board, 0, 0)) == 1;
    assert QueueAt(board, t, 1) == [STORE];
    assert CycleStop(t, 1) && HasAnyBreakpoints(t);
    assert FirstStop(board, t, 1) && StopsAt(board, t, 1);
    assert Refreshed(board, Broken(board, t, 1)) == AtBreak();
  }

  lemma SecondBreak()
    ensures Executed(Ticking(), AtBreak().(mode := Running), false, AfterResume(), false)
  {
    var board, t := Ticking(), AtBreak().(mode := Running);
    assert Ticked(board, 1, 1) == board.tick(Ticked(board, 1, 0)) == 2;
    assert QueueAt(board, t, 1) == [STORE];
    assert HasAnyBreakpoints(t) && !CycleStop(t, 1) && !PcStop(board, t, 1);
    assert FirstStop(board, t, 1) && StopsAt(board, t, 1);
    assert Taken(board, t, 1) == Taken(board, t, 0) + [STORE] == [STORE];
    assert Refreshed(board, Broken(board, t, 1)) == AfterResume();
  }
}
