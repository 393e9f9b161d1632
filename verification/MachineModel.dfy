/** The machine as the frontend sees it: a deterministic board behind a handful of calls.
    What a board computes is left open; only that each call is a function of its state. */
module MachineModel {
  import opened Basics

  // Float payloads are their bit patterns.
  datatype Event =
    | Button(id: u16, pressed: bool)
    | Absolute(id: u16, bits: u32)
    | Relative(id: u16, bits: u32)

  datatype Control = Control(id: u16, name: string)

  datatype WatchKind = ReadWatch | WriteWatch | AccessWatch

  datatype Watch = Watch(cpu: nat, addr: u32, kind: WatchKind)

  datatype Hit = Hit(cpu: nat, addr: u32, value: bv8)

  // `boundary` and `hits` say what one debug tick from a state reports: the processors
  // that finished an instruction, and the accesses the watchpoints saw.
  datatype Board<!S(!new)> = Board(
    controls: seq<Control>,
    dipMasks: seq<seq<bv8>>,
    cpus: nat,
    hasDebugBus: bool,
    cyclesPerFrame: nat,
    fromRom: S,
    reset: S -> S,
    nvram: S -> Option<seq<bv8>>,
    loadNvram: (S, seq<bv8>) -> S,
    saveState: S -> Option<seq<bv8>>,
    loadState: (S, seq<bv8>) -> Option<S>,
    handle: (S, Event) -> S,
    releaseAll: S -> S,
    dipValue: (S, nat) -> bv8,
    setDip: (S, nat, bv8) -> S,
    poke: (S, nat, u32, bv8) -> S,
    device: (S, nat, nat, bv8) -> S,
    runFrame: S -> S,
    frameHits: (S, seq<Watch>) -> seq<Hit>,
    tick: S -> S,
    boundary: (S, nat) -> bool,
    hits: (S, seq<Watch>) -> seq<Hit>,
    pc: (S, nat) -> u32
  )

  const MAX_PENDING_HITS: nat := 4096

  // Hits past a full queue are dropped.
  function Queued(pending: seq<Hit>, raised: seq<Hit>): seq<Hit> {
    var all := pending + raised;
    if |all| <= MAX_PENDING_HITS then all
    else if |pending| >= MAX_PENDING_HITS then pending
    else all[..MAX_PENDING_HITS]
  }

  /** Hits queue in order, and of those past 4096 the latest are lost. */
  lemma QueuedIs(pending: seq<Hit>, raised: seq<Hit>)
    requires |pending| <= 4096
    ensures var all := pending + raised;
      Queued(pending, raised) == if |all| <= 4096 then all else all[..4096]
  {
  }

  function WithWatch(watches: seq<Watch>, w: Watch): seq<Watch> {
    if w in watches then watches else watches + [w]
  }

  // Without a debug bus there are no watchpoints to hit.
  function TickHits<S(!new)>(board: Board<S>, s: S, watches: seq<Watch>): seq<Hit> {
    if board.hasDebugBus then board.hits(s, watches) else []
  }

  function FrameHits<S(!new)>(board: Board<S>, s: S, watches: seq<Watch>): seq<Hit> {
    if board.hasDebugBus then board.frameHits(s, watches) else []
  }

  // The default merge of one option's bits into its bank; out of range is a no-op.
  function WithDipOption<S(!new)>(board: Board<S>, s: S, bank: nat, option: nat, value: bv8): S {
    if bank < |board.dipMasks| && option < |board.dipMasks[bank]| then
      var mask := board.dipMasks[bank][option];
      board.setDip(s, bank, (board.dipValue(s, bank) & !mask) | (value & mask))
    else s
  }

  // Banks `from` on, set in bank order.
  function WithDips<S(!new)>(board: Board<S>, s: S, dip: seq<bv8>, from: nat): S
    requires from <= |dip|
    decreases |dip| - from
  {
    if from == |dip| then s
    else WithDips(board, board.setDip(s, from, dip[from]), dip, from + 1)
  }

  function WithNvram<S(!new)>(board: Board<S>, s: S, nvram: Option<seq<bv8>>): S {
    match nvram
    case Some(image) => board.loadNvram(s, image)
    case None => s
  }

  // Every bank's live byte, in bank order.
  function DipBytes<S(!new)>(board: Board<S>, s: S): seq<bv8> {
    seq(|board.dipMasks|, bank requires 0 <= bank => board.dipValue(s, bank))
  }

  /** The starting conditions of a take and of its replay: reset, then battery-backed
      memory, then switches. */
  function Adopted<S(!new)>(board: Board<S>, s: S, nvram: Option<seq<bv8>>, dip: seq<bv8>): S {
    WithDips(board, WithNvram(board, board.reset(s), nvram), dip, 0)
  }

  /** The machine as the program hands it over at start: battery-backed memory from its
      file, persisted switches, then the reset that powers it on. */
  function PoweredOn<S(!new)>(board: Board<S>, file: Option<seq<bv8>>, switches: seq<bv8>): S {
    board.reset(WithDips(board, WithNvram(board, board.fromRom, file), switches, 0))
  }

  // ---------------------------------------------------------------------------
  // On a board whose switches and memory read back what they are given
  // ---------------------------------------------------------------------------

  ghost predicate BanksReadBack<S(!new)>(board: Board<S>) {
    && (forall s, bank: nat, value: bv8 :: board.dipValue(board.setDip(s, bank, value), bank) == value)
    && forall s, bank: nat, other: nat, value: bv8 :: other != bank ==>
         board.dipValue(board.setDip(s, bank, value), other) == board.dipValue(s, other)
  }

  ghost predicate MemoryReadsBack<S(!new)>(board: Board<S>) {
    && (forall s, image :: board.nvram(board.loadNvram(s, image)) == Some(image))
    && forall s, bank: nat, value: bv8 :: board.nvram(board.setDip(s, bank, value)) == board.nvram(s)
  }

  // The mask's bits are the value's, the others what they were.
  predicate Merges(before: bv8, after: bv8, mask: bv8, value: bv8) {
    after & mask == value & mask && after & !mask == before & !mask
  }

  /** Changing an option sets the bits of its mask to the value's and leaves the other bits of
      the bank and every other bank as they were; an option that does not exist changes
      nothing. */
  lemma OptionSetsItsBits<S(!new)>(board: Board<S>, s: S, bank: nat, option: nat, value: bv8)
    requires BanksReadBack(board)
    ensures var after := WithDipOption(board, s, bank, option, value);
      if bank < |board.dipMasks| && option < |board.dipMasks[bank]| then
        && Merges(board.dipValue(s, bank), board.dipValue(after, bank), board.dipMasks[bank][option], value)
        && forall other: nat :: other != bank ==> board.dipValue(after, other) == board.dipValue(s, other)
      else after == s
  {
    if bank < |board.dipMasks| && option < |board.dipMasks[bank]| {
      var before, mask := board.dipValue(s, bank), board.dipMasks[bank][option];
      MergeBits(before, mask, value);
      hide Merges;
      var merged := (before & !mask) | (value & mask);
      assert WithDipOption(board, s, bank, option, value) == board.setDip(s, bank, merged);
      assert board.dipValue(board.setDip(s, bank, merged), bank) == merged;
    }
  }

  lemma MergeBits(before: bv8, mask: bv8, value: bv8)
    ensures Merges(before, (before & !mask) | (value & mask), mask, value)
  {
  }

  /** So two options of one bank do not disturb each other. */
  lemma OptionsAreIndependent<S(!new)>(board: Board<S>, s: S, bank: nat, option: nat, other: nat, value: bv8)
    requires BanksReadBack(board) && bank < |board.dipMasks|
    requires option < |board.dipMasks[bank]| && other < |board.dipMasks[bank]|
    requires board.dipMasks[bank][option] & board.dipMasks[bank][other] == 0
    ensures var mask := board.dipMasks[bank][other];
      board.dipValue(WithDipOption(board, s, bank, option, value), bank) & mask == board.dipValue(s, bank) & mask
  {
    hide WithDipOption, Merges;
    OptionSetsItsBits(board, s, bank, option, value);
    OutsideMask(board.dipValue(s, bank), board.dipValue(WithDipOption(board, s, bank, option, value), bank),
                board.dipMasks[bank][option], board.dipMasks[bank][other], value);
  }

  lemma OutsideMask(before: bv8, after: bv8, mask: bv8, other: bv8, value: bv8)
    requires Merges(before, after, mask, value) && mask & other == 0
    ensures after & other == before & other
  {
    assert other & !mask == other;
    assert after & other == (after & !mask) & other;
    assert before & other == (before & !mask) & other;
  }

  lemma {:induction false} DipsReadBack<S(!new)>(board: Board<S>, s: S, dip: seq<bv8>, from: nat)
    requires BanksReadBack(board) && from <= |dip|
    ensures forall bank: nat :: board.dipValue(WithDips(board, s, dip, from), bank)
                 == if from <= bank < |dip| then dip[bank] else board.dipValue(s, bank)
    decreases |dip| - from
  {
    if from < |dip| {
      var value := dip[from];
      var t := board.setDip(s, from, value);
      DipsReadBack(board, t, dip, from + 1);
      forall bank: nat
        ensures board.dipValue(WithDips(board, s, dip, from), bank)
             == if from <= bank < |dip| then dip[bank] else board.dipValue(s, bank)
      {
        assert board.dipValue(t, bank) == if bank == from then value else board.dipValue(s, bank);
      }
    }
  }

  lemma {:induction false} DipsKeepMemory<S(!new)>(board: Board<S>, s: S, dip: seq<bv8>, from: nat)
    requires MemoryReadsBack(board) && from <= |dip|
    ensures board.nvram(WithDips(board, s, dip, from)) == board.nvram(s)
    decreases |dip| - from
  {
    if from < |dip| {
      var value := dip[from];
      assert board.nvram(board.setDip(s, from, value)) == board.nvram(s);
      DipsKeepMemory(board, board.setDip(s, from, value), dip, from + 1);
    }
  }

  /** What a rebuild takes over is what it will hand on: a machine that adopted conditions of
      its own shape reads the same conditions back, whatever state it was in. */
  lemma AdoptedReadsBack<S(!new)>(board: Board<S>, s: S, nvram: Option<seq<bv8>>, dip: seq<bv8>)
    requires BanksReadBack(board) && MemoryReadsBack(board) && |dip| == |board.dipMasks|
    ensures DipBytes(board, Adopted(board, s, nvram, dip)) == dip
    ensures nvram.Some? ==> board.nvram(Adopted(board, s, nvram, dip)) == nvram
    ensures nvram == None ==> board.nvram(Adopted(board, s, nvram, dip)) == board.nvram(board.reset(s))
  {
    var loaded := WithNvram(board, board.reset(s), nvram);
    DipsReadBack(board, loaded, dip, 0);
    DipsKeepMemory(board, loaded, dip, 0);
  }

  class Machine<S(!new)> {
    const board: Board<S>
    var core: S
    var watches: seq<Watch>
    var pending: seq<Hit>

    // Built from ROM.
    constructor (board: Board<S>)
      ensures this.board == board && core == board.fromRom && watches == [] && pending == []
    {
      this.board := board;
      core, watches, pending := board.fromRom, [], [];
    }

    method Reset()
      modifies this`core
      ensures core == board.reset(old(core))
    {
      core := board.reset(core);
    }

    method LoadNvram(image: seq<bv8>)
      modifies this`core
      ensures core == board.loadNvram(old(core), image)
    {
      core := board.loadNvram(core, image);
    }

    method HandleInput(e: Event)
      modifies this`core
      ensures core == board.handle(old(core), e)
    {
      core := board.handle(core, e);
    }

    method ReleaseAllInputs()
      modifies this`core
      ensures core == board.releaseAll(old(core))
    {
      core := board.releaseAll(core);
    }

    method SetDipBankValue(bank: nat, value: bv8)
      modifies this`core
      ensures core == board.setDip(old(core), bank, value)
    {
      core := board.setDip(core, bank, value);
    }

    method SetDipOption(bank: nat, option: nat, value: bv8)
      modifies this`core
      ensures core == WithDipOption(board, old(core), bank, option, value)
    {
      if bank < |board.dipMasks| && option < |board.dipMasks[bank]| {
        var mask := board.dipMasks[bank][option];
        var merged := (board.dipValue(core, bank) & !mask) | (value & mask);
        SetDipBankValue(bank, merged);
      }
    }

    method RunFrame()
      modifies this`core, this`pending
      ensures core == board.runFrame(old(core))
      ensures pending == Queued(old(pending), FrameHits(board, old(core), watches))
    {
      pending := Queued(pending, FrameHits(board, core, watches));
      core := board.runFrame(core);
    }

    // The caller reads the boundaries off the state the tick started from.
    method DebugTick() returns (boundary: int -> bool)
      modifies this`core, this`pending
      ensures core == board.tick(old(core))
      ensures pending == Queued(old(pending), TickHits(board, old(core), watches))
      ensures forall cpu: nat :: boundary(cpu) == board.boundary(old(core), cpu)
    {
      var before := core;
      boundary := cpu => cpu >= 0 && board.boundary(before, cpu);
      pending := Queued(pending, TickHits(board, core, watches));
      core := board.tick(core);
    }

    method TakeWatchpointHit() returns (hit: Option<Hit>)
      modifies this`pending
      ensures old(pending) == [] ==> hit == None && pending == []
      ensures old(pending) != [] ==> hit == Some(old(pending)[0]) && pending == old(pending)[1..]
    {
      if pending == [] {
        return None;
      }
      hit := Some(pending[0]);
      pending := pending[1..];
    }

    method ClearAllWatchpoints()
      modifies this`watches, this`pending
      ensures watches == [] && pending == []
    {
      watches, pending := [], [];
    }

    method SetWatchpoint(w: Watch)
      modifies this`watches
      ensures watches == WithWatch(old(watches), w)
    {
      watches := WithWatch(watches, w);
    }

    /** Put a freshly built machine into the state it is replacing. */
    method AdoptConditions(nvram: Option<seq<bv8>>, dip: seq<bv8>)
      modifies this`core
      ensures core == Adopted(board, old(core), nvram, dip)
    {
      Reset();
      if nvram.Some? {
        LoadNvram(nvram.value);
      }
      for bank := 0 to |dip|
        invariant WithDips(board, core, dip, bank) == Adopted(board, old(core), nvram, dip)
      {
        SetDipBankValue(bank, dip[bank]);
      }
    }

    /** Power a machine just built on, as the program does at start. */
    method PowerOn(file: Option<seq<bv8>>, switches: seq<bv8>)
      requires core == board.fromRom
      modifies this`core
      ensures core == PoweredOn(board, file, switches)
    {
      if file.Some? {
        LoadNvram(file.value);
      }
      for bank := 0 to |switches|
        invariant WithDips(board, core, switches, bank)
               == WithDips(board, WithNvram(board, board.fromRom, file), switches, 0)
      {
        SetDipBankValue(bank, switches[bank]);
      }
      Reset();
    }

    /** What a take or a rebuild carries over from the live session. */
    method StartingConditions() returns (nvram: Option<seq<bv8>>, dip: seq<bv8>)
      ensures nvram == board.nvram(core)
      ensures dip == DipBytes(board, core)
    {
      nvram := board.nvram(core);
      dip := [];
      for bank := 0 to |board.dipMasks|
        invariant |dip| == bank
        invariant forall b :: 0 <= b < bank ==> dip[b] == board.dipValue(core, b)
      {
        dip := dip + [board.dipValue(core, bank)];
      }
    }
  }
}
