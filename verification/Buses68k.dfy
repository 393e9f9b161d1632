/** The two 68000 test buses: flat memory served as big-endian words, one of them with a
    log of the transfers it saw. */
module Buses68k {
  import opened Basics

  const MEMORY: nat := 0x100_0000

  type Memory = m: seq<byte> | |m| == MEMORY witness seq(MEMORY, _ => 0)

  // `addr & 0x00FF_FFFF` and `addr & 0x00FF_FFFE`.
  function ByteIndex(addr: u32): (i: nat)
    ensures i < MEMORY
  {
    addr % MEMORY
  }

  function WordIndex(addr: u32): (i: nat)
    ensures i + 1 < MEMORY && i % 2 == 0
  {
    addr % MEMORY / 2 * 2
  }

  function WordAt(m: Memory, addr: u32): u16 {
    var high: nat, low: nat := m[WordIndex(addr)], m[WordIndex(addr) + 1];
    high * 0x100 + low
  }

  function WithWord(m: Memory, addr: u32, data: u16): Memory {
    m[WordIndex(addr) := data / 0x100][WordIndex(addr) + 1 := data % 0x100]
  }

  function ByteAt(m: Memory, addr: u32): byte {
    m[ByteIndex(addr)]
  }

  function WithByte(m: Memory, addr: u32, data: byte): Memory {
    m[ByteIndex(addr) := data]
  }

  // FC0-FC2 as the part drives them.
  datatype Signals = Signals(supervisor: bool, program: bool, rmw: bool) {
    function FunctionCode(): (fc: byte)
      ensures fc == 1 || fc == 2 || fc == 5 || fc == 6
    {
      (if supervisor then 4 else 0) + if program then 2 else 1
    }
  }

  /** What can reach a bus. `Clock` is the harness moving the time stamp on, `Start` and
      `Stop` are its calls on the recording; a bus without one has nothing to do for them. */
  datatype Op =
    | Start
    | Stop
    | Clock(at: u32)
    | Announce(addr: u32, signals: Signals)
    | Read(addr: u32)
    | Write(addr: u32, data: u16)
    | ReadByte(addr: u32)
    | WriteByte(addr: u32, value: byte)

  // ---------------------------------------------------------------------------
  // What any such bus does to memory
  // ---------------------------------------------------------------------------

  function Stored(m: Memory, op: Op): Memory {
    match op
    case Write(addr, data) => WithWord(m, addr, data)
    case WriteByte(addr, value) => WithByte(m, addr, value)
    case _ => m
  }

  function Fetched(m: Memory, op: Op): nat {
    match op
    case Read(addr) => WordAt(m, addr)
    case ReadByte(addr) => ByteAt(m, addr)
    case _ => 0
  }

  function Dirtied(op: Op): seq<nat> {
    match op
    case Write(addr, _) => [WordIndex(addr)]
    case WriteByte(addr, _) => [WordIndex(addr)]
    case _ => []
  }

  function StoredAll(m: Memory, ops: seq<Op>): Memory {
    if ops == [] then m else Stored(StoredAll(m, ops[..|ops| - 1]), ops[|ops| - 1])
  }

  function DirtiedAll(ops: seq<Op>): seq<nat> {
    if ops == [] then [] else DirtiedAll(ops[..|ops| - 1]) + Dirtied(ops[|ops| - 1])
  }

  function FetchedAll(m: Memory, ops: seq<Op>): seq<nat> {
    if ops == [] then []
    else FetchedAll(m, ops[..|ops| - 1]) + [Fetched(StoredAll(m, ops[..|ops| - 1]), ops[|ops| - 1])]
  }

  // Splicing a byte into the word around it, as the plain bus does.
  function Merged(word: u16, addr: u32, data: byte): u16 {
    var d: nat := data;
    if addr % 2 == 0 then word % 0x100 + d * 0x100 else word / 0x100 * 0x100 + d
  }

  function Selected(word: u16, addr: u32): byte {
    if addr % 2 == 0 then word / 0x100 else word % 0x100
  }

  lemma IndexParity(addr: u32)
    ensures ByteIndex(addr) == WordIndex(addr) + addr % 2
    ensures WordIndex(addr / 2 * 2) == WordIndex(addr)
  {
    var lap, h, b := addr / MEMORY, addr % MEMORY / 2, addr % MEMORY % 2;
    assert addr == 2 * (0x80_0000 * lap + h) + b;
    HalfAndBit(addr, 0x80_0000 * lap + h, b);
    assert addr / 2 * 2 == MEMORY * lap + 2 * h;
    Within(addr / 2 * 2, lap, 2 * h);
  }

  lemma HalfAndBit(x: nat, half: nat, bit: nat)
    requires x == 2 * half + bit && bit < 2
    ensures x / 2 == half && x % 2 == bit
  {
  }

  lemma Within(x: nat, lap: nat, rest: nat)
    requires x == MEMORY * lap + rest && rest < MEMORY
    ensures x % MEMORY == rest
  {
  }

  /** A word is the bytes at its even and its odd address, the even one on top. */
  lemma WordsAreBigEndian(m: Memory, half: nat, data: u16)
    requires half < 0x8000_0000
    ensures var even: u32, odd: u32 := 2 * half, 2 * half + 1;
      && WordAt(m, even) == WordAt(m, odd) == 256 * ByteAt(m, even) + ByteAt(m, odd)
      && ByteAt(WithWord(m, even, data), even) == data / 256 && ByteAt(WithWord(m, even, data), odd) == data % 256
      && WithWord(m, odd, data) == WithWord(m, even, data)
  {
    var even: u32, odd: u32 := 2 * half, 2 * half + 1;
    IndexParity(even);
    IndexParity(odd);
    assert odd / 2 * 2 == even && even / 2 * 2 == even;
    hide ByteIndex, WordIndex;
  }

  /** Addresses repeat every sixteen megabytes: only 24 lines leave the part. */
  lemma AddressesWrap(m: Memory, addr: nat, lap: nat)
    requires addr < 0x100_0000 && lap < 0x100
    ensures ByteAt(m, addr + 0x100_0000 * lap) == m[addr] == ByteAt(m, addr)
    ensures WordAt(m, addr + 0x100_0000 * lap) == WordAt(m, addr)
  {
    Within(addr + 0x100_0000 * lap, lap, addr);
  }

  /** Reading a word and selecting its byte reads the byte. */
  lemma SelectReadsByte(m: Memory, addr: u32)
    ensures Selected(WordAt(m, addr / 2 * 2), addr) == ByteAt(m, addr)
  {
    IndexParity(addr);
    hide ByteIndex, WordIndex;
  }

  /** Reading a word, splicing one byte and writing the word back changes that byte. */
  lemma MergeWritesByte(m: Memory, addr: u32, data: byte)
    ensures WithWord(m, addr / 2 * 2, Merged(WordAt(m, addr / 2 * 2), addr, data)) == WithByte(m, addr, data)
  {
    IndexParity(addr);
    var i := WordIndex(addr);
    var word: nat := WordAt(m, addr / 2 * 2);
    assert word / 0x100 == m[i] && word % 0x100 == m[i + 1];
    MergedParts(word, addr, data);
    hide ByteIndex, WordIndex, Merged, WordAt;
  }

  lemma MergedParts(word: u16, addr: u32, data: byte)
    ensures Merged(word, addr, data) / 0x100 == if addr % 2 == 0 then data else word / 0x100
    ensures Merged(word, addr, data) % 0x100 == if addr % 2 == 0 then word % 0x100 else data
  {
  }

  /** The dirty list is complete: whatever ran, a byte that changed lies in a listed word. */
  lemma {:induction false} DirtyIsComplete(m: Memory, ops: seq<Op>, i: nat)
    requires i < MEMORY && StoredAll(m, ops)[i] != m[i]
    ensures i / 2 * 2 in DirtiedAll(ops)
  {
    if ops != [] {
      var before, op := ops[..|ops| - 1], ops[|ops| - 1];
      if StoredAll(m, before)[i] != m[i] {
        DirtyIsComplete(m, before, i);
      } else {
        OpDirties(StoredAll(m, before), op, i);
      }
    }
  }

  lemma OpDirties(m: Memory, op: Op, i: nat)
    requires i < MEMORY && Stored(m, op)[i] != m[i]
    ensures i / 2 * 2 in Dirtied(op)
  {
  }

  /** Zeroing the listed words of a bus that started from zeroed memory clears it. */
  lemma ZeroingTheListClears(ops: seq<Op>, i: nat)
    requires i < MEMORY
    ensures var zero: Memory := seq(MEMORY, _ => 0);
      StoredAll(zero, ops)[i] != 0 ==> i / 2 * 2 in DirtiedAll(ops)
  {
    var zero: Memory := seq(MEMORY, _ => 0);
    if StoredAll(zero, ops)[i] != 0 {
      DirtyIsComplete(zero, ops, i);
    }
  }

  // ---------------------------------------------------------------------------
  // The plain bus
  // ---------------------------------------------------------------------------

  class TracingBus68k {
    const memory: array<byte>
    var dirtyWrites: seq<nat>

    ghost predicate Valid()
      reads this
    {
      memory.Length == MEMORY
    }

    ghost function Contents(): Memory
      reads this, memory
      requires Valid()
    {
      memory[..]
    }

    constructor ()
      ensures Valid() && fresh(memory) && dirtyWrites == []
      ensures Contents() == seq(MEMORY, _ => 0)
    {
      memory := new byte[MEMORY](_ => 0);
      dirtyWrites := [];
      new;
      assert memory[..] == seq(MEMORY, _ => 0);
    }

    method ReadWord(addr: u32) returns (data: u16)
      requires Valid()
      ensures data == WordAt(Contents(), addr)
    {
      var i := WordIndex(addr);
      var high: nat, low: nat := memory[i], memory[i + 1];
      data := high * 0x100 + low;
    }

    method WriteWord(addr: u32, data: u16)
      requires Valid()
      modifies this`dirtyWrites, memory
      ensures Contents() == WithWord(old(Contents()), addr, data)
      ensures dirtyWrites == old(dirtyWrites) + [WordIndex(addr)]
    {
      var i := WordIndex(addr);
      memory[i] := data / 0x100;
      memory[i + 1] := data % 0x100;
      dirtyWrites := dirtyWrites + [i];
    }

    method ReadByte(addr: u32) returns (data: byte)
      requires Valid()
      ensures data == ByteAt(Contents(), addr)
    {
      var word := ReadWord(addr / 2 * 2);
      data := Selected(word, addr);
      SelectReadsByte(Contents(), addr);
    }

    method WriteByte(addr: u32, data: byte)
      requires Valid()
      modifies this`dirtyWrites, memory
      ensures Contents() == WithByte(old(Contents()), addr, data)
      ensures dirtyWrites == old(dirtyWrites) + [WordIndex(addr)]
    {
      MergeWritesByte(Contents(), addr, data);
      IndexParity(addr);
      hide WithWord, WithByte, Merged, WordAt, WordIndex;
      var word := ReadWord(addr / 2 * 2);
      WriteWord(addr / 2 * 2, Merged(word, addr, data));
    }

    method Do(op: Op) returns (r: nat)
      requires Valid()
      modifies this`dirtyWrites, memory
      ensures Contents() == Stored(old(Contents()), op) && r == Fetched(old(Contents()), op)
      ensures dirtyWrites == old(dirtyWrites) + Dirtied(op)
    {
      r := 0;
      match op {
        case Read(addr) => r := ReadWord(addr);
        case Write(addr, data) => WriteWord(addr, data);
        case ReadByte(addr) => r := ReadByte(addr);
        case WriteByte(addr, value) => WriteByte(addr, value);
        case _ =>
      }
    }
  }

  // ---------------------------------------------------------------------------
  // The recording bus
  // ---------------------------------------------------------------------------

  datatype Access = Access(write: bool, addr: nat, data: nat, isByte: bool, clock: u32, fc: byte)

  // Everything the recording bus keeps besides memory.
  datatype Recorder = Recorder(log: seq<Access>, clock: u32, recording: bool,
                               pending: Option<Signals>, rmwAt: Option<nat>)

  function CodeOf(pending: Option<Signals>): byte {
    match pending
    case Some(signals) => signals.FunctionCode()
    case None => 0
  }

  predicate IsTransfer(op: Op) {
    op.Read? || op.Write? || op.ReadByte? || op.WriteByte?
  }

  // The transfer as an entry, when one is made of it.
  function Entry(m: Memory, rec: Recorder, op: Op): Access
    requires IsTransfer(op)
  {
    var fc := CodeOf(rec.pending);
    match op
    case Read(addr) => Access(false, WordIndex(addr), WordAt(m, addr), false, rec.clock, fc)
    case Write(addr, data) => Access(true, WordIndex(addr), data, false, rec.clock, fc)
    case ReadByte(addr) => Access(false, ByteIndex(addr), ByteAt(m, addr), true, rec.clock, fc)
    case WriteByte(addr, value) => Access(true, ByteIndex(addr), value, true, rec.clock, fc)
  }

  // The write half of an announced read-modify-write.
  predicate IsWriteHalf(rec: Recorder, op: Op) {
    op.WriteByte? && rec.rmwAt == Some(WordIndex(op.addr))
  }

  function Amended(log: seq<Access>, data: nat): seq<Access> {
    if log == [] then [] else log[|log| - 1 := log[|log| - 1].(data := data)]
  }

  function Noted(m: Memory, rec: Recorder, op: Op): Recorder {
    match op
    case Start => Recorder([], 0, true, None, None)
    case Stop => rec.(recording := false)
    case Clock(at) => rec.(clock := at)
    case Announce(addr, signals) =>
      rec.(pending := Some(signals), rmwAt := if signals.rmw then Some(WordIndex(addr)) else None)
    case _ =>
      if IsWriteHalf(rec, op) then rec.(log := Amended(rec.log, op.value), rmwAt := None)
      else rec.(log := rec.log + if rec.recording then [Entry(m, rec, op)] else [], pending := None,
                rmwAt := if op.WriteByte? then None else rec.rmwAt)
  }

  function NotedAll(m: Memory, rec: Recorder, ops: seq<Op>): Recorder {
    if ops == [] then rec
    else Noted(StoredAll(m, ops[..|ops| - 1]), NotedAll(m, rec, ops[..|ops| - 1]), ops[|ops| - 1])
  }

  class RecordingBus68k {
    const memory: array<byte>
    var dirtyWrites: seq<nat>
    var log: seq<Access>
    var clock: u32
    var recording: bool
    var pending: Option<Signals>
    var rmwAt: Option<nat>

    ghost predicate Valid()
      reads this
    {
      memory.Length == MEMORY
    }

    ghost function Contents(): Memory
      reads this, memory
      requires Valid()
    {
      memory[..]
    }

    ghost function State(): Recorder
      reads this
    {
      Recorder(log, clock, recording, pending, rmwAt)
    }

    constructor ()
      ensures Valid() && fresh(memory) && dirtyWrites == []
      ensures Contents() == seq(MEMORY, _ => 0)
      ensures State() == Recorder([], 0, false, None, None)
    {
      memory := new byte[MEMORY](_ => 0);
      dirtyWrites, log, clock, recording, pending, rmwAt := [], [], 0, false, None, None;
      new;
      assert memory[..] == seq(MEMORY, _ => 0);
    }

    method StartRecording()
      modifies this
      ensures State() == Recorder([], 0, true, None, None) && dirtyWrites == old(dirtyWrites)
    {
      log, clock, pending, rmwAt, recording := [], 0, None, None, true;
    }

    method StopRecording()
      modifies this`recording
      ensures State() == old(State()).(recording := false)
    {
      recording := false;
    }

    // The function code of the announced cycle, consumed.
    method TakeFc() returns (fc: byte)
      modifies this`pending
      ensures fc == CodeOf(old(pending)) && pending == None
    {
      fc := match pending case Some(signals) => signals.FunctionCode() case None => 0;
      pending := None;
    }

    method ReadWord(addr: u32) returns (data: u16)
      requires Valid()
      modifies this
      ensures data == WordAt(Contents(), addr) && Contents() == old(Contents()) && dirtyWrites == old(dirtyWrites)
      ensures State() == Noted(Contents(), old(State()), Read(addr))
    {
      var i := WordIndex(addr);
      var high: nat, low: nat := memory[i], memory[i + 1];
      data := high * 0x100 + low;
      var fc := TakeFc();
      if recording {
        log := log + [Access(false, i, data, false, clock, fc)];
      }
    }

    method WriteWord(addr: u32, data: u16)
      requires Valid()
      modifies this, memory
      ensures Contents() == WithWord(old(Contents()), addr, data)
      ensures dirtyWrites == old(dirtyWrites) + [WordIndex(addr)]
      ensures State() == Noted(old(Contents()), old(State()), Write(addr, data))
    {
      var i := WordIndex(addr);
      memory[i] := data / 0x100;
      memory[i + 1] := data % 0x100;
      dirtyWrites := dirtyWrites + [i];
      var fc := TakeFc();
      if recording {
        log := log + [Access(true, i, data, false, clock, fc)];
      }
    }

    method ObserveBusCycle(addr: u32, signals: Signals)
      modifies this`rmwAt, this`pending
      ensures forall m: Memory :: State() == Noted(m, old(State()), Announce(addr, signals))
    {
      rmwAt := if signals.rmw then Some(WordIndex(addr)) else None;
      pending := Some(signals);
    }

    method ReadByte(addr: u32) returns (data: byte)
      requires Valid()
      modifies this
      ensures data == ByteAt(Contents(), addr) && Contents() == old(Contents()) && dirtyWrites == old(dirtyWrites)
      ensures State() == Noted(Contents(), old(State()), Op.ReadByte(addr))
    {
      var i := ByteIndex(addr);
      data := memory[i];
      var fc := TakeFc();
      if recording {
        log := log + [Access(false, i, data, true, clock, fc)];
      }
    }

    method WriteByte(addr: u32, data: byte)
      requires Valid()
      modifies this, memory
      ensures Contents() == WithByte(old(Contents()), addr, data)
      ensures dirtyWrites == old(dirtyWrites) + [WordIndex(addr)]
      ensures State() == Noted(old(Contents()), old(State()), Op.WriteByte(addr, data))
    {
      var i := ByteIndex(addr);
      IndexParity(addr);
      memory[i] := data;
      dirtyWrites := dirtyWrites + [i / 2 * 2];
      var at := rmwAt;
      rmwAt := None;
      if at == Some(i / 2 * 2) {
        if log != [] {
          log := log[|log| - 1 := log[|log| - 1].(data := data)];
        }
        return;
      }
      var fc := TakeFc();
      if recording {
        log := log + [Access(true, i, data, true, clock, fc)];
      }
    }

    method Do(op: Op) returns (r: nat)
      requires Valid()
      modifies this, memory
      ensures Contents() == Stored(old(Contents()), op) && r == Fetched(old(Contents()), op)
      ensures dirtyWrites == old(dirtyWrites) + Dirtied(op)
      ensures State() == Noted(old(Contents()), old(State()), op)
    {
      hide WithWord, WithByte;
      r := 0;
      match op {
        case Start => StartRecording();
        case Stop => StopRecording();
        case Clock(at) => clock := at;
        case Announce(addr, signals) => ObserveBusCycle(addr, signals);
        case Read(addr) => r := ReadWord(addr);
        case Write(addr, data) => WriteWord(addr, data);
        case ReadByte(addr) => r := ReadByte(addr);
        case WriteByte(addr, value) => WriteByte(addr, value);
      }
    }
  }

  /** The two buses cannot be told apart: after any operations, from the same memory, they
      gave the same answers and hold the same memory and the same dirty list. */
  method RunBoth(plain: TracingBus68k, recording: RecordingBus68k, ops: seq<Op>)
    returns (fromPlain: seq<nat>, fromRecording: seq<nat>)
    requires plain.Valid() && recording.Valid() && plain.memory != recording.memory
    requires plain.Contents() == recording.Contents() && plain.dirtyWrites == recording.dirtyWrites
    modifies plain, plain.memory, recording, recording.memory
    ensures fromPlain == fromRecording == FetchedAll(old(plain.Contents()), ops)
    ensures plain.Contents() == recording.Contents() == StoredAll(old(plain.Contents()), ops)
    ensures plain.dirtyWrites == recording.dirtyWrites == old(plain.dirtyWrites) + DirtiedAll(ops)
    ensures recording.State() == NotedAll(old(plain.Contents()), old(recording.State()), ops)
  {
    hide Stored, Fetched, Dirtied, Noted;
    ghost var m, rec := plain.Contents(), recording.State();
    fromPlain, fromRecording := [], [];
    for i := 0 to |ops|
      invariant fromPlain == fromRecording == FetchedAll(m, ops[..i])
      invariant plain.Contents() == recording.Contents() == StoredAll(m, ops[..i])
      invariant plain.dirtyWrites == recording.dirtyWrites == old(plain.dirtyWrites) + DirtiedAll(ops[..i])
      invariant recording.State() == NotedAll(m, rec, ops[..i])
    {
      assert ops[..i + 1][..i] == ops[..i];
      var p := plain.Do(ops[i]);
      var r := recording.Do(ops[i]);
      fromPlain, fromRecording := fromPlain + [p], fromRecording + [r];
    }
    assert ops[..|ops|] == ops;
  }

  // ---------------------------------------------------------------------------
  // What a recording says
  // ---------------------------------------------------------------------------

  lemma {:induction false} StoredInTwo(m: Memory, a: seq<Op>, b: seq<Op>)
    ensures StoredAll(m, a + b) == StoredAll(StoredAll(m, a), b)
    decreases |b|
  {
    if b == [] {
      assert a + b == a;
    } else {
      var n := |b| - 1;
      assert (a + b)[..|a + b| - 1] == a + b[..n];
      StoredInTwo(m, a, b[..n]);
    }
  }

  lemma {:induction false} NotedInTwo(m: Memory, rec: Recorder, a: seq<Op>, b: seq<Op>)
    ensures NotedAll(m, rec, a + b) == NotedAll(StoredAll(m, a), NotedAll(m, rec, a), b)
    decreases |b|
  {
    hide Noted, Stored;
    if b == [] {
      assert a + b == a;
    } else {
      var n := |b| - 1;
      assert (a + b)[..|a + b| - 1] == a + b[..n];
      NotedInTwo(m, rec, a, b[..n]);
      StoredInTwo(m, a, b[..n]);
    }
  }

  /** A bus cycle as the processor runs it: announced, then performed. An indivisible one
      is announced once and performs a read and a write of the same byte. */
  datatype Cycle =
    | Plain(at: u32, supervisor: bool, program: bool, op: Op)
    | ReadModifyWrite(at: u32, supervisor: bool, program: bool, addr: u32, writeAt: u32, value: byte)

  predicate CycleOk(c: Cycle) {
    c.Plain? ==> IsTransfer(c.op)
  }

  function Rendered(c: Cycle): seq<Op>
    requires CycleOk(c)
  {
    match c
    case Plain(at, supervisor, program, op) =>
      [Clock(at), Announce(op.addr, Signals(supervisor, program, false)), op]
    case ReadModifyWrite(at, supervisor, program, addr, writeAt, value) =>
      [Clock(at), Announce(addr, Signals(supervisor, program, true)), ReadByte(addr), Clock(writeAt),
       WriteByte(addr, value)]
  }

  // The one entry a cycle should leave: where, which way, what was on the data bus last,
  // when it started, and its own function code.
  function Expected(m: Memory, c: Cycle): Access
    requires CycleOk(c)
  {
    var fc: byte := match (c.supervisor, c.program)
      case (false, false) => 1
      case (false, true) => 2
      case (true, false) => 5
      case (true, true) => 6;
    match c
    case Plain(at, _, _, op) =>
      Access(op.Write? || op.WriteByte?,
             if op.Read? || op.Write? then WordIndex(op.addr) else ByteIndex(op.addr),
             (match op case Write(_, data) => data case WriteByte(_, value) => value case _ => Fetched(m, op)),
             op.ReadByte? || op.WriteByte?, at, fc)
    case ReadModifyWrite(at, _, _, addr, _, value) => Access(false, ByteIndex(addr), value, true, at, fc)
  }

  function AfterCycle(m: Memory, c: Cycle): Memory
    requires CycleOk(c)
  {
    match c
    case Plain(_, _, _, op) => Stored(m, op)
    case ReadModifyWrite(_, _, _, addr, _, value) => WithByte(m, addr, value)
  }

  function RenderedAll(cs: seq<Cycle>): seq<Op>
    requires forall c :: c in cs ==> CycleOk(c)
  {
    if cs == [] then [] else Rendered(cs[0]) + RenderedAll(cs[1..])
  }

  function ExpectedLog(m: Memory, cs: seq<Cycle>): seq<Access>
    requires forall c :: c in cs ==> CycleOk(c)
    decreases |cs|
  {
    if cs == [] then [] else [Expected(m, cs[0])] + ExpectedLog(AfterCycle(m, cs[0]), cs[1..])
  }

  function NotedThree(m: Memory, rec: Recorder, a: Op, b: Op, c: Op): Recorder {
    Noted(m, Noted(m, Noted(m, rec, a), b), c)
  }

  lemma OneMore(m: Memory, rec: Recorder, ops: seq<Op>, op: Op)
    ensures StoredAll(m, ops + [op]) == Stored(StoredAll(m, ops), op)
    ensures NotedAll(m, rec, ops + [op]) == Noted(StoredAll(m, ops), NotedAll(m, rec, ops), op)
  {
    hide Noted, Stored;
    assert (ops + [op])[..|ops|] == ops;
  }

  // Short runs, step by step.
  lemma NotedShort(m: Memory, rec: Recorder, a: Op, b: Op, c: Op)
    requires Stored(m, a) == m && Stored(m, b) == m
    ensures NotedAll(m, rec, [a, b, c]) == NotedThree(m, rec, a, b, c)
    ensures StoredAll(m, [a, b, c]) == Stored(m, c)
  {
    hide Noted, Stored;
    NotedShorter(m, rec, a, b);
    OneMore(m, rec, [a, b], c);
    assert [a, b, c] == [a, b] + [c];
  }

  lemma NotedShorter(m: Memory, rec: Recorder, a: Op, b: Op)
    requires Stored(m, a) == m
    ensures NotedAll(m, rec, [a, b]) == Noted(m, Noted(m, rec, a), b)
    ensures StoredAll(m, [a, b]) == Stored(m, b)
  {
    hide Noted, Stored;
    OneMore(m, rec, [], a);
    OneMore(m, rec, [a], b);
    assert [a] == [] + [a] && [a, b] == [a] + [b];
  }

  lemma CycleLogs(m: Memory, rec: Recorder, c: Cycle)
    requires CycleOk(c) && rec.recording
    ensures StoredAll(m, Rendered(c)) == AfterCycle(m, c)
    ensures NotedAll(m, rec, Rendered(c)).log == rec.log + [Expected(m, c)]
    ensures NotedAll(m, rec, Rendered(c)).recording
  {
    if c.Plain? {
      PlainLogs(m, rec, c);
    } else {
      PairLogs(m, rec, c);
    }
  }

  lemma PlainLogs(m: Memory, rec: Recorder, c: Cycle)
    requires c.Plain? && CycleOk(c) && rec.recording
    ensures StoredAll(m, Rendered(c)) == AfterCycle(m, c)
    ensures NotedAll(m, rec, Rendered(c)).log == rec.log + [Expected(m, c)]
    ensures NotedAll(m, rec, Rendered(c)).recording
  {
    hide WithWord, WithByte, WordAt, ByteAt, WordIndex, ByteIndex;
    NotedShort(m, rec, Clock(c.at), Announce(c.op.addr, Signals(c.supervisor, c.program, false)), c.op);
  }

  lemma PairLogs(m: Memory, rec: Recorder, c: Cycle)
    requires c.ReadModifyWrite? && rec.recording
    ensures StoredAll(m, Rendered(c)) == AfterCycle(m, c)
    ensures NotedAll(m, rec, Rendered(c)).log == rec.log + [Expected(m, c)]
    ensures NotedAll(m, rec, Rendered(c)).recording
  {
    hide WithWord, WithByte, WordAt, ByteAt, WordIndex, ByteIndex;
    var announce := Announce(c.addr, Signals(c.supervisor, c.program, true));
    var first, second := [Clock(c.at), announce, ReadByte(c.addr)], [Clock(c.writeAt), WriteByte(c.addr, c.value)];
    assert Rendered(c) == first + second;
    StoredInTwo(m, first, second);
    NotedInTwo(m, rec, first, second);
    NotedShort(m, rec, Clock(c.at), announce, ReadByte(c.addr));
    NotedShorter(m, NotedThree(m, rec, Clock(c.at), announce, ReadByte(c.addr)), Clock(c.writeAt),
                 WriteByte(c.addr, c.value));
  }

  /** For any trace that announces each cycle, the recording holds exactly one entry a
      cycle, in order, with that cycle's own function code; a read-modify-write pair is
      one entry, and it holds the byte written. */
  lemma {:induction false} OneEntryPerCycle(m: Memory, rec: Recorder, cs: seq<Cycle>)
    requires rec.recording && forall c :: c in cs ==> CycleOk(c)
    ensures NotedAll(m, rec, RenderedAll(cs)).log == rec.log + ExpectedLog(m, cs)
    ensures |ExpectedLog(m, cs)| == |cs|
    decreases |cs|
  {
    hide Noted, Stored, Rendered, Expected, AfterCycle;
    if cs != [] {
      var c, rest := cs[0], cs[1..];
      CycleLogs(m, rec, c);
      NotedInTwo(m, rec, Rendered(c), RenderedAll(rest));
      OneEntryPerCycle(AfterCycle(m, c), NotedAll(m, rec, Rendered(c)), rest);
      assert rec.log + [Expected(m, c)] + ExpectedLog(AfterCycle(m, c), rest)
          == rec.log + ([Expected(m, c)] + ExpectedLog(AfterCycle(m, c), rest));
    }
  }

  /** A transfer nobody announced is the one with function code zero, which the part
      cannot drive; and the only transfer without an entry of its own is a write half. */
  lemma UnannouncedIsVisible(m: Memory, rec: Recorder, op: Op)
    requires rec.recording && IsTransfer(op)
    ensures var log := Noted(m, rec, op).log;
      && |log| == |rec.log| + (if IsWriteHalf(rec, op) then 0 else 1)
      && (!IsWriteHalf(rec, op) ==>
            log[..|rec.log|] == rec.log && (log[|rec.log|].fc == 0 <==> rec.pending == None))
  {
  }

  /** A code belongs to one transfer: one that follows another without being announced
      itself is logged with none. */
  lemma CodeIsUsedOnce(m: Memory, rec: Recorder, first: Op, second: Op)
    requires rec.recording && IsTransfer(first) && IsTransfer(second)
    requires rec.rmwAt == None
    ensures var log := Noted(Stored(m, first), Noted(m, rec, first), second).log;
      |log| == |rec.log| + 2 && log[|rec.log| + 1].fc == 0
  {
  }

  /** And a pair takes one write: a byte written to the same place after it is a transfer of
      its own, and nobody announced it. */
  lemma PairTakesOneWrite(m: Memory, rec: Recorder, addr: u32, supervisor: bool, program: bool, value: byte, next: byte)
    requires rec.recording
    ensures var cycle := Rendered(ReadModifyWrite(0, supervisor, program, addr, 0, value));
      var log := NotedAll(m, rec, cycle + [WriteByte(addr, next)]).log;
      |log| == |rec.log| + 2 && log[|rec.log| + 1].data == next && log[|rec.log| + 1].fc == 0
  {
    var c := ReadModifyWrite(0, supervisor, program, addr, 0, value);
    PairLogs(m, rec, c);
    PairSettles(m, rec, c);
    OneMore(m, rec, Rendered(c), WriteByte(addr, next));
    hide Stored, StoredAll, Rendered, Expected;
  }

  /** Nor does a pair wait past a byte written elsewhere: a write to its place after that is a
      transfer of its own. */
  lemma PairEndsAtAnyByteWrite(m: Memory, rec: Recorder, elsewhere: u32, addr: u32, value: byte, next: byte)
    requires rec.recording && rec.rmwAt != Some(elsewhere % 0x100_0000 / 2 * 2)
    ensures var once := Noted(m, rec, WriteByte(elsewhere, value));
      var twice := Noted(WithByte(m, elsewhere, value), once, WriteByte(addr, next));
      |once.log| == |rec.log| + 1 && |twice.log| == |rec.log| + 2 && twice.log[|rec.log| + 1].data == next
  {
    hide ByteIndex;
  }

  // A whole pair leaves nothing announced and nothing open.
  lemma PairSettles(m: Memory, rec: Recorder, c: Cycle)
    requires c.ReadModifyWrite? && rec.recording
    ensures var after := NotedAll(m, rec, Rendered(c));
      after.pending == None && after.rmwAt == None && after.recording
  {
    hide WithWord, WithByte, WordAt, ByteAt, WordIndex, ByteIndex;
    var announce := Announce(c.addr, Signals(c.supervisor, c.program, true));
    var first, second := [Clock(c.at), announce, ReadByte(c.addr)], [Clock(c.writeAt), WriteByte(c.addr, c.value)];
    assert Rendered(c) == first + second;
    StoredInTwo(m, first, second);
    NotedInTwo(m, rec, first, second);
    NotedShort(m, rec, Clock(c.at), announce, ReadByte(c.addr));
    NotedShorter(m, NotedThree(m, rec, Clock(c.at), announce, ReadByte(c.addr)), Clock(c.writeAt),
                 WriteByte(c.addr, c.value));
  }

  /** A recording counts its clock from zero. */
  lemma ClockStartsAtZero(m: Memory, rec: Recorder, op: Op)
    requires IsTransfer(op)
    ensures var log := NotedAll(m, rec, [Start, op]).log;
      |log| == 1 && log[0].clock == 0 && log[0].fc == 0
  {
    NotedShorter(m, rec, Start, op);
  }

  /** What a recording holds when it is stopped: exactly the cycles it was started for, on
      the memory they found, whatever was recorded, announced or half done before. */
  lemma RecordingIsItsCycles(m: Memory, rec: Recorder, before: seq<Op>, cs: seq<Cycle>)
    requires forall c :: c in cs ==> CycleOk(c)
    ensures NotedAll(m, rec, before + [Start] + RenderedAll(cs) + [Stop]).log == ExpectedLog(StoredAll(m, before), cs)
  {
    hide Rendered, Expected, AfterCycle;
    var started := before + [Start];
    OneMore(m, rec, before, Start);
    NotedInTwo(m, rec, started, RenderedAll(cs));
    OneEntryPerCycle(StoredAll(m, started), NotedAll(m, rec, started), cs);
    OneMore(m, rec, started + RenderedAll(cs), Stop);
  }

  /** With recording off the log is not quite frozen: short of a new start, an operation
      leaves it alone exactly when it is not the write half of an announced pair carrying a
      new byte. */
  lemma StoppedLogMoves(m: Memory, rec: Recorder, op: Op)
    requires !rec.recording
    ensures Noted(m, rec, op).log != rec.log
        <==> rec.log != [] && (op.Start? || (IsWriteHalf(rec, op) && rec.log[|rec.log| - 1].data != op.value))
  {
    if IsWriteHalf(rec, op) && rec.log != [] {
      assert Noted(m, rec, op).log[|rec.log| - 1].data == op.value;
    }
  }

  // The same entries, but for the data of the last one.
  predicate SameButLastData(log: seq<Access>, now: seq<Access>) {
    |now| == |log|
    && (log != [] ==>
          var n := |log| - 1;
          now[..n] == log[..n] && now[n] == log[n].(data := now[n].data))
  }

  // A read-modify-write is announced.
  predicate IsPair(op: Op) {
    op.Announce? && op.signals.rmw
  }

  lemma StoppedStep(m: Memory, rec: Recorder, op: Op)
    requires !rec.recording && !op.Start?
    ensures var after := Noted(m, rec, op);
      && !after.recording && SameButLastData(rec.log, after.log)
      && (rec.rmwAt == None && !IsPair(op) ==> after.log == rec.log && after.rmwAt == None)
  {
  }

  /** However long the bus runs with recording off, that is all that moves: no entry comes,
      goes or changes but for the last one's data, and not even that unless a pair was open
      at the stop or is announced after it. */
  lemma {:induction false} StoppedRunKeepsEntries(m: Memory, rec: Recorder, ops: seq<Op>)
    requires !rec.recording && Start !in ops
    ensures var after := NotedAll(m, rec, ops);
      && !after.recording && SameButLastData(rec.log, after.log)
      && (rec.rmwAt == None && (forall op :: op in ops ==> !IsPair(op)) ==> after.log == rec.log && after.rmwAt == None)
    decreases |ops|
  {
    hide Noted, IsPair;
    if ops != [] {
      var front, last := ops[..|ops| - 1], ops[|ops| - 1];
      StoppedRunKeepsEntries(m, rec, front);
      StoppedStep(StoredAll(m, front), NotedAll(m, rec, front), last);
    }
  }

  /** Stopping between the halves of an indivisible cycle: the log still changes. */
  lemma StopIsNotAFreeze(m: Memory, addr: u32)
    requires ByteAt(m, addr) == 0
    ensures var rec := Recorder([], 0, false, None, None);
      var begun := [Start, Announce(addr, Signals(true, false, true)), ReadByte(addr)] + [Stop];
      var stopped := NotedAll(m, rec, begun);
      |stopped.log| == 1 && NotedAll(m, rec, begun + [WriteByte(addr, 0x80)]).log != stopped.log
  {
    var rec := Recorder([], 0, false, None, None);
    var announce := Announce(addr, Signals(true, false, true));
    NotedShort(m, rec, Start, announce, ReadByte(addr));
    OneMore(m, rec, [Start, announce, ReadByte(addr)], Stop);
    OneMore(m, rec, [Start, announce, ReadByte(addr)] + [Stop], WriteByte(addr, 0x80));
  }
}
