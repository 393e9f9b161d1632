/** Reading port traffic out of a recorded 8088 trace, one entry a clock. */
module I8088Trace {
  import opened Basics

  datatype BusStatus = INTA | IOR | IOW | MEMR | MEMW | HALT | CODE | PASV

  datatype TState = T1 | T2 | T3 | T4 | Tw | Ti

  // The pins the extraction looks at. Bit 0 of `pins` is ALE.
  datatype Cycle = Cycle(pins: byte, bus: u32, data: byte, status: BusStatus, tState: TState) {
    predicate Ale() {
      pins % 2 != 0
    }

    // The latched 20-bit address.
    function Address(): Option<u32> {
      if Ale() then Some(bus % 0x10_0000) else None
    }
  }

  // The recorder's own account: the low bit of the pins says an address is on the bus.
  ghost predicate Latches(c: Cycle) {
    exists others: nat :: c.pins == 2 * others + 1
  }

  lemma AleIsTheLowBit(c: Cycle)
    ensures c.Ale() <==> Latches(c)
  {
    if c.Ale() {
      assert c.pins == 2 * (c.pins / 2) + 1;
    }
  }

  /** An address is there exactly when the part latches one, and is the low twenty lines. */
  lemma AddressIsLatched(c: Cycle, above: nat, address: nat)
    requires address < 0x10_0000 && c.bus == 0x10_0000 * above + address
    ensures c.Address() == if Latches(c) then Some(address) else None
  {
    AleIsTheLowBit(c);
  }

  // ---------------------------------------------------------------------------
  // The extraction, as folds over the trace
  // ---------------------------------------------------------------------------

  // Whether an I/O read is under way after the cycles so far.
  predicate ReadPending(cycles: seq<Cycle>) {
    if cycles == [] then false else
      var c := cycles[|cycles| - 1];
      var pending := if c.Ale() then c.status == IOR else ReadPending(cycles[..|cycles| - 1]);
      pending && c.tState != T3
  }

  function ReadsOf(cycles: seq<Cycle>): seq<byte> {
    if cycles == [] then [] else
      var c := cycles[|cycles| - 1];
      var before := cycles[..|cycles| - 1];
      var pending := if c.Ale() then c.status == IOR else ReadPending(before);
      ReadsOf(before) + if pending && c.tState == T3 then [c.data] else []
  }

  function WritePending(cycles: seq<Cycle>): Option<u16> {
    if cycles == [] then None else
      var c := cycles[|cycles| - 1];
      if c.tState == T3 then None
      else if c.Ale() then if c.status == IOW then Some(c.bus % 0x10_0000 % 0x1_0000) else None
      else WritePending(cycles[..|cycles| - 1])
  }

  function WritesOf(cycles: seq<Cycle>): seq<(u16, byte)> {
    if cycles == [] then [] else
      var c := cycles[|cycles| - 1];
      var before := cycles[..|cycles| - 1];
      var port := if !c.Ale() then WritePending(before)
                  else if c.status == IOW then Some(c.bus % 0x10_0000 % 0x1_0000) else None;
      WritesOf(before) + if c.tState == T3 && port.Some? then [(port.value, c.data)] else []
  }

  method PortReads(cycles: seq<Cycle>) returns (out: seq<byte>)
    ensures out == ReadsOf(cycles)
  {
    out := [];
    var pending := false;
    for i := 0 to |cycles|
      invariant out == ReadsOf(cycles[..i]) && pending == ReadPending(cycles[..i])
    {
      assert cycles[..i + 1][..i] == cycles[..i];
      var c := cycles[i];
      if c.Address().Some? {
        pending := c.status == IOR;
      }
      if pending && c.tState == T3 {
        out := out + [c.data];
        pending := false;
      }
    }
    assert cycles[..|cycles|] == cycles;
  }

  method PortWrites(cycles: seq<Cycle>) returns (out: seq<(u16, byte)>)
    ensures out == WritesOf(cycles)
  {
    out := [];
    var pending: Option<u16> := None;
    for i := 0 to |cycles|
      invariant out == WritesOf(cycles[..i]) && pending == WritePending(cycles[..i])
    {
      assert cycles[..i + 1][..i] == cycles[..i];
      var c := cycles[i];
      match c.Address() {
        case Some(addr) => pending := if c.status == IOW then Some(addr % 0x1_0000) else None;
        case None =>
      }
      if c.tState == T3 {
        if pending.Some? {
          out := out + [(pending.value, c.data)];
        }
        pending := None;
      }
    }
    assert cycles[..|cycles|] == cycles;
  }

  // ---------------------------------------------------------------------------
  // What a trace of bus operations says
  // ---------------------------------------------------------------------------

  /** One bus operation on the pins: the address is latched on T1, the data is on the pins
      on T3, and anything may sit before T3 and after it as long as no address is latched
      and no second T3 comes before the first. */
  datatype BusOp = BusOp(latch: Cycle, wait: seq<Cycle>, transfer: Cycle, after: seq<Cycle>)

  ghost predicate OpOk(op: BusOp) {
    && Latches(op.latch) && op.latch.tState == T1
    && (forall c :: c in op.wait ==> !Latches(c) && c.tState != T3)
    && !Latches(op.transfer) && op.transfer.tState == T3
    && forall c :: c in op.after ==> !Latches(c)
  }

  function Pins(op: BusOp): seq<Cycle> {
    [op.latch] + op.wait + [op.transfer] + op.after
  }

  function Trace(lead: seq<Cycle>, ops: seq<BusOp>): seq<Cycle> {
    if ops == [] then lead else Trace(lead, ops[..|ops| - 1]) + Pins(ops[|ops| - 1])
  }

  function ReadBytes(ops: seq<BusOp>): seq<byte> {
    if ops == [] then [] else
      var op := ops[|ops| - 1];
      ReadBytes(ops[..|ops| - 1]) + if op.latch.status == IOR then [op.transfer.data] else []
  }

  function PortOf(op: BusOp): u16 {
    op.latch.bus % 0x1_0000
  }

  function WrittenBytes(ops: seq<BusOp>): seq<(u16, byte)> {
    if ops == [] then [] else
      var op := ops[|ops| - 1];
      WrittenBytes(ops[..|ops| - 1]) + if op.latch.status == IOW then [(PortOf(op), op.transfer.data)] else []
  }

  // Cycles that latch nothing, while nothing is pending or before the data comes.
  ghost predicate Quiet(cycles: seq<Cycle>) {
    forall c :: c in cycles ==> !Latches(c)
  }

  lemma {:induction false} IdleAdds(before: seq<Cycle>, idle: seq<Cycle>)
    requires Quiet(idle) && !ReadPending(before) && WritePending(before) == None
    ensures ReadsOf(before + idle) == ReadsOf(before) && !ReadPending(before + idle)
    ensures WritesOf(before + idle) == WritesOf(before) && WritePending(before + idle) == None
    decreases |idle|
  {
    if idle == [] {
      assert before + idle == before;
    } else {
      var n := |idle| - 1;
      assert before + idle == (before + idle[..n]) + [idle[n]];
      IdleAdds(before, idle[..n]);
      OneCycle(before + idle[..n], idle[n]);
    }
  }

  lemma {:induction false} WaitingAdds(before: seq<Cycle>, wait: seq<Cycle>)
    requires Quiet(wait) && forall c :: c in wait ==> c.tState != T3
    ensures ReadsOf(before + wait) == ReadsOf(before) && ReadPending(before + wait) == ReadPending(before)
    ensures WritesOf(before + wait) == WritesOf(before) && WritePending(before + wait) == WritePending(before)
    decreases |wait|
  {
    if wait == [] {
      assert before + wait == before;
    } else {
      var n := |wait| - 1;
      assert before + wait == (before + wait[..n]) + [wait[n]];
      WaitingAdds(before, wait[..n]);
      OneCycle(before + wait[..n], wait[n]);
    }
  }

  lemma OneCycle(before: seq<Cycle>, c: Cycle)
    ensures var pending := if Latches(c) then c.status == IOR else ReadPending(before);
      && ReadPending(before + [c]) == (pending && c.tState != T3)
      && ReadsOf(before + [c]) == ReadsOf(before) + if pending && c.tState == T3 then [c.data] else []
    ensures var port := if !Latches(c) then WritePending(before)
                        else if c.status == IOW then Some(c.bus % 0x1_0000) else None;
      && WritePending(before + [c]) == (if c.tState == T3 then None else port)
      && WritesOf(before + [c])
         == WritesOf(before) + if c.tState == T3 && port.Some? then [(port.value, c.data)] else []
  {
    assert (before + [c])[..|before|] == before;
    PortBits(c.bus);
    AleIsTheLowBit(c);
  }

  // The port is the low half of the latched address.
  lemma PortBits(bus: u32)
    ensures bus % 0x10_0000 % 0x1_0000 == bus % 0x1_0000
  {
    assert bus == bus / 0x10_0000 * 0x10_0000 + bus % 0x10_0000;
  }

  lemma OpAdds(before: seq<Cycle>, op: BusOp)
    requires OpOk(op) && !ReadPending(before) && WritePending(before) == None
    ensures var trace := before + Pins(op);
      && ReadsOf(trace) == ReadsOf(before) + (if op.latch.status == IOR then [op.transfer.data] else [])
      && WritesOf(trace) == WritesOf(before) + (if op.latch.status == IOW then [(PortOf(op), op.transfer.data)] else [])
      && !ReadPending(trace) && WritePending(trace) == None
  {
    hide ReadsOf, WritesOf, ReadPending, WritePending, Latches;
    var latched := before + [op.latch];
    var waited := latched + op.wait;
    var moved := waited + [op.transfer];
    OneCycle(before, op.latch);
    WaitingAdds(latched, op.wait);
    OneCycle(waited, op.transfer);
    IdleAdds(moved, op.after);
    assert before + Pins(op) == moved + op.after;
  }

  lemma {:induction false} TraceAdds(lead: seq<Cycle>, ops: seq<BusOp>)
    requires Quiet(lead) && forall op :: op in ops ==> OpOk(op)
    ensures ReadsOf(Trace(lead, ops)) == ReadBytes(ops) && !ReadPending(Trace(lead, ops))
    ensures WritesOf(Trace(lead, ops)) == WrittenBytes(ops) && WritePending(Trace(lead, ops)) == None
    decreases |ops|
  {
    hide ReadsOf, WritesOf, ReadPending, WritePending, Pins, OpOk;
    if ops == [] {
      NothingRead();
      IdleAdds([], lead);
      assert [] + lead == lead;
    } else {
      var n := |ops| - 1;
      TraceAdds(lead, ops[..n]);
      OpAdds(Trace(lead, ops[..n]), ops[n]);
    }
  }

  lemma NothingRead()
    ensures ReadsOf([]) == [] && !ReadPending([]) && WritesOf([]) == [] && WritePending([]) == None
  {
  }

  /** From a trace of bus operations the extraction gives exactly the bytes the part read
      from ports, and exactly the bytes it wrote with their ports, in order, whatever idle
      clocks lie between and inside the operations. */
  method Traffic(lead: seq<Cycle>, ops: seq<BusOp>) returns (inputs: seq<byte>, outputs: seq<(u16, byte)>)
    requires Quiet(lead) && forall op :: op in ops ==> OpOk(op)
    ensures inputs == ReadBytes(ops) && outputs == WrittenBytes(ops)
  {
    TraceAdds(lead, ops);
    inputs := PortReads(Trace(lead, ops));
    outputs := PortWrites(Trace(lead, ops));
  }

  // The operation latched at clock `i` still waits for its T3 at the last one.
  ghost predicate OpenSince(cycles: seq<Cycle>, i: int, status: BusStatus) {
    && 0 <= i < |cycles| && Latches(cycles[i]) && cycles[i].status == status
    && (forall m :: i < m < |cycles| ==> !Latches(cycles[m]))
    && forall m :: i <= m < |cycles| - 1 ==> cycles[m].tState != T3
  }

  ghost predicate Reading(cycles: seq<Cycle>) {
    exists i :: OpenSince(cycles, i, IOR)
  }

  ghost predicate Writing(cycles: seq<Cycle>, port: u16) {
    exists i :: OpenSince(cycles, i, IOW) && cycles[i].bus % 0x1_0000 == port
  }

  // Its T3 has not come.
  ghost predicate Waits(cycles: seq<Cycle>) {
    cycles != [] && cycles[|cycles| - 1].tState != T3
  }

  lemma OpenGoesOn(cycles: seq<Cycle>, c: Cycle, i: int, status: BusStatus)
    ensures i != |cycles| ==>
              (OpenSince(cycles + [c], i, status) <==> OpenSince(cycles, i, status) && Waits(cycles) && !Latches(c))
    ensures OpenSince(cycles + [c], |cycles|, status) <==> Latches(c) && c.status == status
  {
    var longer := cycles + [c];
    assert longer[|cycles|] == c && forall m :: 0 <= m < |cycles| ==> longer[m] == cycles[m];
  }

  lemma ReadingGoesOn(cycles: seq<Cycle>, c: Cycle)
    ensures Reading(cycles + [c]) <==> if Latches(c) then c.status == IOR else Reading(cycles) && Waits(cycles)
  {
    hide OpenSince, Latches, Waits;
    OpenGoesOn(cycles, c, -1, IOR);
    if Reading(cycles + [c]) {
      var i :| OpenSince(cycles + [c], i, IOR);
      OpenGoesOn(cycles, c, i, IOR);
    }
    if !Latches(c) && Reading(cycles) && Waits(cycles) {
      var i :| OpenSince(cycles, i, IOR);
      OpenInside(cycles, i, IOR);
      OpenGoesOn(cycles, c, i, IOR);
    }
  }

  lemma OpenInside(cycles: seq<Cycle>, i: int, status: BusStatus)
    requires OpenSince(cycles, i, status)
    ensures 0 <= i < |cycles|
  {
  }

  lemma WritingGoesOn(cycles: seq<Cycle>, c: Cycle, port: u16)
    ensures Writing(cycles + [c], port)
       <==> if Latches(c) then c.status == IOW && c.bus % 0x1_0000 == port else Writing(cycles, port) && Waits(cycles)
  {
    hide Latches, Waits;
    OpenGoesOn(cycles, c, -1, IOW);
    if Writing(cycles + [c], port) {
      var i :| OpenSince(cycles + [c], i, IOW) && (cycles + [c])[i].bus % 0x1_0000 == port;
      OpenGoesOn(cycles, c, i, IOW);
    }
    if !Latches(c) && Writing(cycles, port) && Waits(cycles) {
      var i :| OpenSince(cycles, i, IOW) && cycles[i].bus % 0x1_0000 == port;
      OpenGoesOn(cycles, c, i, IOW);
      assert (cycles + [c])[i] == cycles[i];
    }
    if Latches(c) && c.status == IOW && c.bus % 0x1_0000 == port {
      assert (cycles + [c])[|cycles|] == c;
    }
  }

  // What is pending is the last operation latched, while it waits.
  lemma {:induction false} PendingIsOpen(cycles: seq<Cycle>)
    ensures ReadPending(cycles) <==> Reading(cycles) && Waits(cycles)
    ensures forall port: u16 :: WritePending(cycles) == Some(port) <==> Writing(cycles, port) && Waits(cycles)
    decreases |cycles|
  {
    NothingRead();
    hide ReadPending, WritePending, ReadsOf, WritesOf, Latches, Reading, Writing;
    if cycles != [] {
      var last := |cycles| - 1;
      var before, c := cycles[..last], cycles[last];
      assert cycles == before + [c];
      PendingIsOpen(before);
      OneCycle(before, c);
      ReadingGoesOn(before, c);
      forall port: u16
        ensures WritePending(cycles) == Some(port) <==> Writing(cycles, port) && Waits(cycles)
      {
        WritingGoesOn(before, c, port);
      }
    }
  }

  /** For every trace whatever: the next clock adds a read exactly when it is the first T3 of
      an I/O read, no address latched since, and a write likewise, with the low half of the
      address latched for it. */
  lemma EachClockExactly(cycles: seq<Cycle>, c: Cycle)
    ensures var longer := cycles + [c];
      && ReadsOf(longer) == ReadsOf(cycles) + (if c.tState == T3 && Reading(longer) then [c.data] else [])
      && (forall port: u16 :: c.tState == T3 && Writing(longer, port) ==> WritesOf(longer) == WritesOf(cycles) + [(port, c.data)])
      && (c.tState != T3 || (forall port: u16 :: !Writing(longer, port)) ==> WritesOf(longer) == WritesOf(cycles))
  {
    hide ReadPending, WritePending, ReadsOf, WritesOf, Latches, Reading, Writing, Waits;
    PendingIsOpen(cycles);
    OneCycle(cycles, c);
    ReadingGoesOn(cycles, c);
    forall port: u16
      ensures Writing(cycles + [c], port)
         <==> if Latches(c) then c.status == IOW && c.bus % 0x1_0000 == port else Writing(cycles, port) && Waits(cycles)
    {
      WritingGoesOn(cycles, c, port);
    }
    if c.tState == T3 && forall port: u16 :: !Writing(cycles + [c], port) {
      assert !Writing(cycles + [c], c.bus % 0x1_0000);
      if WritePending(cycles).Some? {
        assert !Writing(cycles + [c], WritePending(cycles).value);
      }
    }
  }

  /** The extraction invents nothing: every read it reports is the data of some T3 clock
      whose operation, the last latched address before or on it, was an I/O read. */
  lemma {:induction false} ReadsAreReal(cycles: seq<Cycle>, k: nat)
    requires k < |ReadsOf(cycles)|
    ensures exists i, j ::
      && 0 <= i <= j < |cycles| && Latches(cycles[i]) && cycles[i].status == IOR
      && cycles[j].tState == T3 && cycles[j].data == ReadsOf(cycles)[k]
      && forall m :: i < m <= j ==> !Latches(cycles[m])
    decreases |cycles|
  {
    var n := |cycles| - 1;
    var before, c := cycles[..n], cycles[n];
    AleIsTheLowBit(c);
    if k < |ReadsOf(before)| {
      ReadsAreReal(before, k);
      var i, j :| 0 <= i <= j < |before| && Latches(before[i]) && before[i].status == IOR
        && before[j].tState == T3 && before[j].data == ReadsOf(before)[k]
        && forall m :: i < m <= j ==> !Latches(before[m]);
      assert cycles[i] == before[i] && cycles[j] == before[j];
      assert forall m :: i < m <= j ==> cycles[m] == before[m];
    } else if c.Ale() {
      assert Latches(cycles[n]) && cycles[n].tState == T3;
    } else {
      var i := PendingSince(before);
      assert cycles[i] == before[i] && cycles[n].tState == T3;
      assert forall m :: i < m < n ==> cycles[m] == before[m];
    }
  }

  lemma {:induction false} PendingSince(cycles: seq<Cycle>) returns (i: nat)
    requires ReadPending(cycles)
    ensures i < |cycles| && Latches(cycles[i]) && cycles[i].status == IOR
    ensures forall m :: i < m < |cycles| ==> !Latches(cycles[m])
    decreases |cycles|
  {
    var n := |cycles| - 1;
    AleIsTheLowBit(cycles[n]);
    if cycles[n].Ale() {
      i := n;
    } else {
      i := PendingSince(cycles[..n]);
      assert forall m :: i < m < n ==> cycles[m] == cycles[..n][m];
    }
  }
}
