/** The decoder of the m68000 binary vector container: a bounds-checked little-endian
    cursor, a magic word before every section, nested counted loops, and refusal of
    short, malformed and trailing input. */
module M68000Bin {
  import opened Basics

  const MAGIC_FILE: u32 := 0x1A3F_5D71
  const MAGIC_TEST: u32 := 0xABC1_2367
  const MAGIC_NAME: u32 := 0x89AB_CDEF
  const MAGIC_STATE: u32 := 0x0123_4567
  const MAGIC_TXNS: u32 := 0x4567_89AB

  datatype Section = Test | Name | State | Transactions

  datatype What =
    | Short(wanted: nat, remain: nat)
    | BadMagic(section: Section, found: u32)
    | BadFileMagic(found: u32)
    | RamOutside(addr: u32)
    | UnknownTag(tag: byte)
    | NameNotUtf8
    | TrailingBytes(extra: nat, tests: nat)
    | InTest(index: nat, inner: What)

  datatype DecodeError = DecodeError(offset: nat, what: What)

  /** What a method of the reader returns. */
  datatype Result<+T> = Ok(value: T) | Err(error: DecodeError) {
    predicate IsFailure() { Err? }
    function PropagateFailure<U>(): Result<U>
      requires Err?
    {
      Err(error)
    }
    function Extract(): T
      requires Ok?
    {
      value
    }
  }

  datatype TxnSize = Byte | Word

  datatype TxnKind = Idle | Write | Read | Tas | ReadAddressError | WriteAddressError

  datatype BusTxn = BusTxn(kind: TxnKind, clocks: u32, fc: u32, addr: u32, size: TxnSize,
                           data: u32, uds: bool, lds: bool, busPositioned: bool)

  // d0-d7, a0-a6, then the named registers, the prefetch queue and memory as byte pairs.
  datatype Regs = Regs(d: seq<u32>, a: seq<u32>, usp: u32, ssp: u32, sr: u16, pc: u32,
                       prefetch: (u16, u16), ram: seq<(u32, byte)>)

  datatype Case = Case(name: seq<byte>, initial: Regs, final: Regs, length: u32,
                       transactions: seq<BusTxn>)

  // ---------------------------------------------------------------------------
  // The format, as functions of the bytes and a position
  // ---------------------------------------------------------------------------

  datatype Parsed<+T> = Done(value: T, next: nat) | Failed(error: DecodeError) {
    predicate IsFailure() { Failed? }
    function PropagateFailure<U>(): Parsed<U>
      requires Failed?
    {
      Failed(error)
    }
    function Extract(): (T, nat)
      requires Done?
    {
      (value, next)
    }

    /** The result stays inside the input and read exactly `size` bytes. */
    predicate Within(pos: nat, length: nat) {
      match this
      case Done(_, next) => pos <= next <= length
      case Failed(e) => e.offset <= length
    }
  }

  function TakeAt(b: seq<byte>, pos: nat, n: nat): (r: Parsed<seq<byte>>)
    requires pos <= |b|
    ensures r.Within(pos, |b|)
    ensures r.Done? ==> r.next == pos + n && |r.value| == n
  {
    if pos + n > |b| then Failed(DecodeError(pos, Short(n, |b| - pos)))
    else Done(b[pos..pos + n], pos + n)
  }

  function FromLe(s: seq<byte>): nat {
    if s == [] then 0 else s[0] + 0x100 * FromLe(s[1..])
  }

  lemma {:induction false} FromLeBound(s: seq<byte>, k: nat)
    requires |s| == k && k <= 4
    ensures k == 1 ==> FromLe(s) < 0x100
    ensures k == 2 ==> FromLe(s) < 0x1_0000
    ensures k == 3 ==> FromLe(s) < 0x100_0000
    ensures k == 4 ==> FromLe(s) < 0x1_0000_0000
  {
    if k > 0 {
      FromLeBound(s[1..], k - 1);
      if k == 1 {
        assert FromLe(s[1..]) == 0;
      }
    }
  }

  function U8At(b: seq<byte>, pos: nat): (r: Parsed<byte>)
    requires pos <= |b|
    ensures r.Within(pos, |b|) && (r.Done? ==> r.next == pos + 1)
  {
    var (s, next) :- TakeAt(b, pos, 1);
    Done(s[0], next)
  }

  function U16At(b: seq<byte>, pos: nat): (r: Parsed<u16>)
    requires pos <= |b|
    ensures r.Within(pos, |b|) && (r.Done? ==> r.next == pos + 2)
  {
    var (s, next) :- TakeAt(b, pos, 2);
    FromLeBound(s, 2);
    Done(FromLe(s), next)
  }

  function U32At(b: seq<byte>, pos: nat): (r: Parsed<u32>)
    requires pos <= |b|
    ensures r.Within(pos, |b|) && (r.Done? ==> r.next == pos + 4)
  {
    var (s, next) :- TakeAt(b, pos, 4);
    FromLeBound(s, 4);
    Done(FromLe(s), next)
  }

  function Magic(section: Section): u32 {
    match section
    case Test => MAGIC_TEST
    case Name => MAGIC_NAME
    case State => MAGIC_STATE
    case Transactions => MAGIC_TXNS
  }

  /** A byte count nobody reads, then the magic. A wrong magic is reported at the
      start of the header. */
  function SectionAt(b: seq<byte>, pos: nat, section: Section): (r: Parsed<()>)
    requires pos <= |b|
    ensures r.Within(pos, |b|) && (r.Done? ==> r.next == pos + 8)
  {
    var (_, p) :- U32At(b, pos);
    var (magic, next) :- U32At(b, p);
    if magic != Magic(section) then Failed(DecodeError(pos, BadMagic(section, magic)))
    else Done((), next)
  }

  function WordsAt(b: seq<byte>, pos: nat, n: nat): (r: Parsed<seq<u32>>)
    requires pos <= |b|
    ensures r.Within(pos, |b|) && (r.Done? ==> |r.value| == n && r.next == pos + 4 * n)
    decreases n
  {
    if n == 0 then Done([], pos) else
      var (w, p) :- U32At(b, pos);
      var (rest, next) :- WordsAt(b, p, n - 1);
      Done([w] + rest, next)
  }

  // `addr | 1`.
  function OddHalf(addr: u32): u32 {
    if addr % 2 == 0 then addr + 1 else addr
  }

  // A stored word, as the two bytes at its even and odd address.
  function BytePair(addr: u32, word: u16): (pair: seq<(u32, byte)>)
    ensures |pair| == 2
  {
    [(addr, word / 0x100), (OddHalf(addr), word % 0x100)]
  }

  const ADDRESS_SPACE: nat := 0x100_0000

  ghost predicate RamOk(ram: seq<(u32, byte)>) {
    && |ram| % 2 == 0
    && forall i {:trigger ram[2 * i]} :: 0 <= 2 * i < |ram| ==>
         ram[2 * i].0 < 0x100_0000 && ram[2 * i + 1].0 == ram[2 * i].0 / 2 * 2 + 1
  }

  function RamAt(b: seq<byte>, pos: nat, n: nat): (r: Parsed<seq<(u32, byte)>>)
    requires pos <= |b|
    ensures r.Within(pos, |b|)
    ensures r.Done? ==> |r.value| == 2 * n && Words(r.value) == n && r.next == pos + 6 * n
    decreases n
  {
    if n == 0 then Done([], pos) else
      var (addr, p) :- U32At(b, pos);
      var (word, q) :- U16At(b, p);
      if addr >= ADDRESS_SPACE then Failed(DecodeError(q, RamOutside(addr))) else
        var (rest, next) :- RamAt(b, q, n - 1);
        Done(BytePair(addr, word) + rest, next)
  }

  // A function and not a literal, so that the verifier does not unroll the count.
  function RegisterCount(): nat { 19 }

  // The registers in file order: d0-d7, a0-a6, usp, ssp, sr, pc.
  function RegsFrom(regs: seq<u32>, f0: u32, f1: u32, ram: seq<(u32, byte)>): (r: Regs)
    requires |regs| == RegisterCount()
  {
    Regs(regs[..8], regs[8..15], regs[15], regs[16], regs[17] % 0x1_0000, regs[18],
         (f0 % 0x1_0000, f1 % 0x1_0000), ram)
  }

  function RegistersAt(b: seq<byte>, pos: nat): (r: Parsed<(seq<u32>, u32, u32)>)
    requires pos <= |b|
    ensures r.Within(pos, |b|)
    ensures r.Done? ==> |r.value.0| == RegisterCount() && r.next == pos + 92
  {
    var (_, p0) :- SectionAt(b, pos, State);
    var (regs, p1) :- WordsAt(b, p0, RegisterCount());
    var (f0, p2) :- U32At(b, p1);
    var (f1, next) :- U32At(b, p2);
    Done((regs, f0, f1), next)
  }

  function StateAt(b: seq<byte>, pos: nat): (r: Parsed<Regs>)
    requires pos <= |b|
    ensures r.Within(pos, |b|)
    ensures r.Done? ==> r.next == pos + StateSize(r.value)
  {
    var (head, p0) :- RegistersAt(b, pos);
    var (count, p1) :- U32At(b, p0);
    var (ram, next) :- RamAt(b, p1, count);
    Done(RegsFrom(head.0, head.1, head.2, ram), next)
  }

  function KindOf(tag: byte): TxnKind
    requires 1 <= tag <= 5
  {
    if tag == 1 then Write else if tag == 2 then Read else if tag == 3 then Tas
    else if tag == 4 then ReadAddressError else WriteAddressError
  }

  function IdleTxn(clocks: u32): BusTxn {
    BusTxn(Idle, clocks, 0, 0, Word, 0, false, false, true)
  }

  function TxnAt(b: seq<byte>, pos: nat): (r: Parsed<BusTxn>)
    requires pos <= |b|
    ensures r.Within(pos, |b|)
    ensures r.Done? ==> r.next == pos + TxnSizeOf(r.value)
  {
    var (tag, p0) :- U8At(b, pos);
    var (clocks, p1) :- U32At(b, p0);
    if tag == 0 then Done(IdleTxn(clocks), p1)
    else if tag > 5 then Failed(DecodeError(p1, UnknownTag(tag)))
    else
      var (fc, p2) :- U32At(b, p1);
      var (addr, p3) :- U32At(b, p2);
      var (data, p4) :- U32At(b, p3);
      var (u, p5) :- U32At(b, p4);
      var (l, next) :- U32At(b, p5);
      Done(BusTxn(KindOf(tag), clocks, fc, addr, if u != 0 && l != 0 then Word else Byte, data,
                  u != 0, l != 0, true), next)
  }

  function TxnsAt(b: seq<byte>, pos: nat, n: nat): (r: Parsed<seq<BusTxn>>)
    requires pos <= |b|
    ensures r.Within(pos, |b|)
    ensures r.Done? ==> |r.value| == n && r.next == pos + TxnsSize(r.value)
    decreases n
  {
    if n == 0 then Done([], pos) else
      var (t, p) :- TxnAt(b, pos);
      var (rest, next) :- TxnsAt(b, p, n - 1);
      assert ([t] + rest)[1..] == rest;
      Done([t] + rest, next)
  }

  function TransactionsAt(b: seq<byte>, pos: nat): (r: Parsed<(seq<BusTxn>, u32)>)
    requires pos <= |b|
    ensures r.Within(pos, |b|)
    ensures r.Done? ==> r.next == pos + 16 + TxnsSize(r.value.0)
  {
    var (_, p0) :- SectionAt(b, pos, Transactions);
    var (length, p1) :- U32At(b, p0);
    var (count, p2) :- U32At(b, p1);
    var (txns, next) :- TxnsAt(b, p2, count);
    Done((txns, length), next)
  }

  // `utf8` stands for the library's validity check on the bytes of a name.
  function TestAt(b: seq<byte>, pos: nat, utf8: seq<byte> -> bool): (r: Parsed<Case>)
    requires pos <= |b|
    ensures r.Within(pos, |b|)
    ensures r.Done? ==> r.next == pos + CaseSize(r.value)
  {
    var (_, p0) :- SectionAt(b, pos, Test);
    var (_, p1) :- SectionAt(b, p0, Name);
    var (len, p2) :- U32At(b, p1);
    var (name, p3) :- TakeAt(b, p2, len);
    if !utf8(name) then Failed(DecodeError(p3, NameNotUtf8)) else
      var (initial, p4) :- StateAt(b, p3);
      var (final, p5) :- StateAt(b, p4);
      var (txns, next) :- TransactionsAt(b, p5);
      Done(Case(name, initial, final, txns.1, txns.0), next)
  }

  // The tests numbered `first` on; a failure is labelled with its test's number.
  function TestsAt(b: seq<byte>, pos: nat, n: nat, first: nat, utf8: seq<byte> -> bool): (r: Parsed<seq<Case>>)
    requires pos <= |b|
    ensures r.Within(pos, |b|)
    ensures r.Done? ==> |r.value| == n && r.next == pos + CasesSize(r.value)
    decreases n
  {
    if n == 0 then Done([], pos) else
      match TestAt(b, pos, utf8)
      case Failed(e) => Failed(DecodeError(e.offset, InTest(first, e.what)))
      case Done(c, p) =>
        var (rest, next) :- TestsAt(b, p, n - 1, first + 1, utf8);
        assert ([c] + rest)[1..] == rest;
        Done([c] + rest, next)
  }

  /** The whole container. */
  function Decoded(b: seq<byte>, utf8: seq<byte> -> bool): (r: Parsed<seq<Case>>)
    ensures r.Within(0, |b|)
    ensures r.Done? ==> r.next == |b| == 8 + CasesSize(r.value)
  {
    var (magic, p0) :- U32At(b, 0);
    if magic != MAGIC_FILE then Failed(DecodeError(0, BadFileMagic(magic))) else
      var (count, p1) :- U32At(b, p0);
      var (tests, next) :- TestsAt(b, p1, count, 0, utf8);
      if next != |b| then Failed(DecodeError(next, TrailingBytes(|b| - next, count)))
      else Done(tests, next)
  }

  // ---------------------------------------------------------------------------
  // Sizes
  // ---------------------------------------------------------------------------

  // 16-bit words in a list of byte pairs.
  function Words(ram: seq<(u32, byte)>): nat {
    |ram| / 2
  }

  function StateSize(r: Regs): nat {
    96 + 6 * Words(r.ram)
  }

  function TxnSizeOf(t: BusTxn): nat {
    if t.kind == Idle then 5 else 25
  }

  function TxnsSize(ts: seq<BusTxn>): nat {
    if ts == [] then 0 else TxnSizeOf(ts[0]) + TxnsSize(ts[1..])
  }

  function CaseSize(c: Case): nat {
    228 + |c.name| + 6 * (Words(c.initial.ram) + Words(c.final.ram)) + TxnsSize(c.transactions)
  }

  function CasesSize(cs: seq<Case>): nat {
    if cs == [] then 0 else CaseSize(cs[0]) + CasesSize(cs[1..])
  }
}
