/** What the container format guarantees: a matching encoder, the round trip, exact
    size accounting and prefix-freeness. */
module M68000Container {
  import opened Basics
  import opened M68000Bin

  // ---------------------------------------------------------------------------
  // What every decoded case looks like
  // ---------------------------------------------------------------------------

  ghost predicate StateOk(r: Regs) {
    |r.d| == 8 && |r.a| == 7 && RamOk(r.ram) && Words(r.ram) < 0x1_0000_0000
  }

  predicate TxnOk(t: BusTxn) {
    if t.kind == Idle then
      t.fc == t.addr == t.data == 0 && t.size == Word && !t.uds && !t.lds && t.busPositioned
    else t.busPositioned && t.size == if t.uds && t.lds then Word else Byte
  }

  ghost predicate TxnsOk(ts: seq<BusTxn>) {
    forall i :: 0 <= i < |ts| ==> TxnOk(ts[i])
  }

  ghost predicate Encodable(c: Case) {
    && |c.name| < 0x1_0000_0000
    && StateOk(c.initial) && StateOk(c.final)
    && |c.transactions| < 0x1_0000_0000 && TxnsOk(c.transactions)
  }

  ghost predicate AllEncodable(cs: seq<Case>) {
    forall i :: 0 <= i < |cs| ==> Encodable(cs[i])
  }

  ghost predicate NamesOk(cs: seq<Case>, utf8: seq<byte> -> bool) {
    forall i :: 0 <= i < |cs| ==> utf8(cs[i].name)
  }

  ghost predicate CasesOk(cs: seq<Case>, utf8: seq<byte> -> bool) {
    |cs| < 0x1_0000_0000 && AllEncodable(cs) && NamesOk(cs, utf8)
  }

  lemma RamOkCons(ram: seq<(u32, byte)>, addr: u32, high: byte, low: byte)
    requires addr < 0x100_0000
    ensures RamOk([(addr, high), (addr / 2 * 2 + 1, low)] + ram) <==> RamOk(ram)
  {
    var longer := [(addr, high), (addr / 2 * 2 + 1, low)] + ram;
    if RamOk(longer) {
      forall i | 0 <= 2 * i < |ram|
        ensures ram[2 * i].0 < 0x100_0000 && ram[2 * i + 1].0 == ram[2 * i].0 / 2 * 2 + 1
      {
        assert longer[2 * (i + 1)] == ram[2 * i] && longer[2 * (i + 1) + 1] == ram[2 * i + 1];
      }
    }
    if RamOk(ram) {
      forall i | 0 <= 2 * i < |longer|
        ensures longer[2 * i].0 < 0x100_0000 && longer[2 * i + 1].0 == longer[2 * i].0 / 2 * 2 + 1
      {
        if i > 0 {
          assert longer[2 * i] == ram[2 * (i - 1)] && longer[2 * i + 1] == ram[2 * (i - 1) + 1];
        }
      }
    }
  }

  // The odd address of the word a byte address lies in.
  lemma OddHalfIs(addr: u32)
    ensures OddHalf(addr) == addr / 2 * 2 + 1
  {
  }

  lemma {:induction false} RamAtOk(b: seq<byte>, pos: nat, n: nat)
    requires pos <= |b| && RamAt(b, pos, n).Done?
    ensures RamOk(RamAt(b, pos, n).value)
    decreases n
  {
    if n > 0 {
      var addr := U32At(b, pos).value;
      var word := U16At(b, pos + 4).value;
      RamAtOk(b, pos + 6, n - 1);
      OddHalfIs(addr);
      RamOkCons(RamAt(b, pos + 6, n - 1).value, addr, word / 0x100, word % 0x100);
    }
  }

  lemma StateAtOk(b: seq<byte>, pos: nat)
    requires pos <= |b| && StateAt(b, pos).Done?
    ensures StateOk(StateAt(b, pos).value)
  {
    RamAtOk(b, pos + 96, U32At(b, pos + 92).value);
  }

  lemma TxnAtOk(b: seq<byte>, pos: nat)
    requires pos <= |b| && TxnAt(b, pos).Done?
    ensures TxnOk(TxnAt(b, pos).value)
  {
    hide U8At, U32At;
  }

  lemma {:induction false} TxnsAtOk(b: seq<byte>, pos: nat, n: nat)
    requires pos <= |b| && TxnsAt(b, pos, n).Done?
    ensures TxnsOk(TxnsAt(b, pos, n).value)
    decreases n
  {
    hide TxnAt, TxnOk;
    if n > 0 {
      TxnAtOk(b, pos);
      TxnsAtOk(b, TxnAt(b, pos).next, n - 1);
    }
  }

  lemma TransactionsAtOk(b: seq<byte>, pos: nat)
    requires pos <= |b| && TransactionsAt(b, pos).Done?
    ensures var txns := TransactionsAt(b, pos).value.0;
      TxnsOk(txns) && |txns| < 0x1_0000_0000
  {
    hide U32At, SectionAt, TxnsAt, TxnsOk, TxnsSize;
    TxnsAtOk(b, pos + 16, U32At(b, pos + 12).value);
  }

  lemma TestAtOk(b: seq<byte>, pos: nat, utf8: seq<byte> -> bool)
    requires pos <= |b| && TestAt(b, pos, utf8).Done?
    ensures Encodable(TestAt(b, pos, utf8).value) && utf8(TestAt(b, pos, utf8).value.name)
  {
    hide StateAt, TransactionsAt, U32At, TakeAt, SectionAt, StateOk, TxnsOk, StateSize, TxnsSize, CaseSize;
    var p3 := pos + 20 + U32At(b, pos + 16).value;
    StateAtOk(b, p3);
    var p4 := StateAt(b, p3).next;
    StateAtOk(b, p4);
    TransactionsAtOk(b, StateAt(b, p4).next);
  }

  lemma {:induction false} TestsAtOk(b: seq<byte>, pos: nat, n: nat, first: nat, utf8: seq<byte> -> bool)
    requires pos <= |b| && TestsAt(b, pos, n, first, utf8).Done?
    ensures AllEncodable(TestsAt(b, pos, n, first, utf8).value)
    ensures NamesOk(TestsAt(b, pos, n, first, utf8).value, utf8)
    decreases n
  {
    hide TestAt, Encodable;
    if n > 0 {
      TestAtOk(b, pos, utf8);
      TestsAtOk(b, TestAt(b, pos, utf8).next, n - 1, first + 1, utf8);
    }
  }

  /** An accepted container yields only well-formed cases. */
  lemma DecodedOk(b: seq<byte>, utf8: seq<byte> -> bool)
    requires Decoded(b, utf8).Done?
    ensures CasesOk(Decoded(b, utf8).value, utf8)
  {
    hide TestsAt;
    TestsAtOk(b, 8, U32At(b, 4).value, 0, utf8);
  }

  // ---------------------------------------------------------------------------
  // The encoder
  // ---------------------------------------------------------------------------

  function Le16(v: u16): (s: seq<byte>)
    ensures |s| == 2
  {
    [v % 0x100, v / 0x100]
  }

  function Le32(v: u32): (s: seq<byte>)
    ensures |s| == 4
  {
    [v % 0x100, v / 0x100 % 0x100, v / 0x1_0000 % 0x100, v / 0x100_0000]
  }

  function EncodeSection(section: Section): (s: seq<byte>)
    ensures |s| == 8
  {
    Le32(0) + match section
      case Test => [0x67, 0x23, 0xC1, 0xAB]
      case Name => [0xEF, 0xCD, 0xAB, 0x89]
      case State => [0x67, 0x45, 0x23, 0x01]
      case Transactions => [0xAB, 0x89, 0x67, 0x45]
  }

  lemma BytesOf(v: u32, b0: nat, b1: nat, b2: nat, b3: nat)
    requires b0 < 0x100 && b1 < 0x100 && b2 < 0x100 && b3 < 0x100
    requires v == b0 + 0x100 * (b1 + 0x100 * (b2 + 0x100 * b3))
    ensures Le32(v) == [b0, b1, b2, b3]
  {
    TopHalf(v);
    TopByte(v);
    assert v / 0x100 == b1 + 0x100 * (b2 + 0x100 * b3);
    assert v / 0x1_0000 == b2 + 0x100 * b3;
  }

  lemma FileBytes()
    ensures Le32(MAGIC_FILE) == [0x71, 0x5D, 0x3F, 0x1A]
  {
    BytesOf(MAGIC_FILE, 0x71, 0x5D, 0x3F, 0x1A);
  }

  lemma SectionBytes(section: Section)
    ensures EncodeSection(section) == Le32(0) + Le32(Magic(section))
  {
    hide Le32;
    match section
    case Test => BytesOf(MAGIC_TEST, 0x67, 0x23, 0xC1, 0xAB);
    case Name => BytesOf(MAGIC_NAME, 0xEF, 0xCD, 0xAB, 0x89);
    case State => BytesOf(MAGIC_STATE, 0x67, 0x45, 0x23, 0x01);
    case Transactions => BytesOf(MAGIC_TXNS, 0xAB, 0x89, 0x67, 0x45);
  }

  function EncodeWords(ws: seq<u32>): (s: seq<byte>)
    ensures |s| == 4 * |ws|
  {
    if ws == [] then [] else Le32(ws[0]) + EncodeWords(ws[1..])
  }

  function WordOf(high: byte, low: byte): (w: u16)
    ensures w / 0x100 == high && w % 0x100 == low
  {
    var h: nat := high;
    h * 0x100 + low
  }

  function EncodeRam(ram: seq<(u32, byte)>): seq<byte>
    requires |ram| % 2 == 0
  {
    if ram == [] then []
    else Le32(ram[0].0) + (Le16(WordOf(ram[0].1, ram[1].1)) + EncodeRam(ram[2..]))
  }

  function EncodeState(r: Regs): seq<byte>
    requires |r.ram| % 2 == 0 && Words(r.ram) < 0x1_0000_0000
  {
    EncodeSection(State) + (EncodeWords(r.d + r.a + [r.usp, r.ssp, r.sr, r.pc]) +
      (Le32(r.prefetch.0) + (Le32(r.prefetch.1) + (Le32(Words(r.ram)) + EncodeRam(r.ram)))))
  }

  function Tag(kind: TxnKind): byte {
    match kind
    case Idle => 0
    case Write => 1
    case Read => 2
    case Tas => 3
    case ReadAddressError => 4
    case WriteAddressError => 5
  }

  function Strobe(b: bool): u32 {
    if b then 1 else 0
  }

  function EncodeTxn(t: BusTxn): seq<byte> {
    [Tag(t.kind)] + (Le32(t.clocks) +
      if t.kind == Idle then []
      else Le32(t.fc) + (Le32(t.addr) + (Le32(t.data) + (Le32(Strobe(t.uds)) + Le32(Strobe(t.lds))))))
  }

  function EncodeTxns(ts: seq<BusTxn>): seq<byte> {
    if ts == [] then [] else EncodeTxn(ts[0]) + EncodeTxns(ts[1..])
  }

  function EncodeTransactions(ts: seq<BusTxn>, length: u32): seq<byte>
    requires |ts| < 0x1_0000_0000
  {
    EncodeSection(Transactions) + (Le32(length) + (Le32(|ts|) + EncodeTxns(ts)))
  }

  ghost function EncodeCase(c: Case): seq<byte>
    requires Encodable(c)
  {
    EncodeSection(Test) + (EncodeSection(Name) + (Le32(|c.name|) + (c.name +
      (EncodeState(c.initial) + (EncodeState(c.final) +
        EncodeTransactions(c.transactions, c.length))))))
  }

  ghost function EncodeCases(cs: seq<Case>): seq<byte>
    requires AllEncodable(cs)
  {
    if cs == [] then [] else EncodeCase(cs[0]) + EncodeCases(cs[1..])
  }

  ghost function Encode(cs: seq<Case>): seq<byte>
    requires |cs| < 0x1_0000_0000 && AllEncodable(cs)
  {
    [0x71, 0x5D, 0x3F, 0x1A] + (Le32(|cs|) + EncodeCases(cs))
  }

  // ---------------------------------------------------------------------------
  // Round trip: each piece, wherever it sits in the input
  // ---------------------------------------------------------------------------

  ghost predicate At(b: seq<byte>, pos: nat, e: seq<byte>) {
    pos + |e| <= |b| && b[pos..pos + |e|] == e
  }

  lemma AtSplit(b: seq<byte>, pos: nat, e: seq<byte>, f: seq<byte>)
    requires At(b, pos, e + f)
    ensures At(b, pos, e) && At(b, pos + |e|, f)
  {
    assert b[pos..pos + |e + f|][..|e|] == b[pos..pos + |e|];
    assert b[pos..pos + |e + f|][|e|..] == b[pos + |e|..pos + |e + f|];
  }

  lemma U8Back(b: seq<byte>, pos: nat, v: byte)
    requires At(b, pos, [v])
    ensures U8At(b, pos) == Done(v, pos + 1)
  {
  }

  lemma U16Back(b: seq<byte>, pos: nat, v: u16)
    requires At(b, pos, Le16(v))
    ensures U16At(b, pos) == Done(v, pos + 2)
  {
    var s := Le16(v);
    assert s[1..][1..] == [];
    assert FromLe(s[1..]) == s[1];
  }

  lemma TopHalf(v: nat)
    ensures v / 0x1_0000 == v / 0x100 / 0x100
  {
  }

  lemma TopByte(v: nat)
    ensures v / 0x100_0000 == v / 0x1_0000 / 0x100
  {
  }

  lemma BytesRecompose(v: nat)
    ensures v % 0x100 + 0x100 * (v / 0x100 % 0x100 + 0x100 * (v / 0x1_0000 % 0x100 + 0x100 * (v / 0x100_0000))) == v
  {
    TopHalf(v);
    TopByte(v);
    var q, r, t := v / 0x100, v / 0x1_0000, v / 0x100_0000;
    assert v == 0x100 * q + v % 0x100;
    assert q == 0x100 * r + q % 0x100;
    assert r == 0x100 * t + r % 0x100;
  }

  lemma FromLe4(s: seq<byte>)
    requires |s| == 4
    ensures var s0: nat, s1: nat, s2: nat, s3: nat := s[0], s[1], s[2], s[3];
      FromLe(s) == s0 + 0x100 * (s1 + 0x100 * (s2 + 0x100 * s3))
  {
    assert s[1..][1..] == s[2..] && s[2..][1..] == s[3..] && s[3..][1..] == [];
    assert FromLe(s[3..]) == s[3];
    assert FromLe(s[2..]) == s[2] + 0x100 * FromLe(s[3..]);
    assert FromLe(s[1..]) == s[1] + 0x100 * FromLe(s[2..]);
  }

  lemma U32Back(b: seq<byte>, pos: nat, v: u32)
    requires At(b, pos, Le32(v))
    ensures U32At(b, pos) == Done(v, pos + 4)
  {
    hide FromLe;
    FromLe4(Le32(v));
    BytesRecompose(v);
  }

  lemma SectionBack(b: seq<byte>, pos: nat, section: Section)
    requires At(b, pos, EncodeSection(section))
    ensures SectionAt(b, pos, section) == Done((), pos + 8)
  {
    SectionBytes(section);
    AtSplit(b, pos, Le32(0), Le32(Magic(section)));
    U32Back(b, pos, 0);
    U32Back(b, pos + 4, Magic(section));
  }

  lemma {:induction false} WordsBack(b: seq<byte>, pos: nat, ws: seq<u32>)
    requires At(b, pos, EncodeWords(ws))
    ensures WordsAt(b, pos, |ws|) == Done(ws, pos + 4 * |ws|)
    decreases |ws|
  {
    if ws != [] {
      AtSplit(b, pos, Le32(ws[0]), EncodeWords(ws[1..]));
      U32Back(b, pos, ws[0]);
      WordsBack(b, pos + 4, ws[1..]);
      assert [ws[0]] + ws[1..] == ws;
    }
  }

  lemma PairBack(addr: u32, high: byte, low: byte)
    ensures BytePair(addr, WordOf(high, low)) == [(addr, high), (addr / 2 * 2 + 1, low)]
  {
    OddHalfIs(addr);
    hide OddHalf, WordOf;
  }

  lemma RamFirst(ram: seq<(u32, byte)>)
    requires RamOk(ram) && ram != []
    ensures |ram| >= 2 && ram[0].0 < 0x100_0000
    ensures ram == [(ram[0].0, ram[0].1), (ram[0].0 / 2 * 2 + 1, ram[1].1)] + ram[2..]
  {
    assert ram[2 * 0] == ram[0];
  }

  lemma RamStep(b: seq<byte>, pos: nat, n: nat, addr: u32, word: u16, rest: seq<(u32, byte)>, next: nat)
    requires pos + 6 <= |b| && n > 0 && addr < 0x100_0000
    requires U32At(b, pos) == Done(addr, pos + 4) && U16At(b, pos + 4) == Done(word, pos + 6)
    requires RamAt(b, pos + 6, n - 1) == Done(rest, next)
    ensures RamAt(b, pos, n) == Done(BytePair(addr, word) + rest, next)
  {
    hide U32At, U16At, BytePair;
  }

  lemma AtFits(b: seq<byte>, pos: nat, e: seq<byte>)
    requires At(b, pos, e)
    ensures pos + |e| <= |b|
  {
  }

  lemma {:induction false} RamBack(b: seq<byte>, pos: nat, ram: seq<(u32, byte)>)
    requires RamOk(ram) && At(b, pos, EncodeRam(ram))
    ensures |EncodeRam(ram)| == 6 * Words(ram)
    ensures RamAt(b, pos, Words(ram)) == Done(ram, pos + 6 * Words(ram))
    decreases |ram|
  {
    AtFits(b, pos, EncodeRam(ram));
    if ram != [] {
      RamFirst(ram);
      hide U32At, U16At, Le32, Le16, BytePair, RamOk, WordOf, At, RamAt;
      var addr, word := ram[0].0, WordOf(ram[0].1, ram[1].1);
      var rest := Le16(word) + EncodeRam(ram[2..]);
      AtSplit(b, pos, Le32(addr), rest);
      U32Back(b, pos, addr);
      AtSplit(b, pos + 4, Le16(word), EncodeRam(ram[2..]));
      U16Back(b, pos + 4, word);
      RamOkCons(ram[2..], addr, ram[0].1, ram[1].1);
      RamBack(b, pos + 6, ram[2..]);
      PairBack(addr, ram[0].1, ram[1].1);
      RamStep(b, pos, Words(ram), addr, word, ram[2..], pos + 6 * Words(ram));
    }
  }

  lemma RegistersBack(b: seq<byte>, pos: nat, r: Regs, rest: seq<byte>)
    requires |r.d| == 8 && |r.a| == 7
    requires At(b, pos, EncodeSection(State) + (EncodeWords(r.d + r.a + [r.usp, r.ssp, r.sr, r.pc]) +
                          (Le32(r.prefetch.0) + (Le32(r.prefetch.1) + rest))))
    ensures RegistersAt(b, pos)
         == Done((r.d + r.a + [r.usp, r.ssp, r.sr, r.pc], r.prefetch.0, r.prefetch.1), pos + 92)
    ensures At(b, pos + 92, rest)
  {
    hide U32At, Le32, SectionAt, WordsAt, EncodeSection, EncodeWords, At;
    var regs := r.d + r.a + [r.usp, r.ssp, r.sr, r.pc];
    var e3 := Le32(r.prefetch.1) + rest;
    var e2 := Le32(r.prefetch.0) + e3;
    var e1 := EncodeWords(regs) + e2;
    AtSplit(b, pos, EncodeSection(State), e1);
    SectionBack(b, pos, State);
    AtSplit(b, pos + 8, EncodeWords(regs), e2);
    WordsBack(b, pos + 8, regs);
    AtSplit(b, pos + 84, Le32(r.prefetch.0), e3);
    U32Back(b, pos + 84, r.prefetch.0);
    AtSplit(b, pos + 88, Le32(r.prefetch.1), rest);
    U32Back(b, pos + 88, r.prefetch.1);
  }

  lemma RegsBack(r: Regs)
    requires |r.d| == 8 && |r.a| == 7
    ensures RegsFrom(r.d + r.a + [r.usp, r.ssp, r.sr, r.pc], r.prefetch.0, r.prefetch.1, r.ram) == r
  {
    var regs := r.d + r.a + [r.usp, r.ssp, r.sr, r.pc];
    assert regs[..8] == r.d && regs[8..15] == r.a;
  }

  lemma StateBack(b: seq<byte>, pos: nat, r: Regs)
    requires StateOk(r) && At(b, pos, EncodeState(r))
    ensures |EncodeState(r)| == StateSize(r)
    ensures StateAt(b, pos) == Done(r, pos + StateSize(r))
  {
    hide RegistersAt, RamAt, U32At, EncodeRam, EncodeWords, EncodeSection, Le32, RegsFrom;
    var rest := Le32(Words(r.ram)) + EncodeRam(r.ram);
    RegistersBack(b, pos, r, rest);
    AtSplit(b, pos + 92, Le32(Words(r.ram)), EncodeRam(r.ram));
    U32Back(b, pos + 92, Words(r.ram));
    RamBack(b, pos + 96, r.ram);
    RegsBack(r);
  }

  lemma TxnBack(b: seq<byte>, pos: nat, t: BusTxn)
    requires TxnOk(t) && At(b, pos, EncodeTxn(t))
    ensures |EncodeTxn(t)| == TxnSizeOf(t)
    ensures TxnAt(b, pos) == Done(t, pos + TxnSizeOf(t))
  {
    hide U32At, U8At, Le32, At;
    var e5 := Le32(Strobe(t.lds));
    var e4 := Le32(Strobe(t.uds)) + e5;
    var e3 := Le32(t.data) + e4;
    var e2 := Le32(t.addr) + e3;
    var e1 := if t.kind == Idle then [] else Le32(t.fc) + e2;
    var e0 := Le32(t.clocks) + e1;
    AtSplit(b, pos, [Tag(t.kind)], e0);
    U8Back(b, pos, Tag(t.kind));
    AtSplit(b, pos + 1, Le32(t.clocks), e1);
    U32Back(b, pos + 1, t.clocks);
    if t.kind != Idle {
      AtSplit(b, pos + 5, Le32(t.fc), e2);
      U32Back(b, pos + 5, t.fc);
      AtSplit(b, pos + 9, Le32(t.addr), e3);
      U32Back(b, pos + 9, t.addr);
      AtSplit(b, pos + 13, Le32(t.data), e4);
      U32Back(b, pos + 13, t.data);
      AtSplit(b, pos + 17, Le32(Strobe(t.uds)), e5);
      U32Back(b, pos + 17, Strobe(t.uds));
      U32Back(b, pos + 21, Strobe(t.lds));
    }
  }

  lemma {:induction false} TxnsBack(b: seq<byte>, pos: nat, ts: seq<BusTxn>)
    requires TxnsOk(ts) && At(b, pos, EncodeTxns(ts))
    ensures |EncodeTxns(ts)| == TxnsSize(ts)
    ensures TxnsAt(b, pos, |ts|) == Done(ts, pos + TxnsSize(ts))
    decreases |ts|
  {
    hide TxnAt, EncodeTxn, TxnOk;
    if ts != [] {
      AtSplit(b, pos, EncodeTxn(ts[0]), EncodeTxns(ts[1..]));
      TxnBack(b, pos, ts[0]);
      TxnsBack(b, pos + TxnSizeOf(ts[0]), ts[1..]);
      assert [ts[0]] + ts[1..] == ts;
    }
  }

  lemma TransactionsBack(b: seq<byte>, pos: nat, ts: seq<BusTxn>, length: u32)
    requires TxnsOk(ts) && |ts| < 0x1_0000_0000 && At(b, pos, EncodeTransactions(ts, length))
    ensures |EncodeTransactions(ts, length)| == 16 + TxnsSize(ts)
    ensures TransactionsAt(b, pos) == Done((ts, length), pos + 16 + TxnsSize(ts))
  {
    hide SectionAt, U32At, TxnsAt, Le32, EncodeSection, EncodeTxns, TxnsOk, At;
    var e1 := Le32(|ts|) + EncodeTxns(ts);
    var e0 := Le32(length) + e1;
    AtSplit(b, pos, EncodeSection(Transactions), e0);
    SectionBack(b, pos, Transactions);
    AtSplit(b, pos + 8, Le32(length), e1);
    U32Back(b, pos + 8, length);
    AtSplit(b, pos + 12, Le32(|ts|), EncodeTxns(ts));
    U32Back(b, pos + 12, |ts|);
    TxnsBack(b, pos + 16, ts);
  }

  lemma NameBack(b: seq<byte>, pos: nat, name: seq<byte>, rest: seq<byte>)
    requires |name| < 0x1_0000_0000
    requires At(b, pos, EncodeSection(Test) + (EncodeSection(Name) + (Le32(|name|) + (name + rest))))
    ensures SectionAt(b, pos, Test) == Done((), pos + 8)
    ensures SectionAt(b, pos + 8, Name) == Done((), pos + 16)
    ensures U32At(b, pos + 16) == Done(|name|, pos + 20)
    ensures TakeAt(b, pos + 20, |name|) == Done(name, pos + 20 + |name|)
    ensures At(b, pos + 20 + |name|, rest)
  {
    hide SectionAt, U32At, Le32, EncodeSection;
    var e2 := name + rest;
    var e1 := Le32(|name|) + e2;
    var e0 := EncodeSection(Name) + e1;
    AtSplit(b, pos, EncodeSection(Test), e0);
    SectionBack(b, pos, Test);
    AtSplit(b, pos + 8, EncodeSection(Name), e1);
    SectionBack(b, pos + 8, Name);
    AtSplit(b, pos + 16, Le32(|name|), e2);
    U32Back(b, pos + 16, |name|);
    AtSplit(b, pos + 20, name, rest);
  }

  lemma CaseBack(b: seq<byte>, pos: nat, c: Case, utf8: seq<byte> -> bool)
    requires Encodable(c) && utf8(c.name) && At(b, pos, EncodeCase(c))
    ensures |EncodeCase(c)| == CaseSize(c)
    ensures TestAt(b, pos, utf8) == Done(c, pos + CaseSize(c))
  {
    hide SectionAt, U32At, TakeAt, StateAt, TransactionsAt, Le32, EncodeSection, EncodeState,
      EncodeTransactions, At, TxnsOk;
    var e1 := EncodeState(c.final) + EncodeTransactions(c.transactions, c.length);
    var e0 := EncodeState(c.initial) + e1;
    NameBack(b, pos, c.name, e0);
    var p3 := pos + 20 + |c.name|;
    AtSplit(b, p3, EncodeState(c.initial), e1);
    StateBack(b, p3, c.initial);
    var p4 := p3 + StateSize(c.initial);
    AtSplit(b, p4, EncodeState(c.final), EncodeTransactions(c.transactions, c.length));
    StateBack(b, p4, c.final);
    TransactionsBack(b, p4 + StateSize(c.final), c.transactions, c.length);
  }

  lemma {:induction false} CasesBack(b: seq<byte>, pos: nat, cs: seq<Case>, first: nat, utf8: seq<byte> -> bool)
    requires AllEncodable(cs) && NamesOk(cs, utf8)
    requires At(b, pos, EncodeCases(cs))
    ensures |EncodeCases(cs)| == CasesSize(cs)
    ensures TestsAt(b, pos, |cs|, first, utf8) == Done(cs, pos + CasesSize(cs))
    decreases |cs|
  {
    hide TestAt, EncodeCase, Encodable, CaseSize;
    if cs != [] {
      var c, tail := cs[0], cs[1..];
      assert AllEncodable(tail) && NamesOk(tail, utf8);
      AtSplit(b, pos, EncodeCase(c), EncodeCases(tail));
      CaseBack(b, pos, c, utf8);
      CasesBack(b, pos + CaseSize(c), tail, first + 1, utf8);
      assert [c] + tail == cs;
    }
  }

  /** Decoding what the encoder wrote gives back exactly the cases. */
  lemma RoundTrip(cs: seq<Case>, utf8: seq<byte> -> bool)
    requires CasesOk(cs, utf8)
    ensures Decoded(Encode(cs), utf8) == Done(cs, |Encode(cs)|)
  {
    hide TestsAt, EncodeCases, AllEncodable, NamesOk, Le32, U32At;
    var b, body := Encode(cs), EncodeCases(cs);
    assert b[0..0 + |b|] == b;
    FileBytes();
    AtSplit(b, 0, Le32(MAGIC_FILE), Le32(|cs|) + body);
    U32Back(b, 0, MAGIC_FILE);
    AtSplit(b, 4, Le32(|cs|), body);
    U32Back(b, 4, |cs|);
    CasesBack(b, 8, cs, 0, utf8);
  }

  /** Any accepted byte string, however its ignored lengths, strobes and high register
      halves were written, decodes to cases whose encoding decodes to the same cases. */
  lemma AcceptedNormalises(b: seq<byte>, utf8: seq<byte> -> bool)
    requires Decoded(b, utf8).Done?
    ensures var cs := Decoded(b, utf8).value;
      CasesOk(cs, utf8) && Decoded(Encode(cs), utf8).Done?
      && Decoded(Encode(cs), utf8).value == cs
      && |Encode(cs)| == |b|
  {
    hide Decoded, Encode, CasesOk;
    DecodedOk(b, utf8);
    RoundTrip(Decoded(b, utf8).value, utf8);
  }

  // ---------------------------------------------------------------------------
  // Prefix-freeness
  // ---------------------------------------------------------------------------

  // Bytes past the end of what was read change nothing: one lemma a parser.

  lemma TakeExtends(b: seq<byte>, x: seq<byte>, pos: nat, n: nat)
    requires pos <= |b| && TakeAt(b, pos, n).Done?
    ensures TakeAt(b + x, pos, n) == TakeAt(b, pos, n)
  {
    assert (b + x)[pos..pos + n] == b[pos..pos + n];
  }

  lemma U8Extends(b: seq<byte>, x: seq<byte>, pos: nat)
    requires pos <= |b| && U8At(b, pos).Done?
    ensures U8At(b + x, pos) == U8At(b, pos)
  {
    TakeExtends(b, x, pos, 1);
  }

  lemma U16Extends(b: seq<byte>, x: seq<byte>, pos: nat)
    requires pos <= |b| && U16At(b, pos).Done?
    ensures U16At(b + x, pos) == U16At(b, pos)
  {
    TakeExtends(b, x, pos, 2);
  }

  lemma U32Extends(b: seq<byte>, x: seq<byte>, pos: nat)
    requires pos <= |b| && U32At(b, pos).Done?
    ensures U32At(b + x, pos) == U32At(b, pos)
  {
    TakeExtends(b, x, pos, 4);
  }

  lemma SectionExtends(b: seq<byte>, x: seq<byte>, pos: nat, section: Section)
    requires pos <= |b| && SectionAt(b, pos, section).Done?
    ensures SectionAt(b + x, pos, section) == SectionAt(b, pos, section)
  {
    hide U32At;
    U32Extends(b, x, pos);
    U32Extends(b, x, pos + 4);
  }

  lemma {:induction false} WordsExtend(b: seq<byte>, x: seq<byte>, pos: nat, n: nat)
    requires pos <= |b| && WordsAt(b, pos, n).Done?
    ensures WordsAt(b + x, pos, n) == WordsAt(b, pos, n)
    decreases n
  {
    hide U32At;
    if n > 0 {
      U32Extends(b, x, pos);
      WordsExtend(b, x, pos + 4, n - 1);
    }
  }

  lemma {:induction false} RamExtends(b: seq<byte>, x: seq<byte>, pos: nat, n: nat)
    requires pos <= |b| && RamAt(b, pos, n).Done?
    ensures RamAt(b + x, pos, n) == RamAt(b, pos, n)
    decreases n
  {
    hide U32At, U16At;
    if n > 0 {
      U32Extends(b, x, pos);
      U16Extends(b, x, pos + 4);
      RamExtends(b, x, pos + 6, n - 1);
    }
  }

  lemma StateExtends(b: seq<byte>, x: seq<byte>, pos: nat)
    requires pos <= |b| && StateAt(b, pos).Done?
    ensures StateAt(b + x, pos) == StateAt(b, pos)
  {
    hide U32At, WordsAt, RamAt, SectionAt;
    SectionExtends(b, x, pos, State);
    WordsExtend(b, x, pos + 8, RegisterCount());
    U32Extends(b, x, pos + 84);
    U32Extends(b, x, pos + 88);
    U32Extends(b, x, pos + 92);
    RamExtends(b, x, pos + 96, U32At(b, pos + 92).value);
  }

  lemma TxnExtends(b: seq<byte>, x: seq<byte>, pos: nat)
    requires pos <= |b| && TxnAt(b, pos).Done?
    ensures TxnAt(b + x, pos) == TxnAt(b, pos)
  {
    hide U8At, U32At;
    U8Extends(b, x, pos);
    U32Extends(b, x, pos + 1);
    if U8At(b, pos).value != 0 {
      U32Extends(b, x, pos + 5);
      U32Extends(b, x, pos + 9);
      U32Extends(b, x, pos + 13);
      U32Extends(b, x, pos + 17);
      U32Extends(b, x, pos + 21);
    }
  }

  lemma {:induction false} TxnsExtend(b: seq<byte>, x: seq<byte>, pos: nat, n: nat)
    requires pos <= |b| && TxnsAt(b, pos, n).Done?
    ensures TxnsAt(b + x, pos, n) == TxnsAt(b, pos, n)
    decreases n
  {
    hide TxnAt;
    if n > 0 {
      TxnExtends(b, x, pos);
      TxnsExtend(b, x, TxnAt(b, pos).next, n - 1);
    }
  }

  lemma TransactionsExtend(b: seq<byte>, x: seq<byte>, pos: nat)
    requires pos <= |b| && TransactionsAt(b, pos).Done?
    ensures TransactionsAt(b + x, pos) == TransactionsAt(b, pos)
  {
    hide U32At, TxnsAt, SectionAt;
    SectionExtends(b, x, pos, Transactions);
    U32Extends(b, x, pos + 8);
    U32Extends(b, x, pos + 12);
    TxnsExtend(b, x, pos + 16, U32At(b, pos + 12).value);
  }

  lemma TestExtends(b: seq<byte>, x: seq<byte>, pos: nat, utf8: seq<byte> -> bool)
    requires pos <= |b| && TestAt(b, pos, utf8).Done?
    ensures TestAt(b + x, pos, utf8) == TestAt(b, pos, utf8)
  {
    hide U32At, TakeAt, SectionAt, StateAt, TransactionsAt;
    SectionExtends(b, x, pos, Test);
    SectionExtends(b, x, pos + 8, Name);
    U32Extends(b, x, pos + 16);
    var len := U32At(b, pos + 16).value;
    TakeExtends(b, x, pos + 20, len);
    StateExtends(b, x, pos + 20 + len);
    var p4 := StateAt(b, pos + 20 + len).next;
    StateExtends(b, x, p4);
    TransactionsExtend(b, x, StateAt(b, p4).next);
  }

  lemma {:induction false} TestsExtend(b: seq<byte>, x: seq<byte>, pos: nat, n: nat, first: nat,
                                       utf8: seq<byte> -> bool)
    requires pos <= |b| && TestsAt(b, pos, n, first, utf8).Done?
    ensures TestsAt(b + x, pos, n, first, utf8) == TestsAt(b, pos, n, first, utf8)
    decreases n
  {
    hide TestAt;
    if n > 0 {
      TestExtends(b, x, pos, utf8);
      TestsExtend(b, x, TestAt(b, pos, utf8).next, n - 1, first + 1, utf8);
    }
  }

  /** An accepted container with anything after it is rejected, at the first extra byte. */
  lemma ExtensionRejected(b: seq<byte>, x: seq<byte>, utf8: seq<byte> -> bool)
    requires Decoded(b, utf8).Done? && x != []
    ensures Decoded(b + x, utf8).Failed?
    ensures Decoded(b + x, utf8).error
         == DecodeError(|b|, TrailingBytes(|x|, |Decoded(b, utf8).value|))
  {
    hide U32At, TestsAt;
    U32Extends(b, x, 0);
    U32Extends(b, x, 4);
    TestsExtend(b, x, 8, U32At(b, 4).value, 0, utf8);
  }

  /** No accepted container is a proper prefix of another: cutting one anywhere, even at
      the end of a case, is rejected. */
  lemma PrefixRejected(b: seq<byte>, k: nat, utf8: seq<byte> -> bool)
    requires Decoded(b, utf8).Done? && k < |b|
    ensures Decoded(b[..k], utf8).Failed?
  {
    hide Decoded;
    if Decoded(b[..k], utf8).Done? {
      ExtensionRejected(b[..k], b[k..], utf8);
      assert b[..k] + b[k..] == b;
    }
  }

  function NameBytes(cs: seq<Case>): nat {
    if cs == [] then 0 else |cs[0].name| + NameBytes(cs[1..])
  }

  function RamWords(cs: seq<Case>): nat {
    if cs == [] then 0
    else Words(cs[0].initial.ram) + Words(cs[0].final.ram) + RamWords(cs[1..])
  }

  function Idles(ts: seq<BusTxn>): nat {
    if ts == [] then 0 else (if ts[0].kind == Idle then 1 else 0) + Idles(ts[1..])
  }

  function Transfers(ts: seq<BusTxn>): nat {
    if ts == [] then 0 else (if ts[0].kind != Idle then 1 else 0) + Transfers(ts[1..])
  }

  function AllTxns(cs: seq<Case>): seq<BusTxn> {
    if cs == [] then [] else cs[0].transactions + AllTxns(cs[1..])
  }

  lemma {:induction false} TxnsSizeCounts(ts: seq<BusTxn>)
    ensures TxnsSize(ts) == 5 * Idles(ts) + 25 * Transfers(ts)
  {
    if ts != [] {
      TxnsSizeCounts(ts[1..]);
    }
  }

  lemma {:induction false} TxnsSizeSplits(ts: seq<BusTxn>, us: seq<BusTxn>)
    ensures TxnsSize(ts + us) == TxnsSize(ts) + TxnsSize(us)
  {
    if ts == [] {
      assert ts + us == us;
    } else {
      assert (ts + us)[1..] == ts[1..] + us;
      TxnsSizeSplits(ts[1..], us);
    }
  }

  lemma {:induction false} CasesSizeSums(cs: seq<Case>)
    ensures CasesSize(cs) == 228 * |cs| + NameBytes(cs) + 6 * RamWords(cs) + TxnsSize(AllTxns(cs))
  {
    if cs != [] {
      CasesSizeSums(cs[1..]);
      TxnsSizeSplits(cs[0].transactions, AllTxns(cs[1..]));
    }
  }

  /** Acceptance fixes the length to the byte, and every rejection points inside the
      input. */
  lemma SizeIsAccounted(b: seq<byte>, utf8: seq<byte> -> bool)
    ensures match Decoded(b, utf8)
      case Done(cs, next) =>
        next == |b| == 8 + 228 * |cs| + NameBytes(cs) + 6 * RamWords(cs)
          + 5 * Idles(AllTxns(cs)) + 25 * Transfers(AllTxns(cs))
      case Failed(e) => e.offset <= |b|
  {
    hide Decoded;
    match Decoded(b, utf8)
    case Done(cs, _) =>
      CasesSizeSums(cs);
      TxnsSizeCounts(AllTxns(cs));
    case Failed(_) =>
  }
}
