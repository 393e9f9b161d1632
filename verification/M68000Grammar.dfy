/** The container format as the layout of its bytes, stated without the decoder: which
    inputs hold which cases. The decoder accepts exactly those, and an error names a place
    in the input that really is wrong in that way. */
module M68000Grammar {
  import opened Basics
  import opened M68000Bin

  // ---------------------------------------------------------------------------
  // Little-endian values in place
  // ---------------------------------------------------------------------------

  function Value16(low: nat, high: nat): nat {
    low + 0x100 * high
  }

  ghost predicate Holds16(b: seq<byte>, pos: nat, v: nat) {
    pos + 2 <= |b| && v == Value16(b[pos], b[pos + 1])
  }

  ghost predicate Holds32(b: seq<byte>, pos: nat, v: nat) {
    pos + 4 <= |b| && v == Value16(b[pos], b[pos + 1]) + 0x1_0000 * Value16(b[pos + 2], b[pos + 3])
  }

  lemma U8Iff(b: seq<byte>, pos: nat, v: byte)
    requires pos <= |b|
    ensures U8At(b, pos) == Done(v, pos + 1) <==> pos + 1 <= |b| && b[pos] == v
    ensures U8At(b, pos).Failed? <==> pos + 1 > |b|
  {
  }

  lemma FromLe2(s: seq<byte>)
    requires |s| == 2
    ensures FromLe(s) == Value16(s[0], s[1])
  {
    assert FromLe(s[1..][1..]) == 0;
    assert FromLe(s[1..]) == s[1];
  }

  lemma FromLe4(s: seq<byte>)
    requires |s| == 4
    ensures FromLe(s) == Value16(s[0], s[1]) + 0x1_0000 * Value16(s[2], s[3])
  {
    FromLe2(s[2..]);
    assert s[1..][1..] == s[2..];
    assert FromLe(s[1..]) == s[1] + 0x100 * FromLe(s[2..]);
  }

  lemma U16Iff(b: seq<byte>, pos: nat, v: u16)
    requires pos <= |b|
    ensures U16At(b, pos) == Done(v, pos + 2) <==> Holds16(b, pos, v)
    ensures U16At(b, pos).Failed? <==> pos + 2 > |b|
  {
    if pos + 2 <= |b| {
      FromLe2(b[pos..pos + 2]);
    }
  }

  lemma U32Iff(b: seq<byte>, pos: nat, v: u32)
    requires pos <= |b|
    ensures U32At(b, pos) == Done(v, pos + 4) <==> Holds32(b, pos, v)
    ensures U32At(b, pos).Failed? <==> pos + 4 > |b|
  {
    if pos + 4 <= |b| {
      FromLe4(b[pos..pos + 4]);
    }
  }

  // The low half of a 32-bit value is the 16-bit value at the same place.
  lemma LowHalf(b: seq<byte>, pos: nat, v: nat)
    requires Holds32(b, pos, v)
    ensures Holds16(b, pos, v % 0x1_0000)
  {
  }

  lemma U32Reads(b: seq<byte>, pos: nat)
    requires pos <= |b|
    ensures U32At(b, pos).Done? <==> pos + 4 <= |b|
    ensures U32At(b, pos).Done? ==> forall v: nat :: Holds32(b, pos, v) <==> v == U32At(b, pos).value
    ensures U32At(b, pos).Failed? ==> forall v: nat :: !Holds32(b, pos, v)
  {
    if U32At(b, pos).Done? {
      U32Iff(b, pos, U32At(b, pos).value);
    } else {
      U32Iff(b, pos, 0);
    }
  }

  lemma U16Reads(b: seq<byte>, pos: nat)
    requires pos <= |b|
    ensures U16At(b, pos).Done? <==> pos + 2 <= |b|
    ensures U16At(b, pos).Done? ==> Holds16(b, pos, U16At(b, pos).value)
  {
    if U16At(b, pos).Done? {
      U16Iff(b, pos, U16At(b, pos).value);
    } else {
      U16Iff(b, pos, 0);
    }
  }

  // ---------------------------------------------------------------------------
  // The layout
  // ---------------------------------------------------------------------------

  function Mark(section: Section): (s: seq<byte>)
    ensures |s| == 4
  {
    match section
    case Test => [0x67, 0x23, 0xC1, 0xAB]
    case Name => [0xEF, 0xCD, 0xAB, 0x89]
    case State => [0x67, 0x45, 0x23, 0x01]
    case Transactions => [0xAB, 0x89, 0x67, 0x45]
  }

  // A count nobody reads, then the four bytes that mark the section.
  ghost predicate HeaderIs(b: seq<byte>, pos: nat, section: Section) {
    && pos + 8 <= |b|
    && b[pos + 4..pos + 8] == Mark(section)
  }

  lemma TwoHalves(low: nat, high: nat, x: nat, y: nat)
    requires low < 0x1_0000 && x < 0x1_0000 && low + 0x1_0000 * high == x + 0x1_0000 * y
    ensures low == x && high == y
  {
  }

  lemma SameParts(b: seq<byte>, i: nat, s: seq<byte>, j: nat)
    requires i + 1 < |b| && j + 1 < |s| && Value16(b[i], b[i + 1]) == Value16(s[j], s[j + 1])
    ensures b[i] == s[j] && b[i + 1] == s[j + 1]
  {
  }

  lemma ValueBound(b: seq<byte>, i: nat)
    requires i + 1 < |b|
    ensures Value16(b[i], b[i + 1]) < 0x1_0000
  {
  }

  lemma FourBytes(b: seq<byte>, pos: nat, v: nat, s: seq<byte>)
    requires |s| == 4 && Holds32(s, 0, v) && pos + 4 <= |b|
    ensures Holds32(b, pos, v) <==> b[pos..pos + 4] == s
  {
    ValueBound(b, pos);
    ValueBound(s, 0);
    hide Value16;
    if Holds32(b, pos, v) {
      TwoHalves(Value16(b[pos], b[pos + 1]), Value16(b[pos + 2], b[pos + 3]), Value16(s[0], s[1]), Value16(s[2], s[3]));
      SameParts(b, pos, s, 0);
      SameParts(b, pos + 2, s, 2);
    }
  }

  lemma HeaderIff(b: seq<byte>, pos: nat, section: Section)
    requires pos <= |b|
    ensures SectionAt(b, pos, section) == Done((), pos + 8) <==> HeaderIs(b, pos, section)
    ensures SectionAt(b, pos, section).Done? <==> HeaderIs(b, pos, section)
  {
    hide U32At, Holds32, Value16;
    U32Reads(b, pos);
    if pos + 4 <= |b| {
      U32Reads(b, pos + 4);
      MarkOf(section);
      if pos + 8 <= |b| {
        FourBytes(b, pos + 4, Magic(section), Mark(section));
      }
    }
  }

  lemma MarkOf(section: Section)
    ensures Holds32(Mark(section), 0, Magic(section))
  {
  }

  ghost predicate WordsAre(b: seq<byte>, pos: nat, ws: seq<u32>) {
    forall i :: 0 <= i < |ws| ==> Holds32(b, pos + 4 * i, ws[i])
  }

  lemma {:induction false} WordsIff(b: seq<byte>, pos: nat, n: nat)
    requires pos <= |b|
    ensures WordsAt(b, pos, n).Done? <==> pos + 4 * n <= |b|
    ensures WordsAt(b, pos, n).Done? ==> WordsAre(b, pos, WordsAt(b, pos, n).value)
    decreases n
  {
    hide U32At, Holds32;
    if n > 0 {
      U32Reads(b, pos);
      if pos + 4 <= |b| {
        WordsIff(b, pos + 4, n - 1);
        if WordsAt(b, pos, n).Done? {
          var ws, rest := WordsAt(b, pos, n).value, WordsAt(b, pos + 4, n - 1).value;
          forall i | 0 <= i < n
            ensures Holds32(b, pos + 4 * i, ws[i])
          {
            if i > 0 {
              assert ws[i] == rest[i - 1] && pos + 4 * i == pos + 4 + 4 * (i - 1);
            }
          }
        }
      }
    }
  }

  // A memory word, low byte first, and the two bytes it stands for.
  ghost predicate PairIs(b: seq<byte>, pos: nat, even: (u32, byte), odd: (u32, byte)) {
    && pos + 6 <= |b| && Holds32(b, pos, even.0) && even.0 < 0x100_0000
    && b[pos + 4] == odd.1 && b[pos + 5] == even.1
    && odd.0 == even.0 / 2 * 2 + 1
  }

  ghost predicate RamIs(b: seq<byte>, pos: nat, ram: seq<(u32, byte)>)
    decreases |ram|
  {
    ram == [] || (|ram| >= 2 && PairIs(b, pos, ram[0], ram[1]) && RamIs(b, pos + 6, ram[2..]))
  }

  lemma PairIff(b: seq<byte>, pos: nat, even: (u32, byte), odd: (u32, byte))
    requires pos + 6 <= |b|
    ensures var addr, word := U32At(b, pos).value, U16At(b, pos + 4).value;
      PairIs(b, pos, even, odd) <==> addr < ADDRESS_SPACE && BytePair(addr, word) == [even, odd]
  {
    hide U32At, U16At;
    U32Reads(b, pos);
    U16Reads(b, pos + 4);
  }

  lemma {:induction false} RamIff(b: seq<byte>, pos: nat, n: nat, ram: seq<(u32, byte)>)
    requires pos <= |b|
    ensures RamAt(b, pos, n) == Done(ram, pos + 6 * n) <==> |ram| == 2 * n && pos + 6 * n <= |b| && RamIs(b, pos, ram)
    decreases n
  {
    hide U32At, U16At, PairIs, BytePair;
    if n > 0 {
      U32Reads(b, pos);
      if pos + 6 <= |b| {
        U16Reads(b, pos + 4);
        if |ram| >= 2 {
          PairIff(b, pos, ram[0], ram[1]);
          RamIff(b, pos + 6, n - 1, ram[2..]);
          assert [ram[0], ram[1]] + ram[2..] == ram;
        }
        if RamAt(b, pos, n) == Done(ram, pos + 6 * n) {
          var pair, rest := BytePair(U32At(b, pos).value, U16At(b, pos + 4).value), RamAt(b, pos + 6, n - 1).value;
          assert ram == pair + rest && pair == [ram[0], ram[1]] && ram[2..] == rest;
        }
      } else {
        NoPair(b, pos, n);
      }
    }
  }

  lemma NoPair(b: seq<byte>, pos: nat, n: nat)
    requires pos <= |b| < pos + 6 && n > 0
    ensures RamAt(b, pos, n).Failed?
  {
  }

  // d0-d7, a0-a6, usp, ssp, the low halves of sr's word, pc, the low halves of the two
  // prefetch words, and memory under its count.
  ghost predicate StateIs(b: seq<byte>, pos: nat, r: Regs) {
    && HeaderIs(b, pos, State)
    && |r.d| == 8 && WordsAre(b, pos + 8, r.d) && |r.a| == 7 && WordsAre(b, pos + 40, r.a)
    && Holds32(b, pos + 68, r.usp) && Holds32(b, pos + 72, r.ssp) && Holds16(b, pos + 76, r.sr)
    && Holds32(b, pos + 80, r.pc) && Holds16(b, pos + 84, r.prefetch.0) && Holds16(b, pos + 88, r.prefetch.1)
    && |r.ram| % 2 == 0 && Holds32(b, pos + 92, |r.ram| / 2)
    && pos + StateLength(r) <= |b| && RamIs(b, pos + 96, r.ram)
  }

  function StateLength(r: Regs): nat {
    96 + 6 * (|r.ram| / 2)
  }

  lemma StateForth(b: seq<byte>, pos: nat, r: Regs, next: nat)
    requires pos <= |b| && StateAt(b, pos) == Done(r, next)
    ensures StateIs(b, pos, r) && next == pos + StateLength(r)
  {
    hide U32At, SectionAt, WordsAt, RamAt, RamIs, Holds32, Holds16;
    HeaderIff(b, pos, State);
    WordsIff(b, pos + 8, RegisterCount());
    U32Reads(b, pos + 84);
    U32Reads(b, pos + 88);
    U32Reads(b, pos + 92);
    var ws := WordsAt(b, pos + 8, RegisterCount()).value;
    RegistersForth(b, pos, ws, r);
    LowHalf(b, pos + 84, U32At(b, pos + 84).value);
    LowHalf(b, pos + 88, U32At(b, pos + 88).value);
    RamIff(b, pos + 96, U32At(b, pos + 92).value, r.ram);
  }

  lemma RegistersForth(b: seq<byte>, pos: nat, ws: seq<u32>, r: Regs)
    requires |ws| == 19 && WordsAre(b, pos + 8, ws)
    requires r.d == ws[..8] && r.a == ws[8..15] && r.usp == ws[15] && r.ssp == ws[16] && r.sr == ws[17] % 0x1_0000
    requires r.pc == ws[18]
    ensures WordsAre(b, pos + 8, r.d) && WordsAre(b, pos + 40, r.a)
    ensures Holds32(b, pos + 68, r.usp) && Holds32(b, pos + 72, r.ssp) && Holds16(b, pos + 76, r.sr)
    ensures Holds32(b, pos + 80, r.pc)
  {
    hide Holds32, Holds16;
    assert Holds32(b, pos + 8 + 4 * 15, ws[15]) && Holds32(b, pos + 8 + 4 * 16, ws[16]);
    assert Holds32(b, pos + 8 + 4 * 17, ws[17]) && Holds32(b, pos + 8 + 4 * 18, ws[18]);
    LowHalf(b, pos + 76, ws[17]);
    forall i | 0 <= i < 7
      ensures Holds32(b, pos + 40 + 4 * i, r.a[i])
    {
      assert Holds32(b, pos + 8 + 4 * (i + 8), ws[i + 8]);
    }
  }

  lemma SameWord(b: seq<byte>, pos: nat, v: nat, w: nat)
    requires Holds32(b, pos, v) && Holds32(b, pos, w)
    ensures v == w
  {
  }

  lemma SameLow(b: seq<byte>, pos: nat, v: nat, w: nat)
    requires Holds32(b, pos, v) && Holds16(b, pos, w)
    ensures v % 0x1_0000 == w
  {
    LowHalf(b, pos, v);
  }

  lemma RegistersBack(b: seq<byte>, pos: nat, ws: seq<u32>, r: Regs)
    requires |ws| == 19 && WordsAre(b, pos + 8, ws)
    requires |r.d| == 8 && WordsAre(b, pos + 8, r.d) && |r.a| == 7 && WordsAre(b, pos + 40, r.a)
    requires Holds32(b, pos + 68, r.usp) && Holds32(b, pos + 72, r.ssp) && Holds16(b, pos + 76, r.sr)
    requires Holds32(b, pos + 80, r.pc)
    ensures r.d == ws[..8] && r.a == ws[8..15] && r.usp == ws[15] && r.ssp == ws[16] && r.sr == ws[17] % 0x1_0000
    ensures r.pc == ws[18]
  {
    hide Holds32, Holds16;
    forall i | 0 <= i < 19
      ensures Holds32(b, pos + 8 + 4 * i, ws[i])
    {
    }
    SameWord(b, pos + 8 + 4 * 15, ws[15], r.usp);
    SameWord(b, pos + 8 + 4 * 16, ws[16], r.ssp);
    SameLow(b, pos + 8 + 4 * 17, ws[17], r.sr);
    SameWord(b, pos + 8 + 4 * 18, ws[18], r.pc);
    forall i | 0 <= i < 8
      ensures r.d[i] == ws[i]
    {
      SameWord(b, pos + 8 + 4 * i, ws[i], r.d[i]);
    }
    forall i | 0 <= i < 7
      ensures r.a[i] == ws[8 + i]
    {
      assert pos + 40 + 4 * i == pos + 8 + 4 * (8 + i);
      SameWord(b, pos + 40 + 4 * i, ws[8 + i], r.a[i]);
    }
  }

  lemma StateBack(b: seq<byte>, pos: nat, r: Regs)
    requires pos <= |b| && StateIs(b, pos, r)
    ensures StateAt(b, pos) == Done(r, pos + StateLength(r))
  {
    hide U32At, SectionAt, WordsAt, RamAt, RamIs, Holds32, Holds16;
    HeaderIff(b, pos, State);
    WordsIff(b, pos + 8, RegisterCount());
    U32Reads(b, pos + 84);
    U32Reads(b, pos + 88);
    U32Reads(b, pos + 92);
    RegistersBack(b, pos, WordsAt(b, pos + 8, RegisterCount()).value, r);
    SameLow(b, pos + 84, U32At(b, pos + 84).value, r.prefetch.0);
    SameLow(b, pos + 88, U32At(b, pos + 88).value, r.prefetch.1);
    RamIff(b, pos + 96, |r.ram| / 2, r.ram);
  }

  // ---------------------------------------------------------------------------
  // Transactions
  // ---------------------------------------------------------------------------

  ghost predicate TransferIs(b: seq<byte>, pos: nat, t: BusTxn) {
    && pos + 25 <= |b|
    && Holds32(b, pos + 5, t.fc) && Holds32(b, pos + 9, t.addr) && Holds32(b, pos + 13, t.data)
    && (t.uds <==> !Holds32(b, pos + 17, 0)) && (t.lds <==> !Holds32(b, pos + 21, 0))
    && (t.size == Word <==> t.uds && t.lds)
  }

  ghost predicate TxnIs(b: seq<byte>, pos: nat, t: BusTxn) {
    && pos + 5 <= |b| && Holds32(b, pos + 1, t.clocks) && t.busPositioned
    && match t.kind
       case Idle =>
         b[pos] == 0 && t.fc == t.addr == t.data == 0 && t.size == Word && !t.uds && !t.lds
       case Write => b[pos] == 1 && TransferIs(b, pos, t)
       case Read => b[pos] == 2 && TransferIs(b, pos, t)
       case Tas => b[pos] == 3 && TransferIs(b, pos, t)
       case ReadAddressError => b[pos] == 4 && TransferIs(b, pos, t)
       case WriteAddressError => b[pos] == 5 && TransferIs(b, pos, t)
  }

  function TxnLength(t: BusTxn): nat {
    if t.kind.Idle? then 5 else 25
  }

  lemma TxnIff(b: seq<byte>, pos: nat, t: BusTxn, next: nat)
    requires pos <= |b|
    ensures TxnAt(b, pos) == Done(t, next) <==> TxnIs(b, pos, t) && next == pos + TxnLength(t)
  {
    hide U32At, Holds32;
    if pos + 5 <= |b| {
      U8Iff(b, pos, b[pos]);
      U32Reads(b, pos + 1);
      U32Reads(b, pos + 5);
      if pos + 9 <= |b| {
        U32Reads(b, pos + 9);
      }
      if pos + 13 <= |b| {
        U32Reads(b, pos + 13);
      }
      if pos + 17 <= |b| {
        U32Reads(b, pos + 17);
      }
      if pos + 21 <= |b| {
        U32Reads(b, pos + 21);
      }
    } else if pos < |b| {
      U8Iff(b, pos, b[pos]);
      U32Reads(b, pos + 1);
    }
  }

  ghost predicate TxnsAre(b: seq<byte>, pos: nat, ts: seq<BusTxn>)
    decreases |ts|
  {
    pos + TxnsLength(ts) <= |b| && (ts == [] || (TxnIs(b, pos, ts[0]) && TxnsAre(b, pos + TxnLength(ts[0]), ts[1..])))
  }

  function TxnsLength(ts: seq<BusTxn>): nat {
    if ts == [] then 0 else TxnLength(ts[0]) + TxnsLength(ts[1..])
  }

  lemma {:induction false} TxnsForth(b: seq<byte>, pos: nat, n: nat)
    requires pos <= |b| && TxnsAt(b, pos, n).Done?
    ensures var ts := TxnsAt(b, pos, n).value;
      |ts| == n && TxnsAre(b, pos, ts) && TxnsAt(b, pos, n).next == pos + TxnsLength(ts)
    decreases n
  {
    hide TxnAt, TxnIs, TxnsSize, TxnLength;
    if n > 0 {
      var first := TxnAt(b, pos);
      TxnIff(b, pos, first.value, first.next);
      TxnsForth(b, first.next, n - 1);
      var ts := TxnsAt(b, pos, n).value;
      assert ts[0] == first.value && ts[1..] == TxnsAt(b, first.next, n - 1).value;
    }
  }

  lemma {:induction false} TxnsBack(b: seq<byte>, pos: nat, ts: seq<BusTxn>)
    requires pos <= |b| && TxnsAre(b, pos, ts)
    ensures TxnsAt(b, pos, |ts|) == Done(ts, pos + TxnsLength(ts))
    decreases |ts|
  {
    hide TxnAt, TxnIs, TxnsSize, TxnLength;
    if ts != [] {
      var p := pos + TxnLength(ts[0]);
      TxnIff(b, pos, ts[0], p);
      TxnsBack(b, p, ts[1..]);
      assert [ts[0]] + ts[1..] == ts;
    }
  }

  lemma TxnsIff(b: seq<byte>, pos: nat, n: nat, ts: seq<BusTxn>, next: nat)
    requires pos <= |b|
    ensures TxnsAt(b, pos, n) == Done(ts, next)
       <==> |ts| == n && TxnsAre(b, pos, ts) && next == pos + TxnsLength(ts)
  {
    hide TxnsAt, TxnsAre, TxnsLength, TxnsSize;
    if TxnsAt(b, pos, n).Done? {
      TxnsForth(b, pos, n);
    }
    if TxnsAre(b, pos, ts) {
      TxnsBack(b, pos, ts);
    }
  }

  ghost predicate TransactionsAre(b: seq<byte>, pos: nat, ts: seq<BusTxn>, length: u32) {
    && HeaderIs(b, pos, Transactions)
    && Holds32(b, pos + 8, length) && Holds32(b, pos + 12, |ts|) && TxnsAre(b, pos + 16, ts)
  }

  lemma TransactionsIff(b: seq<byte>, pos: nat, ts: seq<BusTxn>, length: u32, next: nat)
    requires pos <= |b|
    ensures TransactionsAt(b, pos) == Done((ts, length), next)
       <==> TransactionsAre(b, pos, ts, length) && next == pos + 16 + TxnsLength(ts)
  {
    hide U32At, SectionAt, TxnsAt, TxnsAre, Holds32, HeaderIs;
    HeaderIff(b, pos, Transactions);
    if SectionAt(b, pos, Transactions).Done? {
      U32Reads(b, pos + 8);
      if U32At(b, pos + 8).Done? {
        U32Reads(b, pos + 12);
        if U32At(b, pos + 12).Done? {
          TxnsIff(b, pos + 16, U32At(b, pos + 12).value, ts, next);
          TxnsIff(b, pos + 16, |ts|, ts, next);
        }
      }
    }
  }

  // ---------------------------------------------------------------------------
  // Cases and the container
  // ---------------------------------------------------------------------------

  // Where the parts of a case begin.
  function InitialFrom(pos: nat, c: Case): nat {
    pos + 20 + |c.name|
  }

  function FinalFrom(pos: nat, c: Case): nat {
    InitialFrom(pos, c) + StateLength(c.initial)
  }

  function TransactionsFrom(pos: nat, c: Case): nat {
    FinalFrom(pos, c) + StateLength(c.final)
  }

  function CaseEnd(pos: nat, c: Case): nat {
    TransactionsFrom(pos, c) + 16 + TxnsLength(c.transactions)
  }

  ghost predicate CaseIs(b: seq<byte>, pos: nat, c: Case) {
    && HeaderIs(b, pos, Test) && HeaderIs(b, pos + 8, Name)
    && Holds32(b, pos + 16, |c.name|) && InitialFrom(pos, c) <= |b| && b[pos + 20..InitialFrom(pos, c)] == c.name
    && StateIs(b, InitialFrom(pos, c), c.initial) && StateIs(b, FinalFrom(pos, c), c.final)
    && TransactionsAre(b, TransactionsFrom(pos, c), c.transactions, c.length)
  }

  lemma StateIff(b: seq<byte>, pos: nat, r: Regs, next: nat)
    requires pos <= |b|
    ensures StateAt(b, pos) == Done(r, next) <==> StateIs(b, pos, r) && next == pos + StateLength(r)
  {
    hide StateAt, StateIs;
    if StateAt(b, pos) == Done(r, next) {
      StateForth(b, pos, r, next);
    }
    if StateIs(b, pos, r) {
      StateBack(b, pos, r);
    }
  }

  lemma StateInside(b: seq<byte>, pos: nat, r: Regs)
    requires StateIs(b, pos, r)
    ensures pos + StateLength(r) <= |b|
  {
  }

  lemma CaseForth(b: seq<byte>, pos: nat, c: Case, next: nat, utf8: seq<byte> -> bool)
    requires pos <= |b| && TestAt(b, pos, utf8) == Done(c, next)
    ensures CaseIs(b, pos, c) && utf8(c.name) && next == CaseEnd(pos, c)
  {
    hide U32At, SectionAt, StateAt, TransactionsAt, StateIs, TransactionsAre, Holds32, HeaderIs, StateSize, TxnsSize;
    HeaderIff(b, pos, Test);
    HeaderIff(b, pos + 8, Name);
    U32Reads(b, pos + 16);
    var p3 := InitialFrom(pos, c);
    var initial := StateAt(b, p3);
    StateIff(b, p3, c.initial, initial.next);
    var final := StateAt(b, initial.next);
    StateIff(b, initial.next, c.final, final.next);
    TransactionsIff(b, final.next, c.transactions, c.length, next);
  }

  lemma NameBack(b: seq<byte>, pos: nat, c: Case)
    requires InitialFrom(pos, c) <= |b| && b[pos + 20..InitialFrom(pos, c)] == c.name
    ensures TakeAt(b, pos + 20, |c.name|) == Done(c.name, InitialFrom(pos, c))
  {
  }

  lemma CaseBack(b: seq<byte>, pos: nat, c: Case, utf8: seq<byte> -> bool)
    requires pos <= |b| && CaseIs(b, pos, c) && utf8(c.name)
    ensures TestAt(b, pos, utf8) == Done(c, CaseEnd(pos, c))
  {
    hide U32At, SectionAt, StateAt, TransactionsAt, StateIs, TransactionsAre, Holds32, HeaderIs, StateSize, TxnsSize,
      StateLength, CaseSize, TakeAt;
    NameBack(b, pos, c);
    StateInside(b, InitialFrom(pos, c), c.initial);
    StateInside(b, FinalFrom(pos, c), c.final);
    HeaderIff(b, pos, Test);
    HeaderIff(b, pos + 8, Name);
    U32Reads(b, pos + 16);
    StateIff(b, InitialFrom(pos, c), c.initial, FinalFrom(pos, c));
    StateIff(b, FinalFrom(pos, c), c.final, TransactionsFrom(pos, c));
    TransactionsIff(b, TransactionsFrom(pos, c), c.transactions, c.length, CaseEnd(pos, c));
  }

  function CasesEnd(pos: nat, cs: seq<Case>): nat
    decreases |cs|
  {
    if cs == [] then pos else CasesEnd(CaseEnd(pos, cs[0]), cs[1..])
  }

  ghost predicate CasesAre(b: seq<byte>, pos: nat, cs: seq<Case>, utf8: seq<byte> -> bool)
    decreases |cs|
  {
    && pos <= |b|
    && (cs == [] || (CaseIs(b, pos, cs[0]) && utf8(cs[0].name) && CasesAre(b, CaseEnd(pos, cs[0]), cs[1..], utf8)))
  }

  lemma {:induction false} CasesIff(b: seq<byte>, pos: nat, n: nat, first: nat, cs: seq<Case>, next: nat,
                                    utf8: seq<byte> -> bool)
    requires pos <= |b|
    ensures TestsAt(b, pos, n, first, utf8) == Done(cs, next)
       <==> |cs| == n && CasesAre(b, pos, cs, utf8) && next == CasesEnd(pos, cs)
    decreases n
  {
    hide TestAt, CaseIs, CaseEnd, CasesSize, CaseSize;
    if n > 0 {
      if TestsAt(b, pos, n, first, utf8) == Done(cs, next) {
        var c := TestAt(b, pos, utf8);
        CaseForth(b, pos, c.value, c.next, utf8);
        var rest := TestsAt(b, c.next, n - 1, first + 1, utf8);
        CasesIff(b, c.next, n - 1, first + 1, rest.value, rest.next, utf8);
        assert cs[0] == c.value && cs[1..] == rest.value;
      }
      if |cs| == n && CasesAre(b, pos, cs, utf8) && next == CasesEnd(pos, cs) {
        CaseBack(b, pos, cs[0], utf8);
        CasesIff(b, CaseEnd(pos, cs[0]), n - 1, first + 1, cs[1..], next, utf8);
        assert [cs[0]] + cs[1..] == cs;
      }
    }
  }

  ghost predicate ContainerIs(b: seq<byte>, cs: seq<Case>, utf8: seq<byte> -> bool) {
    && |b| >= 8 && b[..4] == [0x71, 0x5D, 0x3F, 0x1A]
    && Holds32(b, 4, |cs|) && CasesAre(b, 8, cs, utf8) && CasesEnd(8, cs) == |b|
  }

  /** The decoder accepts exactly the inputs laid out as the format says, and gives the cases
      they hold: nothing else gets in, and no part of a case comes from another place. */
  lemma AcceptedIff(b: seq<byte>, cs: seq<Case>, utf8: seq<byte> -> bool)
    ensures Decoded(b, utf8) == Done(cs, |b|) <==> ContainerIs(b, cs, utf8)
    ensures Decoded(b, utf8).Done? <==> exists held :: ContainerIs(b, held, utf8)
  {
    hide TestsAt, CasesAre, CasesEnd, CasesSize;
    forall held
      ensures Decoded(b, utf8) == Done(held, |b|) <==> ContainerIs(b, held, utf8)
    {
      AcceptsIff(b, held, utf8);
    }
  }

  lemma AcceptsIff(b: seq<byte>, cs: seq<Case>, utf8: seq<byte> -> bool)
    ensures Decoded(b, utf8) == Done(cs, |b|) <==> ContainerIs(b, cs, utf8)
  {
    hide U32At, TestsAt, CasesAre, CasesEnd, CasesSize, Holds32;
    U32Reads(b, 0);
    if |b| >= 4 {
      U32Reads(b, 4);
      FileMark();
      FourBytes(b, 0, MAGIC_FILE, [0x71, 0x5D, 0x3F, 0x1A]);
      assert b[0..4] == b[..4];
      if |b| >= 8 {
        CasesIff(b, 8, U32At(b, 4).value, 0, cs, |b|, utf8);
        CasesIff(b, 8, |cs|, 0, cs, |b|, utf8);
      }
    }
  }

  lemma FileMark()
    ensures Holds32([0x71, 0x5D, 0x3F, 0x1A], 0, MAGIC_FILE)
  {
  }

  // ---------------------------------------------------------------------------
  // What an error says
  // ---------------------------------------------------------------------------

  ghost predicate NameEnds(b: seq<byte>, offset: nat, n: nat, utf8: seq<byte> -> bool) {
    n + 4 <= offset <= |b| && Holds32(b, offset - n - 4, n) && !utf8(b[offset - n..offset])
  }

  /** What the error says of its place is so. */
  ghost predicate IsSo(b: seq<byte>, offset: nat, what: What, utf8: seq<byte> -> bool)
    decreases what
  {
    match what
    case Short(wanted, remain) => offset + remain == |b| && remain < wanted
    case BadMagic(section, found) =>
      offset + 8 <= |b| && Holds32(b, offset + 4, found) && b[offset + 4..offset + 8] != Mark(section)
    case BadFileMagic(found) => offset == 0 && Holds32(b, 0, found) && b[..4] != [0x71, 0x5D, 0x3F, 0x1A]
    case RamOutside(addr) => 6 <= offset <= |b| && Holds32(b, offset - 6, addr) && addr >= 0x100_0000
    case UnknownTag(tag) => 5 <= offset <= |b| && b[offset - 5] == tag && tag > 5
    case NameNotUtf8 => exists n :: NameEnds(b, offset, n, utf8)
    case TrailingBytes(extra, tests) => offset + extra == |b| && extra > 0 && Holds32(b, 4, tests)
    case InTest(index, inner) =>
      && (exists count :: Holds32(b, 4, count) && index < count)
      && !inner.InTest? && !inner.BadFileMagic? && !inner.TrailingBytes? && IsSo(b, offset, inner, utf8)
  }

  // A failure inside a case, before it is labelled with the case's number.
  ghost predicate CaseError(b: seq<byte>, e: DecodeError, utf8: seq<byte> -> bool) {
    !e.what.InTest? && !e.what.BadFileMagic? && !e.what.TrailingBytes? && IsSo(b, e.offset, e.what, utf8)
  }

  lemma TakeError(b: seq<byte>, pos: nat, n: nat, utf8: seq<byte> -> bool)
    requires pos <= |b| && TakeAt(b, pos, n).Failed?
    ensures CaseError(b, TakeAt(b, pos, n).error, utf8)
  {
  }

  lemma U32Error(b: seq<byte>, pos: nat, utf8: seq<byte> -> bool)
    requires pos <= |b| && U32At(b, pos).Failed?
    ensures CaseError(b, U32At(b, pos).error, utf8)
  {
    TakeError(b, pos, 4, utf8);
    hide CaseError, TakeAt;
  }

  lemma HeaderError(b: seq<byte>, pos: nat, section: Section, utf8: seq<byte> -> bool)
    requires pos <= |b| && SectionAt(b, pos, section).Failed?
    ensures CaseError(b, SectionAt(b, pos, section).error, utf8)
  {
    HeaderIff(b, pos, section);
    U32Reads(b, pos);
    if U32At(b, pos).Failed? {
      U32Error(b, pos, utf8);
    } else {
      U32Reads(b, pos + 4);
      if U32At(b, pos + 4).Failed? {
        U32Error(b, pos + 4, utf8);
      }
    }
    hide U32At, Holds32;
  }

  lemma {:induction false} WordsError(b: seq<byte>, pos: nat, n: nat, utf8: seq<byte> -> bool)
    requires pos <= |b| && WordsAt(b, pos, n).Failed?
    ensures CaseError(b, WordsAt(b, pos, n).error, utf8)
    decreases n
  {
    hide U32At, CaseError;
    if U32At(b, pos).Failed? {
      U32Error(b, pos, utf8);
    } else {
      WordsError(b, pos + 4, n - 1, utf8);
    }
  }

  lemma {:induction false} RamError(b: seq<byte>, pos: nat, n: nat, utf8: seq<byte> -> bool)
    requires pos <= |b| && RamAt(b, pos, n).Failed?
    ensures CaseError(b, RamAt(b, pos, n).error, utf8)
    decreases n
  {
    hide U32At, TakeAt, Holds32;
    U32Reads(b, pos);
    if U32At(b, pos).Failed? {
      U32Error(b, pos, utf8);
    } else if U16At(b, pos + 4).Failed? {
      TakeError(b, pos + 4, 2, utf8);
    } else if U32At(b, pos).value < ADDRESS_SPACE {
      RamError(b, pos + 6, n - 1, utf8);
    }
  }

  lemma StateError(b: seq<byte>, pos: nat, utf8: seq<byte> -> bool)
    requires pos <= |b| && StateAt(b, pos).Failed?
    ensures CaseError(b, StateAt(b, pos).error, utf8)
  {
    hide U32At, SectionAt, WordsAt, RamAt, CaseError;
    if SectionAt(b, pos, State).Failed? {
      HeaderError(b, pos, State, utf8);
    } else if WordsAt(b, pos + 8, RegisterCount()).Failed? {
      WordsError(b, pos + 8, RegisterCount(), utf8);
    } else if U32At(b, pos + 84).Failed? {
      U32Error(b, pos + 84, utf8);
    } else if U32At(b, pos + 88).Failed? {
      U32Error(b, pos + 88, utf8);
    } else if U32At(b, pos + 92).Failed? {
      U32Error(b, pos + 92, utf8);
    } else {
      RamError(b, pos + 96, U32At(b, pos + 92).value, utf8);
    }
  }

  lemma TxnError(b: seq<byte>, pos: nat, utf8: seq<byte> -> bool)
    requires pos <= |b| && TxnAt(b, pos).Failed?
    ensures CaseError(b, TxnAt(b, pos).error, utf8)
  {
    hide U32At, TakeAt, Holds32;
    if U8At(b, pos).Failed? {
      TakeError(b, pos, 1, utf8);
    } else if U32At(b, pos + 1).Failed? {
      U32Error(b, pos + 1, utf8);
    } else if U8At(b, pos).value > 5 {
      TagRead(b, pos);
    } else {
      TransferError(b, pos, utf8);
    }
  }

  lemma TagRead(b: seq<byte>, pos: nat)
    requires pos <= |b| && U8At(b, pos).Done?
    ensures pos < |b| && U8At(b, pos).value == b[pos]
  {
  }

  lemma TransferError(b: seq<byte>, pos: nat, utf8: seq<byte> -> bool)
    requires pos <= |b| && TxnAt(b, pos).Failed? && U8At(b, pos).Done? && U8At(b, pos).value <= 5
    requires U32At(b, pos + 1).Done?
    ensures CaseError(b, TxnAt(b, pos).error, utf8)
  {
    hide U32At, U8At, CaseError;
    if U32At(b, pos + 5).Failed? {
      U32Error(b, pos + 5, utf8);
    } else if U32At(b, pos + 9).Failed? {
      U32Error(b, pos + 9, utf8);
    } else if U32At(b, pos + 13).Failed? {
      U32Error(b, pos + 13, utf8);
    } else if U32At(b, pos + 17).Failed? {
      U32Error(b, pos + 17, utf8);
    } else {
      U32Error(b, pos + 21, utf8);
    }
  }

  lemma {:induction false} TxnsError(b: seq<byte>, pos: nat, n: nat, utf8: seq<byte> -> bool)
    requires pos <= |b| && TxnsAt(b, pos, n).Failed?
    ensures CaseError(b, TxnsAt(b, pos, n).error, utf8)
    decreases n
  {
    hide TxnAt, CaseError;
    if TxnAt(b, pos).Failed? {
      TxnError(b, pos, utf8);
    } else {
      TxnsError(b, TxnAt(b, pos).next, n - 1, utf8);
    }
  }

  lemma TransactionsError(b: seq<byte>, pos: nat, utf8: seq<byte> -> bool)
    requires pos <= |b| && TransactionsAt(b, pos).Failed?
    ensures CaseError(b, TransactionsAt(b, pos).error, utf8)
  {
    hide U32At, SectionAt, TxnsAt, CaseError;
    if SectionAt(b, pos, Transactions).Failed? {
      HeaderError(b, pos, Transactions, utf8);
    } else if U32At(b, pos + 8).Failed? {
      U32Error(b, pos + 8, utf8);
    } else if U32At(b, pos + 12).Failed? {
      U32Error(b, pos + 12, utf8);
    } else {
      TxnsError(b, pos + 16, U32At(b, pos + 12).value, utf8);
    }
  }

  lemma NameError(b: seq<byte>, pos: nat, utf8: seq<byte> -> bool)
    requires pos + 20 <= |b| && U32At(b, pos + 16).Done?
    requires var len := U32At(b, pos + 16).value; pos + 20 + len <= |b| && !utf8(b[pos + 20..pos + 20 + len])
    ensures CaseError(b, DecodeError(pos + 20 + U32At(b, pos + 16).value, NameNotUtf8), utf8)
  {
    U32Reads(b, pos + 16);
    hide U32At, Holds32;
    assert NameEnds(b, pos + 20 + U32At(b, pos + 16).value, U32At(b, pos + 16).value, utf8);
  }

  lemma TestError(b: seq<byte>, pos: nat, utf8: seq<byte> -> bool)
    requires pos <= |b| && TestAt(b, pos, utf8).Failed?
    ensures CaseError(b, TestAt(b, pos, utf8).error, utf8)
  {
    hide U32At, SectionAt, StateAt, TransactionsAt, CaseError, StateSize, TxnsSize;
    if SectionAt(b, pos, Test).Failed? {
      HeaderError(b, pos, Test, utf8);
    } else if SectionAt(b, pos + 8, Name).Failed? {
      HeaderError(b, pos + 8, Name, utf8);
    } else if U32At(b, pos + 16).Failed? {
      U32Error(b, pos + 16, utf8);
    } else {
      var len := U32At(b, pos + 16).value;
      if TakeAt(b, pos + 20, len).Failed? {
        TakeError(b, pos + 20, len, utf8);
      } else if !utf8(b[pos + 20..pos + 20 + len]) {
        NameError(b, pos, utf8);
      } else {
        var initial := StateAt(b, pos + 20 + len);
        if initial.Failed? {
          StateError(b, pos + 20 + len, utf8);
        } else if StateAt(b, initial.next).Failed? {
          StateError(b, initial.next, utf8);
        } else {
          TransactionsError(b, StateAt(b, initial.next).next, utf8);
        }
      }
    }
  }

  lemma {:induction false} TestsError(b: seq<byte>, pos: nat, n: nat, first: nat, utf8: seq<byte> -> bool)
    requires pos <= |b| && TestsAt(b, pos, n, first, utf8).Failed?
    ensures var e := TestsAt(b, pos, n, first, utf8).error;
      && e.what.InTest? && first <= e.what.index < first + n
      && CaseError(b, DecodeError(e.offset, e.what.inner), utf8)
    decreases n
  {
    hide TestAt, CaseError;
    if TestAt(b, pos, utf8).Failed? {
      TestError(b, pos, utf8);
    } else {
      TestsError(b, TestAt(b, pos, utf8).next, n - 1, first + 1, utf8);
    }
  }

  lemma FileMarkError(b: seq<byte>, utf8: seq<byte> -> bool)
    requires |b| >= 4 && U32At(b, 0).value != MAGIC_FILE
    ensures b[..4] != [0x71, 0x5D, 0x3F, 0x1A] && Holds32(b, 0, U32At(b, 0).value)
  {
    hide U32At, Holds32;
    U32Reads(b, 0);
    FileMark();
    FourBytes(b, 0, MAGIC_FILE, [0x71, 0x5D, 0x3F, 0x1A]);
    assert b[0..4] == b[..4];
  }

  lemma CountedError(b: seq<byte>, utf8: seq<byte> -> bool)
    requires |b| >= 8
    requires TestsAt(b, 8, U32At(b, 4).value, 0, utf8).Failed?
    ensures var e := TestsAt(b, 8, U32At(b, 4).value, 0, utf8).error;
      e.what.InTest? && IsSo(b, e.offset, e.what, utf8)
  {
    hide U32At, TestsAt, Holds32;
    U32Reads(b, 4);
    TestsError(b, 8, U32At(b, 4).value, 0, utf8);
    assert Holds32(b, 4, U32At(b, 4).value);
  }

  /** Every rejection is true of the input: too few bytes are left for what was wanted there,
      the mark there is not the section's, the address read before it is outside the part's
      space, the tag is unknown, the name is not text, or bytes are left over; and a failure
      inside a case carries the number of a case the container counts. */
  lemma ErrorsAreSo(b: seq<byte>, utf8: seq<byte> -> bool)
    requires Decoded(b, utf8).Failed?
    ensures IsSo(b, Decoded(b, utf8).error.offset, Decoded(b, utf8).error.what, utf8)
  {
    U32Reads(b, 0);
    hide U32At, TestsAt, Holds32, CasesSize;
    if U32At(b, 0).Failed? {
      U32Error(b, 0, utf8);
    } else if U32At(b, 0).value != MAGIC_FILE {
      FileMarkError(b, utf8);
    } else {
      U32Reads(b, 4);
      if U32At(b, 4).Failed? {
        U32Error(b, 4, utf8);
      } else if TestsAt(b, 8, U32At(b, 4).value, 0, utf8).Failed? {
        CountedError(b, utf8);
      }
    }
  }
}
