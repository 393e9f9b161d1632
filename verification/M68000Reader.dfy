/** The decoder as it runs: a cursor that advances through the bytes, and counted loops
    that push what they read. Each method is proved to give exactly what the format
    functions say, value, error and cursor alike. */
module M68000Reader {
  import opened Basics
  import opened M68000Bin

  // What was already read, put before what the rest of the input parses to.
  function Prepend<T>(read: seq<T>, rest: Parsed<seq<T>>): (r: Parsed<seq<T>>) {
    match rest
    case Done(more, next) => Done(read + more, next)
    case Failed(e) => Failed(e)
  }

  lemma PrependStep<T>(read: seq<T>, t: T, rest: Parsed<seq<T>>)
    ensures Prepend(read, Prepend([t], rest)) == Prepend(read + [t], rest)
  {
    if rest.Done? {
      assert read + ([t] + rest.value) == read + [t] + rest.value;
    }
  }

  lemma PrependPair<T>(read: seq<T>, t: T, u: T, rest: Parsed<seq<T>>)
    ensures Prepend(read, Prepend([t, u], rest)) == Prepend(read + [t, u], rest)
  {
    if rest.Done? {
      assert read + ([t, u] + rest.value) == read + [t, u] + rest.value;
    }
  }

  class Reader {
    const bytes: seq<byte>
    var pos: nat

    ghost predicate Valid()
      reads this
    {
      pos <= |bytes|
    }

    /** The method's answer and the cursor are what the format function gives. After an
        error the cursor is not used again. */
    ghost predicate Gives<T>(p: Parsed<T>, r: Result<T>)
      reads this
    {
      match p
      case Done(v, next) => r == Ok(v) && pos == next
      case Failed(e) => r == Err(e)
    }

    constructor (bytes: seq<byte>)
      ensures Valid() && this.bytes == bytes && pos == 0
    {
      this.bytes := bytes;
      this.pos := 0;
    }

    method Take(n: nat) returns (r: Result<seq<byte>>)
      requires Valid()
      modifies this
      ensures Valid() && Gives(TakeAt(bytes, old(pos), n), r)
    {
      if pos + n > |bytes| {
        return Err(DecodeError(pos, Short(n, |bytes| - pos)));
      }
      var out := bytes[pos..pos + n];
      pos := pos + n;
      return Ok(out);
    }

    method U8() returns (r: Result<byte>)
      requires Valid()
      modifies this
      ensures Valid() && Gives(U8At(bytes, old(pos)), r)
    {
      var s :- Take(1);
      return Ok(s[0]);
    }

    method U16() returns (r: Result<u16>)
      requires Valid()
      modifies this
      ensures Valid() && Gives(U16At(bytes, old(pos)), r)
    {
      var s :- Take(2);
      FromLeBound(s, 2);
      return Ok(FromLe(s));
    }

    method U32() returns (r: Result<u32>)
      requires Valid()
      modifies this
      ensures Valid() && Gives(U32At(bytes, old(pos)), r)
    {
      var s :- Take(4);
      FromLeBound(s, 4);
      return Ok(FromLe(s));
    }

    method ReadSection(section: Section) returns (r: Result<()>)
      requires Valid()
      modifies this
      ensures Valid() && Gives(SectionAt(bytes, old(pos), section), r)
    {
      hide U32At;
      var at := pos;
      var _ :- U32();
      var magic :- U32();
      if magic != Magic(section) {
        return Err(DecodeError(at, BadMagic(section, magic)));
      }
      return Ok(());
    }

    method ReadWords(n: nat) returns (r: Result<seq<u32>>)
      requires Valid()
      modifies this
      ensures Valid() && Gives(WordsAt(bytes, old(pos), n), r)
    {
      hide U32At, Prepend;
      var words: seq<u32> := [];
      Unit(WordsAt(bytes, pos, n));
      for i := 0 to n
        invariant Valid() && |words| == i
        invariant WordsAt(bytes, old(pos), n) == Prepend(words, WordsAt(bytes, pos, n - i))
      {
        WordsFirst(bytes, pos, n - i, words);
        var w :- U32();
        words := words + [w];
      }
      PrependDone(words, pos);
      return Ok(words);
    }

    method ReadRam(n: nat) returns (r: Result<seq<(u32, byte)>>)
      requires Valid()
      modifies this
      ensures Valid() && Gives(RamAt(bytes, old(pos), n), r)
    {
      hide U32At, U16At, Prepend, BytePair;
      var ram: seq<(u32, byte)> := [];
      Unit(RamAt(bytes, pos, n));
      for i := 0 to n
        invariant Valid() && |ram| == 2 * i
        invariant RamAt(bytes, old(pos), n) == Prepend(ram, RamAt(bytes, pos, n - i))
      {
        RamFirst(bytes, pos, n - i, ram);
        var addr :- U32();
        var word :- U16();
        if addr >= ADDRESS_SPACE {
          return Err(DecodeError(pos, RamOutside(addr)));
        }
        ram := ram + BytePair(addr, word);
      }
      PrependDone(ram, pos);
      return Ok(ram);
    }

    method ReadState() returns (r: Result<Regs>)
      requires Valid()
      modifies this
      ensures Valid() && Gives(StateAt(bytes, old(pos)), r)
    {
      hide SectionAt, U32At, WordsAt, RamAt, RegsFrom;
      var _ :- ReadSection(State);
      var regs :- ReadWords(RegisterCount());
      var f0 :- U32();
      var f1 :- U32();
      var count :- U32();
      var ram :- ReadRam(count);
      return Ok(RegsFrom(regs, f0, f1, ram));
    }

    method ReadTxn() returns (r: Result<BusTxn>)
      requires Valid()
      modifies this
      ensures Valid() && Gives(TxnAt(bytes, old(pos)), r)
    {
      hide U8At, U32At;
      var tag :- U8();
      var clocks :- U32();
      if tag == 0 {
        return Ok(IdleTxn(clocks));
      }
      if tag > 5 {
        return Err(DecodeError(pos, UnknownTag(tag)));
      }
      var fc :- U32();
      var addr :- U32();
      var data :- U32();
      var u :- U32();
      var l :- U32();
      var uds, lds := u != 0, l != 0;
      var size := if uds && lds then Word else Byte;
      return Ok(BusTxn(KindOf(tag), clocks, fc, addr, size, data, uds, lds, true));
    }

    method ReadTransactions() returns (r: Result<(seq<BusTxn>, u32)>)
      requires Valid()
      modifies this
      ensures Valid() && Gives(TransactionsAt(bytes, old(pos)), r)
    {
      hide SectionAt, U32At, TxnAt, Prepend, TxnsSize;
      var _ :- ReadSection(Transactions);
      var length :- U32();
      var count :- U32();
      var txns: seq<BusTxn> := [];
      ghost var start := pos;
      Unit(TxnsAt(bytes, start, count));
      for i := 0 to count
        invariant Valid() && |txns| == i
        invariant TxnsAt(bytes, start, count) == Prepend(txns, TxnsAt(bytes, pos, count - i))
      {
        TxnsFirst(bytes, pos, count - i, txns);
        var t :- ReadTxn();
        txns := txns + [t];
      }
      PrependDone(txns, pos);
      return Ok((txns, length));
    }

    method ReadTest(utf8: seq<byte> -> bool) returns (r: Result<Case>)
      requires Valid()
      modifies this
      ensures Valid() && Gives(TestAt(bytes, old(pos), utf8), r)
    {
      hide SectionAt, U32At, TakeAt, StateAt, TransactionsAt, CaseSize;
      var _ :- ReadSection(Test);
      var _ :- ReadSection(Name);
      var len :- U32();
      var name :- Take(len);
      if !utf8(name) {
        return Err(DecodeError(pos, NameNotUtf8));
      }
      var initial :- ReadState();
      var final :- ReadState();
      var txns :- ReadTransactions();
      return Ok(Case(name, initial, final, txns.1, txns.0));
    }
  }

  lemma Unit<T>(p: Parsed<seq<T>>)
    ensures p == Prepend([], p)
  {
    if p.Done? {
      assert [] + p.value == p.value;
    }
  }

  lemma PrependDone<T>(read: seq<T>, next: nat)
    ensures Prepend(read, Done([], next)) == Done(read, next)
  {
    assert read + [] == read;
  }

  lemma WordsFirst(b: seq<byte>, pos: nat, n: nat, read: seq<u32>)
    requires pos <= |b| && n > 0
    ensures match U32At(b, pos)
      case Failed(e) => Prepend(read, WordsAt(b, pos, n)) == Failed(e)
      case Done(w, p) => Prepend(read, WordsAt(b, pos, n)) == Prepend(read + [w], WordsAt(b, p, n - 1))
  {
    hide U32At;
    var head := U32At(b, pos);
    if head.Done? {
      PrependStep(read, head.value, WordsAt(b, head.next, n - 1));
    }
  }

  lemma RamFirst(b: seq<byte>, pos: nat, n: nat, read: seq<(u32, byte)>)
    requires pos <= |b| && n > 0
    ensures match U32At(b, pos)
      case Failed(e) => Prepend(read, RamAt(b, pos, n)) == Failed(e)
      case Done(addr, p) => match U16At(b, p)
        case Failed(e) => Prepend(read, RamAt(b, pos, n)) == Failed(e)
        case Done(word, q) =>
          Prepend(read, RamAt(b, pos, n)) ==
          if addr >= ADDRESS_SPACE then Failed(DecodeError(q, RamOutside(addr)))
          else Prepend(read + BytePair(addr, word), RamAt(b, q, n - 1))
  {
    hide U32At, U16At;
    var head := U32At(b, pos);
    if head.Done? {
      var addr, word := head.value, U16At(b, head.next);
      if word.Done? && addr < ADDRESS_SPACE {
        PrependPair(read, (addr, word.value / 0x100), (OddHalf(addr), word.value % 0x100),
                    RamAt(b, word.next, n - 1));
      }
    }
  }

  lemma TxnsFirst(b: seq<byte>, pos: nat, n: nat, read: seq<BusTxn>)
    requires pos <= |b| && n > 0
    ensures match TxnAt(b, pos)
      case Failed(e) => Prepend(read, TxnsAt(b, pos, n)) == Failed(e)
      case Done(t, p) => Prepend(read, TxnsAt(b, pos, n)) == Prepend(read + [t], TxnsAt(b, p, n - 1))
  {
    hide TxnAt;
    var head := TxnAt(b, pos);
    if head.Done? {
      PrependStep(read, head.value, TxnsAt(b, head.next, n - 1));
    }
  }

  lemma TestsFirst(b: seq<byte>, pos: nat, n: nat, first: nat, utf8: seq<byte> -> bool, read: seq<Case>)
    requires pos <= |b| && n > 0
    ensures match TestAt(b, pos, utf8)
      case Failed(e) =>
        Prepend(read, TestsAt(b, pos, n, first, utf8)) == Failed(DecodeError(e.offset, InTest(first, e.what)))
      case Done(c, p) =>
        Prepend(read, TestsAt(b, pos, n, first, utf8))
        == Prepend(read + [c], TestsAt(b, p, n - 1, first + 1, utf8))
  {
    hide TestAt;
    var head := TestAt(b, pos, utf8);
    if head.Done? {
      PrependStep(read, head.value, TestsAt(b, head.next, n - 1, first + 1, utf8));
    }
  }

  /** Decode a whole file: the answer is that of the format, for every input. */
  method Decode(bytes: seq<byte>, utf8: seq<byte> -> bool) returns (r: Result<seq<Case>>)
    ensures match Decoded(bytes, utf8)
      case Done(cases, _) => r == Ok(cases)
      case Failed(e) => r == Err(e)
  {
    hide U32At, TestAt, Prepend, CasesSize;
    var reader := new Reader(bytes);
    var magic :- reader.U32();
    if magic != MAGIC_FILE {
      return Err(DecodeError(0, BadFileMagic(magic)));
    }
    var count :- reader.U32();
    var tests: seq<Case> := [];
    ghost var start := reader.pos;
    Unit(TestsAt(bytes, start, count, 0, utf8));
    for i := 0 to count
      invariant reader.Valid() && reader.bytes == bytes && |tests| == i
      invariant TestsAt(bytes, start, count, 0, utf8)
             == Prepend(tests, TestsAt(bytes, reader.pos, count - i, i, utf8))
    {
      TestsFirst(bytes, reader.pos, count - i, i, utf8, tests);
      var test := reader.ReadTest(utf8);
      if test.Err? {
        return Err(DecodeError(test.error.offset, InTest(i, test.error.what)));
      }
      tests := tests + [test.value];
    }
    PrependDone(tests, reader.pos);
    if reader.pos != |bytes| {
      return Err(DecodeError(reader.pos, TrailingBytes(|bytes| - reader.pos, count)));
    }
    return Ok(tests);
  }
}
