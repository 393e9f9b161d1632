/** A fixed-size dirty set kept in 64-bit words, with a flag that marks everything at
    once. */
module DirtyBitsets {

  // The two words have a bit in common.
  predicate Meets(v: bv64, w: bv64) { v & w != 0 }

  function Or(v: bv64, w: bv64): bv64 { v | w }

  function Twice(v: bv64): bv64 { v << 1 }

  // `1 << k`, a place at a time.
  function Mask(k: nat): bv64 {
    if k == 0 then 1 else Twice(Mask(k - 1))
  }

  predicate Bit(w: bv64, k: nat) {
    Meets(w, Mask(k))
  }

  // A word moved `d` places.
  function Moved(v: bv64, d: nat): bv64 {
    if d == 0 then v else Twice(Moved(v, d - 1))
  }

  lemma {:induction false} MaskMoves(k: nat, d: nat)
    ensures Moved(Mask(k), d) == Mask(k + d)
    decreases d
  {
    hide Twice;
    if d > 0 {
      MaskMoves(k, d - 1);
    }
  }

  lemma {:induction false} MovedAdds(v: bv64, a: nat, b: nat)
    ensures Moved(Moved(v, a), b) == Moved(v, a + b)
    decreases b
  {
    hide Twice;
    if b > 0 {
      MovedAdds(v, a, b - 1);
    }
  }

  lemma {:induction false} MovedZero(d: nat)
    ensures Moved(0, d) == 0
  {
    if d > 0 {
      MovedZero(d - 1);
      TwiceZero();
      hide Twice;
    }
  }

  lemma TwiceZero()
    ensures Twice(0) == 0
  {
  }

  // Four places are one hexadecimal digit.
  function Digit(v: bv64): bv64 { v << 4 }

  lemma TwiceFour(v: bv64)
    ensures Twice(Twice(Twice(Twice(v)))) == Digit(v)
  {
  }

  lemma MovedFour(v: bv64)
    ensures Moved(v, 4) == Digit(v)
  {
    TwiceFour(v);
    hide Twice, Digit;
    assert Moved(v, 4) == Twice(Moved(v, 3));
    assert Moved(v, 3) == Twice(Moved(v, 2));
    assert Moved(v, 2) == Twice(Moved(v, 1));
    assert Moved(v, 1) == Twice(Moved(v, 0));
  }

  function Digits(n: nat): bv64 {
    if n == 0 then 1 else Digit(Digits(n - 1))
  }

  lemma {:induction false} MaskOfDigits(n: nat)
    ensures Mask(4 * n) == Digits(n)
  {
    hide Twice, Digit;
    if n > 0 {
      MaskOfDigits(n - 1);
      MaskMoves(4 * (n - 1), 4);
      MovedFour(Mask(4 * (n - 1)));
    }
  }

  lemma EightDigits()
    ensures Digits(8) == 0x1_0000_0000
  {
    assert Digits(2) == 0x100;
    assert Digits(4) == 0x1_0000;
    assert Digits(6) == 0x100_0000;
  }

  lemma FifteenDigits()
    ensures Digits(15) == 0x1000_0000_0000_0000
  {
    EightDigits();
    assert Digits(10) == 0x100_0000_0000;
    assert Digits(12) == 0x1_0000_0000_0000;
    assert Digits(14) == 0x100_0000_0000_0000;
  }

  // The last place of a word is still in the word.
  lemma TopMask()
    ensures Mask(63) != 0
  {
    FifteenDigits();
    MaskOfDigits(15);
    hide Digits;
    assert Mask(61) == Twice(Mask(60));
    assert Mask(62) == Twice(Mask(61));
    assert Mask(63) == Twice(Mask(62));
  }

  lemma MaskNonZero(k: nat)
    requires k < 64
    ensures Mask(k) != 0
  {
    TopMask();
    MaskMoves(k, 63 - k);
    MovedZero(63 - k);
    hide Twice, Mask;
  }

  lemma {:induction false} MasksDisjoint(j: nat, k: nat)
    requires j < k
    ensures !Meets(Mask(j), Mask(k))
    decreases j
  {
    hide Twice, Meets;
    if j == 0 {
      LowBit(Mask(k - 1));
    } else {
      MasksDisjoint(j - 1, k - 1);
      BothTwice(Mask(j - 1), Mask(k - 1));
    }
  }

  lemma LowBit(v: bv64)
    ensures !Meets(1, Twice(v))
  {
  }

  lemma BothTwice(v: bv64, w: bv64)
    requires !Meets(v, w)
    ensures !Meets(Twice(v), Twice(w))
  {
    assert (v << 1) & (w << 1) == (v & w) << 1;
  }

  lemma NeitherMeets(v: bv64, w: bv64, m: bv64)
    requires !Meets(v, m) && !Meets(w, m)
    ensures !Meets(Or(v, w), m)
  {
  }

  lemma LeftMisses(v: bv64, w: bv64, m: bv64)
    requires !Meets(Or(v, w), m)
    ensures !Meets(v, m)
  {
  }

  lemma RightMisses(v: bv64, w: bv64, m: bv64)
    requires !Meets(Or(v, w), m)
    ensures !Meets(w, m)
  {
  }

  lemma MeetsOr(v: bv64, w: bv64, m: bv64)
    ensures Meets(Or(v, w), m) <==> Meets(v, m) || Meets(w, m)
  {
    hide Meets, Or;
    if !Meets(Or(v, w), m) {
      LeftMisses(v, w, m);
      RightMisses(v, w, m);
    } else if !Meets(v, m) && !Meets(w, m) {
      NeitherMeets(v, w, m);
    }
  }

  lemma MeetsSelf(m: bv64)
    ensures Meets(m, m) == Meets(0xFFFF_FFFF_FFFF_FFFF, m) == (m != 0) && !Meets(0, m)
  {
  }

  lemma MeetsSwaps(v: bv64, w: bv64)
    ensures Meets(v, w) == Meets(w, v)
  {
  }

  lemma OrBit(v: bv64, w: bv64, j: nat)
    ensures Bit(Or(v, w), j) <==> Bit(v, j) || Bit(w, j)
  {
    hide Meets, Or, Mask;
    MeetsOr(v, w, Mask(j));
  }

  lemma MaskBit(k: nat, j: nat)
    requires k < 64 && j < 64
    ensures Bit(Mask(k), j) <==> j == k
  {
    hide Meets, Mask;
    if j == k {
      MaskNonZero(k);
      MeetsSelf(Mask(k));
    } else if j < k {
      MasksDisjoint(j, k);
      MeetsSwaps(Mask(j), Mask(k));
    } else {
      MasksDisjoint(k, j);
    }
  }

  /** Setting a bit of a word sets that bit and no other. */
  lemma SetBit(w: bv64, k: nat, j: nat)
    requires k < 64 && j < 64
    ensures Bit(Or(w, Mask(k)), j) <==> Bit(w, j) || j == k
  {
    hide Meets, Or, Mask, Bit;
    OrBit(w, Mask(k), j);
    MaskBit(k, j);
  }

  lemma FullBit(j: nat)
    requires j < 64
    ensures Bit(0xFFFF_FFFF_FFFF_FFFF, j) && !Bit(0, j)
  {
    hide Mask, Meets;
    MaskNonZero(j);
    MeetsSelf(Mask(j));
  }

  // ---------------------------------------------------------------------------
  // The set
  // ---------------------------------------------------------------------------

  // The elements the words mark, below `64 * |words|`.
  ghost predicate InWords(words: seq<bv64>, i: nat)
    requires i < 64 * |words|
  {
    Bit(words[i / 64], i % 64)
  }

  ghost function DirtyOf(words: seq<bv64>, forceAll: bool): set<nat> {
    set i: nat | i < 64 * |words| && (forceAll || InWords(words, i))
  }

  ghost function Below(n: nat): (r: set<nat>)
    ensures forall i: nat :: i in r <==> i < n
  {
    if n == 0 then {} else Below(n - 1) + {n - 1}
  }

  lemma DirtyIsBelow(words: seq<bv64>, forceAll: bool)
    ensures DirtyOf(words, forceAll) <= Below(64 * |words|)
  {
  }

  lemma MarkAdds(words: seq<bv64>, forceAll: bool, index: nat)
    requires index < 64 * |words|
    ensures DirtyOf(words[index / 64 := Or(words[index / 64], Mask(index % 64))], forceAll)
         == DirtyOf(words, forceAll) + {index}
  {
    hide Bit, Mask, Or;
    var marked := words[index / 64 := Or(words[index / 64], Mask(index % 64))];
    forall i: nat | i < 64 * |words|
      ensures InWords(marked, i) <==> InWords(words, i) || i == index
    {
      if i / 64 == index / 64 {
        SetBit(words[i / 64], index % 64, i % 64);
        assert i == i / 64 * 64 + i % 64 && index == index / 64 * 64 + index % 64;
      }
    }
  }

  lemma MergeUnites(words: seq<bv64>, other: seq<bv64>, merged: seq<bv64>, forceAll: bool)
    requires |words| == |other| == |merged|
    requires forall k :: 0 <= k < |words| ==> merged[k] == Or(words[k], other[k])
    ensures DirtyOf(merged, forceAll) == DirtyOf(words, forceAll) + DirtyOf(other, false)
  {
    hide Bit, Or;
    forall i: nat | i < 64 * |words|
      ensures InWords(merged, i) <==> InWords(words, i) || InWords(other, i)
    {
      OrBit(words[i / 64], other[i / 64], i % 64);
    }
  }

  lemma ClearEmpties(words: seq<bv64>)
    requires forall k :: 0 <= k < |words| ==> words[k] == 0
    ensures DirtyOf(words, false) == {}
  {
    hide Bit, Or;
    forall i: nat | i < 64 * |words|
      ensures !InWords(words, i)
    {
      FullBit(i % 64);
    }
  }

  class DirtyBitset {
    const words: array<bv64>
    var forceAll: bool

    ghost function Dirty(): set<nat>
      reads this, words
    {
      DirtyOf(words[..], forceAll)
    }

    // Elements the set can hold.
    ghost function Universe(): set<nat> {
      Below(64 * words.Length)
    }

    constructor NewAllDirty(n: nat)
      ensures fresh(words) && words.Length == n
      ensures Dirty() == Universe() && forceAll
    {
      words := new bv64[n](_ => 0xFFFF_FFFF_FFFF_FFFF);
      forceAll := true;
    }

    method Mark(index: nat)
      requires index < 64 * words.Length
      modifies words
      ensures Dirty() == old(Dirty()) + {index}
    {
      MarkAdds(words[..], forceAll, index);
      hide Bit, InWords, Mask, DirtyOf, Or;
      words[index / 64] := Or(words[index / 64], Mask(index % 64));
    }

    method MarkAll()
      modifies this`forceAll
      ensures Dirty() == Universe()
    {
      forceAll := true;
    }

    method IsDirty(index: nat) returns (dirty: bool)
      requires index < 64 * words.Length
      ensures dirty <==> index in Dirty()
    {
      assert index in Dirty() <==> forceAll || InWords(words[..], index);
      dirty := forceAll || Bit(words[index / 64], index % 64);
    }

    /** Union, whichever side holds the lazy flag. */
    method Merge(other: DirtyBitset)
      requires other.words.Length == words.Length && other.words != words
      modifies this`forceAll, words
      ensures Dirty() == old(Dirty()) + other.Dirty()
    {
      hide Bit, InWords, Or;
      if other.forceAll {
        forceAll := true;
      } else {
        for i := 0 to words.Length
          invariant forceAll == old(forceAll)
          invariant forall k :: 0 <= k < i ==> words[k] == Or(old(words[k]), other.words[k])
          invariant forall k :: i <= k < words.Length ==> words[k] == old(words[k])
        {
          words[i] := Or(words[i], other.words[i]);
        }
        MergeUnites(old(words[..]), other.words[..], words[..], forceAll);
      }
    }

    method Clear()
      modifies this`forceAll, words
      ensures Dirty() == {}
    {
      for i := 0 to words.Length
        invariant forall k :: 0 <= k < i ==> words[k] == 0
      {
        words[i] := 0;
      }
      forceAll := false;
      ClearEmpties(words[..]);
    }

    method MergeWords(theirs: seq<bv64>, flag: bool)
      requires |theirs| == words.Length
      modifies this`forceAll, words
      ensures Dirty() == old(Dirty()) + DirtyOf(theirs, flag)
    {
      var other := new DirtyBitset.Holding(theirs, flag);
      Merge(other);
    }

    /** Any run of operations refines the same run on a plain set. A merged bitset is
        given by its own words and flag. */
    method Run(ops: seq<Op>)
      requires forall op :: op in ops ==> OpOk(op, words.Length)
      modifies this`forceAll, words
      ensures Dirty() == After(old(Dirty()), ops, words.Length)
    {
      hide DirtyOf;
      for k := 0 to |ops|
        invariant Dirty() == After(old(Dirty()), ops[..k], words.Length)
      {
        assert ops[..k + 1][..k] == ops[..k] && ops[k] in ops;
        match ops[k] {
          case MarkOne(i) => Mark(i);
          case MarkEvery =>
            DirtyIsBelow(words[..], forceAll);
            MarkAll();
          case MergeWith(theirs, flag) => MergeWords(theirs, flag);
          case ClearAll => Clear();
        }
      }
      assert ops[..|ops|] == ops;
    }

    constructor Holding(contents: seq<bv64>, flag: bool)
      ensures fresh(words) && words[..] == contents && forceAll == flag
    {
      words := new bv64[|contents|](i requires 0 <= i < |contents| => contents[i]);
      forceAll := flag;
      new;
      assert words[..] == contents;
    }
  }

  // ---------------------------------------------------------------------------
  // Whole runs
  // ---------------------------------------------------------------------------

  datatype Op = MarkOne(index: nat) | MarkEvery | MergeWith(theirs: seq<bv64>, flag: bool) | ClearAll

  predicate OpOk(op: Op, n: nat) {
    match op
    case MarkOne(i) => i < 64 * n
    case MergeWith(theirs, _) => |theirs| == n
    case _ => true
  }

  // What an operation marks.
  ghost function Marks(op: Op, n: nat): set<nat> {
    match op
    case MarkOne(i) => {i}
    case MarkEvery => Below(64 * n)
    case MergeWith(theirs, flag) => DirtyOf(theirs, flag)
    case ClearAll => {}
  }

  ghost function After(s: set<nat>, ops: seq<Op>, n: nat): set<nat> {
    if ops == [] then s else
      var before := After(s, ops[..|ops| - 1], n);
      var op := ops[|ops| - 1];
      if op.ClearAll? then {} else before + Marks(op, n)
  }

  // Nothing cleared the set from operation `k` on.
  ghost predicate KeptSince(ops: seq<Op>, k: nat) {
    forall j :: k <= j < |ops| ==> !ops[j].ClearAll?
  }

  ghost predicate MarkedBy(ops: seq<Op>, k: nat, n: nat, i: nat) {
    k < |ops| && i in Marks(ops[k], n) && KeptSince(ops, k)
  }

  /** An element is dirty exactly when it was marked directly, in bulk or by a merge since
      the last clear, or was dirty to begin with and nothing was cleared. */
  lemma {:induction false} DirtyIffMarked(s: set<nat>, ops: seq<Op>, n: nat, i: nat)
    ensures i in After(s, ops, n) <==> (i in s && KeptSince(ops, 0)) || exists k :: MarkedBy(ops, k, n, i)
    decreases |ops|
  {
    if ops == [] {
      assert forall k :: !MarkedBy(ops, k, n, i);
    } else {
      var m := |ops| - 1;
      var shorter := ops[..m];
      DirtyIffMarked(s, shorter, n, i);
      if ops[m].ClearAll? {
        assert forall k :: !MarkedBy(ops, k, n, i);
      } else {
        forall k: nat | k < m
          ensures MarkedBy(ops, k, n, i) <==> MarkedBy(shorter, k, n, i)
        {
        }
        assert KeptSince(ops, m);
        assert i in Marks(ops[m], n) <==> MarkedBy(ops, m, n, i);
      }
    }
  }
}
