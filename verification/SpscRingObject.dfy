/** The ring as the object the two threads share: an array of slots and the two
    index words, updated in place. `RingProtocol` proves the interleavings; here
    each call runs alone and the loops are the source's own. */
module SpscRingObject {
  import opened MachineWords
  import opened RingProtocol

  function Position(read: nat, i: nat, capacity: nat): (p: nat)
    requires capacity > 0
    ensures p < capacity
  {
    (read + i) % capacity
  }

  /** The `count` samples starting at position `read`, oldest first. */
  ghost function Unread(slots: seq<Sample>, read: nat, count: nat): (s: seq<Sample>)
    requires |slots| > 0
    ensures |s| == count
  {
    seq(count, i requires 0 <= i < count => slots[Position(read, i, |slots|)])
  }

  lemma PositionsDiffer(read: nat, i: nat, j: nat, capacity: nat)
    requires i < j < i + capacity
    ensures Position(read, i, capacity) != Position(read, j, capacity)
  {
    if (read + i) % capacity == (read + j) % capacity {
      CongruentWithin(read + i, read + j, capacity);
    }
  }

  /** Storing one past the unread samples appends, while there is room. */
  lemma StoreAppends(slots: seq<Sample>, read: nat, count: nat, target: nat, sample: Sample)
    requires count < |slots| && target == Position(read, count, |slots|)
    ensures Unread(slots[target := sample], read, count + 1) == Unread(slots, read, count) + [sample]
  {
    var after := Unread(slots[target := sample], read, count + 1);
    forall k | 0 <= k < count
      ensures after[k] == Unread(slots, read, count)[k]
    {
      PositionsDiffer(read, k, count, |slots|);
    }
  }

  /** Moving `read` on by `n`, wrapped to a word, drops the n oldest samples. */
  lemma AdvanceDrops(slots: seq<Sample>, read: nat, count: nat, n: nat)
    requires CapacityOk(|slots|) && |slots| > 0 && n <= count
    ensures Unread(slots, WrappingAdd(read, n), count - n) == Unread(slots, read, count)[n..]
  {
    var left, right := Unread(slots, WrappingAdd(read, n), count - n), Unread(slots, read, count);
    forall k: nat | k < count - n
      ensures left[k] == right[n..][k]
    {
      WrapKeepsPosition(read, n, k, |slots|);
    }
  }

  lemma WrapKeepsPosition(read: nat, n: nat, k: nat, capacity: nat)
    requires CapacityOk(capacity) && capacity > 0
    ensures Position(WrappingAdd(read, n), k, capacity) == Position(read, n + k, capacity)
  {
    CapacityBounds(capacity);
    var d :| d > 0 && capacity * d == USIZE;
    var x := read + n;
    var q := x / USIZE;
    assert x + k == x % USIZE + k + USIZE * q;
    assert USIZE * q == capacity * (d * q);
    ShiftByMultiple(x % USIZE + k, capacity, d * q);
    assert read + (n + k) == x + k;
  }

  lemma ShiftByMultiple(x: int, m: int, d: int)
    requires m > 0
    ensures (x + m * d) % m == x % m
  {
    assert x + m * d == m * (x / m + d) + x % m by {
      assert m * (x / m + d) == m * (x / m) + m * d;
    }
    RemainderUnique(x + m * d, m, x / m + d, x % m);
  }

  /** The slot the i-th push targets is the one past the unread samples. */
  lemma PushTarget(write: nat, read: nat, i: nat, capacity: nat)
    requires CapacityOk(capacity) && write < USIZE && read < USIZE
    ensures capacity > 0
    ensures Slot(write, i, capacity) == Position(read, WrappingSub(write, read) + i, capacity)
  {
    var fill := WrappingSub(write, read);
    assert write == (read + fill) % USIZE;
    SlotIsPosition(read + fill, i, capacity);
    assert read + fill + i == read + (fill + i);
  }

  lemma PopSource(read: nat, i: nat, capacity: nat)
    requires CapacityOk(capacity) && capacity > 0 && read < USIZE
    ensures Slot(read, i, capacity) == Position(read, i, capacity)
  {
    assert read % USIZE == read;
    SlotIsPosition(read, i, capacity);
  }

  lemma FillAfterPush(write: nat, read: nat, n: nat)
    requires write < USIZE && read < USIZE && WrappingSub(write, read) + n < USIZE
    ensures WrappingSub(WrappingAdd(write, n), read) == WrappingSub(write, read) + n
  {
    var fill := WrappingSub(write, read);
    assert write == (read + fill) % USIZE;
    WrapAdd(read + fill, n);
    WrapSub(read + fill + n, read);
  }

  lemma FillAfterPop(write: nat, read: nat, n: nat)
    requires write < USIZE && read < USIZE && n <= WrappingSub(write, read)
    ensures WrappingSub(write, WrappingAdd(read, n)) == WrappingSub(write, read) - n
  {
    var fill := WrappingSub(write, read);
    assert write == (read + fill) % USIZE;
    WrapSub(read + fill, read + n);
  }

  class SpscRing {
    const slots: array<Sample>
    var write: nat
    var read: nat
    var dropped: nat
    var starved: nat

    ghost predicate Valid()
      reads this
    {
      && CapacityOk(slots.Length) && slots.Length > 0
      && write < USIZE && read < USIZE
      && WrappingSub(write, read) <= slots.Length
    }

    function Capacity(): nat {
      slots.Length
    }

    function Len(): nat
      reads this
    {
      WrappingSub(write, read)
    }

    /** The unread samples, oldest first. */
    ghost function Contents(): (s: seq<Sample>)
      requires Valid()
      reads this, slots
      ensures |s| == Len()
    {
      Unread(slots[..], read, Len())
    }

    constructor (request: nat)
      requires request <= USIZE / 2
      ensures Valid() && fresh(slots)
      ensures Capacity() == SlotsFor(request) && Contents() == []
      ensures dropped == 0 && starved == 0
    {
      NewCapacity(request);
      CapacityBounds(SlotsFor(request));
      slots := new Sample[SlotsFor(request)](_ => 0);
      write, read, dropped, starved := 0, 0, 0, 0;
    }

    method PushSlice(samples: seq<Sample>) returns (n: nat)
      requires Valid()
      modifies this`write, this`dropped, slots
      ensures Valid()
      ensures n == Min(|samples|, Capacity() - |old(Contents())|)
      ensures Contents() == old(Contents()) + samples[..n]
      ensures dropped == old(dropped) + (|samples| - n)
    {
      CapacityBounds(slots.Length);
      n := Min(|samples|, Free(write, read, slots.Length));
      ghost var before := Contents();
      var i := 0;
      while i < n
        invariant 0 <= i <= n
        invariant Unread(slots[..], read, |before| + i) == before + samples[..i]
        modifies slots
      {
        PushTarget(write, read, i, slots.Length);
        ghost var was, target := slots[..], Slot(write, i, slots.Length);
        StoreAppends(was, read, |before| + i, target, samples[i]);
        slots[Slot(write, i, slots.Length)] := samples[i];
        assert slots[..] == was[target := samples[i]];
        assert samples[..i + 1] == samples[..i] + [samples[i]];
        i := i + 1;
      }
      FillAfterPush(write, read, n);
      write := WrappingAdd(write, n);
      if n < |samples| {
        dropped := dropped + (|samples| - n);
      }
    }

    method PopSlice(out: array<Sample>) returns (n: nat)
      requires Valid() && out != slots
      modifies this`read, this`starved, out
      ensures Valid()
      ensures n == Min(out.Length, |old(Contents())|)
      ensures out[..] == old(Contents())[..n] + old(out[n..])
      ensures Contents() == old(Contents())[n..]
      ensures starved == old(starved) + (out.Length - n)
    {
      CapacityBounds(slots.Length);
      n := Delivers(out.Length, write, read);
      ghost var before := Contents();
      ghost var rest := out[..];
      var i := 0;
      while i < n
        invariant 0 <= i <= n
        invariant Contents() == before
        invariant out[..i] == before[..i]
        invariant out[i..] == rest[i..]
        modifies out
      {
        PopSource(read, i, slots.Length);
        out[i] := slots[Slot(read, i, slots.Length)];
        assert out[i] == before[i];
        i := i + 1;
      }
      assert out[..] == out[..n] + out[n..];
      AdvanceDrops(slots[..], read, |before|, n);
      FillAfterPop(write, read, n);
      read := WrappingAdd(read, n);
      if n < out.Length {
        starved := starved + (out.Length - n);
      }
    }
  }
}
