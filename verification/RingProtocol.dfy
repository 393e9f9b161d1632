/** The lock-free transport ring as a two-thread protocol.

    One transition is one atomic access: a load of the other thread's index, a
    store or load of one slot, a release of an index, an update of a counter.
    Memory is weak. A load of the foreign index may return any value that was
    ever published and is not older than the last one this thread saw, and a
    relaxed load of a slot may return any store to that slot which the acquired
    index does not already rule out. Indices are wrapped 64-bit words masked to
    slots; the histories beside them are what the theorems talk about. */
module RingProtocol {
  import opened Basics
  import opened MachineWords

  type Sample = int

  // One store to a slot, in the producer's program order.
  datatype SlotStore = SlotStore(slot: nat, value: Sample)

  // One release of an index: the machine word, and how many samples had been
  // stored (for `write`) or taken (for `read`) before it.
  datatype Release = Release(index: nat, count: nat)

  // Where `push_slice` is. `write` and `n` are its locals, `stored` its loop counter.
  datatype Producer =
    | Ready
    | Called(samples: seq<Sample>)
    | Filling(samples: seq<Sample>, write: nat, n: nat, stored: nat)
    | Counting(lost: nat)

  // Where `pop_slice` is. `out` is the part of the caller's buffer filled so far.
  datatype Consumer =
    | Waiting
    | Asked(want: nat)
    | Draining(want: nat, read: nat, n: nat, out: seq<Sample>)
    | Tallying(short: nat)

  datatype Ring = Ring(
    capacity: nat,
    stores: seq<SlotStore>,
    writeLog: seq<Release>,
    readLog: seq<Release>,
    seenRead: nat,       // position in `readLog` the producer last acquired
    seenWrite: nat,      // position in `writeLog` the consumer last acquired
    producer: Producer,
    consumer: Consumer,
    dropped: nat,
    starved: nat,
    offered: nat,        // samples handed to push_slice
    requested: nat,      // samples asked of pop_slice
    accepted: seq<Sample>,
    delivered: seq<Sample>)

  datatype Action =
    | Push(samples: seq<Sample>)
    | LoadRead(position: nat)
    | StoreSlot
    | ReleaseWrite
    | AddDropped
    | Pop(want: nat)
    | LoadWrite(position: nat)
    | LoadSlot(from: Option<nat>)
    | ReleaseRead
    | AddStarved

  // ---------------------------------------------------------------------------
  // The code, one access at a time
  // ---------------------------------------------------------------------------

  /** The slots `new` allocates for a request. */
  function SlotsFor(request: nat): nat {
    NextPowerOfTwo(if request < 2 then 2 else request)
  }

  function Slot(index: nat, i: nat, capacity: nat): nat
    requires capacity > 0
  {
    And(WrappingAdd(index, i), capacity - 1)
  }

  /** The room `push_slice` computes from the two indices it loaded. The source's
      subtraction would underflow when they are more than a capacity apart;
      `LoadReadKeeps` proves they never are. */
  function Free(write: nat, read: nat, capacity: nat): nat {
    var used := WrappingSub(write, read);
    if used <= capacity then capacity - used else 0
  }

  /** What `pop_slice` delivers, given the two indices it loaded. */
  function Delivers(want: nat, write: nat, read: nat): nat {
    Min(want, WrappingSub(write, read))
  }

  function Empty(capacity: nat): Ring {
    Ring(capacity, [], [Release(0, 0)], [Release(0, 0)], 0, 0, Ready, Waiting,
         0, 0, 0, 0, [], [])
  }

  // What the types of the code's locals already guarantee.
  ghost predicate Shape(r: Ring) {
    && r.capacity > 0 && r.seenRead < |r.readLog| && r.seenWrite < |r.writeLog|
    && (r.producer.Filling? ==> r.producer.stored <= r.producer.n <= |r.producer.samples|)
    && (r.consumer.Draining? ==> |r.consumer.out| <= r.consumer.n <= r.consumer.want)
  }

  /** Which store a relaxed load of `slot` may return: any store the consumer's
      acquired `write` release does not already order before a later store to the
      same slot, or the initial contents while no ordered store has replaced them. */
  ghost predicate MayReturn(r: Ring, slot: nat, from: Option<nat>)
    requires r.seenWrite < |r.writeLog|
  {
    var ordered := r.writeLog[r.seenWrite].count;
    match from
    case None => forall k :: 0 <= k < ordered && k < |r.stores| ==> r.stores[k].slot != slot
    case Some(j) =>
      && j < |r.stores|
      && r.stores[j].slot == slot
      && forall k :: j < k < ordered && k < |r.stores| ==> r.stores[k].slot != slot
  }

  function LastIndex(releases: seq<Release>): nat
    requires releases != []
  {
    releases[|releases| - 1].index
  }

  ghost predicate Enabled(r: Ring, a: Action)
    requires Shape(r)
  {
    match a
    case Push(samples) => r.producer.Ready?
    case LoadRead(p) => r.producer.Called? && r.seenRead <= p < |r.readLog|
    case StoreSlot => r.producer.Filling? && r.producer.stored < r.producer.n
    case ReleaseWrite => r.producer.Filling? && r.producer.stored == r.producer.n
    case AddDropped => r.producer.Counting?
    case Pop(want) => r.consumer.Waiting?
    case LoadWrite(p) => r.consumer.Asked? && r.seenWrite <= p < |r.writeLog|
    case LoadSlot(from) =>
      && r.consumer.Draining? && |r.consumer.out| < r.consumer.n
      && MayReturn(r, Slot(r.consumer.read, |r.consumer.out|, r.capacity), from)
    case ReleaseRead => r.consumer.Draining? && |r.consumer.out| == r.consumer.n
    case AddStarved => r.consumer.Tallying?
  }

  ghost function Apply(r: Ring, a: Action): Ring
    requires Shape(r)
    requires Enabled(r, a)
  {
    match a
    case Push(samples) =>
      r.(producer := Called(samples), offered := r.offered + |samples|)
    case LoadRead(p) =>
      var samples, write := r.producer.samples, LastIndex(r.writeLog);
      var n := Min(|samples|, Free(write, r.readLog[p].index, r.capacity));
      r.(producer := Filling(samples, write, n, 0), seenRead := p)
    case StoreSlot =>
      var Filling(samples, write, n, stored) := r.producer;
      r.(stores := r.stores + [SlotStore(Slot(write, stored, r.capacity), samples[stored])],
         producer := Filling(samples, write, n, stored + 1))
    case ReleaseWrite =>
      var Filling(samples, write, n, _) := r.producer;
      r.(writeLog := r.writeLog + [Release(WrappingAdd(write, n), |r.stores|)],
         accepted := r.accepted + samples[..n],
         producer := Counting(|samples| - n))
    case AddDropped =>
      r.(dropped := r.dropped + r.producer.lost, producer := Ready)
    case Pop(want) =>
      r.(consumer := Asked(want), requested := r.requested + want)
    case LoadWrite(p) =>
      var want, read := r.consumer.want, LastIndex(r.readLog);
      r.(consumer := Draining(want, read, Delivers(want, r.writeLog[p].index, read), []),
         seenWrite := p)
    case LoadSlot(from) =>
      var value := match from case None => 0 case Some(j) => r.stores[j].value;
      r.(consumer := r.consumer.(out := r.consumer.out + [value]))
    case ReleaseRead =>
      var Draining(want, read, n, out) := r.consumer;
      r.(readLog := r.readLog + [Release(WrappingAdd(read, n), |r.delivered| + n)],
         delivered := r.delivered + out,
         consumer := Tallying(want - n))
    case AddStarved =>
      r.(starved := r.starved + r.consumer.short, consumer := Waiting)
  }

  // ---------------------------------------------------------------------------
  // The invariant
  // ---------------------------------------------------------------------------

  function Fill(r: Ring): int { |r.accepted| - |r.delivered| }

  function InFlightStores(r: Ring): nat {
    if r.producer.Filling? then r.producer.stored else 0
  }

  /** A release history: the words are the counts modulo the word size, the counts
      never go back, and the newest is the true total. */
  ghost predicate History(releases: seq<Release>, total: nat) {
    && releases != []
    && releases[|releases| - 1].count == total
    && (forall p :: 0 <= p < |releases| ==> releases[p].index == releases[p].count % USIZE)
    && (forall p, q :: 0 <= p <= q < |releases| ==> releases[p].count <= releases[q].count)
  }

  ghost predicate CapacityOk(capacity: nat) {
    exists k :: 1 <= k <= 63 && capacity == Pow2(k)
  }

  ghost predicate StoresOk(r: Ring)
    requires Shape(r)
  {
    && |r.stores| == |r.accepted| + InFlightStores(r)
    && (forall j :: 0 <= j < |r.stores| ==> r.stores[j].slot == j % r.capacity)
    && (forall j :: 0 <= j < |r.accepted| ==> r.stores[j].value == r.accepted[j])
  }

  ghost predicate ProducerOk(r: Ring)
    requires Shape(r)
  {
    match r.producer
    case Filling(samples, write, n, stored) =>
      && write == |r.accepted| % USIZE
      && |r.accepted| + n <= r.readLog[r.seenRead].count + r.capacity
      && |r.stores| == |r.accepted| + stored
      && (forall i :: 0 <= i < stored ==> r.stores[|r.accepted| + i].value == samples[i])
    case _ => true
  }

  ghost predicate ConsumerOk(r: Ring)
    requires Shape(r)
  {
    match r.consumer
    case Draining(want, read, n, out) =>
      && read == |r.delivered| % USIZE
      && |r.delivered| + n <= r.writeLog[r.seenWrite].count
      && |r.delivered| + |out| <= |r.accepted|
      && out == r.accepted[|r.delivered|..|r.delivered| + |out|]
    case _ => true
  }

  function InFlightOffer(p: Producer): nat {
    match p
    case Ready => 0
    case Called(samples) => |samples|
    case Filling(samples, _, _, _) => |samples|
    case Counting(lost) => lost
  }

  function InFlightRequest(c: Consumer): nat {
    match c
    case Waiting => 0
    case Asked(want) => want
    case Draining(want, _, _, _) => want
    case Tallying(short) => short
  }

  ghost predicate Inv(r: Ring) {
    && Shape(r)
    && CapacityOk(r.capacity)
    && History(r.writeLog, |r.accepted|)
    && History(r.readLog, |r.delivered|)
    && 0 <= Fill(r) <= r.capacity
    && r.delivered <= r.accepted
    && StoresOk(r)
    && ProducerOk(r)
    && |r.accepted| <= r.readLog[r.seenRead].count + r.capacity
    && |r.delivered| <= r.writeLog[r.seenWrite].count
    && ConsumerOk(r)
    && r.offered == |r.accepted| + r.dropped + InFlightOffer(r.producer)
    && r.requested == |r.delivered| + r.starved + InFlightRequest(r.consumer)
  }

  lemma CapacityBounds(capacity: nat)
    requires CapacityOk(capacity)
    ensures 2 <= capacity <= USIZE / 2
    ensures exists d :: d > 0 && capacity * d == USIZE
  {
    var k :| 1 <= k <= 63 && capacity == Pow2(k);
    UsizeIsPow2();
    Pow2Monotone(1, k);
    Pow2Monotone(k, 63);
    Pow2Sum(k, 64 - k);
    assert capacity * Pow2(64 - k) == USIZE;
  }

  /** `new` yields a power of two that is at least the request, for every request
      whose rounding fits the word. */
  lemma NewCapacity(request: nat)
    requires request <= USIZE / 2
    ensures CapacityOk(SlotsFor(request))
    ensures request <= SlotsFor(request)
    ensures if request < 2 then SlotsFor(request) == 2 else SlotsFor(request) < 2 * request
  {
    var asked := if request < 2 then 2 else request;
    var k := CeilLog2(asked);
    UsizeIsPow2();
    if k > 63 {
      Pow2Monotone(63, k - 1);
    }
    assert Pow2(0) == 1;
    assert SlotsFor(request) == Pow2(k) && k >= 1;
  }

  /** Wrapping and masking compute the true position modulo the capacity. */
  lemma SlotIsPosition(count: nat, i: nat, capacity: nat)
    requires CapacityOk(capacity)
    ensures capacity > 0 && Slot(count % USIZE, i, capacity) == (count + i) % capacity
  {
    var k :| 1 <= k <= 63 && capacity == Pow2(k);
    CapacityBounds(capacity);
    var d :| d > 0 && capacity * d == USIZE;
    MaskIsRemainder(WrappingAdd(count % USIZE, i), k);
    WrapAdd(count, i);
    RemainderOfRemainder(count + i, capacity, d);
  }

  lemma WrapAdd(count: nat, i: nat)
    ensures WrappingAdd(count % USIZE, i) == (count + i) % USIZE
  {
  }

  /** Wrapping subtraction of two indices less than a word apart is the difference. */
  lemma WrapSub(a: nat, b: nat)
    requires b <= a < b + USIZE
    ensures WrappingSub(a % USIZE, b % USIZE) == a - b
  {
  }

  // ---------------------------------------------------------------------------
  // Every step keeps the invariant
  // ---------------------------------------------------------------------------

  lemma EmptyRing(capacity: nat)
    requires CapacityOk(capacity)
    ensures Inv(Empty(capacity))
  {
    CapacityBounds(capacity);
  }

  lemma LoadReadKeeps(r: Ring, p: nat)
    requires Inv(r) && Enabled(r, LoadRead(p))
    ensures Inv(Apply(r, LoadRead(p)))
    ensures Apply(r, LoadRead(p)).producer.n
         == Min(|r.producer.samples|, r.capacity - (|r.accepted| - r.readLog[p].count))
  {
    CapacityBounds(r.capacity);
    assert r.readLog[r.seenRead].count <= r.readLog[p].count <= r.readLog[|r.readLog| - 1].count;
    WrapSub(|r.accepted|, r.readLog[p].count);
  }

  lemma StoreSlotKeeps(r: Ring)
    requires Inv(r) && Enabled(r, StoreSlot)
    ensures Inv(Apply(r, StoreSlot))
  {
    SlotIsPosition(|r.accepted|, r.producer.stored, r.capacity);
    var r' := Apply(r, StoreSlot);
    assert r'.accepted == r.accepted && r'.delivered == r.delivered;
    assert forall j :: 0 <= j < |r.stores| ==> r'.stores[j] == r.stores[j];
  }

  lemma ReleaseWriteKeeps(r: Ring)
    requires Inv(r) && Enabled(r, ReleaseWrite)
    ensures Inv(Apply(r, ReleaseWrite))
  {
    var r' := Apply(r, ReleaseWrite);
    WrapAdd(|r.accepted|, r.producer.n);
    assert r'.accepted[..|r.accepted|] == r.accepted;
    if r.consumer.Draining? {
      var d, e := |r.delivered|, |r.delivered| + |r.consumer.out|;
      assert r'.accepted[d..e] == r.accepted[d..e];
    }
  }

  /** A slot load returns exactly one store, the one made for that position, however
      weakly memory orders the slots. In particular never a later lap's store. */
  lemma LoadReturnsTheSample(r: Ring, from: Option<nat>)
    requires Inv(r) && r.consumer.Draining? && |r.consumer.out| < r.consumer.n
    ensures MayReturn(r, Slot(r.consumer.read, |r.consumer.out|, r.capacity), from)
       <==> from == Some(|r.delivered| + |r.consumer.out|)
    ensures |r.delivered| + |r.consumer.out| < |r.accepted|
  {
    var position := |r.delivered| + |r.consumer.out|;
    var slot := Slot(r.consumer.read, |r.consumer.out|, r.capacity);
    SlotIsPosition(|r.delivered|, |r.consumer.out|, r.capacity);
    assert r.writeLog[r.seenWrite].count <= r.writeLog[|r.writeLog| - 1].count;
    assert r.stores[position].slot == slot;
    forall j | 0 <= j < |r.stores| && position - r.capacity < j && r.stores[j].slot == slot
      ensures j == position
    {
      CongruentWithin(j, position, r.capacity);
    }
    assert MayReturn(r, slot, Some(position));
  }

  lemma LoadSlotKeeps(r: Ring, from: Option<nat>)
    requires Inv(r) && Enabled(r, LoadSlot(from))
    ensures Inv(Apply(r, LoadSlot(from)))
    ensures |r.delivered| + |r.consumer.out| < |r.accepted|
    ensures Apply(r, LoadSlot(from)) == r.(consumer := r.consumer.(out :=
              r.consumer.out + [r.accepted[|r.delivered| + |r.consumer.out|]]))
  {
    LoadReturnsTheSample(r, from);
    OneMoreKeeps(r);
    hide ProducerOk, History, MayReturn, CapacityOk, Shape;
  }

  // Whatever reads the next sample of the stream keeps the invariant.
  lemma OneMoreKeeps(r: Ring)
    requires Inv(r) && r.consumer.Draining? && |r.consumer.out| < r.consumer.n
    requires |r.delivered| + |r.consumer.out| < |r.accepted|
    ensures Inv(r.(consumer := r.consumer.(out := r.consumer.out + [r.accepted[|r.delivered| + |r.consumer.out|]])))
  {
    hide CapacityOk, History, Slot;
    var d, e := |r.delivered|, |r.delivered| + |r.consumer.out|;
    assert r.accepted[d..e + 1] == r.accepted[d..e] + [r.accepted[e]];
  }

  /** The next sample of a drain in progress, as a step. */
  lemma LoadSlotStep(r: Ring)
    requires Inv(r) && r.consumer.Draining? && |r.consumer.out| < r.consumer.n
    ensures var e := |r.delivered| + |r.consumer.out|;
      e < |r.accepted| && Enabled(r, LoadSlot(Some(e)))
    ensures var e := |r.delivered| + |r.consumer.out|;
      && Inv(Apply(r, LoadSlot(Some(e))))
      && Apply(r, LoadSlot(Some(e))) == r.(consumer := r.consumer.(out := r.consumer.out + [r.accepted[e]]))
  {
    var e := |r.delivered| + |r.consumer.out|;
    LoadReturnsTheSample(r, Some(e));
    LoadSlotKeeps(r, Some(e));
  }

  lemma LoadWriteKeeps(r: Ring, p: nat)
    requires Inv(r) && Enabled(r, LoadWrite(p))
    ensures Inv(Apply(r, LoadWrite(p)))
  {
    CapacityBounds(r.capacity);
    assert r.writeLog[r.seenWrite].count <= r.writeLog[p].count <= r.writeLog[|r.writeLog| - 1].count;
    WrapSub(r.writeLog[p].count, |r.delivered|);
  }

  lemma ReleaseReadKeeps(r: Ring)
    requires Inv(r) && Enabled(r, ReleaseRead)
    ensures Inv(Apply(r, ReleaseRead))
    ensures |r.delivered| + r.consumer.n <= |r.accepted|
    ensures Apply(r, ReleaseRead).delivered == r.accepted[..|r.delivered| + r.consumer.n]
  {
    var r' := Apply(r, ReleaseRead);
    WrapAdd(|r.delivered|, r.consumer.n);
    assert r.writeLog[r.seenWrite].count <= r.writeLog[|r.writeLog| - 1].count;
    assert r'.delivered == r.accepted[..|r'.delivered|];
  }

  lemma PushKeeps(r: Ring, samples: seq<Sample>)
    requires Inv(r) && r.producer.Ready?
    ensures Inv(Apply(r, Push(samples)))
  {
    hide CapacityOk, History;
  }

  lemma AddDroppedKeeps(r: Ring)
    requires Inv(r) && r.producer.Counting?
    ensures Inv(Apply(r, AddDropped))
  {
    hide CapacityOk, History;
  }

  lemma PopKeeps(r: Ring, want: nat)
    requires Inv(r) && r.consumer.Waiting?
    ensures Inv(Apply(r, Pop(want)))
  {
    hide CapacityOk, History;
  }

  lemma AddStarvedKeeps(r: Ring)
    requires Inv(r) && r.consumer.Tallying?
    ensures Inv(Apply(r, AddStarved))
    ensures Apply(r, AddStarved) == r.(starved := r.starved + r.consumer.short, consumer := Waiting)
  {
    hide CapacityOk, History;
  }

  lemma StepKeeps(r: Ring, a: Action)
    requires Inv(r) && Enabled(r, a)
    ensures Inv(Apply(r, a))
  {
    match a
    case Push(samples) => PushKeeps(r, samples);
    case LoadRead(p) => LoadReadKeeps(r, p);
    case StoreSlot => StoreSlotKeeps(r);
    case ReleaseWrite => ReleaseWriteKeeps(r);
    case AddDropped => AddDroppedKeeps(r);
    case Pop(want) => PopKeeps(r, want);
    case LoadWrite(p) => LoadWriteKeeps(r, p);
    case LoadSlot(from) => LoadSlotKeeps(r, from);
    case ReleaseRead => ReleaseReadKeeps(r);
    case AddStarved => AddStarvedKeeps(r);
  }

  // ---------------------------------------------------------------------------
  // Whole runs
  // ---------------------------------------------------------------------------

  /** A run: any interleaving of the two threads' accesses from an empty ring. */
  ghost predicate IsRun(states: seq<Ring>, actions: seq<Action>, capacity: nat) {
    && |states| == |actions| + 1
    && states[0] == Empty(capacity)
    && forall i :: 0 <= i < |actions| ==>
         && Shape(states[i]) && Enabled(states[i], actions[i])
         && states[i + 1] == Apply(states[i], actions[i])
  }

  lemma {:induction false} RunKeeps(states: seq<Ring>, actions: seq<Action>, capacity: nat, k: nat)
    requires CapacityOk(capacity) && IsRun(states, actions, capacity) && k < |states|
    ensures Inv(states[k])
  {
    if k == 0 {
      EmptyRing(capacity);
    } else {
      RunKeeps(states, actions, capacity, k - 1);
      StepKeeps(states[k - 1], actions[k - 1]);
    }
  }

  /** Nothing is lost, duplicated, torn or reordered: at every instant of every run
      what the consumer has been given is a prefix of what the producer was told it
      accepted, the fill never leaves the ring, and the counters account for every
      sample offered and every sample requested. */
  lemma NothingLostOrReordered(states: seq<Ring>, actions: seq<Action>, request: nat, k: nat)
    requires request <= USIZE / 2
    requires IsRun(states, actions, SlotsFor(request)) && k < |states|
    ensures var r := states[k];
      && r.delivered <= r.accepted
      && 0 <= Fill(r) <= r.capacity
      && r.offered == |r.accepted| + r.dropped + InFlightOffer(r.producer)
      && r.requested == |r.delivered| + r.starved + InFlightRequest(r.consumer)
  {
    NewCapacity(request);
    RunKeeps(states, actions, SlotsFor(request), k);
  }

  /** The samples a `pop_slice` in progress has already copied out continue the
      stream exactly, before it has released anything. */
  lemma PartialDrainIsInOrder(states: seq<Ring>, actions: seq<Action>, request: nat, k: nat)
    requires request <= USIZE / 2
    requires IsRun(states, actions, SlotsFor(request)) && k < |states|
    requires states[k].consumer.Draining?
    ensures states[k].delivered + states[k].consumer.out <= states[k].accepted
  {
    NewCapacity(request);
    RunKeeps(states, actions, SlotsFor(request), k);
  }

  /** The producer never stores to a slot whose sample is still unread. */
  lemma StoreHitsNoUnreadSlot(r: Ring, unread: nat)
    requires Inv(r) && Enabled(r, StoreSlot)
    requires |r.delivered| <= unread < |r.stores|
    ensures Slot(r.producer.write, r.producer.stored, r.capacity) != r.stores[unread].slot
  {
    SlotIsPosition(|r.accepted|, r.producer.stored, r.capacity);
    assert r.readLog[r.seenRead].count <= r.readLog[|r.readLog| - 1].count;
    if |r.stores| % r.capacity == unread % r.capacity {
      CongruentWithin(|r.stores|, unread, r.capacity);
    }
  }

  // ---------------------------------------------------------------------------
  // `len` from either endpoint
  // ---------------------------------------------------------------------------

  /** The producer's `len` never understates the fill nor exceeds the capacity, and
      is the fill of this instant exactly when its load of `read` was current. */
  lemma ProducerLen(r: Ring, p: nat)
    requires Inv(r) && r.seenRead <= p < |r.readLog|
    ensures var n := WrappingSub(LastIndex(r.writeLog), r.readLog[p].index);
      && Fill(r) <= n <= r.capacity
      && (n == Fill(r) <==> r.readLog[p].count == |r.delivered|)
  {
    CapacityBounds(r.capacity);
    assert r.readLog[r.seenRead].count <= r.readLog[p].count <= r.readLog[|r.readLog| - 1].count;
    WrapSub(|r.accepted|, r.readLog[p].count);
  }

  /** The consumer's `len` never overstates the fill. */
  lemma ConsumerLen(r: Ring, p: nat)
    requires Inv(r) && r.seenWrite <= p < |r.writeLog|
    ensures var n := WrappingSub(r.writeLog[p].index, LastIndex(r.readLog));
      && n <= Fill(r)
      && (n == Fill(r) <==> r.writeLog[p].count == |r.accepted|)
  {
    CapacityBounds(r.capacity);
    assert r.writeLog[r.seenWrite].count <= r.writeLog[p].count <= r.writeLog[|r.writeLog| - 1].count;
    WrapSub(r.writeLog[p].count, |r.delivered|);
  }

  // ---------------------------------------------------------------------------
  // An uninterrupted call
  // ---------------------------------------------------------------------------

  /** `stores` and the release of one `push_slice` with nothing in between. */
  ghost function FinishPush(r: Ring): Ring
    requires Shape(r) && r.producer.Filling?
    decreases r.producer.n - r.producer.stored
  {
    if r.producer.stored < r.producer.n then FinishPush(Apply(r, StoreSlot))
    else Apply(Apply(r, ReleaseWrite), AddDropped)
  }

  lemma {:induction false} FinishPushAppends(r: Ring)
    requires Inv(r) && r.producer.Filling?
    ensures var r' := FinishPush(r);
      && Inv(r')
      && r'.producer == Ready && r'.consumer == r.consumer
      && r'.accepted == r.accepted + r.producer.samples[..r.producer.n]
      && r'.delivered == r.delivered
      && r'.dropped == r.dropped + (|r.producer.samples| - r.producer.n)
    decreases r.producer.n - r.producer.stored
  {
    if r.producer.stored < r.producer.n {
      StoreSlotKeeps(r);
      FinishPushAppends(Apply(r, StoreSlot));
    } else {
      ReleaseWriteKeeps(r);
      AddDroppedKeeps(Apply(r, ReleaseWrite));
    }
  }

  /** The newest published `read`, loaded by a `push_slice` that just began. */
  lemma BeginPush(r: Ring, samples: seq<Sample>)
    requires Inv(r) && r.producer.Ready?
    ensures var called := Apply(r, Push(samples));
      && Inv(called) && Enabled(called, LoadRead(|r.readLog| - 1))
      && var filling := Apply(called, LoadRead(|r.readLog| - 1));
      && Inv(filling) && filling.producer.Filling?
      && filling.producer.samples == samples
      && filling.producer.n == Min(|samples|, r.capacity - Fill(r))
      && filling.accepted == r.accepted && filling.delivered == r.delivered
      && filling.dropped == r.dropped
  {
    PushKeeps(r, samples);
    LoadReadKeeps(Apply(r, Push(samples)), |r.readLog| - 1);
  }

  /** A whole `push_slice` that is not interleaved with the consumer takes exactly
      what fits: min(offered, capacity - fill) samples, oldest first, and counts the
      rest as dropped. */
  lemma UninterruptedPush(r: Ring, samples: seq<Sample>)
    requires Inv(r) && r.producer.Ready?
    ensures exists r' :: Pushed(r, samples, r')
  {
    BeginPush(r, samples);
    var filling := Apply(Apply(r, Push(samples)), LoadRead(|r.readLog| - 1));
    FinishPushAppends(filling);
    assert Pushed(r, samples, FinishPush(filling));
  }

  /** `r'` is reached from `r` by running one push to its end, with that outcome. */
  ghost predicate Pushed(r: Ring, samples: seq<Sample>, r': Ring)
    requires Inv(r) && r.producer.Ready?
  {
    BeginPush(r, samples);
    var n := Min(|samples|, r.capacity - Fill(r));
    && r' == FinishPush(Apply(Apply(r, Push(samples)), LoadRead(|r.readLog| - 1)))
    && Inv(r') && r'.producer == Ready
    && r'.accepted == r.accepted + samples[..n]
    && r'.delivered == r.delivered
    && r'.dropped == r.dropped + (|samples| - n)
  }

  ghost function FinishPop(r: Ring): Ring
    requires Inv(r) && r.consumer.Draining?
    decreases r.consumer.n - |r.consumer.out|
  {
    if |r.consumer.out| < r.consumer.n then
      LoadSlotStep(r);
      FinishPop(Apply(r, LoadSlot(Some(|r.delivered| + |r.consumer.out|))))
    else Apply(Apply(r, ReleaseRead), AddStarved)
  }

  lemma FinishPopDone(r: Ring)
    requires Inv(r) && r.consumer.Draining? && |r.consumer.out| == r.consumer.n
    ensures |r.delivered| + r.consumer.n <= |r.accepted| && r.consumer.n <= r.consumer.want
    ensures Popped(r, FinishPop(r))
  {
    ReleaseReadKeeps(r);
    AddStarvedKeeps(Apply(r, ReleaseRead));
  }

  lemma FinishPopUnfolds(r: Ring) returns (r': Ring)
    requires Inv(r) && r.consumer.Draining? && |r.consumer.out| < r.consumer.n
    ensures |r.delivered| + |r.consumer.out| < |r.accepted|
    ensures r' == r.(consumer := r.consumer.(out :=
              r.consumer.out + [r.accepted[|r.delivered| + |r.consumer.out|]]))
    ensures Inv(r') && FinishPop(r) == FinishPop(r')
  {
    LoadSlotStep(r);
    r' := Apply(r, LoadSlot(Some(|r.delivered| + |r.consumer.out|)));
  }

  lemma {:induction false} FinishPopTakes(r: Ring)
    requires Inv(r) && r.consumer.Draining?
    ensures |r.delivered| + r.consumer.n <= |r.accepted| && r.consumer.n <= r.consumer.want
    ensures Popped(r, FinishPop(r))
    decreases r.consumer.n - |r.consumer.out|
  {
    if |r.consumer.out| < r.consumer.n {
      var r' := FinishPopUnfolds(r);
      FinishPopTakes(r');
    } else {
      FinishPopDone(r);
    }
  }

  ghost predicate Popped(r: Ring, r': Ring)
    requires r.consumer.Draining?
  {
    && Inv(r')
    && r'.consumer == Waiting
    && r'.accepted == r.accepted
    && |r.delivered| + r.consumer.n <= |r.accepted|
    && r'.delivered == r.accepted[..|r.delivered| + r.consumer.n]
    && r'.starved == r.starved + (r.consumer.want - r.consumer.n)
  }

  lemma BeginPop(r: Ring, want: nat)
    requires Inv(r) && r.consumer.Waiting?
    ensures var asked := Apply(r, Pop(want));
      && Inv(asked) && Enabled(asked, LoadWrite(|r.writeLog| - 1))
      && var draining := Apply(asked, LoadWrite(|r.writeLog| - 1));
      && Inv(draining) && draining.consumer.Draining?
      && draining.consumer.want == want
      && draining.consumer.n == Min(want, Fill(r))
      && draining.accepted == r.accepted && draining.delivered == r.delivered
      && draining.starved == r.starved
  {
    hide StoresOk, ProducerOk, CapacityOk;
    PopKeeps(r, want);
    CapacityBounds(r.capacity);
    WrapSub(|r.accepted|, |r.delivered|);
    LoadWriteKeeps(Apply(r, Pop(want)), |r.writeLog| - 1);
  }

  /** A whole `pop_slice` that is not interleaved with the producer delivers exactly
      min(want, fill) samples, oldest first, and counts the rest as starved. */
  lemma UninterruptedPop(r: Ring, want: nat)
    requires Inv(r) && r.consumer.Waiting?
    ensures exists r' :: PoppedWhole(r, want, r')
  {
    BeginPop(r, want);
    var draining := Apply(Apply(r, Pop(want)), LoadWrite(|r.writeLog| - 1));
    FinishPopTakes(draining);
    var d, n := |r.delivered|, Min(want, Fill(r));
    PrefixExtends(r.accepted, r.delivered, n);
    assert PoppedWhole(r, want, FinishPop(draining));
  }

  lemma PrefixExtends(all: seq<Sample>, front: seq<Sample>, n: nat)
    requires front <= all && |front| + n <= |all|
    ensures all[..|front| + n] == front + all[|front|..][..n]
  {
  }

  ghost predicate PoppedWhole(r: Ring, want: nat, r': Ring)
    requires Inv(r) && r.consumer.Waiting?
  {
    BeginPop(r, want);
    var n := Min(want, Fill(r));
    && r' == FinishPop(Apply(Apply(r, Pop(want)), LoadWrite(|r.writeLog| - 1)))
    && Inv(r') && r'.consumer == Waiting
    && r'.delivered == r.delivered + r.accepted[|r.delivered|..][..n]
    && r'.starved == r.starved + (want - n)
  }
}
