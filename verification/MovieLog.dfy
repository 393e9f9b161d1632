/** A take as a value: the frame-indexed log of everything the machine was fed, and what
    replaying it does. */
module MovieLog {
  import opened Basics
  import opened MachineModel

  datatype Record =
    | ButtonRecord(frame: nat, ctl: u16, pressed: bool)
    | AbsoluteRecord(frame: nat, ctl: u16, bits: u32)
    | RelativeRecord(frame: nat, ctl: u16, bits: u32)
    | ReleaseAllRecord(frame: nat)
    | DipRecord(frame: nat, bank: byte, value: bv8)
    | MarkerRecord(frame: nat, mark: string)

  datatype Header = Header(controls: seq<string>, dip: seq<bv8>, nvram: Option<seq<bv8>>, frames: nat)

  datatype Movie = Movie(header: Header, records: seq<Record>)

  // What the recorder has so far. `unmapped` counts events no record could be made of.
  datatype Log = Log(records: seq<Record>, frame: nat, unmapped: nat)

  // ---------------------------------------------------------------------------
  // Events to records and back
  // ---------------------------------------------------------------------------

  // The two bit patterns a float comparison with zero accepts.
  predicate IsZero(bits: u32) {
    bits == 0 || bits == 0x8000_0000
  }

  predicate IsNoOp(e: Event) {
    e.Relative? && IsZero(e.bits)
  }

  function FirstWithId(controls: seq<Control>, id: u16): (r: Option<nat>)
    ensures r == None <==> forall c :: c in controls ==> c.id != id
    ensures r.Some? ==> r.value < |controls| && controls[r.value].id == id
    ensures r.Some? ==> forall j :: 0 <= j < r.value ==> controls[j].id != id
  {
    if controls == [] then None
    else if controls[0].id == id then Some(0)
    else match FirstWithId(controls[1..], id)
      case None => None
      case Some(i) => Some(i + 1)
  }

  // The recorder's index table: positions narrowed to sixteen bits.
  function IndexOf(controls: seq<Control>, id: u16): Option<u16> {
    match FirstWithId(controls, id)
    case None => None
    case Some(i) => Some(i % 0x1_0000)
  }

  function RecordOf(frame: nat, ctl: u16, e: Event): Record {
    match e
    case Button(_, pressed) => ButtonRecord(frame, ctl, pressed)
    case Absolute(_, bits) => AbsoluteRecord(frame, ctl, bits)
    case Relative(_, bits) => RelativeRecord(frame, ctl, bits)
  }

  function Noted(log: Log, controls: seq<Control>, e: Event): Log {
    if IsNoOp(e) then log else
      match IndexOf(controls, e.id)
      case None => log.(unmapped := log.unmapped + 1)
      case Some(ctl) => log.(records := log.records + [RecordOf(log.frame, ctl, e)])
  }

  function FirstNamed(controls: seq<Control>, name: string): (r: Option<u16>)
    ensures r == None <==> forall c :: c in controls ==> c.name != name
  {
    if controls == [] then None
    else if controls[0].name == name then Some(controls[0].id)
    else FirstNamed(controls[1..], name)
  }

  function Names(controls: seq<Control>): (names: seq<string>)
    ensures |names| == |controls|
    ensures forall i :: 0 <= i < |names| ==> names[i] == controls[i].name
  {
    seq(|controls|, i requires 0 <= i < |controls| => controls[i].name)
  }

  // Every recorded name resolved to this machine's id, or the first that does not.
  function Bound(names: seq<string>, controls: seq<Control>): (r: Option<seq<u16>>)
    ensures r.Some? ==> |r.value| == |names|
    ensures r.Some? ==> forall i :: 0 <= i < |names| ==> FirstNamed(controls, names[i]) == Some(r.value[i])
    ensures r == None <==> exists i :: 0 <= i < |names| && FirstNamed(controls, names[i]) == None
  {
    if names == [] then Some([]) else
      match FirstNamed(controls, names[0])
      case None => None
      case Some(id) =>
        match Bound(names[1..], controls)
        case None =>
          ghost var i :| 0 <= i < |names[1..]| && FirstNamed(controls, names[1..][i]) == None;
          assert names[i + 1] == names[1..][i];
          None
        case Some(ids) => Some([id] + ids)
  }

  function EventOf(r: Record, ids: seq<u16>): Option<Event> {
    match r
    case ButtonRecord(_, ctl, pressed) => if ctl < |ids| then Some(Button(ids[ctl], pressed)) else None
    case AbsoluteRecord(_, ctl, bits) => if ctl < |ids| then Some(Absolute(ids[ctl], bits)) else None
    case RelativeRecord(_, ctl, bits) => if ctl < |ids| then Some(Relative(ids[ctl], bits)) else None
    case _ => None
  }

  ghost predicate UniqueIds(controls: seq<Control>) {
    forall i, j :: 0 <= i < j < |controls| ==> controls[i].id != controls[j].id
  }

  ghost predicate UniqueNames(controls: seq<Control>) {
    forall i, j :: 0 <= i < j < |controls| ==> controls[i].name != controls[j].name
  }

  /** A movie always binds to the table it was recorded against. */
  lemma BindsToItsOwnTable(controls: seq<Control>)
    ensures Bound(Names(controls), controls).Some?
  {
    forall i | 0 <= i < |controls|
      ensures FirstNamed(controls, Names(controls)[i]) != None
    {
      assert controls[i] in controls;
    }
  }

  lemma {:induction false} FirstNamedAt(controls: seq<Control>, i: nat)
    requires i < |controls|
    requires forall j :: 0 <= j < i ==> controls[j].name != controls[i].name
    ensures FirstNamed(controls, controls[i].name) == Some(controls[i].id)
  {
    if i > 0 {
      FirstNamedAt(controls[1..], i - 1);
    }
  }

  // What a table event comes back as.
  ghost predicate ComesBack(controls: seq<Control>, frame: nat, e: Event) {
    var ids := Bound(Names(controls), controls);
    ids.Some? && IndexOf(controls, e.id).Some?
    && EventOf(RecordOf(frame, IndexOf(controls, e.id).value, e), ids.value) == Some(e)
  }

  /** With every id and every name in the table once, every event a control can raise is
      replayed exactly, float bits and all. */
  lemma EventsComeBack(controls: seq<Control>, frame: nat, e: Event)
    requires UniqueIds(controls) && UniqueNames(controls) && IndexOf(controls, e.id).Some?
    ensures ComesBack(controls, frame, e)
  {
    hide UniqueIds, UniqueNames, FirstWithId, FirstNamed, Bound, IndexOf;
    var i := IndexIsExact(controls, e.id);
    OwnName(controls, i);
    ResolvesTo(controls, i);
  }

  lemma IndexIsExact(controls: seq<Control>, id: u16) returns (i: nat)
    requires UniqueIds(controls) && IndexOf(controls, id).Some?
    ensures i < |controls| && controls[i].id == id && IndexOf(controls, id) == Some(i)
  {
    hide FirstWithId, UniqueIds;
    IdsFitSixteenBits(controls);
    i := FirstWithId(controls, id).value;
  }

  lemma OwnName(controls: seq<Control>, i: nat)
    requires UniqueNames(controls) && i < |controls|
    ensures FirstNamed(controls, controls[i].name) == Some(controls[i].id)
  {
    FirstNamedAt(controls, i);
  }

  // A name found first at its own control resolves to that control's id.
  lemma ResolvesTo(controls: seq<Control>, i: nat)
    requires i < |controls|
    ensures var ids := Bound(Names(controls), controls);
      ids.Some? && |ids.value| == |controls| && FirstNamed(controls, controls[i].name) == Some(ids.value[i])
  {
    hide Bound, FirstNamed;
    BindsToItsOwnTable(controls);
    assert Names(controls)[i] == controls[i].name;
  }

  // Unique sixteen-bit ids cannot outnumber the sixteen-bit indices.
  lemma IdsFitSixteenBits(controls: seq<Control>)
    requires UniqueIds(controls)
    ensures |controls| <= 0x1_0000
  {
    IdsFit(controls, 0x1_0000);
  }

  lemma WithoutOne(controls: seq<Control>, i: nat)
    requires UniqueIds(controls) && i < |controls|
    ensures var rest := controls[..i] + controls[i + 1..];
      UniqueIds(rest) && |rest| == |controls| - 1
      && forall c :: c in rest ==> c in controls && c.id != controls[i].id
  {
  }

  lemma {:induction false} IdsFit(controls: seq<Control>, bound: nat)
    requires bound <= 0x1_0000 && UniqueIds(controls) && forall c :: c in controls ==> c.id < bound
    ensures |controls| <= bound
    decreases bound
  {
    hide FirstWithId, UniqueIds;
    if controls != [] {
      assert controls[0] in controls;
      match FirstWithId(controls, bound - 1)
      case None =>
        IdsFit(controls, bound - 1);
      case Some(i) =>
        WithoutOne(controls, i);
        IdsFit(controls[..i] + controls[i + 1..], bound - 1);
    }
  }

  /** Given distinct ids, it is exactly the distinct names that make every event come
      back: two controls with one name send the second one's events to the first. */
  lemma NamesMustBeUnique(controls: seq<Control>, frame: nat)
    requires UniqueIds(controls)
    ensures UniqueNames(controls)
        <==> forall e: Event :: IndexOf(controls, e.id).Some? ==> ComesBack(controls, frame, e)
  {
    if UniqueNames(controls) {
      forall e: Event | IndexOf(controls, e.id).Some?
        ensures ComesBack(controls, frame, e)
      {
        EventsComeBack(controls, frame, e);
      }
    } else {
      var i, j := FirstTwin(controls);
      TwinIsLost(controls, frame, i, j);
    }
  }

  lemma TwinIndex(controls: seq<Control>, i: nat, j: nat)
    requires UniqueIds(controls) && i < j < |controls|
    ensures IndexOf(controls, controls[j].id) == Some(j) && controls[i].id != controls[j].id
  {
    assert controls[j] in controls;
    IdsFitSixteenBits(controls);
  }

  lemma TwinIsLost(controls: seq<Control>, frame: nat, i: nat, j: nat)
    requires UniqueIds(controls) && i < j < |controls| && controls[i].name == controls[j].name
    requires forall k :: 0 <= k < i ==> controls[k].name != controls[i].name
    ensures var e := Button(controls[j].id, true);
      IndexOf(controls, e.id).Some? && !ComesBack(controls, frame, e)
  {
    hide FirstWithId, FirstNamed, Bound, UniqueIds, IndexOf, Names;
    TwinIndex(controls, i, j);
    FirstNamedAt(controls, i);
    ResolvesTo(controls, j);
  }

  lemma FirstTwin(controls: seq<Control>) returns (i: nat, j: nat)
    requires !UniqueNames(controls)
    ensures i < j < |controls| && controls[i].name == controls[j].name
    ensures forall k :: 0 <= k < i ==> controls[k].name != controls[i].name
  {
    i, j :| 0 <= i < j < |controls| && controls[i].name == controls[j].name;
    var k := 0;
    while k < i && controls[k].name != controls[i].name
      invariant k <= i
      invariant forall m :: 0 <= m < k ==> controls[m].name != controls[i].name
    {
      k := k + 1;
    }
    i := k;
  }

  // ---------------------------------------------------------------------------
  // A readable movie
  // ---------------------------------------------------------------------------

  ghost predicate Ascending(records: seq<Record>) {
    forall i, j :: 0 <= i < j < |records| ==> records[i].frame <= records[j].frame
  }

  predicate Addresses(r: Record) {
    r.ButtonRecord? || r.AbsoluteRecord? || r.RelativeRecord?
  }

  /** What the reader checks once, up front: records in frame order, inside the declared
      span, and addressing controls the header lists. */
  ghost predicate Readable(movie: Movie) {
    && Ascending(movie.records)
    && (movie.header.frames != 0 ==> forall r :: r in movie.records ==> r.frame < movie.header.frames)
    && forall r :: r in movie.records ==> Addresses(r) ==> r.ctl < |movie.header.controls|
  }

  /** What the reader's checks are for: in a movie that passes them every button, position and
      motion record stands for an event of the table it is bound to, none is filed past the
      end, and none before the one ahead of it. */
  lemma ReadableResolves(movie: Movie, ids: seq<u16>, i: nat)
    requires Readable(movie) && |ids| == |movie.header.controls| && i < |movie.records|
    ensures var r := movie.records[i];
      && (r.ButtonRecord? || r.AbsoluteRecord? || r.RelativeRecord? <==> EventOf(r, ids).Some?)
      && (movie.header.frames > 0 ==> r.frame < movie.header.frames)
      && (i > 0 ==> movie.records[i - 1].frame <= r.frame)
  {
    assert movie.records[i] in movie.records;
  }

  function Max(a: nat, b: nat): nat {
    if a < b then b else a
  }

  // One past the last recorded frame.
  function Span(records: seq<Record>): (n: nat)
    ensures forall r :: r in records ==> r.frame < n
    ensures n == 0 || exists r :: r in records && n == r.frame + 1
  {
    if records == [] then 0
    else
      var last := records[|records| - 1];
      var before := Span(records[..|records| - 1]);
      assert records == records[..|records| - 1] + [last];
      Max(before, last.frame + 1)
  }

  // ---------------------------------------------------------------------------
  // Replay
  // ---------------------------------------------------------------------------

  function FrameRecords(records: seq<Record>, frame: nat): seq<Record> {
    if records == [] then [] else
      var last := records[|records| - 1];
      FrameRecords(records[..|records| - 1], frame) + if last.frame == frame then [last] else []
  }

  function Apply<S(!new)>(board: Board<S>, ids: seq<u16>, r: Record, s: S): S {
    match r
    case ReleaseAllRecord(_) => board.releaseAll(s)
    case DipRecord(_, bank, value) => board.setDip(s, bank, value)
    case MarkerRecord(_, _) => s
    case _ =>
      match EventOf(r, ids)
      case Some(e) => board.handle(s, e)
      case None => s
  }

  function Delivered<S(!new)>(board: Board<S>, ids: seq<u16>, records: seq<Record>, s: S): S {
    if records == [] then s
    else Apply(board, ids, records[|records| - 1], Delivered(board, ids, records[..|records| - 1], s))
  }

  /** The machine after replaying `k` frames: each frame's records, then the frame. */
  function Replayed<S(!new)>(board: Board<S>, ids: seq<u16>, records: seq<Record>, start: S, k: nat): S {
    if k == 0 then start
    else board.runFrame(Delivered(board, ids, FrameRecords(records, k - 1),
                                  Replayed(board, ids, records, start, k - 1)))
  }

  lemma FrameRecordsGrow(records: seq<Record>, r: Record, frame: nat)
    ensures FrameRecords(records + [r], frame)
         == FrameRecords(records, frame) + if r.frame == frame then [r] else []
  {
    assert (records + [r])[..|records|] == records;
  }

  lemma DeliveredGrow<S(!new)>(board: Board<S>, ids: seq<u16>, records: seq<Record>, r: Record, s: S)
    ensures Delivered(board, ids, records + [r], s) == Apply(board, ids, r, Delivered(board, ids, records, s))
  {
    assert (records + [r])[..|records|] == records;
  }

  lemma {:induction false} LaterFramesAreEmpty(records: seq<Record>, frame: nat)
    requires forall r :: r in records ==> r.frame < frame
    ensures FrameRecords(records, frame) == []
  {
    if records != [] {
      LaterFramesAreEmpty(records[..|records| - 1], frame);
    }
  }

  // A record of a later frame does not change the frames before it.
  lemma {:induction false} ReplayedGrow<S(!new)>(board: Board<S>, ids: seq<u16>, records: seq<Record>,
                                                 r: Record, start: S, k: nat)
    requires k <= r.frame
    ensures Replayed(board, ids, records + [r], start, k) == Replayed(board, ids, records, start, k)
    decreases k
  {
    if k > 0 {
      ReplayedGrow(board, ids, records, r, start, k - 1);
      FrameRecordsGrow(records, r, k - 1);
      assert FrameRecords(records, k - 1) + [] == FrameRecords(records, k - 1);
    }
  }

  /** Past its last record a replay runs the machine on with no further input. */
  lemma {:induction false} RunsOnWithoutInput<S(!new)>(board: Board<S>, ids: seq<u16>, records: seq<Record>,
                                                       start: S, k: nat, more: nat)
    requires forall r :: r in records ==> r.frame < k
    ensures Replayed(board, ids, records, start, k + more)
         == Frames(board, Replayed(board, ids, records, start, k), more)
    decreases more
  {
    if more > 0 {
      RunsOnWithoutInput(board, ids, records, start, k, more - 1);
      LaterFramesAreEmpty(records, k + more - 1);
    }
  }

  function Frames<S(!new)>(board: Board<S>, s: S, n: nat): S {
    if n == 0 then s else board.runFrame(Frames(board, s, n - 1))
  }

  // ---------------------------------------------------------------------------
  // A take in progress
  // ---------------------------------------------------------------------------

  function Ids<S(!new)>(board: Board<S>): seq<u16> {
    match Bound(Names(board.controls), board.controls)
    case Some(ids) => ids
    case None => []
  }

  /** The log so far reproduces the session so far: `history[k]` is the machine after `k`
      whole frames, `s` the machine now. */
  ghost predicate Reproduces<S(!new)>(board: Board<S>, log: Log, history: seq<S>, s: S) {
    && |history| == log.frame + 1
    && (forall k :: 0 <= k <= log.frame ==>
          history[k] == Replayed(board, Ids(board), log.records, history[0], k))
    && s == Delivered(board, Ids(board), FrameRecords(log.records, log.frame), history[log.frame])
  }

  ghost predicate InOrder(log: Log) {
    Ascending(log.records) && forall r :: r in log.records ==> r.frame <= log.frame
  }

  // Records address controls of the table.
  ghost predicate Addressed(log: Log, controls: seq<Control>) {
    forall r :: r in log.records ==> Addresses(r) ==> r.ctl < |controls|
  }

  /** The invariant of a take. It promises the replay if `claim` holds. */
  ghost predicate TakeOkIf<S(!new)>(board: Board<S>, log: Log, history: seq<S>, s: S, claim: bool) {
    && InOrder(log) && Addressed(log, board.controls) && |history| == log.frame + 1
    && (claim ==> Reproduces(board, log, history, s))
  }

  /** And that is while nothing went unmapped. */
  ghost predicate TakeOk<S(!new)>(board: Board<S>, log: Log, history: seq<S>, s: S) {
    TakeOkIf(board, log, history, s, log.unmapped == 0)
  }

  // ---------------------------------------------------------------------------
  // What a take asks of the board
  // ---------------------------------------------------------------------------

  // A relative motion of nothing, of either sign.
  ghost predicate IsZeroDelta(e: Event) {
    exists id: u16 :: e == Relative(id, 0) || e == Relative(id, 0x8000_0000)
  }

  ghost predicate InTable(controls: seq<Control>, id: u16) {
    exists c :: c in controls && c.id == id
  }

  lemma SortedOut(controls: seq<Control>, e: Event)
    ensures IsNoOp(e) <==> IsZeroDelta(e)
    ensures IndexOf(controls, e.id).Some? <==> InTable(controls, e.id)
  {
    if IsNoOp(e) {
      assert e == Relative(e.id, 0) || e == Relative(e.id, 0x8000_0000);
    }
  }

  // The record says what the event did, in this frame.
  ghost predicate Carries(r: Record, frame: nat, e: Event) {
    && r.frame == frame
    && match e
       case Button(_, pressed) => r.ButtonRecord? && r.pressed == pressed
       case Absolute(_, bits) => r.AbsoluteRecord? && r.bits == bits
       case Relative(_, bits) => r.RelativeRecord? && r.bits == bits
  }

  /** What the recorder makes of an event: nothing of a zero delta; one record in the frame in
      progress of any other event of the table, with its own payload, whatever that is, against
      a control of its id; and of all else a count. A position of zero is a position. */
  lemma NotedExactly(log: Log, controls: seq<Control>, e: Event)
    ensures IsZeroDelta(e) ==> Noted(log, controls, e) == log
    ensures !IsZeroDelta(e) && !InTable(controls, e.id) ==>
              Noted(log, controls, e) == log.(unmapped := log.unmapped + 1)
    ensures !IsZeroDelta(e) && InTable(controls, e.id) ==>
              exists r :: Noted(log, controls, e) == log.(records := log.records + [r]) && Carries(r, log.frame, e)
                       && (UniqueIds(controls) ==> r.ctl < |controls| && controls[r.ctl].id == e.id)
  {
    SortedOut(controls, e);
    if !IsZeroDelta(e) && InTable(controls, e.id) {
      var r := RecordOf(log.frame, IndexOf(controls, e.id).value, e);
      if UniqueIds(controls) {
        var _ := IndexIsExact(controls, e.id);
      }
      assert Noted(log, controls, e) == log.(records := log.records + [r]);
    }
  }

  // The tee drops zero deltas.
  ghost predicate ZeroDeltasIdle<S(!new)>(board: Board<S>) {
    forall s, id: u16 ::
      board.handle(s, Relative(id, 0)) == s && board.handle(s, Relative(id, 0x8000_0000)) == s
  }

  // A change is recorded as the byte read back, under a one-byte bank number.
  ghost predicate SwitchReadsBack<S(!new)>(board: Board<S>, s: S, bank: nat, option: nat, value: bv8) {
    var u := WithDipOption(board, s, bank, option, value);
    board.setDip(s, bank % 0x100, board.dipValue(u, bank)) == u
  }

  ghost predicate SwitchesReadBack<S(!new)>(board: Board<S>) {
    forall s, bank, option, value :: 0 <= bank < |board.dipMasks| && 0 <= option < |board.dipMasks[bank]| ==>
      SwitchReadsBack(board, s, bank, option, value)
  }

  // The event the record of `e` comes back as.
  function ReplayedAs<S(!new)>(board: Board<S>, e: Event, s: S): S {
    match IndexOf(board.controls, e.id)
    case None => s
    case Some(ctl) => Apply(board, Ids(board), RecordOf(0, ctl, e), s)
  }

  // It does what the event did: the same event, or one the board treats alike.
  ghost predicate EventsReplay<S(!new)>(board: Board<S>) {
    forall s, e :: !IsZeroDelta(e) && InTable(board.controls, e.id) ==> ReplayedAs(board, e, s) == board.handle(s, e)
  }

  // Events no record can be made of.
  ghost predicate UnmappedIdle<S(!new)>(board: Board<S>) {
    forall s, e :: !IsZeroDelta(e) && !InTable(board.controls, e.id) ==> board.handle(s, e) == s
  }

  lemma IdleOn<S(!new)>(board: Board<S>, s: S, e: Event)
    requires ZeroDeltasIdle(board) && IsZeroDelta(e)
    ensures board.handle(s, e) == s
  {
  }

  /** Zero deltas change nothing, every switch change is setting the narrowed bank to the
      byte read back, and the event a record comes back as does what the event did. */
  ghost predicate Faithful<S(!new)>(board: Board<S>) {
    ZeroDeltasIdle(board) && SwitchesReadBack(board) && EventsReplay(board)
  }

  /** What a table and its switches can be checked for: ids and names once each, at most
      256 banks, and setting a bank to what it reads back sets it to what was asked. */
  ghost predicate Lawful<S(!new)>(board: Board<S>) {
    && UniqueIds(board.controls) && UniqueNames(board.controls) && |board.dipMasks| <= 0x100
    && ZeroDeltasIdle(board)
    && forall s, bank, value ::
         board.setDip(s, bank, board.dipValue(board.setDip(s, bank, value), bank)) == board.setDip(s, bank, value)
  }

  /** That suffices. */
  lemma LawfulIsFaithful<S(!new)>(board: Board<S>)
    requires Lawful(board)
    ensures Faithful(board)
  {
    hide UniqueIds, UniqueNames;
    forall s, e | !IsZeroDelta(e) && InTable(board.controls, e.id)
      ensures ReplayedAs(board, e, s) == board.handle(s, e)
    {
      SortedOut(board.controls, e);
      EventsComeBack(board.controls, 0, e);
    }
  }

  // ---------------------------------------------------------------------------
  // Each step keeps the take
  // ---------------------------------------------------------------------------

  lemma TakeStarts<S(!new)>(board: Board<S>, s: S)
    ensures TakeOkIf(board, Log([], 0, 0), [s], s, true)
  {
  }

  // Any record filed against the frame in progress, applied to the machine as well.
  lemma RecordKeeps<S(!new)>(board: Board<S>, log: Log, history: seq<S>, s: S, r: Record, claim: bool)
    requires TakeOkIf(board, log, history, s, claim) && r.frame == log.frame
    requires Addresses(r) ==> r.ctl < |board.controls|
    ensures TakeOkIf(board, log.(records := log.records + [r]), history, Apply(board, Ids(board), r, s), claim)
  {
    if claim {
      forall k | 0 <= k <= log.frame
        ensures history[k] == Replayed(board, Ids(board), log.records + [r], history[0], k)
      {
        ReplayedGrow(board, Ids(board), log.records, r, history[0], k);
      }
      FrameRecordsGrow(log.records, r, log.frame);
      DeliveredGrow(board, Ids(board), FrameRecords(log.records, log.frame), r, history[log.frame]);
    }
  }

  // The frame a record is filed against does not change what it does.
  lemma FrameIsLabel<S(!new)>(board: Board<S>, frame: nat, e: Event, s: S)
    requires IndexOf(board.controls, e.id).Some?
    ensures Apply(board, Ids(board), RecordOf(frame, IndexOf(board.controls, e.id).value, e), s)
         == ReplayedAs(board, e, s)
  {
    hide IndexOf, Ids;
  }

  // The narrowed index of a control is still a place in the table.
  lemma IndexInTable(controls: seq<Control>, id: u16)
    requires IndexOf(controls, id).Some?
    ensures IndexOf(controls, id).value < |controls|
  {
  }

  /** An event through the tee keeps the take; one outside the table only if the board
      ignores it or the promise is off. */
  lemma EventKeepsIf<S(!new)>(board: Board<S>, log: Log, history: seq<S>, s: S, e: Event, claim: bool)
    requires Faithful(board) && TakeOkIf(board, log, history, s, claim)
    requires claim && !IsZeroDelta(e) && !InTable(board.controls, e.id) ==> board.handle(s, e) == s
    ensures TakeOkIf(board, Noted(log, board.controls, e), history, board.handle(s, e), claim)
  {
    hide Reproduces, ReplayedAs, SwitchesReadBack, IndexOf;
    SortedOut(board.controls, e);
    if IsNoOp(e) {
      IdleOn(board, s, e);
    } else if IndexOf(board.controls, e.id).Some? {
      FrameIsLabel(board, log.frame, e, s);
      IndexInTable(board.controls, e.id);
      RecordKeeps(board, log, history, s, RecordOf(log.frame, IndexOf(board.controls, e.id).value, e), claim);
    } else {
      Uncounted(board, log, history, s, log.unmapped + 1, claim);
    }
  }

  // The count of unmapped events is not part of what is replayed.
  lemma Uncounted<S(!new)>(board: Board<S>, log: Log, history: seq<S>, s: S, unmapped: nat, claim: bool)
    requires TakeOkIf(board, log, history, s, claim)
    ensures TakeOkIf(board, log.(unmapped := unmapped), history, s, claim)
    ensures forall u :: TakeOkIf(board, log.(unmapped := unmapped), history, u, false)
  {
    hide Replayed, Delivered, FrameRecords;
  }

  lemma EventKeeps<S(!new)>(board: Board<S>, log: Log, history: seq<S>, s: S, e: Event)
    requires Faithful(board) && TakeOk(board, log, history, s)
    ensures TakeOk(board, Noted(log, board.controls, e), history, board.handle(s, e))
  {
    hide Faithful, TakeOkIf;
    var claim := Noted(log, board.controls, e).unmapped == 0;
    if claim {
      EventKeepsIf(board, log, history, s, e, true);
    } else {
      Unclaimed(board, log, history, s, log.unmapped == 0);
      EventKeepsIf(board, log, history, s, e, false);
    }
  }

  lemma Unclaimed<S(!new)>(board: Board<S>, log: Log, history: seq<S>, s: S, claim: bool)
    requires TakeOkIf(board, log, history, s, claim)
    ensures TakeOkIf(board, log, history, s, false)
  {
  }

  lemma ReleaseKeeps<S(!new)>(board: Board<S>, log: Log, history: seq<S>, s: S, claim: bool)
    requires TakeOkIf(board, log, history, s, claim)
    ensures TakeOkIf(board, log.(records := log.records + [ReleaseAllRecord(log.frame)]), history,
                     board.releaseAll(s), claim)
  {
    RecordKeeps(board, log, history, s, ReleaseAllRecord(log.frame), claim);
  }

  // The bank number is narrowed to a byte.
  function DipNoted(log: Log, bank: nat, value: bv8): Log {
    log.(records := log.records + [DipRecord(log.frame, bank % 0x100, value)])
  }

  /** A switch changed through its option, recorded as the bank's byte read back. */
  lemma DipKeeps<S(!new)>(board: Board<S>, log: Log, history: seq<S>, s: S, bank: nat, option: nat, value: bv8,
                          claim: bool)
    requires Faithful(board) && TakeOkIf(board, log, history, s, claim)
    requires bank < |board.dipMasks| && option < |board.dipMasks[bank]|
    ensures var u := WithDipOption(board, s, bank, option, value);
      TakeOkIf(board, DipNoted(log, bank, board.dipValue(u, bank)), history, u, claim)
  {
    hide WithDipOption, ZeroDeltasIdle, EventsReplay;
    var u := WithDipOption(board, s, bank, option, value);
    assert SwitchReadsBack(board, s, bank, option, value);
    RecordKeeps(board, log, history, s, DipRecord(log.frame, bank % 0x100, board.dipValue(u, bank)), claim);
  }

  // The next frame, in one unfolding.
  lemma ReplayedNext<S(!new)>(board: Board<S>, ids: seq<u16>, records: seq<Record>, start: S, k: nat)
    ensures Replayed(board, ids, records, start, k + 1)
         == board.runFrame(Delivered(board, ids, FrameRecords(records, k), Replayed(board, ids, records, start, k)))
  {
  }

  /** A whole frame closes the frame in progress. */
  lemma FrameKeeps<S(!new)>(board: Board<S>, log: Log, history: seq<S>, s: S, claim: bool)
    requires TakeOkIf(board, log, history, s, claim)
    ensures TakeOkIf(board, log.(frame := log.frame + 1), history + [board.runFrame(s)], board.runFrame(s), claim)
  {
    hide Replayed, FrameRecords, Delivered, Ids;
    if claim {
      LaterFramesAreEmpty(log.records, log.frame + 1);
      ReplayedNext(board, Ids(board), log.records, history[0], log.frame);
      DeliveredNothing(board, Ids(board), board.runFrame(s));
      ReproducesLonger(board, log, history, s);
    }
  }

  lemma ReproducesLonger<S(!new)>(board: Board<S>, log: Log, history: seq<S>, s: S)
    requires Reproduces(board, log, history, s)
    requires FrameRecords(log.records, log.frame + 1) == []
    requires Delivered(board, Ids(board), [], board.runFrame(s)) == board.runFrame(s)
    requires Replayed(board, Ids(board), log.records, history[0], log.frame + 1) == board.runFrame(s)
    ensures Reproduces(board, log.(frame := log.frame + 1), history + [board.runFrame(s)], board.runFrame(s))
  {
    hide Replayed, FrameRecords, Delivered, Ids;
  }

  lemma DeliveredNothing<S(!new)>(board: Board<S>, ids: seq<u16>, s: S)
    ensures Delivered(board, ids, [], s) == s
  {
  }

  // ---------------------------------------------------------------------------
  // Whole takes
  // ---------------------------------------------------------------------------

  /** What can happen to a machine while a take records. Pauses are the absence of
      `FrameRan`. */
  datatype TakeOp =
    | Fed(event: Event)
    | Released
    | Switched(bank: nat, option: nat, value: bv8)
    | FrameRan

  datatype Played<!S(!new)> = Played(log: Log, history: seq<S>, core: S)

  ghost predicate OpOk<S(!new)>(board: Board<S>, op: TakeOp) {
    op.Switched? ==> op.bank < |board.dipMasks| && op.option < |board.dipMasks[op.bank]|
  }

  function PlayedOn<S(!new)>(board: Board<S>, p: Played<S>, op: TakeOp): Played<S> {
    match op
    case Fed(e) => p.(log := Noted(p.log, board.controls, e), core := board.handle(p.core, e))
    case Released =>
      p.(log := p.log.(records := p.log.records + [ReleaseAllRecord(p.log.frame)]), core := board.releaseAll(p.core))
    case Switched(bank, option, value) =>
      var u := WithDipOption(board, p.core, bank, option, value);
      p.(log := DipNoted(p.log, bank, board.dipValue(u, bank)), core := u)
    case FrameRan =>
      var u := board.runFrame(p.core);
      Played(p.log.(frame := p.log.frame + 1), p.history + [u], u)
  }

  function Take<S(!new)>(board: Board<S>, start: S, ops: seq<TakeOp>): Played<S> {
    if ops == [] then Played(Log([], 0, 0), [start], start)
    else PlayedOn(board, Take(board, start, ops[..|ops| - 1]), ops[|ops| - 1])
  }

  // One take keeps its promise.
  ghost predicate TakeReplays<S(!new)>(board: Board<S>, p: Played<S>) {
    Reproduces(board, p.log, p.history, p.core)
  }

  ghost predicate OpsOk<S(!new)>(board: Board<S>, ops: seq<TakeOp>) {
    forall op :: op in ops ==> OpOk(board, op)
  }

  /** On a faithful board every interleaving of input, releases, switch changes, pauses and
      frames keeps the take: with `claim`, replaying the (frame, record) list from the same
      start gives the same machine at every frame boundary and in the frame in progress. */
  lemma {:induction false} TakeKeeps<S(!new)>(board: Board<S>, start: S, ops: seq<TakeOp>, claim: bool)
    requires Faithful(board) && OpsOk(board, ops)
    requires claim ==> UnmappedIdle(board) || Take(board, start, ops).log.unmapped == 0
    ensures var p := Take(board, start, ops);
      TakeOkIf(board, p.log, p.history, p.core, claim) && p.history[0] == start
    decreases |ops|
  {
    hide Faithful, Reproduces, WithDipOption, Noted, Addressed, InOrder, UnmappedIdle, IndexOf;
    if ops == [] {
      TakeStarts(board, start);
      Unclaimed(board, Log([], 0, 0), [start], start, true);
    } else {
      var before, op := ops[..|ops| - 1], ops[|ops| - 1];
      assert op in ops;
      var p := Take(board, start, before);
      UnmappedGrows(board, p, op);
      TakeKeeps(board, start, before, claim);
      match op {
        case Fed(e) =>
          UnmappedFed(board, p, e, claim);
          EventKeepsIf(board, p.log, p.history, p.core, e, claim);
        case Released => ReleaseKeeps(board, p.log, p.history, p.core, claim);
        case Switched(bank, option, value) => DipKeeps(board, p.log, p.history, p.core, bank, option, value, claim);
        case FrameRan => FrameKeeps(board, p.log, p.history, p.core, claim);
      }
    }
  }

  lemma UnmappedGrows<S(!new)>(board: Board<S>, p: Played<S>, op: TakeOp)
    ensures p.log.unmapped <= PlayedOn(board, p, op).log.unmapped
  {
  }

  lemma UnmappedFed<S(!new)>(board: Board<S>, p: Played<S>, e: Event, claim: bool)
    requires claim ==> UnmappedIdle(board) || PlayedOn(board, p, Fed(e)).log.unmapped == 0
    ensures claim && !IsZeroDelta(e) && !InTable(board.controls, e.id) ==> board.handle(p.core, e) == p.core
  {
    SortedOut(board.controls, e);
    hide IndexOf, InTable, IsZeroDelta, IsNoOp;
  }

  // ---------------------------------------------------------------------------
  // Exactly which boards replay their takes
  // ---------------------------------------------------------------------------

  ghost predicate MappedTakesReplay<S(!new)>(board: Board<S>) {
    forall start, ops :: OpsOk(board, ops) && Take(board, start, ops).log.unmapped == 0 ==>
      TakeReplays(board, Take(board, start, ops))
  }

  ghost predicate AllTakesReplay<S(!new)>(board: Board<S>) {
    forall start, ops :: OpsOk(board, ops) ==> TakeReplays(board, Take(board, start, ops))
  }

  // A take of one operation, unfolded.
  lemma OneOp<S(!new)>(board: Board<S>, start: S, op: TakeOp)
    ensures Take(board, start, [op]) == PlayedOn(board, Played(Log([], 0, 0), [start], start), op)
    ensures OpOk(board, op) ==> OpsOk(board, [op])
  {
    assert [op][..0] == [];
  }

  // The state a one-record log replays to.
  lemma OneRecord<S(!new)>(board: Board<S>, log: Log, s: S, r: Record)
    requires log.records == [r] && log.frame == r.frame == 0
    ensures Delivered(board, Ids(board), FrameRecords(log.records, log.frame), s) == Apply(board, Ids(board), r, s)
  {
    assert [r][..0] == [];
    assert FrameRecords([], 0) + [r] == [r];
    assert FrameRecords([r], 0) == [r];
    assert Delivered(board, Ids(board), [r][..0], s) == s;
  }

  /** One event decides whether the take made of it replays: what its record, if any, does
      in its place must be what it did. */
  lemma OneEventTake<S(!new)>(board: Board<S>, start: S, e: Event)
    ensures var p := Take(board, start, [Fed(e)]);
      && (TakeReplays(board, p) <==> (if IsZeroDelta(e) then start else ReplayedAs(board, e, start)) == board.handle(start, e))
      && (p.log.unmapped == 0 <==> IsZeroDelta(e) || InTable(board.controls, e.id))
  {
    SortedOut(board.controls, e);
    OneOp(board, start, Fed(e));
    hide IndexOf, Ids;
    var p := Take(board, start, [Fed(e)]);
    if !IsNoOp(e) && IndexOf(board.controls, e.id).Some? {
      var r := RecordOf(0, IndexOf(board.controls, e.id).value, e);
      assert p.log.records == [] + [r] == [r];
      OneRecord(board, p.log, start, r);
    }
  }

  /** And so for a switch change. */
  lemma OneSwitchTake<S(!new)>(board: Board<S>, start: S, bank: nat, option: nat, value: bv8)
    ensures var p := Take(board, start, [Switched(bank, option, value)]);
      p.log.unmapped == 0 && (TakeReplays(board, p) <==> SwitchReadsBack(board, start, bank, option, value))
  {
    OneOp(board, start, Switched(bank, option, value));
    hide WithDipOption, Ids;
    var p := Take(board, start, [Switched(bank, option, value)]);
    assert p.log.records == [] + [p.log.records[0]] == [p.log.records[0]];
    OneRecord(board, p.log, start, p.log.records[0]);
  }

  lemma MappedTakesNeedFaith<S(!new)>(board: Board<S>)
    requires MappedTakesReplay(board)
    ensures Faithful(board)
  {
    hide Take, TakeReplays, ReplayedAs, SwitchReadsBack, IndexOf;
    forall s, id: u16
      ensures board.handle(s, Relative(id, 0)) == s && board.handle(s, Relative(id, 0x8000_0000)) == s
    {
      OneOp(board, s, Fed(Relative(id, 0)));
      OneEventTake(board, s, Relative(id, 0));
      OneOp(board, s, Fed(Relative(id, 0x8000_0000)));
      OneEventTake(board, s, Relative(id, 0x8000_0000));
    }
    forall s, e | !IsZeroDelta(e) && InTable(board.controls, e.id)
      ensures ReplayedAs(board, e, s) == board.handle(s, e)
    {
      OneOp(board, s, Fed(e));
      OneEventTake(board, s, e);
    }
    forall s, bank, option, value | 0 <= bank < |board.dipMasks| && 0 <= option < |board.dipMasks[bank]|
      ensures SwitchReadsBack(board, s, bank, option, value)
    {
      OneOp(board, s, Switched(bank, option, value));
      OneSwitchTake(board, s, bank, option, value);
    }
  }

  /** A board replays every take in which nothing went unmapped exactly when it is
      faithful. */
  lemma MappedTakesReplayIff<S(!new)>(board: Board<S>)
    ensures MappedTakesReplay(board) <==> Faithful(board)
  {
    hide Faithful, Take, Reproduces;
    if Faithful(board) {
      forall start, ops | OpsOk(board, ops) && Take(board, start, ops).log.unmapped == 0
        ensures TakeReplays(board, Take(board, start, ops))
      {
        TakeKeeps(board, start, ops, true);
      }
    }
    if MappedTakesReplay(board) {
      MappedTakesNeedFaith(board);
    }
  }

  /** And every take whatever exactly when it also ignores what no record can be made of. */
  lemma AllTakesReplayIff<S(!new)>(board: Board<S>)
    ensures AllTakesReplay(board) <==> Faithful(board) && UnmappedIdle(board)
  {
    hide Faithful, Take, Reproduces, IndexOf;
    if Faithful(board) && UnmappedIdle(board) {
      forall start, ops | OpsOk(board, ops)
        ensures TakeReplays(board, Take(board, start, ops))
      {
        TakeKeeps(board, start, ops, true);
      }
    }
    if AllTakesReplay(board) {
      MappedTakesNeedFaith(board);
      forall s, e | !IsZeroDelta(e) && !InTable(board.controls, e.id)
        ensures board.handle(s, e) == s
      {
        OneOp(board, s, Fed(e));
        OneEventTake(board, s, e);
      }
    }
  }
}
