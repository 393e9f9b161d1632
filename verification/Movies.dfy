/** Recording a session as it is played and playing one back. */
module Movies {
  import opened Basics
  import opened MachineModel
  import opened MovieLog

  // ---------------------------------------------------------------------------
  // Recording
  // ---------------------------------------------------------------------------

  /** Accumulates a movie: a passive sink that is told of events and of frame ends. */
  class MovieRecorder {
    const controls: seq<Control>
    const dip: seq<bv8>
    const nvram: Option<seq<bv8>>
    var records: seq<Record>
    var frame: nat
    var unmapped: nat

    ghost function State(): Log
      reads this
    {
      Log(records, frame, unmapped)
    }

    constructor (controls: seq<Control>, dip: seq<bv8>, nvram: Option<seq<bv8>>)
      ensures this.controls == controls && this.dip == dip && this.nvram == nvram
      ensures State() == Log([], 0, 0)
    {
      this.controls, this.dip, this.nvram := controls, dip, nvram;
      records, frame, unmapped := [], 0, 0;
    }

    method PushEvent(e: Event)
      modifies this
      ensures State() == Noted(old(State()), controls, e)
    {
      if e.Relative? && IsZero(e.bits) {
        return;
      }
      match IndexOf(controls, e.id)
      case None =>
        unmapped := unmapped + 1;
      case Some(ctl) =>
        records := records + [RecordOf(frame, ctl, e)];
    }

    method PushReleaseAll()
      modifies this
      ensures State() == old(State()).(records := old(records) + [ReleaseAllRecord(old(frame))])
    {
      records := records + [ReleaseAllRecord(frame)];
    }

    method PushDip(bank: byte, value: bv8)
      modifies this
      ensures State() == old(State()).(records := old(records) + [DipRecord(old(frame), bank, value)])
    {
      records := records + [DipRecord(frame, bank, value)];
    }

    method AdvanceFrame()
      modifies this
      ensures State() == old(State()).(frame := old(frame) + 1)
    {
      frame := frame + 1;
    }

    /** The declared span covers every record, also one filed against a frame that never
        completed, so what a recorder writes is always readable. */
    method Finish() returns (movie: Movie)
      ensures movie.records == records
      ensures movie.header == Header(Names(controls), dip, nvram, Max(Span(records), frame))
      ensures InOrder(State()) && Addressed(State(), controls) ==> Readable(movie)
    {
      movie := Movie(Header(Names(controls), dip, nvram, Max(Span(records), frame)), records);
    }
  }

  /** Forwards every call to the machine and records it on the way past. */
  class Recording<S(!new)> {
    const inner: Machine<S>
    const sink: MovieRecorder

    constructor (inner: Machine<S>, sink: MovieRecorder)
      ensures this.inner == inner && this.sink == sink
    {
      this.inner, this.sink := inner, sink;
    }

    method HandleInput(e: Event)
      modifies inner`core, sink
      ensures inner.core == inner.board.handle(old(inner.core), e)
      ensures sink.State() == Noted(old(sink.State()), sink.controls, e)
    {
      sink.PushEvent(e);
      inner.HandleInput(e);
    }

    method ReleaseAllInputs()
      modifies inner`core, sink
      ensures inner.core == inner.board.releaseAll(old(inner.core))
      ensures sink.State()
           == old(sink.State()).(records := old(sink.records) + [ReleaseAllRecord(old(sink.frame))])
    {
      sink.PushReleaseAll();
      inner.ReleaseAllInputs();
    }
  }

  /** Owns the recording in progress, if there is one. */
  class MovieCapture {
    var recorder: MovieRecorder?

    constructor ()
      ensures recorder == null
    {
      recorder := null;
    }

    /** Start recording against a machine just built from ROM. */
    method ArmFresh<S(!new)>(m: Machine<S>, nvram: Option<seq<bv8>>, dip: seq<bv8>)
      modifies this, m`core
      ensures m.core == Adopted(m.board, old(m.core), nvram, dip)
      ensures recorder != null && fresh(recorder) && recorder.State() == Log([], 0, 0)
      ensures recorder.controls == m.board.controls && recorder.dip == dip && recorder.nvram == nvram
    {
      m.AdoptConditions(nvram, dip);
      recorder := new MovieRecorder(m.board.controls, dip, nvram);
    }

    /** One input event, through the tee while a take runs. */
    method HandleInput<S(!new)>(m: Machine<S>, e: Event)
      modifies m`core, recorder
      ensures m.core == m.board.handle(old(m.core), e)
      ensures recorder != null ==> recorder.State() == Noted(old(recorder.State()), recorder.controls, e)
    {
      if recorder != null {
        var tee := new Recording(m, recorder);
        tee.HandleInput(e);
      } else {
        m.HandleInput(e);
      }
    }

    method ReleaseAllInputs<S(!new)>(m: Machine<S>)
      modifies m`core, recorder
      ensures m.core == m.board.releaseAll(old(m.core))
      ensures recorder != null ==>
                recorder.State() == old(recorder.State()).(
                  records := old(recorder.records) + [ReleaseAllRecord(old(recorder.frame))])
    {
      if recorder != null {
        var tee := new Recording(m, recorder);
        tee.ReleaseAllInputs();
      } else {
        m.ReleaseAllInputs();
      }
    }

    // Only for frames that ran whole.
    method AdvanceFrame()
      modifies recorder
      ensures recorder != null ==> recorder.State() == old(recorder.State()).(frame := old(recorder.frame) + 1)
    {
      if recorder != null {
        recorder.AdvanceFrame();
      }
    }

    method PushDip(bank: byte, value: bv8)
      modifies recorder
      ensures recorder != null ==>
                recorder.State() == old(recorder.State()).(
                  records := old(recorder.records) + [DipRecord(old(recorder.frame), bank, value)])
    {
      if recorder != null {
        recorder.PushDip(bank, value);
      }
    }

    method Stop() returns (movie: Option<Movie>)
      modifies this`recorder
      ensures recorder == null
      ensures old(recorder) == null <==> movie == None
      ensures old(recorder) != null ==>
                movie.value.records == old(recorder.records)
                && movie.value.header == Header(Names(old(recorder.controls)), old(recorder.dip), old(recorder.nvram),
                                               Max(Span(old(recorder.records)), old(recorder.frame)))
      ensures old(recorder) != null && InOrder(old(recorder.State()))
           && Addressed(old(recorder.State()), old(recorder.controls))
           ==> Readable(movie.value)
    {
      if recorder == null {
        return None;
      }
      var finished := recorder.Finish();
      movie := Some(finished);
      recorder := null;
    }
  }

  // ---------------------------------------------------------------------------
  // Playback
  // ---------------------------------------------------------------------------

  // The cursor stands between the records up to `frame` (or before it) and the rest.
  ghost predicate CursorAt(records: seq<Record>, cursor: nat, frame: nat, taken: bool) {
    && cursor <= |records|
    && (forall i :: 0 <= i < cursor ==> records[i].frame < frame || (taken && records[i].frame == frame))
    && forall i :: cursor <= i < |records| ==> records[i].frame > frame || (!taken && records[i].frame == frame)
  }

  lemma SliceOfPrefix(records: seq<Record>, n: nat, from: nat, to: nat)
    requires from <= to <= n <= |records|
    ensures records[..n][from..to] == records[from..to]
    ensures n < |records| && to == n ==> records[from..to] + [records[n]] == records[from..n + 1]
  {
  }

  lemma FrameRecordsLast(records: seq<Record>, frame: nat)
    requires records != []
    ensures var n := |records| - 1;
      FrameRecords(records, frame)
      == FrameRecords(records[..n], frame) + if records[n].frame == frame then [records[n]] else []
  {
  }

  lemma {:induction false} SliceIsFrame(records: seq<Record>, from: nat, to: nat, frame: nat)
    requires from <= to <= |records|
    requires forall i :: 0 <= i < from ==> records[i].frame != frame
    requires forall i :: from <= i < to ==> records[i].frame == frame
    requires forall i :: to <= i < |records| ==> records[i].frame != frame
    ensures FrameRecords(records, frame) == records[from..to]
    decreases |records|
  {
    if records != [] {
      FrameRecordsLast(records, frame);
      hide FrameRecords;
      var n := |records| - 1;
      var f, t := if from > n then n else from, if to > n then n else to;
      SliceIsFrame(records[..n], f, t, frame);
      SliceOfPrefix(records, n, f, t);
      if from > n || to <= n {
        assert records[f..t] + [] == records[from..to];
      }
    }
  }

  // Where the two loops leave the cursor.
  lemma Stopped(records: seq<Record>, from: nat, start: nat, to: nat, frame: nat)
    requires Ascending(records) && from <= start <= to <= |records|
    requires forall i :: from <= i < start ==> records[i].frame < frame
    requires forall i :: start <= i < to ==> records[i].frame == frame
    requires start < |records| ==> records[start].frame >= frame
    requires to < |records| ==> records[to].frame != frame
    ensures forall i :: to <= i < |records| ==> records[i].frame > frame
    ensures CursorAt(records, from, frame, true) ==> from == start == to
  {
    if from < to {
      assert records[from].frame <= frame;
    }
    if to < |records| {
      assert records[to].frame > frame by {
        assert records[start].frame <= records[to].frame;
      }
    }
  }

  lemma TakenFromBefore(records: seq<Record>, from: nat, before: nat, start: nat, to: nat, frame: nat)
    requires from <= start <= to <= |records| && before <= frame && CursorAt(records, from, before, false)
    requires forall i :: from <= i < start ==> records[i].frame < frame
    requires forall i :: start <= i < to ==> records[i].frame == frame
    requires forall i :: to <= i < |records| ==> records[i].frame > frame
    ensures CursorAt(records, to, frame, true) && records[start..to] == FrameRecords(records, frame)
  {
    SliceIsFrame(records, start, to, frame);
  }

  lemma CursorNext(records: seq<Record>, cursor: nat, frame: nat)
    requires CursorAt(records, cursor, frame, true)
    ensures CursorAt(records, cursor, frame + 1, false)
  {
  }

  /** A movie bound to a machine's controls, with a forward cursor over its records. */
  class MoviePlayer {
    const movie: Movie
    const ids: seq<u16>
    var cursor: nat

    ghost predicate Valid()
      reads this`cursor
    {
      cursor <= |movie.records| && Ascending(movie.records)
    }

    constructor (movie: Movie, ids: seq<u16>)
      requires Ascending(movie.records)
      ensures Valid() && this.movie == movie && this.ids == ids && cursor == 0
    {
      this.movie, this.ids, this.cursor := movie, ids, 0;
    }

    /** The records of `frame` the cursor has not passed, and nothing of any other frame:
        records of skipped frames are dropped, never delivered late. */
    method TakeFrame(frame: nat) returns (records: seq<Record>)
      requires Valid()
      modifies this`cursor
      ensures Valid()
      ensures forall before: nat :: CursorAt(movie.records, old(cursor), before, false) && before <= frame ==>
                CursorAt(movie.records, cursor, frame, true) && records == FrameRecords(movie.records, frame)
      ensures CursorAt(movie.records, old(cursor), frame, true) ==> cursor == old(cursor) && records == []
      ensures forall r :: r in records ==> r.frame == frame
    {
      while cursor < |movie.records| && movie.records[cursor].frame < frame
        invariant old(cursor) <= cursor <= |movie.records|
        invariant forall i :: old(cursor) <= i < cursor ==> movie.records[i].frame < frame
      {
        cursor := cursor + 1;
      }
      var start := cursor;
      while cursor < |movie.records| && movie.records[cursor].frame == frame
        invariant start <= cursor <= |movie.records|
        invariant forall i :: start <= i < cursor ==> movie.records[i].frame == frame
      {
        cursor := cursor + 1;
      }
      records := movie.records[start..cursor];
      hide Ascending, CursorAt, FrameRecords;
      Stopped(movie.records, old(cursor), start, cursor, frame);
      forall before: nat | CursorAt(movie.records, old(cursor), before, false) && before <= frame
        ensures CursorAt(movie.records, cursor, frame, true) && records == FrameRecords(movie.records, frame)
      {
        TakenFromBefore(movie.records, old(cursor), before, start, cursor, frame);
      }
    }

    /** Deliver this frame's records to the machine in the order they were recorded. */
    method Deliver<S(!new)>(m: Machine<S>, frame: nat)
      requires Valid()
      modifies this`cursor, m`core
      ensures Valid()
      ensures forall before: nat :: CursorAt(movie.records, old(cursor), before, false) && before <= frame ==>
                CursorAt(movie.records, cursor, frame, true)
                && m.core == Delivered(m.board, ids, FrameRecords(movie.records, frame), old(m.core))
      ensures CursorAt(movie.records, old(cursor), frame, true) ==> cursor == old(cursor) && m.core == old(m.core)
    {
      var records := TakeFrame(frame);
      ghost var passed := cursor;
      for i := 0 to |records|
        invariant Valid() && cursor == passed
        invariant m.core == Delivered(m.board, ids, records[..i], old(m.core))
      {
        assert records[..i + 1][..i] == records[..i];
        match records[i]
        case ReleaseAllRecord(_) => m.ReleaseAllInputs();
        case DipRecord(_, bank, value) => m.SetDipBankValue(bank, value);
        case MarkerRecord(_, _) =>
        case _ =>
          var e := EventOf(records[i], ids);
          if e.Some? {
            m.HandleInput(e.value);
          }
      }
      assert records[..|records|] == records;
    }
  }

  /** A movie being replayed, and the frame it is at. */
  class MoviePlayback {
    const player: MoviePlayer
    const total: nat
    var frame: nat

    /** The machine is where the replay of `frame` whole frames from `start` put it, with
        this frame's input delivered or not. */
    ghost predicate InStep<S(!new)>(board: Board<S>, core: S, start: S, delivered: bool)
      reads this, player
    {
      var before := Replayed(board, player.ids, player.movie.records, start, frame);
      && player.Valid() && CursorAt(player.movie.records, player.cursor, frame, delivered)
      && core == if delivered
                 then Delivered(board, player.ids, FrameRecords(player.movie.records, frame), before)
                 else before
    }

    constructor (player: MoviePlayer, total: nat)
      ensures this.player == player && this.total == total && frame == 0
    {
      this.player, this.total, this.frame := player, total, 0;
    }

    /** Reset the machine to the movie's starting conditions and bind the movie's control
        names to it. A name the machine lacks is an error before any frame runs. */
    static method Bind<S(!new)>(movie: Movie, m: Machine<S>) returns (r: Option<MoviePlayback>)
      requires Ascending(movie.records)
      modifies m`core
      ensures m.core == Adopted(m.board, old(m.core), movie.header.nvram, movie.header.dip)
      ensures r == None <==> Bound(movie.header.controls, m.board.controls) == None
      ensures r.Some? ==> fresh(r.value) && fresh(r.value.player) && r.value.player.movie == movie
                          && Some(r.value.player.ids) == Bound(movie.header.controls, m.board.controls)
                          && r.value.total == movie.header.frames && r.value.frame == 0
                          && r.value.InStep(m.board, m.core, m.core, false)
    {
      m.AdoptConditions(movie.header.nvram, movie.header.dip);
      match Bound(movie.header.controls, m.board.controls)
      case None =>
        return None;
      case Some(ids) =>
        var player := new MoviePlayer(movie, ids);
        var playback := new MoviePlayback(player, movie.header.frames);
        return Some(playback);
    }

    /** Deliver this frame's input. A second delivery, as while the loop is paused, changes
        nothing. */
    method Deliver<S(!new)>(m: Machine<S>, ghost start: S, ghost delivered: bool)
      requires player.Valid()
      modifies player`cursor, m`core
      ensures player.Valid()
      ensures old(InStep(m.board, m.core, start, delivered)) ==>
                InStep(m.board, m.core, start, true) && (delivered ==> m.core == old(m.core))
    {
      hide CursorAt, Replayed, Delivered, FrameRecords;
      player.Deliver(m, frame);
    }

    /** A whole frame was run on what this frame's delivery left. */
    ghost predicate Advances<S(!new)>(board: Board<S>, core: S, start: S)
      reads this, player
    {
      && player.Valid() && CursorAt(player.movie.records, player.cursor, frame, true)
      && core == board.runFrame(Delivered(board, player.ids, FrameRecords(player.movie.records, frame),
                                          Replayed(board, player.ids, player.movie.records, start, frame)))
    }

    lemma AtBoundary<S(!new)>(board: Board<S>, core: S, start: S)
      requires InStep(board, core, start, false)
      ensures core == Replayed(board, player.ids, player.movie.records, start, frame)
    {
    }

    lemma FrameAdvances<S(!new)>(board: Board<S>, core: S, start: S)
      requires InStep(board, core, start, true)
      ensures Advances(board, board.runFrame(core), start)
    {
    }

    lemma Advancing<S(!new)>(board: Board<S>, core: S, start: S)
      requires Advances(board, core, start)
      ensures core == Replayed(board, player.ids, player.movie.records, start, frame + 1)
      ensures player.Valid() && CursorAt(player.movie.records, player.cursor, frame + 1, false)
    {
      ReplayedNext(board, player.ids, player.movie.records, start, frame);
      CursorNext(player.movie.records, player.cursor, frame);
      hide CursorAt, Replayed, Delivered, FrameRecords;
    }

    // Note that a whole frame ran.
    method AdvanceFrame<S(!new)>(ghost board: Board<S>, ghost core: S, ghost start: S)
      modifies this`frame
      ensures frame == old(frame) + 1
      ensures old(Advances(board, core, start)) ==> InStep(board, core, start, false)
    {
      hide CursorAt, Replayed, Delivered, FrameRecords, Advances, MoviePlayer.Valid;
      if Advances(board, core, start) {
        Advancing(board, core, start);
      }
      frame := frame + 1;
    }

    predicate Finished()
      reads this`frame
    {
      frame >= total
    }
  }
}
