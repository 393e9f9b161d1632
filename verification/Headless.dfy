/** Replaying a movie without a window: deliver, run, advance. */
module Headless {
  import opened Basics
  import opened MachineModel
  import opened MovieLog
  import opened Movies
  import opened Session

  // One pass of the loop.
  method ReplayFrame<S(!new)>(m: Machine<S>, p: MoviePlayback, ghost start: S)
    requires p.InStep(m.board, m.core, start, false)
    modifies m`core, m`pending, p`frame, p.player`cursor
    ensures p.frame == old(p.frame) + 1 && p.InStep(m.board, m.core, start, false)
    ensures m.core == Replayed(m.board, p.player.ids, p.player.movie.records, start, p.frame)
  {
    hide CursorAt, FrameRecords, Delivered, Replayed;
    p.Deliver(m, start, false);
    ghost var fed := m.core;
    m.RunFrame();
    p.FrameAdvances(m.board, fed, start);
    p.AdvanceFrame(m.board, m.core, start);
  }

  // The machine at every frame boundary of a replay.
  function Boundaries<S(!new)>(board: Board<S>, ids: seq<u16>, records: seq<Record>, start: S, k: nat): seq<S> {
    if k == 0 then [start]
    else Boundaries(board, ids, records, start, k - 1) + [Replayed(board, ids, records, start, k)]
  }

  lemma {:induction false} BoundaryAt<S(!new)>(board: Board<S>, ids: seq<u16>, records: seq<Record>, start: S, k: nat)
    ensures var r := Boundaries(board, ids, records, start, k);
      |r| == k + 1 && forall j :: 0 <= j <= k ==> r[j] == Replayed(board, ids, records, start, j)
  {
    assert Replayed(board, ids, records, start, 0) == start;
    hide Replayed;
    if k > 0 {
      BoundaryAt(board, ids, records, start, k - 1);
    }
  }

  method ReplayFrames<S(!new)>(m: Machine<S>, p: MoviePlayback, frames: nat) returns (history: seq<S>)
    requires p.frame == 0 && p.InStep(m.board, m.core, m.core, false)
    modifies m`core, m`pending, p`frame, p.player`cursor
    ensures history == Boundaries(m.board, p.player.ids, p.player.movie.records, old(m.core), frames)
    ensures m.core == Replayed(m.board, p.player.ids, p.player.movie.records, old(m.core), frames)
  {
    hide MoviePlayback.InStep, CursorAt, Delivered, FrameRecords;
    ghost var start, ids, records := m.core, p.player.ids, p.player.movie.records;
    history := [m.core];
    for i := 0 to frames
      invariant p.frame == i && p.InStep(m.board, m.core, start, false)
      invariant m.core == Replayed(m.board, ids, records, start, i)
      invariant history == Boundaries(m.board, ids, records, start, i)
    {
      ReplayFrame(m, p, start);
      history := history + [m.core];
    }
  }

  /** Replay `frames` frames on the machine at hand. `history[k]` is that machine after `k`
      of them. A movie naming a control the board lacks is refused. */
  method Replay<S(!new)>(m: Machine<S>, movie: Movie, frames: nat) returns (bound: bool, history: seq<S>)
    requires Ascending(movie.records)
    modifies m`core, m`pending
    ensures bound <==> Bound(movie.header.controls, m.board.controls).Some?
    ensures bound ==> |history| == frames + 1 && m.core == history[frames]
    ensures bound ==>
              var ids := Bound(movie.header.controls, m.board.controls).value;
              var start := Adopted(m.board, old(m.core), movie.header.nvram, movie.header.dip);
              forall k :: 0 <= k <= frames ==> history[k] == Replayed(m.board, ids, movie.records, start, k)
  {
    hide Adopted, Bound, Replayed, MoviePlayback.InStep, Boundaries;
    var playback := MoviePlayback.Bind(movie, m);
    bound := playback.Some?;
    if bound {
      ghost var start, ids := m.core, playback.value.player.ids;
      history := ReplayFrames(m, playback.value, frames);
      BoundaryAt(m.board, ids, movie.records, start, frames);
    } else {
      history := [];
    }
  }

  /** Where a machine stands once it has adopted a movie's starting conditions. */
  function StartOn<S(!new)>(board: Board<S>, movie: Movie, s: S): S {
    Adopted(board, s, movie.header.nvram, movie.header.dip)
  }

  /** A saved movie, replayed for as many frames as were recorded, takes the machine
      through exactly the states of the recording, boundary by boundary, if adopting the
      starting conditions puts it where it puts a machine just built from ROM. */
  method ReplayReproduces<S(!new)>(m: Machine<S>, saved: Saved<S>, more: nat) returns (history: seq<S>)
    requires SavedOk(m.board, saved) && saved.unmapped == 0
    requires StartOn(m.board, saved.movie, m.core) == StartOn(m.board, saved.movie, m.board.fromRom)
    modifies m`core, m`pending
    ensures |history| == |saved.history| + more && m.core == history[|history| - 1]
    ensures forall k :: 0 <= k < |saved.history| ==> history[k] == saved.history[k]
  {
    hide Replayed, Adopted, Bound, Frames;
    var bound;
    bound, history := Replay(m, saved.movie, |saved.history| - 1 + more);
  }

  // ---------------------------------------------------------------------------
  // From the program's own power-on
  // ---------------------------------------------------------------------------

  /** The replay from a machine at `s` passes through the recorded states. */
  ghost predicate Matches<S(!new)>(board: Board<S>, saved: Saved<S>, s: S) {
    forall k :: 0 <= k < |saved.history| ==>
      saved.history[k] == Replayed(board, Ids(board), saved.movie.records, StartOn(board, saved.movie, s), k)
  }

  // What is saved of a take armed on a session at `s`.
  function SavedTake<S(!new)>(board: Board<S>, s: S, ops: seq<TakeOp>): Saved<S> {
    var p := Take(board, Rebuilt(board, s), ops);
    SavedOf(board, Reel(p.log, DipBytes(board, s), board.nvram(s), p.history))
  }

  /** Every take of every session, in which nothing went unmapped, is reproduced by a program
      started on this memory file and these persisted switches. */
  ghost predicate Reproduced<S(!new)>(board: Board<S>, file: Option<seq<bv8>>, switches: seq<bv8>) {
    forall s, ops :: OpsOk(board, ops) && SavedTake(board, s, ops).unmapped == 0 ==>
      Matches(board, SavedTake(board, s, ops), PoweredOn(board, file, switches))
  }

  // Taking over the conditions of any session, the machine the program powers on stands
  // where one built from ROM does.
  ghost predicate StartsAlike<S(!new)>(board: Board<S>, file: Option<seq<bv8>>, switches: seq<bv8>) {
    forall s :: Adopted(board, PoweredOn(board, file, switches), board.nvram(s), DipBytes(board, s)) == Rebuilt(board, s)
  }

  lemma EmptyTake<S(!new)>(board: Board<S>, s: S)
    ensures var saved := SavedTake(board, s, []);
      && OpsOk(board, []) && saved.unmapped == 0 && saved.history == [Rebuilt(board, s)]
      && saved.movie.header.nvram == board.nvram(s) && saved.movie.header.dip == DipBytes(board, s)
  {
    hide Rebuilt, DipBytes;
  }

  lemma TakeMatches<S(!new)>(board: Board<S>, s: S, ops: seq<TakeOp>, on: S)
    requires Faithful(board) && OpsOk(board, ops) && SavedTake(board, s, ops).unmapped == 0
    requires Adopted(board, on, board.nvram(s), DipBytes(board, s)) == Rebuilt(board, s)
    ensures Matches(board, SavedTake(board, s, ops), on)
  {
    hide Faithful, Take, Rebuilt, DipBytes, Adopted, Replayed, Delivered, FrameRecords;
    TakeKeeps(board, Rebuilt(board, s), ops, true);
  }

  /** On a faithful board a power-on reproduces every take exactly when taking over the
      conditions puts it where the recording was put: no input, frame or record enters. */
  lemma ReproducedIff<S(!new)>(board: Board<S>, file: Option<seq<bv8>>, switches: seq<bv8>)
    requires Faithful(board)
    ensures Reproduced(board, file, switches) <==> StartsAlike(board, file, switches)
  {
    hide Faithful, PoweredOn, Rebuilt, Adopted, SavedTake, Matches;
    var on := PoweredOn(board, file, switches);
    if Reproduced(board, file, switches) {
      forall s
        ensures Adopted(board, on, board.nvram(s), DipBytes(board, s)) == Rebuilt(board, s)
      {
        EmptyTake(board, s);
        FirstBoundary(board, SavedTake(board, s, []), on);
      }
    }
    if StartsAlike(board, file, switches) {
      forall s, ops | OpsOk(board, ops) && SavedTake(board, s, ops).unmapped == 0
        ensures Matches(board, SavedTake(board, s, ops), on)
      {
        TakeMatches(board, s, ops, on);
      }
    }
  }

  lemma FirstBoundary<S(!new)>(board: Board<S>, saved: Saved<S>, s: S)
    requires Matches(board, saved, s) && |saved.history| > 0
    ensures saved.history[0] == StartOn(board, saved.movie, s)
  {
    hide Adopted;
    assert saved.history[0] == Replayed(board, Ids(board), saved.movie.records, StartOn(board, saved.movie, s), 0);
  }

  // A second reset is no more than one.
  ghost predicate ResetSettles<S(!new)>(board: Board<S>) {
    forall s :: board.reset(board.reset(s)) == board.reset(s)
  }

  // A reset after a load or a switch is that load or switch after the reset.
  ghost predicate ResetPassesLoads<S(!new)>(board: Board<S>) {
    forall s, image :: board.reset(board.loadNvram(s, image)) == board.loadNvram(board.reset(s), image)
  }

  ghost predicate ResetPassesSwitches<S(!new)>(board: Board<S>) {
    forall s, bank, value :: board.reset(board.setDip(s, bank, value)) == board.setDip(board.reset(s), bank, value)
  }

  // Of two loads only the last one shows, wherever the switches were set.
  ghost predicate LoadsReplace<S(!new)>(board: Board<S>) {
    forall s, image, next :: board.loadNvram(board.loadNvram(s, image), next) == board.loadNvram(s, next)
  }

  ghost predicate LoadsPassSwitches<S(!new)>(board: Board<S>) {
    forall s, bank, value, image ::
      board.loadNvram(board.setDip(s, bank, value), image) == board.setDip(board.loadNvram(s, image), bank, value)
  }

  // Of two settings of a bank only the last one shows, whatever was done to other banks.
  ghost predicate SwitchesReplace<S(!new)>(board: Board<S>) {
    forall s, bank, value, next :: board.setDip(board.setDip(s, bank, value), bank, next) == board.setDip(s, bank, next)
  }

  ghost predicate SwitchesCommute<S(!new)>(board: Board<S>) {
    forall s, a, b, v, w :: a != b ==>
      board.setDip(board.setDip(s, a, v), b, w) == board.setDip(board.setDip(s, b, w), a, v)
  }

  /** What a board's start-up calls can be checked for, each against another: a reset latches
      nothing, and loads and switches leave no trace of what they replace. */
  ghost predicate LatchesNothing<S(!new)>(board: Board<S>) {
    && ResetSettles(board) && ResetPassesLoads(board) && ResetPassesSwitches(board)
    && LoadsReplace(board) && LoadsPassSwitches(board) && SwitchesReplace(board) && SwitchesCommute(board)
  }

  lemma {:induction false} ResetPassesDips<S(!new)>(board: Board<S>, s: S, dip: seq<bv8>, from: nat)
    requires ResetPassesSwitches(board) && from <= |dip|
    ensures board.reset(WithDips(board, s, dip, from)) == WithDips(board, board.reset(s), dip, from)
    decreases |dip| - from
  {
    if from < |dip| {
      var value := dip[from];
      assert board.reset(board.setDip(s, from, value)) == board.setDip(board.reset(s), from, value);
      ResetPassesDips(board, board.setDip(s, from, value), dip, from + 1);
    }
  }

  lemma {:induction false} LoadPassesDips<S(!new)>(board: Board<S>, s: S, dip: seq<bv8>, from: nat, image: seq<bv8>)
    requires LoadsPassSwitches(board) && from <= |dip|
    ensures board.loadNvram(WithDips(board, s, dip, from), image) == WithDips(board, board.loadNvram(s, image), dip, from)
    decreases |dip| - from
  {
    if from < |dip| {
      var value := dip[from];
      assert board.loadNvram(board.setDip(s, from, value), image) == board.setDip(board.loadNvram(s, image), from, value);
      LoadPassesDips(board, board.setDip(s, from, value), dip, from + 1, image);
    }
  }

  lemma {:induction false} SettingPassesDips<S(!new)>(board: Board<S>, s: S, dip: seq<bv8>, from: nat, bank: nat, value: bv8)
    requires SwitchesCommute(board) && bank < from <= |dip|
    ensures board.setDip(WithDips(board, s, dip, from), bank, value)
         == WithDips(board, board.setDip(s, bank, value), dip, from)
    decreases |dip| - from
  {
    if from < |dip| {
      var other := dip[from];
      assert board.setDip(board.setDip(s, from, other), bank, value)
          == board.setDip(board.setDip(s, bank, value), from, other);
      SettingPassesDips(board, board.setDip(s, from, other), dip, from + 1, bank, value);
    }
  }

  lemma {:induction false} DipsReplaceDips<S(!new)>(board: Board<S>, s: S, before: seq<bv8>, dip: seq<bv8>, from: nat)
    requires SwitchesReplace(board) && SwitchesCommute(board) && from <= |before| <= |dip|
    ensures WithDips(board, WithDips(board, s, before, from), dip, from) == WithDips(board, s, dip, from)
    decreases |before| - from
  {
    if from < |before| {
      var value, next := before[from], dip[from];
      assert board.setDip(board.setDip(s, from, value), from, next) == board.setDip(s, from, next);
      SettingPassesDips(board, board.setDip(s, from, value), before, from + 1, from, next);
      DipsReplaceDips(board, board.setDip(s, from, dip[from]), before, dip, from + 1);
    }
  }

  /** On such a board the power-on loses itself in the conditions taken over, so a program
      started on the same memory file and switches as the recording, or on any of a size the
      board itself saves, starts the replay where the recording started. */
  lemma LatchingNothingStartsAlike<S(!new)>(board: Board<S>, file: Option<seq<bv8>>, switches: seq<bv8>,
                                            nvram: Option<seq<bv8>>, dip: seq<bv8>)
    requires LatchesNothing(board) && (file.Some? ==> nvram.Some?) && |switches| <= |dip|
    ensures Adopted(board, PoweredOn(board, file, switches), nvram, dip) == Adopted(board, board.fromRom, nvram, dip)
  {
    hide WithDips;
    var rom := board.reset(board.fromRom);
    var loaded := WithNvram(board, rom, file);
    ResetPassesDips(board, WithNvram(board, board.fromRom, file), switches, 0);
    ResetPassesDips(board, loaded, switches, 0);
    if nvram.Some? {
      LoadPassesDips(board, loaded, switches, 0, nvram.value);
    }
    DipsReplaceDips(board, WithNvram(board, rom, nvram), switches, dip, 0);
  }

  /** So every take of a faithful board that latches nothing is reproduced by any program
      started on a memory file only if its sessions save one and on no more switches than
      it has banks. */
  lemma LatchingNothingReproduces<S(!new)>(board: Board<S>, file: Option<seq<bv8>>, switches: seq<bv8>)
    requires Faithful(board) && LatchesNothing(board) && |switches| <= |board.dipMasks|
    requires file.Some? ==> forall s :: board.nvram(s).Some?
    ensures Reproduced(board, file, switches)
  {
    hide Faithful, LatchesNothing, PoweredOn, Adopted, Reproduced;
    forall s
      ensures Adopted(board, PoweredOn(board, file, switches), board.nvram(s), DipBytes(board, s)) == Rebuilt(board, s)
    {
      LatchingNothingStartsAlike(board, file, switches, board.nvram(s), DipBytes(board, s));
    }
    ReproducedIff(board, file, switches);
  }

  /** With no memory file and no persisted switches the program's own power-on gets there,
      on any board that is not changed by a second reset. */
  lemma NothingPersistedReplays<S(!new)>(board: Board<S>, movie: Movie)
    requires board.reset(board.reset(board.fromRom)) == board.reset(board.fromRom)
    ensures StartOn(board, movie, PoweredOn(board, None, [])) == StartOn(board, movie, board.fromRom)
  {
  }

  /** A switch that is latched at reset need not get there: on this invented board the
      recording's rebuilt machine latched its factory setting, the replay's the player's
      persisted one. */
  lemma LatchedSwitchDiverges()
    ensures exists board: Board<(bv8, bv8)>, movie: Movie ::
              StartOn(board, movie, PoweredOn(board, None, movie.header.dip)) != StartOn(board, movie, board.fromRom)
  {
    // The first byte is the switch, the second what the last reset saw.
    var board: Board<(bv8, bv8)> := Board([], [[0xFF]], 0, false, 0, (0, 0), (s: (bv8, bv8)) => (s.0, s.0),
      s => None, (s, n) => s, s => None, (s, d) => None, (s, e) => s, s => s, (s: (bv8, bv8), b) => s.0,
      (s: (bv8, bv8), b, v) => (v, s.1), (s, c, a, v) => s, (s, d, r, v) => s, s => s, (s, w) => [], s => s,
      (s, c) => false, (s, w) => [], (s, c) => 0);
    var movie := Movie(Header([], [1], None, 0), []);
    assert WithDips(board, (0, 0), [1], 0) == WithDips(board, (1, 0), [1], 1) == (1, 0);
    assert WithDips(board, (1, 1), [1], 0) == WithDips(board, (1, 1), [1], 1) == (1, 1);
    assert StartOn(board, movie, PoweredOn(board, None, [1])) == (1, 1);
    assert StartOn(board, movie, board.fromRom) == (1, 0);
  }

  /** Once its span is over, a replay feeds the machine nothing. */
  lemma SpanEndsInput<S(!new)>(board: Board<S>, saved: Saved<S>, more: nat)
    requires SavedOk(board, saved) && saved.unmapped == 0
    requires |saved.history| == saved.movie.header.frames + 1
    requires saved.movie.header.frames > 0
    ensures Replayed(board, Ids(board), saved.movie.records, saved.history[0], saved.movie.header.frames + more)
         == Frames(board, saved.history[saved.movie.header.frames], more)
  {
    hide Replayed, Adopted, Frames, Bound;
    RunsOnWithoutInput(board, Ids(board), saved.movie.records, saved.history[0], saved.movie.header.frames, more);
  }
}
