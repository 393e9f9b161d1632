/** Rebindable frontend hotkeys: a factory table, overrides, and actions left without a
    chord. */
module HostKeys {
  import opened Basics

  datatype Action =
    | Quit | Reset | HardReset | QuickSave | QuickLoad | Screenshot | TogglePause | FrameAdvance
    | ToggleDebugPanel | ToggleSettingsPanel | ToggleDipPanel | ToggleDisplayPanel | ToggleProfiler
    | ToggleThrottle | ToggleFps | ToggleMouseGrab | ToggleKeyLegend
    | StepInstruction | StepCycle | StepFrame | ToggleDebugPause | MovieRecord

  // SDL numbers its scancodes by USB usage.
  datatype Scancode = Scancode(code: int)

  const ESCAPE := Scancode(41)
  const GRAVE := Scancode(53)
  const SLASH := Scancode(56)
  const SCROLL_LOCK := Scancode(71)

  // F1 to F12.
  function F(n: nat): Scancode { Scancode(57 + n) }

  datatype Chord = Chord(scancode: Scancode, shift: bool)

  function Bare(s: Scancode): Chord { Chord(s, false) }

  function Shift(s: Scancode): Chord { Chord(s, true) }

  /** Every action with its factory chord, in panel order. */
  const DEFAULTS: seq<(Action, Chord)> := [
    (Quit, Bare(ESCAPE)), (Reset, Bare(F(3))), (HardReset, Shift(F(3))), (QuickSave, Bare(F(6))),
    (QuickLoad, Bare(F(7))), (Screenshot, Bare(F(12))), (TogglePause, Bare(F(5))), (FrameAdvance, Shift(F(5))),
    (ToggleDebugPanel, Bare(F(1))), (ToggleSettingsPanel, Shift(F(1))), (ToggleDipPanel, Bare(GRAVE)),
    (ToggleDisplayPanel, Shift(GRAVE)), (ToggleProfiler, Shift(F(11))), (ToggleThrottle, Bare(F(10))),
    (ToggleFps, Bare(F(11))), (ToggleMouseGrab, Bare(SCROLL_LOCK)), (ToggleKeyLegend, Bare(SLASH)),
    (StepCycle, Shift(F(8))), (StepInstruction, Shift(F(9))), (StepFrame, Shift(F(10))),
    (ToggleDebugPause, Bare(F(8))), (MovieRecord, Shift(F(12)))]

  // One override as stored: a scancode number, plain in files from before chords.
  datatype Stored = Plain(code: int) | Modified(code: int, shift: bool)

  /** The bindings as a value. `known` are the numbers SDL has a scancode for. */
  datatype Bindings = Bindings(known: set<int>, overrides: map<Action, Stored>, unbound: seq<Action>)

  function ToChord(known: set<int>, s: Stored): Option<Chord> {
    if s.code !in known then None
    else Some(Chord(Scancode(s.code), s.Modified? && s.shift))
  }

  function FromChord(c: Chord): Stored {
    Modified(c.scancode.code, c.shift)
  }

  function FirstDefault(action: Action, from: nat): Option<Chord>
    requires from <= |DEFAULTS|
    decreases |DEFAULTS| - from
  {
    if from == |DEFAULTS| then None
    else if DEFAULTS[from].0 == action then Some(DEFAULTS[from].1)
    else FirstDefault(action, from + 1)
  }

  function KeyFor(b: Bindings, action: Action): Option<Chord> {
    if action in b.unbound then None
    else if action in b.overrides then ToChord(b.known, b.overrides[action])
    else FirstDefault(action, 0)
  }

  function FirstHolder(b: Bindings, chord: Chord, from: nat): Option<Action>
    requires from <= |DEFAULTS|
    decreases |DEFAULTS| - from
  {
    if from == |DEFAULTS| then None
    else if KeyFor(b, DEFAULTS[from].0) == Some(chord) then Some(DEFAULTS[from].0)
    else FirstHolder(b, chord, from + 1)
  }

  function ActionFor(b: Bindings, chord: Chord): Option<Action> {
    FirstHolder(b, chord, 0)
  }

  lemma {:induction false} WithoutRepeats(actions: seq<Action>, a: Action)
    requires NoRepeats(actions)
    ensures NoRepeats(Without(actions, a))
  {
    if actions != [] {
      var rest := actions[1..];
      WithoutRepeats(rest, a);
      var r := Without(rest, a);
      forall j | 0 <= j < |r|
        ensures r[j] != actions[0]
      {
        assert r[j] in rest;
      }
    }
  }

  ghost predicate NoRepeats(actions: seq<Action>) {
    forall i, j :: 0 <= i < j < |actions| ==> actions[i] != actions[j]
  }

  function Unbind(b: Bindings, action: Action): Bindings {
    b.(overrides := b.overrides - {action},
       unbound := if action in b.unbound then b.unbound else b.unbound + [action])
  }

  function Rebound(b: Bindings, action: Action, chord: Chord): Bindings {
    var previous := ActionFor(b, chord);
    var cleared := if previous.Some? && previous.value != action then Unbind(b, previous.value) else b;
    cleared.(unbound := Without(cleared.unbound, action), overrides := cleared.overrides[action := FromChord(chord)])
  }

  function Factory(known: set<int>): Bindings {
    Bindings(known, map[], [])
  }

  class HostBindings {
    const known: set<int>
    var overrides: map<Action, Stored>
    var unbound: seq<Action>

    ghost function State(): Bindings
      reads this
    {
      Bindings(known, overrides, unbound)
    }

    constructor (known: set<int>)
      ensures State() == Factory(known)
    {
      this.known := known;
      overrides, unbound := map[], [];
    }

    method KeyOf(action: Action) returns (chord: Option<Chord>)
      ensures chord == KeyFor(State(), action)
    {
      if action in unbound {
        return None;
      }
      if action in overrides {
        return ToChord(known, overrides[action]);
      }
      return FirstDefault(action, 0);
    }

    method HolderOf(chord: Chord) returns (holder: Option<Action>)
      ensures holder == ActionFor(State(), chord)
    {
      for i := 0 to |DEFAULTS|
        invariant ActionFor(State(), chord) == FirstHolder(State(), chord, i)
      {
        var key := KeyOf(DEFAULTS[i].0);
        if key == Some(chord) {
          return Some(DEFAULTS[i].0);
        }
      }
      return None;
    }

    /** Bind an action to a chord, clearing whatever else held it. */
    method Rebind(action: Action, chord: Chord)
      modifies this
      ensures State() == Rebound(old(State()), action, chord)
    {
      var previous := HolderOf(chord);
      if previous.Some? && previous.value != action {
        SetUnbound(previous.value);
      }
      unbound := Without(unbound, action);
      overrides := overrides[action := FromChord(chord)];
    }

    method SetUnbound(action: Action)
      modifies this
      ensures State() == Unbind(old(State()), action)
    {
      overrides := overrides - {action};
      if action !in unbound {
        unbound := unbound + [action];
      }
    }

    method ResetAll()
      modifies this
      ensures State() == Factory(known)
    {
      overrides, unbound := map[], [];
    }
  }

  // ---------------------------------------------------------------------------
  // The factory table
  // ---------------------------------------------------------------------------

  function Place(a: Action): nat {
    match a
    case Quit => 0 case Reset => 1 case HardReset => 2 case QuickSave => 3 case QuickLoad => 4
    case Screenshot => 5 case TogglePause => 6 case FrameAdvance => 7 case ToggleDebugPanel => 8
    case ToggleSettingsPanel => 9 case ToggleDipPanel => 10 case ToggleDisplayPanel => 11
    case ToggleProfiler => 12 case ToggleThrottle => 13 case ToggleFps => 14 case ToggleMouseGrab => 15
    case ToggleKeyLegend => 16 case StepCycle => 17 case StepInstruction => 18 case StepFrame => 19
    case ToggleDebugPause => 20 case MovieRecord => 21
  }

  // Every action is in the table, once.
  lemma PlaceIsPlace(a: Action)
    ensures Place(a) < |DEFAULTS| == 22 && DEFAULTS[Place(a)].0 == a
  {
    match a {
      case Quit => case Reset => case HardReset => case QuickSave => case QuickLoad => case Screenshot =>
      case TogglePause => case FrameAdvance => case ToggleDebugPanel => case ToggleSettingsPanel =>
      case ToggleDipPanel => case ToggleDisplayPanel => case ToggleProfiler => case ToggleThrottle =>
      case ToggleFps => case ToggleMouseGrab => case ToggleKeyLegend => case StepCycle =>
      case StepInstruction => case StepFrame => case ToggleDebugPause => case MovieRecord =>
    }
  }

  function DefaultOf(a: Action): Chord {
    PlaceIsPlace(a);
    DEFAULTS[Place(a)].1
  }

  // Whose factory chord a chord is.
  function FactoryOwner(c: Chord): Option<Action> {
    var n := c.scancode.code;
    if n == 41 then Some(Quit)
    else if n == 53 then Some(if c.shift then ToggleDisplayPanel else ToggleDipPanel)
    else if n == 56 then Some(ToggleKeyLegend)
    else if n == 71 then Some(ToggleMouseGrab)
    else if n == 58 then Some(if c.shift then ToggleSettingsPanel else ToggleDebugPanel)
    else if n == 60 then Some(if c.shift then HardReset else Reset)
    else if n == 62 then Some(if c.shift then FrameAdvance else TogglePause)
    else if n == 63 then Some(QuickSave)
    else if n == 64 then Some(QuickLoad)
    else if n == 65 then Some(if c.shift then StepCycle else ToggleDebugPause)
    else if n == 66 then Some(StepInstruction)
    else if n == 67 then Some(if c.shift then StepFrame else ToggleThrottle)
    else if n == 68 then Some(if c.shift then ToggleProfiler else ToggleFps)
    else if n == 69 then Some(if c.shift then MovieRecord else Screenshot)
    else None
  }

  lemma DefaultsAreDistinct(a: Action)
    ensures FactoryOwner(DefaultOf(a)) == Some(a)
  {
    match a {
      case Quit => case Reset => case HardReset => case QuickSave => case QuickLoad => case Screenshot =>
      case TogglePause => case FrameAdvance => case ToggleDebugPanel => case ToggleSettingsPanel =>
      case ToggleDipPanel => case ToggleDisplayPanel => case ToggleProfiler => case ToggleThrottle =>
      case ToggleFps => case ToggleMouseGrab => case ToggleKeyLegend => case StepCycle =>
      case StepInstruction => case StepFrame => case ToggleDebugPause => case MovieRecord =>
    }
  }

  lemma {:induction false} FirstDefaultIs(a: Action, from: nat)
    requires from <= Place(a)
    ensures Place(a) < |DEFAULTS| && FirstDefault(a, from) == Some(DefaultOf(a))
    decreases Place(a) - from
  {
    PlaceIsPlace(a);
    PlaceIsPlace(DEFAULTS[from].0);
    if from < Place(a) {
      PlacesAreOnce(from);
      FirstDefaultIs(a, from + 1);
    }
  }

  lemma PlacesAreOnce(i: nat)
    requires i < |DEFAULTS|
    ensures Place(DEFAULTS[i].0) == i
  {
    if i < 11 {
      if i == 0 {} else if i == 1 {} else if i == 2 {} else if i == 3 {} else if i == 4 {} else if i == 5 {}
      else if i == 6 {} else if i == 7 {} else if i == 8 {} else if i == 9 {} else {}
    } else {
      if i == 11 {} else if i == 12 {} else if i == 13 {} else if i == 14 {} else if i == 15 {} else if i == 16 {}
      else if i == 17 {} else if i == 18 {} else if i == 19 {} else if i == 20 {} else {}
    }
  }

  // ---------------------------------------------------------------------------
  // What holds after any history
  // ---------------------------------------------------------------------------

  ghost predicate OverridesOk(b: Bindings) {
    forall a :: a in b.overrides ==> b.overrides[a].Modified? && b.overrides[a].code in b.known
  }

  ghost predicate ListsOk(b: Bindings) {
    NoRepeats(b.unbound) && forall a :: a in b.unbound ==> a !in b.overrides
  }

  // No two actions share a chord.
  ghost predicate Unshared(b: Bindings) {
    forall a, o :: a != o && KeyFor(b, a).Some? ==> KeyFor(b, a) != KeyFor(b, o)
  }

  ghost predicate Good(b: Bindings) {
    OverridesOk(b) && ListsOk(b) && Unshared(b)
  }

  lemma FactoryIsGood(known: set<int>)
    ensures Good(Factory(known))
    ensures forall a :: KeyFor(Factory(known), a) == Some(DefaultOf(a))
  {
    forall a
      ensures KeyFor(Factory(known), a) == Some(DefaultOf(a)) && FactoryOwner(DefaultOf(a)) == Some(a)
    {
      FirstDefaultIs(a, 0);
      DefaultsAreDistinct(a);
    }
  }

  lemma {:induction false} HolderHolds(b: Bindings, chord: Chord, from: nat)
    requires from <= |DEFAULTS|
    ensures FirstHolder(b, chord, from).Some? ==> KeyFor(b, FirstHolder(b, chord, from).value) == Some(chord)
    ensures FirstHolder(b, chord, from) == None ==>
              forall a :: from <= Place(a) < |DEFAULTS| ==> KeyFor(b, a) != Some(chord)
    decreases |DEFAULTS| - from
  {
    hide KeyFor;
    if from < |DEFAULTS| {
      HolderHolds(b, chord, from + 1);
      forall a | Place(a) == from
        ensures DEFAULTS[from].0 == a
      {
        PlaceIsPlace(a);
      }
    }
  }

  /** A chord triggers an action exactly when the action is bound to it. */
  lemma TriggersIffBound(b: Bindings, chord: Chord, a: Action)
    requires Unshared(b)
    ensures ActionFor(b, chord) == Some(a) <==> KeyFor(b, a) == Some(chord)
  {
    hide KeyFor;
    HolderHolds(b, chord, 0);
    PlaceIsPlace(a);
  }

  lemma UnbindFrame(b: Bindings, p: Action, other: Action)
    ensures KeyFor(Unbind(b, p), other) == if other == p then None else KeyFor(b, other)
  {
    hide FirstDefault;
  }

  lemma BindFrame(b: Bindings, action: Action, chord: Chord, other: Action)
    requires chord.scancode.code in b.known
    ensures KeyFor(b.(unbound := Without(b.unbound, action), overrides := b.overrides[action := FromChord(chord)]),
                   other)
         == if other == action then Some(chord) else KeyFor(b, other)
  {
    hide FirstDefault, Without;
  }

  /** A rebind gives the action its chord, leaves the one action that held the chord
      without any, and touches no other. */
  lemma RebindFrame(b: Bindings, action: Action, chord: Chord, other: Action)
    requires Good(b) && chord.scancode.code in b.known
    ensures KeyFor(Rebound(b, action, chord), other)
         == if other == action then Some(chord)
            else if KeyFor(b, other) == Some(chord) then None
            else KeyFor(b, other)
  {
    TriggersIffBound(b, chord, other);
    var previous := ActionFor(b, chord);
    var cleared := if previous.Some? && previous.value != action then Unbind(b, previous.value) else b;
    if previous.Some? {
      UnbindFrame(b, previous.value, other);
    }
    BindFrame(cleared, action, chord, other);
    hide KeyFor, ActionFor, Unbind, Good, Without;
  }

  lemma RebindKeepsLists(b: Bindings, action: Action, chord: Chord)
    requires OverridesOk(b) && ListsOk(b) && chord.scancode.code in b.known
    ensures OverridesOk(Rebound(b, action, chord)) && ListsOk(Rebound(b, action, chord))
  {
    hide FirstHolder;
    var previous := ActionFor(b, chord);
    var cleared := if previous.Some? && previous.value != action then Unbind(b, previous.value) else b;
    assert NoRepeats(cleared.unbound);
    WithoutRepeats(cleared.unbound, action);
  }

  lemma RebindKeeps(b: Bindings, action: Action, chord: Chord)
    requires Good(b) && chord.scancode.code in b.known
    ensures Good(Rebound(b, action, chord))
  {
    RebindKeepsLists(b, action, chord);
    var u := Rebound(b, action, chord);
    forall a, o | a != o && KeyFor(u, a).Some?
      ensures KeyFor(u, a) != KeyFor(u, o)
    {
      RebindFrame(b, action, chord, a);
      RebindFrame(b, action, chord, o);
      hide KeyFor, Rebound;
    }
  }

  datatype Change = RebindTo(action: Action, chord: Chord) | ResetToFactory

  function Changed(b: Bindings, c: Change): Bindings {
    match c
    case RebindTo(action, chord) => Rebound(b, action, chord)
    case ResetToFactory => Factory(b.known)
  }

  function After(b: Bindings, history: seq<Change>): Bindings {
    if history == [] then b else Changed(After(b, history[..|history| - 1]), history[|history| - 1])
  }

  // A capture only ever hands over a scancode SDL has.
  ghost predicate Captured(history: seq<Change>, known: set<int>) {
    forall c :: c in history && c.RebindTo? ==> c.chord.scancode.code in known
  }

  /** Whatever was rebound and reset from the factory table: no chord fires two actions,
      a chord fires exactly the action bound to it, and the overrides and the unbound list
      stay disjoint and free of repeats. */
  lemma {:induction false} EveryHistoryIsGood(known: set<int>, history: seq<Change>)
    requires Captured(history, known)
    ensures var b := After(Factory(known), history);
      Good(b) && b.known == known
      && forall a, chord :: ActionFor(b, chord) == Some(a) <==> KeyFor(b, a) == Some(chord)
    decreases |history|
  {
    hide Good, KeyFor, ActionFor, Changed;
    var b := After(Factory(known), history);
    if history == [] {
      FactoryIsGood(known);
    } else {
      var before := history[..|history| - 1];
      var last := history[|history| - 1];
      assert last in history;
      EveryHistoryIsGood(known, before);
      ChangeKeeps(After(Factory(known), before), last);
    }
    forall a, chord
      ensures ActionFor(b, chord) == Some(a) <==> KeyFor(b, a) == Some(chord)
    {
      GoodTriggers(b, chord, a);
    }
  }

  lemma GoodTriggers(b: Bindings, chord: Chord, a: Action)
    requires Good(b)
    ensures ActionFor(b, chord) == Some(a) <==> KeyFor(b, a) == Some(chord)
  {
    TriggersIffBound(b, chord, a);
  }

  lemma ChangeKeeps(b: Bindings, c: Change)
    requires Good(b) && (c.RebindTo? ==> c.chord.scancode.code in b.known)
    ensures Good(Changed(b, c)) && Changed(b, c).known == b.known
  {
    hide Good;
    match c
    case RebindTo(action, chord) => RebindKeeps(b, action, chord);
    case ResetToFactory => FactoryIsGood(b.known);
  }

  /** The displaced action stays without a chord until it is bound again or everything is
      reset: its factory chord does not come back by itself. */
  lemma DisplacedStaysUnbound(b: Bindings, displaced: Action, action: Action, chord: Chord)
    requires Good(b) && chord.scancode.code in b.known
    requires KeyFor(b, displaced) == None && action != displaced
    ensures KeyFor(Rebound(b, action, chord), displaced) == None
  {
    hide KeyFor, Rebound, Good;
    RebindFrame(b, action, chord, displaced);
  }

  /** The key of an action: none while it is unbound; what its override says, and none when
      that is a number no key has; otherwise its factory chord. */
  lemma KeyForIs(b: Bindings, action: Action, i: nat)
    requires i < |DEFAULTS| && DEFAULTS[i].0 == action
    ensures action in b.unbound ==> KeyFor(b, action) == None
    ensures action !in b.unbound && action in b.overrides ==>
              var stored := b.overrides[action];
              && (stored.code !in b.known ==> KeyFor(b, action) == None)
              && (stored.code in b.known ==>
                    KeyFor(b, action) == Some(Chord(Scancode(stored.code), stored == Modified(stored.code, true))))
    ensures action !in b.unbound && action !in b.overrides ==> KeyFor(b, action) == Some(DEFAULTS[i].1)
  {
    PlacesAreOnce(i);
    FirstDefaultIs(action, 0);
    hide FirstDefault;
  }

  ghost predicate FactoryKey(action: Action, usage: int, shift: bool) {
    forall known :: KeyFor(Factory(known), action) == Some(Chord(Scancode(usage), shift))
  }

  lemma FactoryKeyAt(i: nat)
    requires i < |DEFAULTS|
    ensures FactoryKey(DEFAULTS[i].0, DEFAULTS[i].1.scancode.code, DEFAULTS[i].1.shift)
  {
    forall known
      ensures KeyFor(Factory(known), DEFAULTS[i].0) == Some(DEFAULTS[i].1)
    {
      KeyForIs(Factory(known), DEFAULTS[i].0, i);
    }
    hide KeyFor;
  }

  /** The factory's keys by their numbers on the keyboard page of the USB usage tables. */
  lemma SessionKeys()
    ensures FactoryKey(Quit, 0x29, false) && FactoryKey(Reset, 0x3C, false) && FactoryKey(HardReset, 0x3C, true)
    ensures FactoryKey(QuickSave, 0x3F, false) && FactoryKey(QuickLoad, 0x40, false)
    ensures FactoryKey(Screenshot, 0x45, false) && FactoryKey(MovieRecord, 0x45, true)
    ensures FactoryKey(TogglePause, 0x3E, false) && FactoryKey(FrameAdvance, 0x3E, true)
  {
    hide FactoryKey;
    FactoryKeyAt(0);
    FactoryKeyAt(1);
    FactoryKeyAt(2);
    FactoryKeyAt(3);
    FactoryKeyAt(4);
    FactoryKeyAt(5);
    FactoryKeyAt(6);
    FactoryKeyAt(7);
    FactoryKeyAt(21);
  }

  lemma PanelKeys()
    ensures FactoryKey(ToggleDebugPanel, 0x3A, false) && FactoryKey(ToggleSettingsPanel, 0x3A, true)
    ensures FactoryKey(ToggleDipPanel, 0x35, false) && FactoryKey(ToggleDisplayPanel, 0x35, true)
    ensures FactoryKey(ToggleFps, 0x44, false) && FactoryKey(ToggleProfiler, 0x44, true)
    ensures FactoryKey(ToggleThrottle, 0x43, false)
    ensures FactoryKey(ToggleMouseGrab, 0x47, false) && FactoryKey(ToggleKeyLegend, 0x38, false)
  {
    hide FactoryKey;
    FactoryKeyAt(8);
    FactoryKeyAt(9);
    FactoryKeyAt(10);
    FactoryKeyAt(11);
    FactoryKeyAt(12);
    FactoryKeyAt(13);
    FactoryKeyAt(14);
    FactoryKeyAt(15);
    FactoryKeyAt(16);
  }

  /** The step keys, cycle, instruction and frame, side by side. */
  lemma StepKeys()
    ensures FactoryKey(ToggleDebugPause, 0x41, false) && FactoryKey(StepCycle, 0x41, true)
    ensures FactoryKey(StepInstruction, 0x42, true) && FactoryKey(StepFrame, 0x43, true)
  {
    hide FactoryKey;
    FactoryKeyAt(17);
    FactoryKeyAt(18);
    FactoryKeyAt(19);
    FactoryKeyAt(20);
  }
}
