/** The binding set of a machine: defaults, rebinding, tuning, and the saved form that is
    overlaid on the defaults. */
module InputBindings {
  import opened Basics
  import opened InputTokens
  import DefaultInputs

  type bits = u32

  // Single-precision values by their bit patterns.
  const ONE: bits := 0x3F80_0000
  const ZERO: bits := 0
  const STICK_DEADZONE: bits := 0x3E9C_4000

  predicate IsNaN(x: bits) {
    x % 0x8000_0000 > 0x7F80_0000
  }

  predicate IsZero(x: bits) {
    x % 0x8000_0000 == 0
  }

  // Comparison as the hardware does it.
  predicate FloatEq(x: bits, y: bits) {
    !IsNaN(x) && !IsNaN(y) && (x == y || (IsZero(x) && IsZero(y)))
  }

  // What a control's role brings along is unioned with its own suggestions.
  datatype Control = Control(id: nat, name: string, player: Option<nat>, role: Option<DefaultInputs.Role>,
                             suggestions: seq<Suggestion>)

  type Suggestion = d: DefaultInputs.DefaultBinding | DefaultInputs.DefaultOk(d)
    witness DefaultInputs.KeyDefault(DefaultInputs.Space)

  function Suggested(c: Control): seq<Suggestion> {
    (match c.role case Some(role) => DefaultInputs.RoleDefaults(role, c.player) case None => []) + c.suggestions
  }

  type Binding = BindingOf<bits>

  datatype Serialized = Serialized(control: string, input: string, scale: Option<bits>, deadzone: Option<bits>)

  datatype Category = Keyboard | Pad | Mouse

  function CategoryOf(p: Physical): Category {
    match p
    case Key(_) => Keyboard
    case PadButton(_) => Pad
    case PadAxis(_, _) => Pad
    case PadFullAxis(_) => Pad
    case MouseButtonInput(_) => Mouse
    case MouseAxis(_) => Mouse
  }

  predicate IsAxis(p: Physical) {
    p.PadAxis? || p.PadFullAxis?
  }

  function DefaultDeadzone(p: Physical): bits {
    if IsAxis(p) then STICK_DEADZONE else ZERO
  }

  // Only pad inputs belong to a player's pad.
  function SlotOf(p: Physical, player: Option<nat>): Option<nat> {
    if CategoryOf(p) == Pad then player else None
  }

  function MakeBinding(p: Physical, target: nat, player: Option<nat>): Binding {
    Bind(p, target, SlotOf(p, player), ONE, DefaultDeadzone(p))
  }

  // ---------------------------------------------------------------------------
  // Tables
  // ---------------------------------------------------------------------------

  // Built by inserting every control in turn, so the last of a repeated key wins.
  function NameById(controls: seq<Control>): map<nat, string> {
    if controls == [] then map[] else
      var c := controls[|controls| - 1];
      NameById(controls[..|controls| - 1])[c.id := c.name]
  }

  function IdByName(controls: seq<Control>): map<string, nat> {
    if controls == [] then map[] else
      var c := controls[|controls| - 1];
      IdByName(controls[..|controls| - 1])[c.name := c.id]
  }

  function PlayerOf(controls: seq<Control>, id: nat): Option<nat> {
    if controls == [] then None
    else if controls[0].id == id then controls[0].player
    else PlayerOf(controls[1..], id)
  }

  ghost predicate UniqueTable(controls: seq<Control>) {
    forall i, j :: 0 <= i < j < |controls| ==>
      controls[i].id != controls[j].id && controls[i].name != controls[j].name
  }

  ghost predicate HasId(controls: seq<Control>, id: nat) {
    exists i :: 0 <= i < |controls| && controls[i].id == id
  }

  lemma {:induction false} TablesAgree(controls: seq<Control>, i: nat)
    requires UniqueTable(controls) && i < |controls|
    ensures controls[i].id in NameById(controls) && NameById(controls)[controls[i].id] == controls[i].name
    ensures controls[i].name in IdByName(controls) && IdByName(controls)[controls[i].name] == controls[i].id
    decreases |controls|
  {
    var n := |controls| - 1;
    if i < n {
      TablesAgree(controls[..n], i);
      assert controls[..n][i] == controls[i];
    }
  }

  lemma {:induction false} PlayerAt(controls: seq<Control>, i: nat)
    requires UniqueTable(controls) && i < |controls|
    ensures PlayerOf(controls, controls[i].id) == controls[i].player
    decreases |controls|
  {
    if i > 0 {
      PlayerAt(controls[1..], i - 1);
    }
  }

  /** With unique ids and names, an id survives the trip through its name. */
  lemma NamesRoundTrip(controls: seq<Control>, id: nat)
    requires UniqueTable(controls) && HasId(controls, id)
    ensures id in NameById(controls) && NameById(controls)[id] in IdByName(controls)
    ensures IdByName(controls)[NameById(controls)[id]] == id
  {
    var i :| 0 <= i < |controls| && controls[i].id == id;
    TablesAgree(controls, i);
  }

  // ---------------------------------------------------------------------------
  // The operations on binding lists
  // ---------------------------------------------------------------------------

  function ControlDefaults(c: Control, n: nat): seq<Binding>
    requires n <= |Suggested(c)|
  {
    if n == 0 then []
    else ControlDefaults(c, n - 1) + [MakeBinding(DefaultInputs.ToPhysical(Suggested(c)[n - 1]), c.id, c.player)]
  }

  function Defaults(controls: seq<Control>): seq<Binding> {
    if controls == [] then [] else
      var c := controls[|controls| - 1];
      Defaults(controls[..|controls| - 1]) + ControlDefaults(c, |Suggested(c)|)
  }

  function Kept(bindings: seq<Binding>, keep: Binding -> bool): (r: seq<Binding>)
    ensures forall b :: b in r <==> b in bindings && keep(b)
  {
    if bindings == [] then [] else
      var last := bindings[|bindings| - 1];
      Kept(bindings[..|bindings| - 1], keep) + if keep(last) then [last] else []
  }

  function Rebound(bindings: seq<Binding>, controls: seq<Control>, target: nat, p: Physical): seq<Binding> {
    Kept(bindings, (b: Binding) => b.target != target || CategoryOf(b.physical) != CategoryOf(p))
    + [MakeBinding(p, target, PlayerOf(controls, target))]
  }

  function Scaled(b: Binding, target: nat, scale: bits): Binding {
    if b.target == target then b.(scale := scale) else b
  }

  function Tuned(b: Binding, target: nat, deadzone: bits): Binding {
    if b.target == target && IsAxis(b.physical) then b.(deadzone := deadzone) else b
  }

  // The saved form of one binding whose control is named.
  function Saved(lex: Lexicon, b: Binding, name: string): Serialized
    requires lex.Knows(b.physical)
  {
    Serialized(name, ToToken(lex, b.physical),
               if FloatEq(b.scale, ONE) then None else Some(b.scale),
               if FloatEq(b.deadzone, DefaultDeadzone(b.physical)) then None else Some(b.deadzone))
  }

  ghost predicate AllKnown(lex: Lexicon, bindings: seq<Binding>) {
    forall b :: b in bindings ==> lex.Knows(b.physical)
  }

  function ToSerialized(lex: Lexicon, bindings: seq<Binding>, controls: seq<Control>): seq<Serialized>
    requires AllKnown(lex, bindings)
  {
    if bindings == [] then [] else
      var b := bindings[|bindings| - 1];
      ToSerialized(lex, bindings[..|bindings| - 1], controls)
      + if b.target in NameById(controls) then [Saved(lex, b, NameById(controls)[b.target])] else []
  }

  function Touched(controls: seq<Control>, saved: seq<Serialized>): (r: set<nat>)
    ensures forall s :: s in saved && s.control in IdByName(controls) ==> IdByName(controls)[s.control] in r
    ensures forall id :: id in r ==> exists s :: s in saved && s.control in IdByName(controls)
                                              && IdByName(controls)[s.control] == id
  {
    if saved == [] then {} else
      var s := saved[|saved| - 1];
      assert saved == saved[..|saved| - 1] + [s];
      Touched(controls, saved[..|saved| - 1])
      + if s.control in IdByName(controls) then {IdByName(controls)[s.control]} else {}
  }

  function Unwrap(x: Option<bits>, otherwise: bits): bits {
    match x case Some(v) => v case None => otherwise
  }

  // What one saved entry adds: nothing for an unknown control or an unreadable token.
  function Loaded(lex: Lexicon, controls: seq<Control>, s: Serialized): seq<Binding> {
    if s.control !in IdByName(controls) then [] else
      match FromToken(lex, s.input)
      case None => []
      case Some(p) =>
        var target := IdByName(controls)[s.control];
        [MakeBinding(p, target, PlayerOf(controls, target))
          .(scale := Unwrap(s.scale, ONE), deadzone := Unwrap(s.deadzone, DefaultDeadzone(p)))]
  }

  function LoadedAll(lex: Lexicon, controls: seq<Control>, saved: seq<Serialized>): seq<Binding> {
    if saved == [] then []
    else LoadedAll(lex, controls, saved[..|saved| - 1]) + Loaded(lex, controls, saved[|saved| - 1])
  }

  function Overlaid(lex: Lexicon, bindings: seq<Binding>, controls: seq<Control>, saved: seq<Serialized>): seq<Binding> {
    var touched := Touched(controls, saved);
    Kept(bindings, (b: Binding) => b.target !in touched) + LoadedAll(lex, controls, saved)
  }

  class BindingSet {
    var bindings: seq<Binding>

    constructor FromControls(controls: seq<Control>)
      ensures bindings == Defaults(controls)
    {
      bindings := [];
      new;
      for i := 0 to |controls|
        invariant bindings == Defaults(controls[..i])
      {
        assert controls[..i + 1][..i] == controls[..i];
        ghost var before := bindings;
        var suggested := Suggested(controls[i]);
        for j := 0 to |suggested|
          invariant bindings == before + ControlDefaults(controls[i], j)
        {
          var physical := DefaultInputs.ToPhysical(suggested[j]);
          bindings := bindings + [MakeBinding(physical, controls[i].id, controls[i].player)];
        }
      }
      assert controls[..|controls|] == controls;
    }

    /** Replace a control's bindings of the captured input's category, and only those. */
    method Rebind(controls: seq<Control>, target: nat, p: Physical)
      modifies this
      ensures bindings == Rebound(old(bindings), controls, target, p)
    {
      bindings := Kept(bindings, (b: Binding) => b.target != target || CategoryOf(b.physical) != CategoryOf(p));
      bindings := bindings + [MakeBinding(p, target, PlayerOf(controls, target))];
    }

    method SetScale(target: nat, scale: bits)
      modifies this
      ensures |bindings| == |old(bindings)|
      ensures forall i :: 0 <= i < |bindings| ==> bindings[i] == Scaled(old(bindings)[i], target, scale)
    {
      for i := 0 to |bindings|
        invariant |bindings| == |old(bindings)|
        invariant forall k :: 0 <= k < i ==> bindings[k] == Scaled(old(bindings)[k], target, scale)
        invariant forall k :: i <= k < |bindings| ==> bindings[k] == old(bindings)[k]
      {
        if bindings[i].target == target {
          bindings := bindings[i := bindings[i].(scale := scale)];
        }
      }
    }

    method SetDeadzone(target: nat, deadzone: bits)
      modifies this
      ensures |bindings| == |old(bindings)|
      ensures forall i :: 0 <= i < |bindings| ==> bindings[i] == Tuned(old(bindings)[i], target, deadzone)
    {
      for i := 0 to |bindings|
        invariant |bindings| == |old(bindings)|
        invariant forall k :: 0 <= k < i ==> bindings[k] == Tuned(old(bindings)[k], target, deadzone)
        invariant forall k :: i <= k < |bindings| ==> bindings[k] == old(bindings)[k]
      {
        if bindings[i].target == target && IsAxis(bindings[i].physical) {
          bindings := bindings[i := bindings[i].(deadzone := deadzone)];
        }
      }
    }

    method ApplyOverrides(lex: Lexicon, controls: seq<Control>, saved: seq<Serialized>)
      modifies this
      ensures bindings == Overlaid(lex, old(bindings), controls, saved)
    {
      var touched := Touched(controls, saved);
      bindings := Kept(bindings, (b: Binding) => b.target !in touched);
      ghost var kept := bindings;
      for i := 0 to |saved|
        invariant bindings == kept + LoadedAll(lex, controls, saved[..i])
      {
        assert saved[..i + 1][..i] == saved[..i];
        bindings := bindings + Loaded(lex, controls, saved[i]);
      }
      assert saved[..|saved|] == saved;
    }
  }

  // ---------------------------------------------------------------------------
  // Restoring
  // ---------------------------------------------------------------------------

  ghost predicate BindingOk(lex: Lexicon, controls: seq<Control>, b: Binding) {
    && lex.Knows(b.physical) && HasId(controls, b.target)
    && b.playerSlot == SlotOf(b.physical, PlayerOf(controls, b.target))
    && (!IsAxis(b.physical) ==> b.deadzone == ZERO)
  }

  ghost predicate Drives(bindings: seq<Binding>, target: nat) {
    exists b :: b in bindings && b.target == target
  }

  /** What every binding set built from the table keeps: known inputs on the table's
      controls, slots that follow from the table, and no default control left bare. */
  ghost predicate SetOk(lex: Lexicon, controls: seq<Control>, bindings: seq<Binding>) {
    && (forall b :: b in bindings ==> BindingOk(lex, controls, b))
    && forall d :: d in Defaults(controls) ==> Drives(bindings, d.target)
  }

  // A binding as it comes back: the input the token stands for, everything else as it was.
  function Back(b: Binding): Binding {
    b.(physical := Written(b.physical))
  }

  lemma SavedLoads(lex: Lexicon, controls: seq<Control>, b: Binding)
    requires lex.Valid() && UniqueTable(controls) && BindingOk(lex, controls, b)
    ensures b.target in NameById(controls)
    ensures var s := Saved(lex, b, NameById(controls)[b.target]);
      && s.control in IdByName(controls) && IdByName(controls)[s.control] == b.target
      && Loaded(lex, controls, s) == [Back(b)]
  {
    NamesRoundTrip(controls, b.target);
    TokenLoadsAs(lex, b.physical);
    hide NameById, IdByName, PlayerOf, FromToken, ToToken, UniqueTable;
  }

  function BackAll(bindings: seq<Binding>): (r: seq<Binding>) {
    if bindings == [] then [] else BackAll(bindings[..|bindings| - 1]) + [Back(bindings[|bindings| - 1])]
  }

  lemma {:induction false} SavedLoadsAll(lex: Lexicon, controls: seq<Control>, bindings: seq<Binding>)
    requires lex.Valid() && UniqueTable(controls)
    requires AllKnown(lex, bindings) && forall b :: b in bindings ==> BindingOk(lex, controls, b)
    ensures LoadedAll(lex, controls, ToSerialized(lex, bindings, controls)) == BackAll(bindings)
    ensures forall b :: b in bindings ==> b.target in Touched(controls, ToSerialized(lex, bindings, controls))
    decreases |bindings|
  {
    hide BindingOk, Saved, Loaded, NameById, IdByName, UniqueTable;
    if bindings != [] {
      var n := |bindings| - 1;
      var before, b := bindings[..n], bindings[n];
      assert bindings == before + [b];
      SavedLoadsAll(lex, controls, before);
      SavedLoads(lex, controls, b);
      var saved := ToSerialized(lex, bindings, controls);
      var s := Saved(lex, b, NameById(controls)[b.target]);
      assert saved == ToSerialized(lex, before, controls) + [s];
      assert saved[..|saved| - 1] == ToSerialized(lex, before, controls) && saved[|saved| - 1] == s;
    }
  }

  lemma {:induction false} NothingKept(bindings: seq<Binding>, keep: Binding -> bool)
    requires forall b :: b in bindings ==> !keep(b)
    ensures Kept(bindings, keep) == []
  {
    if bindings != [] {
      NothingKept(bindings[..|bindings| - 1], keep);
    }
  }

  /** Overlaying the saved form of a binding set on the defaults gives back its bindings,
      in order, each as its token reads. */
  lemma OverlayGives(lex: Lexicon, controls: seq<Control>, bindings: seq<Binding>)
    requires lex.Valid() && UniqueTable(controls) && SetOk(lex, controls, bindings)
    ensures Overlaid(lex, Defaults(controls), controls, ToSerialized(lex, bindings, controls)) == BackAll(bindings)
  {
    var saved := ToSerialized(lex, bindings, controls);
    var touched := Touched(controls, saved);
    SavedLoadsAll(lex, controls, bindings);
    hide ToSerialized, BackAll, LoadedAll, Kept, Touched, BindingOk, UniqueTable, Defaults;
    NothingKept(Defaults(controls), (b: Binding) => b.target !in touched);
  }

  lemma {:induction false} BackIsSame(bindings: seq<Binding>)
    ensures BackAll(bindings) == bindings <==> forall b :: b in bindings ==> !Wordless(b.physical)
  {
    BackAt(bindings);
    var r := BackAll(bindings);
    if forall b :: b in bindings ==> !Wordless(b.physical) {
      assert forall i :: 0 <= i < |bindings| ==> bindings[i] in bindings;
      assert r == bindings;
    } else {
      var b :| b in bindings && Wordless(b.physical);
      var i :| 0 <= i < |bindings| && bindings[i] == b;
      assert r[i] != bindings[i];
    }
  }

  lemma {:induction false} BackAt(bindings: seq<Binding>)
    ensures |BackAll(bindings)| == |bindings|
    ensures forall i :: 0 <= i < |bindings| ==> BackAll(bindings)[i] == Back(bindings[i])
  {
    if bindings != [] {
      BackAt(bindings[..|bindings| - 1]);
    }
  }

  // ---------------------------------------------------------------------------
  // Every set a session can reach
  // ---------------------------------------------------------------------------

  datatype Edit =
    | RebindTo(target: nat, physical: Physical)
    | ScaleTo(target: nat, scale: bits)
    | DeadzoneTo(target: nat, deadzone: bits)

  // `Rebind`, `SetScale` and `SetDeadzone`, as a relation between binding lists.
  ghost predicate EditStep(controls: seq<Control>, before: seq<Binding>, edit: Edit, after: seq<Binding>) {
    match edit
    case RebindTo(target, p) => after == Rebound(before, controls, target, p)
    case ScaleTo(target, scale) =>
      |after| == |before| && forall i :: 0 <= i < |after| ==> after[i] == Scaled(before[i], target, scale)
    case DeadzoneTo(target, deadzone) =>
      |after| == |before| && forall i :: 0 <= i < |after| ==> after[i] == Tuned(before[i], target, deadzone)
  }

  ghost predicate EditOk(lex: Lexicon, controls: seq<Control>, edit: Edit) {
    edit.RebindTo? ==> HasId(controls, edit.target) && lex.Knows(edit.physical)
  }

  // Binding lists a session passes through, from the defaults on.
  ghost predicate Session(lex: Lexicon, controls: seq<Control>, states: seq<seq<Binding>>, edits: seq<Edit>) {
    && |states| == |edits| + 1 && states[0] == Defaults(controls)
    && forall i :: 0 <= i < |edits| ==>
         EditOk(lex, controls, edits[i]) && EditStep(controls, states[i], edits[i], states[i + 1])
  }

  ghost predicate TableOk(lex: Lexicon, controls: seq<Control>) {
    UniqueTable(controls) && forall c, d :: c in controls && d in Suggested(c) ==> lex.Knows(DefaultInputs.ToPhysical(d))
  }

  lemma {:induction false} ControlDefaultsOk(lex: Lexicon, controls: seq<Control>, i: nat, n: nat)
    requires TableOk(lex, controls) && i < |controls| && n <= |Suggested(controls[i])|
    ensures forall b :: b in ControlDefaults(controls[i], n) ==> BindingOk(lex, controls, b)
    decreases n
  {
    PlayerAt(controls, i);
    hide UniqueTable, PlayerOf;
    if n > 0 {
      ControlDefaultsOk(lex, controls, i, n - 1);
      assert controls[i] in controls && Suggested(controls[i])[n - 1] in Suggested(controls[i]);
    }
  }

  lemma {:induction false} SomeDefaultsOk(lex: Lexicon, controls: seq<Control>, n: nat)
    requires TableOk(lex, controls) && n <= |controls|
    ensures forall b :: b in Defaults(controls[..n]) ==> BindingOk(lex, controls, b)
    decreases n
  {
    hide BindingOk, TableOk;
    if n > 0 {
      SomeDefaultsOk(lex, controls, n - 1);
      ControlDefaultsOk(lex, controls, n - 1, |Suggested(controls[n - 1])|);
      assert controls[..n][..n - 1] == controls[..n - 1];
    }
  }

  lemma DefaultsOk(lex: Lexicon, controls: seq<Control>)
    requires TableOk(lex, controls)
    ensures SetOk(lex, controls, Defaults(controls))
  {
    SomeDefaultsOk(lex, controls, |controls|);
    assert controls[..|controls|] == controls;
  }

  lemma EditKeeps(lex: Lexicon, controls: seq<Control>, before: seq<Binding>, edit: Edit, after: seq<Binding>)
    requires SetOk(lex, controls, before) && EditOk(lex, controls, edit) && EditStep(controls, before, edit, after)
    ensures SetOk(lex, controls, after)
  {
    hide Defaults, SetOk, BindingOk, Rebound;
    match edit
    case RebindTo(target, p) => RebindKeeps(lex, controls, before, target, p);
    case ScaleTo(target, scale) =>
      forall i | 0 <= i < |before|
        ensures after[i].target == before[i].target
        ensures BindingOk(lex, controls, before[i]) ==> BindingOk(lex, controls, after[i])
      {
        TuningKeeps(lex, controls, before[i], target, scale, before[i].deadzone);
      }
      TunedSetOk(lex, controls, before, after);
    case DeadzoneTo(target, deadzone) =>
      forall i | 0 <= i < |before|
        ensures after[i].target == before[i].target
        ensures BindingOk(lex, controls, before[i]) ==> BindingOk(lex, controls, after[i])
      {
        TuningKeeps(lex, controls, before[i], target, before[i].scale, deadzone);
      }
      TunedSetOk(lex, controls, before, after);
  }

  lemma TuningKeeps(lex: Lexicon, controls: seq<Control>, b: Binding, target: nat, scale: bits, deadzone: bits)
    ensures BindingOk(lex, controls, b) ==>
              BindingOk(lex, controls, Scaled(b, target, scale)) && BindingOk(lex, controls, Tuned(b, target, deadzone))
  {
  }

  // A change in place that keeps every binding good and its control.
  lemma TunedSetOk(lex: Lexicon, controls: seq<Control>, before: seq<Binding>, after: seq<Binding>)
    requires SetOk(lex, controls, before) && |after| == |before|
    requires forall i :: 0 <= i < |before| ==>
               after[i].target == before[i].target
               && (BindingOk(lex, controls, before[i]) ==> BindingOk(lex, controls, after[i]))
    ensures SetOk(lex, controls, after)
  {
    hide BindingOk, Defaults;
    forall b | b in after
      ensures BindingOk(lex, controls, b)
    {
      var i :| 0 <= i < |after| && after[i] == b;
      assert before[i] in before;
    }
    forall d | d in Defaults(controls)
      ensures Drives(after, d.target)
    {
      var b :| b in before && b.target == d.target;
      var i :| 0 <= i < |before| && before[i] == b;
      assert after[i] in after;
    }
  }

  lemma RebindKeeps(lex: Lexicon, controls: seq<Control>, before: seq<Binding>, target: nat, p: Physical)
    requires SetOk(lex, controls, before) && HasId(controls, target) && lex.Knows(p)
    ensures SetOk(lex, controls, Rebound(before, controls, target, p))
  {
    hide Defaults, Kept, HasId, PlayerOf;
    var after := Rebound(before, controls, target, p);
    var added := after[|after| - 1];
    assert added in after && added.target == target;
    forall d | d in Defaults(controls)
      ensures Drives(after, d.target)
    {
      if d.target != target {
        var b :| b in before && b.target == d.target;
        assert b in after;
      }
    }
  }

  lemma {:induction false} SessionOk(lex: Lexicon, controls: seq<Control>, states: seq<seq<Binding>>,
                                     edits: seq<Edit>, k: nat)
    requires TableOk(lex, controls) && Session(lex, controls, states, edits) && k <= |edits|
    ensures SetOk(lex, controls, states[k])
    decreases k
  {
    hide TableOk, SetOk, EditStep, EditOk;
    if k == 0 {
      DefaultsOk(lex, controls);
    } else {
      SessionOk(lex, controls, states, edits, k - 1);
      EditKeeps(lex, controls, states[k - 1], edits[k - 1], states[k]);
    }
  }

  /** Whatever was rebound and tuned, the saved form overlaid on the defaults restores the
      identical list of bindings, in order, with slots, scales and deadzones bit for bit:
      exactly when no extra mouse button is bound. */
  lemma RestoredIff(lex: Lexicon, controls: seq<Control>, states: seq<seq<Binding>>, edits: seq<Edit>)
    requires lex.Valid() && TableOk(lex, controls) && Session(lex, controls, states, edits)
    ensures var bindings := states[|edits|];
      && AllKnown(lex, bindings)
      && (Overlaid(lex, Defaults(controls), controls, ToSerialized(lex, bindings, controls)) == bindings
          <==> forall b :: b in bindings ==> !Wordless(b.physical))
  {
    hide Overlaid, ToSerialized, Defaults, EditStep, EditOk, UniqueTable;
    SessionOk(lex, controls, states, edits, |edits|);
    OverlayGives(lex, controls, states[|edits|]);
    BackIsSame(states[|edits|]);
  }

  /** A rebind leaves every binding of another control, and every binding of the control in
      another category, as it was and where it was. */
  lemma RebindFrame(bindings: seq<Binding>, controls: seq<Control>, target: nat, p: Physical, b: Binding)
    ensures b.target != target || CategoryOf(b.physical) != CategoryOf(p) ==>
              (b in Rebound(bindings, controls, target, p) <==> b in bindings)
    ensures b.target == target && CategoryOf(b.physical) == CategoryOf(p) ==>
              (b in Rebound(bindings, controls, target, p)
               <==> b == MakeBinding(p, target, PlayerOf(controls, target)))
  {
    hide Kept, PlayerOf;
  }

  // ---------------------------------------------------------------------------
  // What a list holds, binding by binding
  // ---------------------------------------------------------------------------

  ghost predicate OfPad(p: Physical) {
    p.PadButton? || p.PadAxis? || p.PadFullAxis?
  }

  // As made: on a pad input for the control's player, at full scale, past a stick's rest.
  ghost predicate IsFresh(b: Binding, p: Physical, target: nat, player: Option<nat>) {
    && b.physical == p && b.target == target && b.scale == 0x3F80_0000
    && b.playerSlot == (if OfPad(p) then player else None)
    && b.deadzone == (if p.PadAxis? || p.PadFullAxis? then 0x3E9C_4000 else 0)
  }

  lemma MadeFresh(p: Physical, target: nat, player: Option<nat>)
    ensures IsFresh(MakeBinding(p, target, player), p, target, player)
  {
  }

  ghost predicate SameCategory(p: Physical, q: Physical) {
    (p.Key? && q.Key?) || (OfPad(p) && OfPad(q))
    || ((p.MouseButtonInput? || p.MouseAxis?) && (q.MouseButtonInput? || q.MouseAxis?))
  }

  lemma Categories(p: Physical, q: Physical)
    ensures CategoryOf(p) == CategoryOf(q) <==> SameCategory(p, q)
  {
  }

  ghost function KeepBy(keep: Binding -> bool): Binding -> Option<Binding> {
    (b: Binding) => if keep(b) then Some(b) else None
  }

  lemma {:induction false} KeptPicks(bindings: seq<Binding>, keep: Binding -> bool)
    ensures Picks(bindings, KeepBy(keep), Kept(bindings, keep))
    decreases |bindings|
  {
    hide Picks;
    if bindings == [] {
      PicksNone(KeepBy(keep));
    } else {
      var front, b := bindings[..|bindings| - 1], bindings[|bindings| - 1];
      KeptPicks(front, keep);
      PicksNext(front, b, KeepBy(keep), Kept(front, keep));
      assert bindings == front + [b];
    }
  }

  /** A rebind keeps, in order, exactly the bindings of other controls and of the control's
      other categories, and puts the new one last, fresh. */
  lemma RebindIs(bindings: seq<Binding>, controls: seq<Control>, target: nat, p: Physical)
    requires UniqueTable(controls)
    ensures var stays := (b: Binding) => b.target != target || !SameCategory(b.physical, p);
      exists kept, added :: Rebound(bindings, controls, target, p) == kept + [added]
        && Picks(bindings, KeepBy(stays), kept)
        && forall c :: c in controls && c.id == target ==> IsFresh(added, p, target, c.player)
  {
    var keep := (b: Binding) => b.target != target || CategoryOf(b.physical) != CategoryOf(p);
    var stays := (b: Binding) => b.target != target || !SameCategory(b.physical, p);
    var kept, added := Kept(bindings, keep), MakeBinding(p, target, PlayerOf(controls, target));
    KeptPicks(bindings, keep);
    forall b: Binding
      ensures KeepBy(keep)(b) == KeepBy(stays)(b)
    {
      Categories(b.physical, p);
    }
    PicksSame(bindings, KeepBy(keep), KeepBy(stays), kept);
    forall c | c in controls && c.id == target
      ensures IsFresh(added, p, target, c.player)
    {
      var i :| 0 <= i < |controls| && controls[i] == c;
      PlayerAt(controls, i);
      MadeFresh(p, target, c.player);
    }
    hide Kept, Picks, MakeBinding, UniqueTable, CategoryOf, SameCategory, PlayerOf, IsFresh;
    assert Rebound(bindings, controls, target, p) == kept + [added];
  }

  lemma PicksSame<B(!new), E(!new)>(entries: seq<B>, one: B -> Option<E>, same: B -> Option<E>, results: seq<E>)
    requires Picks(entries, one, results) && forall b :: one(b) == same(b)
    ensures Picks(entries, same, results)
  {
    var at: seq<nat> :| PicksAt(entries, one, results, at);
    assert PicksAt(entries, same, results, at);
  }

  // The saved list names this control.
  ghost predicate Mentions(controls: seq<Control>, saved: seq<Serialized>, id: nat) {
    exists s, c :: s in saved && c in controls && c.name == s.control && c.id == id
  }

  // The binding a saved entry stands for, of this control.
  ghost predicate StandsFor(lex: Lexicon, c: Control, s: Serialized, b: Binding) {
    && c.name == s.control && b.target == c.id && FromToken(lex, s.input) == Some(b.physical)
    && b.playerSlot == (if OfPad(b.physical) then c.player else None)
    && b.scale == (if s.scale.Some? then s.scale.value else 0x3F80_0000)
    && b.deadzone == (if s.deadzone.Some? then s.deadzone.value
                      else if b.physical.PadAxis? || b.physical.PadFullAxis? then 0x3E9C_4000 else 0)
  }

  lemma MentionsIsTouched(controls: seq<Control>, saved: seq<Serialized>, id: nat)
    requires UniqueTable(controls)
    ensures id in Touched(controls, saved) <==> Mentions(controls, saved, id)
  {
    hide UniqueTable, NameById, Touched;
    if Mentions(controls, saved, id) {
      var s, c :| s in saved && c in controls && c.name == s.control && c.id == id;
      var i :| 0 <= i < |controls| && controls[i] == c;
      TablesAgree(controls, i);
    }
    if id in Touched(controls, saved) {
      var s :| s in saved && s.control in IdByName(controls) && IdByName(controls)[s.control] == id;
      var i := NamedAt(controls, s.control);
      assert controls[i] in controls;
    }
  }

  lemma {:induction false} NamedAt(controls: seq<Control>, name: string) returns (i: nat)
    requires name in IdByName(controls)
    ensures i < |controls| && controls[i].name == name && controls[i].id == IdByName(controls)[name]
    decreases |controls|
  {
    var n := |controls| - 1;
    if controls[n].name == name {
      i := n;
    } else {
      i := NamedAt(controls[..n], name);
    }
  }

  lemma LoadedIs(lex: Lexicon, controls: seq<Control>, s: Serialized, b: Binding)
    requires UniqueTable(controls)
    ensures b in Loaded(lex, controls, s) <==> exists c :: c in controls && StandsFor(lex, c, s, b)
    ensures |Loaded(lex, controls, s)| <= 1
  {
    hide FromToken, NameById;
    if exists c :: c in controls && StandsFor(lex, c, s, b) {
      var c :| c in controls && StandsFor(lex, c, s, b);
      var i :| 0 <= i < |controls| && controls[i] == c;
      TablesAgree(controls, i);
      PlayerAt(controls, i);
    }
    if b in Loaded(lex, controls, s) {
      var i := NamedAt(controls, s.control);
      PlayerAt(controls, i);
      assert StandsFor(lex, controls[i], s, b);
    }
  }

  lemma {:induction false} LoadedAllIs(lex: Lexicon, controls: seq<Control>, saved: seq<Serialized>, b: Binding)
    requires UniqueTable(controls)
    ensures b in LoadedAll(lex, controls, saved)
       <==> exists s, c :: s in saved && c in controls && StandsFor(lex, c, s, b)
    decreases |saved|
  {
    hide Loaded, StandsFor, UniqueTable;
    if saved != [] {
      var front, s := saved[..|saved| - 1], saved[|saved| - 1];
      assert saved == front + [s];
      LoadedAllIs(lex, controls, front, b);
      LoadedIs(lex, controls, s, b);
    }
  }

  /** Controls the saved list does not mention keep their bindings, all and in order; those it
      mentions have exactly what its readable entries stand for, behind them. */
  lemma OverlayIs(lex: Lexicon, bindings: seq<Binding>, controls: seq<Control>, saved: seq<Serialized>)
    requires UniqueTable(controls)
    ensures var stays := (b: Binding) => !Mentions(controls, saved, b.target);
      exists kept, loaded :: Overlaid(lex, bindings, controls, saved) == kept + loaded
        && Picks(bindings, KeepBy(stays), kept)
        && forall b :: b in loaded <==> exists s, c :: s in saved && c in controls && StandsFor(lex, c, s, b)
  {
    hide UniqueTable, Touched, LoadedAll, Kept, Picks, StandsFor, Mentions;
    var touched := Touched(controls, saved);
    var keep := (b: Binding) => b.target !in touched;
    var stays := (b: Binding) => !Mentions(controls, saved, b.target);
    var kept, loaded := Kept(bindings, keep), LoadedAll(lex, controls, saved);
    KeptPicks(bindings, keep);
    forall b: Binding
      ensures KeepBy(keep)(b) == KeepBy(stays)(b)
    {
      MentionsIsTouched(controls, saved, b.target);
    }
    PicksSame(bindings, KeepBy(keep), KeepBy(stays), kept);
    forall b: Binding
      ensures b in loaded <==> exists s, c :: s in saved && c in controls && StandsFor(lex, c, s, b)
    {
      LoadedAllIs(lex, controls, saved, b);
    }
    assert Overlaid(lex, bindings, controls, saved) == kept + loaded;
  }

  /** A saved entry leaves out what a fresh binding has anyway, and says the rest bit for bit. */
  lemma SavedOmitsDefaults(lex: Lexicon, b: Binding, name: string)
    requires lex.Knows(b.physical)
    ensures var s := Saved(lex, b, name);
      && s.control == name && s.input == ToToken(lex, b.physical)
      && s.scale == (if b.scale == 0x3F80_0000 then None else Some(b.scale))
      && (b.physical.PadAxis? || b.physical.PadFullAxis? ==>
            s.deadzone == if b.deadzone == 0x3E9C_4000 then None else Some(b.deadzone))
      && (!b.physical.PadAxis? && !b.physical.PadFullAxis? ==>
            s.deadzone == if b.deadzone == 0 || b.deadzone == 0x8000_0000 then None else Some(b.deadzone))
  {
    hide ToToken;
  }

  // The defaults of the first `n` controls.
  ghost predicate AreDefaults(controls: seq<Control>, bindings: seq<Binding>) {
    forall b :: b in bindings <==>
      exists c, d :: c in controls && d in Suggested(c) && IsFresh(b, DefaultInputs.ToPhysical(d), c.id, c.player)
  }

  /** The defaults of a table are a fresh binding for every suggestion of every control, and
      nothing else; those of a longer table come after those of a shorter one. */
  lemma {:induction false} DefaultsAre(controls: seq<Control>)
    ensures AreDefaults(controls, Defaults(controls))
    ensures controls != [] ==> Defaults(controls[..|controls| - 1]) <= Defaults(controls)
    decreases |controls|
  {
    hide IsFresh;
    if controls != [] {
      var front, c := controls[..|controls| - 1], controls[|controls| - 1];
      assert controls == front + [c];
      DefaultsAre(front);
      ControlDefaultsAre(c, |Suggested(c)|);
      hide Suggested;
      var added := ControlDefaults(c, |Suggested(c)|);
      forall b: Binding
        ensures b in Defaults(controls) <==> b in Defaults(front) || b in added
      {
      }
    }
  }

  lemma {:induction false} ControlDefaultsAre(c: Control, n: nat)
    requires n <= |Suggested(c)|
    ensures |ControlDefaults(c, n)| == n
    ensures forall i :: 0 <= i < n ==>
              IsFresh(ControlDefaults(c, n)[i], DefaultInputs.ToPhysical(Suggested(c)[i]), c.id, c.player)
    ensures n == |Suggested(c)| ==> forall b :: b in ControlDefaults(c, n) <==>
              exists d :: d in Suggested(c) && IsFresh(b, DefaultInputs.ToPhysical(d), c.id, c.player)
    decreases n
  {
    hide Suggested;
    if n > 0 {
      ControlDefaultsAre(c, n - 1);
      MadeFresh(DefaultInputs.ToPhysical(Suggested(c)[n - 1]), c.id, c.player);
    }
    if n == |Suggested(c)| {
      forall b: Binding
        ensures b in ControlDefaults(c, n) <==>
          exists d :: d in Suggested(c) && IsFresh(b, DefaultInputs.ToPhysical(d), c.id, c.player)
      {
        FreshAreListed(c, n, b);
      }
    }
  }

  lemma FreshAreListed(c: Control, n: nat, b: Binding)
    requires n == |Suggested(c)| == |ControlDefaults(c, n)|
    requires forall i :: 0 <= i < n ==>
               IsFresh(ControlDefaults(c, n)[i], DefaultInputs.ToPhysical(Suggested(c)[i]), c.id, c.player)
    ensures b in ControlDefaults(c, n) <==>
              exists d :: d in Suggested(c) && IsFresh(b, DefaultInputs.ToPhysical(d), c.id, c.player)
  {
    hide Suggested, ControlDefaults;
    var list := ControlDefaults(c, n);
    if b in list {
      var i :| 0 <= i < n && list[i] == b;
      assert Suggested(c)[i] in Suggested(c);
    }
    if exists d :: d in Suggested(c) && IsFresh(b, DefaultInputs.ToPhysical(d), c.id, c.player) {
      var d :| d in Suggested(c) && IsFresh(b, DefaultInputs.ToPhysical(d), c.id, c.player);
      var i :| 0 <= i < n && Suggested(c)[i] == d;
      assert list[i] == b;
    }
  }

  /** Setting a scale touches the bindings of that control alone, and in them the scale alone;
      setting a deadzone its stick bindings alone, and in them the deadzone. */
  lemma TuningTouchesOnly(b: Binding, target: nat, value: bits)
    ensures var s := Scaled(b, target, value);
      s.scale == (if b.target == target then value else b.scale) && s == b.(scale := s.scale)
    ensures var t := Tuned(b, target, value);
      && t.deadzone == (if b.target == target && (b.physical.PadAxis? || b.physical.PadFullAxis?) then value else b.deadzone)
      && t == b.(deadzone := t.deadzone)
  {
  }

  /** A control suggests what its rank does, then its own. */
  lemma SuggestedIs(c: Control)
    ensures c.role == None ==> Suggested(c) == c.suggestions
    ensures c.role.Some? ==> Suggested(c) == DefaultInputs.RoleDefaults(c.role.value, c.player) + c.suggestions
  {
  }

  /** A pattern is a NaN when its exponent is all ones and its fraction is not zero; equality
      is of the patterns but for those, and but for the two zeros. */
  lemma FloatsCompare(x: bits, y: bits)
    ensures IsNaN(x) <==> x / 0x80_0000 % 0x100 == 0xFF && x % 0x80_0000 != 0
    ensures FloatEq(x, y) <==> !IsNaN(x) && !IsNaN(y) && (x == y || (x in {0, 0x8000_0000} && y in {0, 0x8000_0000}))
  {
    FractionOf(x);
  }

  lemma FractionOf(x: bits)
    ensures IsNaN(x) <==> x / 0x80_0000 % 0x100 == 0xFF && x % 0x80_0000 != 0
  {
    var sign, rest := x / 0x8000_0000, x % 0x8000_0000;
    var exponent, fraction := rest / 0x80_0000, rest % 0x80_0000;
    assert x == 0x8000_0000 * sign + 0x80_0000 * exponent + fraction;
    assert x == 0x80_0000 * (0x100 * sign + exponent) + fraction;
    assert x / 0x80_0000 == 0x100 * sign + exponent && x % 0x80_0000 == fraction;
    assert exponent < 0x100;
    assert (0x100 * sign + exponent) % 0x100 == exponent;
  }
}
