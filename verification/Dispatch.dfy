/** From device events to machine input: the edge latch on stick directions, and the
    reconciliation of held inputs after a reset. */
module Dispatch {
  import opened Basics
  import opened InputTokens

  type Binding = BindingOf<real>

  datatype InputEvent =
    | ButtonEvent(id: nat, pressed: bool)
    | AbsoluteEvent(id: nat, value: real)
    | RelativeEvent(id: nat, delta: real)

  predicate SlotMatches(b: Binding, slot: Option<nat>) {
    slot == None || b.playerSlot == None || slot == b.playerSlot
  }

  // ---------------------------------------------------------------------------
  // The latch
  // ---------------------------------------------------------------------------

  datatype AxisKey = AxisKey(axis: nat, dir: AxisDir, target: nat)

  datatype AnalogKey = AnalogKey(axis: nat, target: nat)

  // The entries of one key, in order.
  function Of<K(==), V>(entries: seq<(K, V)>, k: K): seq<V> {
    if entries == [] then [] else
      var last := entries[|entries| - 1];
      Of(entries[..|entries| - 1], k) + if last.0 == k then [last.1] else []
  }

  function Last<V>(values: seq<V>, rest: V): V {
    if values == [] then rest else values[|values| - 1]
  }

  /** What a latch lets through: only values that differ from the one before, the first
      being compared with rest. */
  function Changes<V(==)>(values: seq<V>, rest: V): seq<V> {
    if values == [] then [] else
      var before := values[..|values| - 1];
      var v := values[|values| - 1];
      Changes(before, rest) + if v != Last(before, rest) then [v] else []
  }

  /** The latch loses nothing that matters: what it let through last is the latest value. */
  lemma {:induction false} LatestGetsThrough<V>(values: seq<V>, rest: V)
    ensures Last(Changes(values, rest), rest) == Last(values, rest)
  {
    if values != [] {
      LatestGetsThrough(values[..|values| - 1], rest);
    }
  }

  /** And it never repeats itself. */
  lemma {:induction false} ChangesDiffer<V>(values: seq<V>, rest: V, i: nat)
    requires i < |Changes(values, rest)|
    ensures Changes(values, rest)[i] != if i == 0 then rest else Changes(values, rest)[i - 1]
    decreases |values|
  {
    var before := values[..|values| - 1];
    var c := Changes(before, rest);
    if i < |c| {
      ChangesDiffer(before, rest, i);
      assert Changes(values, rest)[i] == c[i];
    } else {
      LatestGetsThrough(before, rest);
    }
  }

  /** A digital latch therefore strictly alternates press and release, a press first. */
  lemma {:induction false} DigitalAlternates(values: seq<bool>, i: nat)
    requires i < |Changes(values, false)|
    ensures Changes(values, false)[i] == (i % 2 == 0)
    decreases i
  {
    ChangesDiffer(values, false, i);
    if i > 0 {
      DigitalAlternates(values, i - 1);
    }
  }

  function Find<K(==), V>(entries: seq<(K, V)>, k: K): (r: Option<nat>)
    ensures r.Some? ==> r.value < |entries| && entries[r.value].0 == k
                        && forall j :: 0 <= j < r.value ==> entries[j].0 != k
    ensures r == None ==> forall j :: 0 <= j < |entries| ==> entries[j].0 != k
  {
    if entries == [] then None
    else if entries[0].0 == k then Some(0)
    else match Find(entries[1..], k)
      case None => None
      case Some(i) => Some(i + 1)
  }

  // The latched value of a key.
  function Latched<K(==), V>(entries: seq<(K, V)>, k: K): Option<V> {
    match Find(entries, k)
    case None => None
    case Some(i) => Some(entries[i].1)
  }

  lemma FindIs<K, V>(entries: seq<(K, V)>, k: K, i: nat)
    requires i < |entries| && entries[i].0 == k && forall j :: 0 <= j < i ==> entries[j].0 != k
    ensures Find(entries, k) == Some(i)
  {
    var r := Find(entries, k);
    assert r.Some?;
    assert !(r.value < i);
  }

  lemma PushLatches<K, V>(entries: seq<(K, V)>, k: K, v: V)
    requires Find(entries, k) == None
    ensures Latched(entries + [(k, v)], k) == Some(v)
    ensures forall o :: o != k ==> Latched(entries + [(k, v)], o) == Latched(entries, o)
  {
    var longer := entries + [(k, v)];
    FindIs(longer, k, |entries|);
    forall o | o != k
      ensures Latched(longer, o) == Latched(entries, o)
    {
      match Find(entries, o)
      case Some(i) => FindIs(longer, o, i);
      case None => assert Find(longer, o) == None;
    }
  }

  lemma ReplaceLatches<K, V>(entries: seq<(K, V)>, k: K, v: V, at: nat)
    requires Find(entries, k) == Some(at)
    ensures Latched(entries[at := (k, v)], k) == Some(v)
    ensures forall o :: o != k ==> Latched(entries[at := (k, v)], o) == Latched(entries, o)
  {
    var changed := entries[at := (k, v)];
    FindIs(changed, k, at);
    forall o | o != k
      ensures Latched(changed, o) == Latched(entries, o)
    {
      match Find(entries, o)
      case Some(i) => FindIs(changed, o, i);
      case None => assert Find(changed, o) == None;
    }
  }

  // Keys and values seen and sent so far, and the table that remembers the last of each.
  ghost predicate LatchOk<K(!new), V>(table: seq<(K, V)>, seen: seq<(K, V)>, sent: seq<(K, V)>, rest: V) {
    forall k ::
      && Of(sent, k) == Changes(Of(seen, k), rest)
      && (Of(seen, k) == [] <==> Latched(table, k) == None)
      && (Of(seen, k) != [] ==> Latched(table, k) == Some(Last(Of(seen, k), rest)))
  }

  lemma OfPush<K, V>(entries: seq<(K, V)>, k: K, v: V, o: K)
    ensures Of(entries + [(k, v)], o) == Of(entries, o) + if o == k then [v] else []
  {
    assert (entries + [(k, v)])[..|entries|] == entries;
  }

  lemma ChangesPush<V>(values: seq<V>, v: V, rest: V)
    ensures Changes(values + [v], rest) == Changes(values, rest) + if v != Last(values, rest) then [v] else []
  {
    assert (values + [v])[..|values|] == values;
  }

  lemma LatchKeeps<K(!new), V>(table: seq<(K, V)>, seen: seq<(K, V)>, sent: seq<(K, V)>, rest: V,
                               k: K, v: V, newTable: seq<(K, V)>)
    requires LatchOk(table, seen, sent, rest)
    requires Latched(newTable, k) == Some(v)
    requires forall o :: o != k ==> Latched(newTable, o) == Latched(table, o)
    ensures var was := match Latched(table, k) case Some(w) => w case None => rest;
      LatchOk(newTable, seen + [(k, v)], sent + (if v != was then [(k, v)] else []), rest)
  {
    hide Latched, Of, Changes;
    var before := match Latched(table, k) case Some(w) => w case None => rest;
    assert before == Last(Of(seen, k), rest);
    var sentNow := sent + if v != before then [(k, v)] else [];
    forall o
      ensures Of(sentNow, o) == Changes(Of(seen + [(k, v)], o), rest)
      ensures Of(seen + [(k, v)], o) == [] <==> Latched(newTable, o) == None
      ensures Of(seen + [(k, v)], o) != [] ==> Latched(newTable, o) == Some(Last(Of(seen + [(k, v)], o), rest))
    {
      OfPush(seen, k, v, o);
      OfPush(sent, k, v, o);
      assert sent + [] == sent;
      ChangesPush(Of(seen, o), v, rest);
      assert Of(seen, o) + [] == Of(seen, o) && Of(sent, o) + [] == Of(sent, o);
    }
  }

  // ---------------------------------------------------------------------------
  // Dispatching
  // ---------------------------------------------------------------------------

  // Past the deadzone in the binding's direction.
  predicate Past(dir: AxisDir, deflection: real, deadzone: real) {
    if dir == Positive then deflection > deadzone else deflection < -deadzone
  }

  function Abs(x: real): real {
    if x < 0.0 then -x else x
  }

  function Clamp(x: real, low: real, high: real): real {
    if x < low then low else if x > high then high else x
  }

  // The share of the scale a deflection of size `size` asks for.
  function Share(size: real, deadzone: real): real
    requires deadzone != 1.0
  {
    Clamp((size - deadzone) / (1.0 - deadzone), 0.0, 1.0)
  }

  // Multiplication under a name, so that a proof can hide it and stay linear.
  function Times(x: real, y: real): real {
    x * y
  }

  /** The deflection rescaled from the deadzone's edge, with the deflection's sign. A
      deadzone of all the travel leaves nothing to rescale. */
  function AnalogValue(raw: real, deadzone: real, scale: real): real {
    var magnitude := if deadzone == 1.0 then 0.0 else Abs(Times(Share(Abs(raw), deadzone), scale));
    if raw < 0.0 then -magnitude else magnitude
  }

  /** The value is zero exactly inside the deadzone, ramps up from its edge, reaches the
      scale at full deflection and carries the sign of the deflection. */
  lemma AnalogRamps(raw: real, other: real, deadzone: real, scale: real)
    requires 0.0 <= deadzone < 1.0 && scale > 0.0 && -1.0 <= raw <= 1.0 && -1.0 <= other <= 1.0
    ensures AnalogValue(raw, deadzone, scale) == 0.0 <==> Abs(raw) <= deadzone
    ensures AnalogValue(raw, deadzone, scale) >= 0.0 <==> raw >= 0.0 || Abs(raw) <= deadzone
    ensures -scale <= AnalogValue(raw, deadzone, scale) <= scale
    ensures AnalogValue(1.0, deadzone, scale) == scale && AnalogValue(-1.0, deadzone, scale) == -scale
    ensures raw <= other ==> AnalogValue(raw, deadzone, scale) <= AnalogValue(other, deadzone, scale)
  {
    hide Share, Times;
    var share, next := Share(Abs(raw), deadzone), Share(Abs(other), deadzone);
    ShareBounds(Abs(raw), deadzone);
    ShareBounds(Abs(other), deadzone);
    ShareGrows(Abs(raw), Abs(other), deadzone);
    ShareGrows(Abs(other), Abs(raw), deadzone);
    ShareFull(deadzone);
    PartOfScale(share, scale);
    PartOfScale(next, scale);
    PartOfScale(1.0, scale);
    TimesGrows(share, next, scale);
    TimesGrows(next, share, scale);
    AnalogFrom(raw, other, Times(share, scale), Times(next, scale), scale);
  }

  /** Between the deadzone's edge and full deflection the value is the line from nothing to
      the scale; past full deflection it stays there; and left is right turned over. */
  lemma AnalogIsALine(raw: real, deadzone: real, scale: real)
    requires 0.0 <= deadzone < 1.0 && scale >= 0.0
    ensures deadzone <= raw <= 1.0 ==>
              Times(AnalogValue(raw, deadzone, scale), 1.0 - deadzone) == Times(raw - deadzone, scale)
    ensures raw >= 1.0 ==> AnalogValue(raw, deadzone, scale) == scale
    ensures AnalogValue(-raw, deadzone, scale) == -AnalogValue(raw, deadzone, scale)
  {
    var size, room := Abs(raw), 1.0 - deadzone;
    Divided(size - deadzone, room);
    ShareInUnits(size, deadzone);
    PartIsPositive(Share(size, deadzone), scale);
    TimesUnits(scale);
    Exchanged(Share(size, deadzone), scale, room);
    if raw >= 1.0 {
      ShareFull(deadzone);
      ShareGrows(1.0, raw, deadzone);
    }
    hide Times;
    if deadzone <= raw <= 1.0 {
      ShareBounds(raw, deadzone);
      ShareIs(raw, deadzone);
    }
  }

  /** A deadzone of all the travel lets nothing short of it through. */
  lemma AllTravelIsDead(raw: real, scale: real)
    requires -1.0 < raw < 1.0
    ensures AnalogValue(raw, 1.0, scale) == 0.0
  {
  }

  // The share before it is clamped, inside the travel.
  lemma ShareIs(size: real, deadzone: real)
    requires 0.0 <= deadzone < 1.0 && deadzone <= size <= 1.0
    ensures Times(Share(size, deadzone), 1.0 - deadzone) == size - deadzone
  {
    var room := 1.0 - deadzone;
    Divided(size - deadzone, room);
    TimesUnits(room);
    hide Times;
    TimesGrows((size - deadzone) / room, 0.0, room);
    TimesGrows((size - deadzone) / room, 1.0, room);
    TimesGrows(1.0, (size - deadzone) / room, room);
    TimesGrows(0.0, (size - deadzone) / room, room);
  }

  lemma ShareInUnits(size: real, deadzone: real)
    requires deadzone < 1.0
    ensures 0.0 <= Share(size, deadzone) <= 1.0
  {
  }

  lemma PartIsPositive(share: real, scale: real)
    requires share >= 0.0 && scale >= 0.0
    ensures Times(share, scale) >= 0.0
  {
  }

  lemma Exchanged(a: real, b: real, c: real)
    ensures Times(Times(a, b), c) == Times(Times(a, c), b)
  {
  }

  lemma AnalogFrom(raw: real, other: real, m: real, next: real, scale: real)
    requires 0.0 <= m <= scale && 0.0 <= next <= scale
    requires Abs(raw) <= Abs(other) ==> m <= next
    requires Abs(other) <= Abs(raw) ==> next <= m
    ensures raw <= other ==> (if raw < 0.0 then -m else m) <= (if other < 0.0 then -next else next)
  {
  }

  lemma Divided(a: real, room: real)
    requires room > 0.0
    ensures Times(a / room, room) == a
  {
  }

  lemma TimesGrows(x: real, y: real, scale: real)
    requires scale > 0.0
    ensures x <= y <==> Times(x, scale) <= Times(y, scale)
  {
    if x <= y {
      assert (y - x) * scale >= 0.0;
    } else {
      assert (x - y) * scale > 0.0;
    }
  }

  lemma TimesUnits(scale: real)
    ensures Times(0.0, scale) == 0.0 && Times(1.0, scale) == scale
  {
  }

  lemma PartOfScale(share: real, scale: real)
    requires scale > 0.0 && 0.0 <= share <= 1.0
    ensures 0.0 <= Times(share, scale) <= scale && (Times(share, scale) == 0.0 <==> share == 0.0)
    ensures share == 1.0 ==> Times(share, scale) == scale
  {
    hide Times;
    TimesUnits(scale);
    TimesGrows(0.0, share, scale);
    TimesGrows(share, 0.0, scale);
    TimesGrows(share, 1.0, scale);
  }

  lemma ShareBounds(size: real, deadzone: real)
    requires 0.0 <= deadzone < 1.0 && 0.0 <= size <= 1.0
    ensures 0.0 <= Share(size, deadzone) <= 1.0 && (Share(size, deadzone) == 0.0 <==> size <= deadzone)
  {
    hide Times;
    var room := 1.0 - deadzone;
    Divided(size - deadzone, room);
    TimesGrows((size - deadzone) / room, 0.0, room);
    TimesUnits(room);
  }

  lemma ShareFull(deadzone: real)
    requires deadzone < 1.0
    ensures Share(1.0, deadzone) == 1.0
  {
    hide Times;
    var room := 1.0 - deadzone;
    Divided(room, room);
    TimesUnits(room);
    TimesGrows(room / room, 1.0, room);
    TimesGrows(1.0, room / room, room);
  }

  lemma ShareGrows(size: real, other: real, deadzone: real)
    requires deadzone < 1.0
    ensures size <= other ==> Share(size, deadzone) <= Share(other, deadzone)
  {
    hide Times;
    var room := 1.0 - deadzone;
    Divided(size - deadzone, room);
    Divided(other - deadzone, room);
    TimesGrows((size - deadzone) / room, (other - deadzone) / room, room);
  }

  predicate DirectionOf(b: Binding, axis: nat, slot: Option<nat>) {
    b.physical.PadAxis? && b.physical.axis == axis && SlotMatches(b, slot)
  }

  predicate AnalogOf(b: Binding, axis: nat, slot: Option<nat>) {
    b.physical.PadFullAxis? && b.physical.fullAxis == axis && SlotMatches(b, slot)
  }

  // The digital states one motion implies, in binding order.
  function Samples(bindings: seq<Binding>, axis: nat, deflection: real, slot: Option<nat>): seq<(AxisKey, bool)> {
    if bindings == [] then [] else
      var b := bindings[|bindings| - 1];
      Samples(bindings[..|bindings| - 1], axis, deflection, slot)
      + if DirectionOf(b, axis, slot)
        then [(AxisKey(axis, b.physical.dir, b.target), Past(b.physical.dir, deflection, b.deadzone))] else []
  }

  function AnalogSamples(bindings: seq<Binding>, axis: nat, deflection: real, slot: Option<nat>)
    : seq<(AnalogKey, real)>
  {
    if bindings == [] then [] else
      var b := bindings[|bindings| - 1];
      AnalogSamples(bindings[..|bindings| - 1], axis, deflection, slot)
      + if AnalogOf(b, axis, slot) then [(AnalogKey(axis, b.target), AnalogValue(deflection, b.deadzone, b.scale))] else []
  }

  function Buttons(sent: seq<(AxisKey, bool)>): seq<InputEvent> {
    seq(|sent|, i requires 0 <= i < |sent| => ButtonEvent(sent[i].0.target, sent[i].1))
  }

  function Absolutes(sent: seq<(AnalogKey, real)>): seq<InputEvent> {
    seq(|sent|, i requires 0 <= i < |sent| => AbsoluteEvent(sent[i].0.target, sent[i].1))
  }

  // The events of a digital input, one for each control it drives.
  function Presses(bindings: seq<Binding>, p: Physical, slot: Option<nat>, pressed: bool): seq<InputEvent> {
    if bindings == [] then [] else
      var b := bindings[|bindings| - 1];
      Presses(bindings[..|bindings| - 1], p, slot, pressed)
      + if b.physical == p && SlotMatches(b, slot) then [ButtonEvent(b.target, pressed)] else []
  }

  function Scaled(delta: int, scale: real): real {
    delta as real * scale
  }

  function Motions(bindings: seq<Binding>, axis: MouseAxisKind, delta: int): seq<InputEvent> {
    if bindings == [] then [] else
      var b := bindings[|bindings| - 1];
      Motions(bindings[..|bindings| - 1], axis, delta)
      + if b.physical == MouseAxis(axis) then [RelativeEvent(b.target, Scaled(delta, b.scale))] else []
  }

  datatype DeviceEvent =
    | KeyDown(key: int, repeated: bool)
    | KeyUp(key: int)
    | PadDown(pad: nat)
    | PadUp(pad: nat)
    | AxisMotion(axis: nat, value: int)
    | MouseMotion(xrel: int, yrel: int)
    | MouseDown(mouse: MouseButton)
    | MouseUp(mouse: MouseButton)
    | Other

  datatype Ctx = Ctx(eguiWantsKeyboard: bool, mouseGrabbed: bool, padSlot: Option<nat>)

  function Normalized(value: int): real {
    value as real / 32768.0
  }

  // What an event other than a stick motion sends. Releases pass whatever the focus.
  function PlainSent(bindings: seq<Binding>, e: DeviceEvent, ctx: Ctx): seq<InputEvent> {
    match e
    case KeyDown(k, repeated) =>
      if repeated || ctx.eguiWantsKeyboard then [] else Presses(bindings, Key(k), ctx.padSlot, true)
    case KeyUp(k) => Presses(bindings, Key(k), ctx.padSlot, false)
    case PadDown(b) => Presses(bindings, PadButton(b), ctx.padSlot, true)
    case PadUp(b) => Presses(bindings, PadButton(b), ctx.padSlot, false)
    case MouseMotion(x, y) => if ctx.mouseGrabbed then Motions(bindings, X, x) + Motions(bindings, Y, y) else []
    case MouseDown(m) => if ctx.mouseGrabbed then Presses(bindings, MouseButtonInput(m), ctx.padSlot, true) else []
    case MouseUp(m) => Presses(bindings, MouseButtonInput(m), ctx.padSlot, false)
    case _ => []
  }

  // ---------------------------------------------------------------------------
  // What is sent, binding by binding
  // ---------------------------------------------------------------------------

  // A binding answers the pads of its own slot, and every pad when it has none.
  ghost predicate ForPad(b: Binding, slot: Option<nat>) {
    slot.Some? && b.playerSlot.Some? ==> b.playerSlot.value == slot.value
  }

  ghost function PressBy(p: Physical, slot: Option<nat>, pressed: bool): Binding -> Option<InputEvent> {
    (b: Binding) => if b.physical == p && ForPad(b, slot) then Some(ButtonEvent(b.target, pressed)) else None
  }

  ghost function MotionBy(axis: MouseAxisKind, delta: int): Binding -> Option<InputEvent> {
    (b: Binding) =>
      if b.physical == MouseAxis(axis) then Some(RelativeEvent(b.target, Times(delta as real, b.scale))) else None
  }

  // Past the deadzone to the binding's side.
  ghost predicate Deflected(dir: AxisDir, deflection: real, deadzone: real) {
    match dir
    case Positive => deadzone < deflection
    case Negative => deflection + deadzone < 0.0
  }

  ghost function SampleBy(axis: nat, deflection: real, slot: Option<nat>): Binding -> Option<(AxisKey, bool)> {
    (b: Binding) => match b.physical
      case PadAxis(a, dir) =>
        if a == axis && ForPad(b, slot) then Some((AxisKey(axis, dir, b.target), Deflected(dir, deflection, b.deadzone)))
        else None
      case _ => None
  }

  ghost function AnalogBy(axis: nat, deflection: real, slot: Option<nat>): Binding -> Option<(AnalogKey, real)> {
    (b: Binding) =>
      if b.physical == PadFullAxis(axis) && ForPad(b, slot)
      then Some((AnalogKey(axis, b.target), AnalogValue(deflection, b.deadzone, b.scale))) else None
  }

  lemma {:induction false} PressesAre(bindings: seq<Binding>, p: Physical, slot: Option<nat>, pressed: bool)
    ensures Picks(bindings, PressBy(p, slot, pressed), Presses(bindings, p, slot, pressed))
    decreases |bindings|
  {
    hide Picks;
    if bindings == [] {
      PicksNone(PressBy(p, slot, pressed));
    } else {
      var front, b := bindings[..|bindings| - 1], bindings[|bindings| - 1];
      PressesAre(front, p, slot, pressed);
      PicksNext(front, b, PressBy(p, slot, pressed), Presses(front, p, slot, pressed));
      assert bindings == front + [b];
    }
  }

  lemma {:induction false} MotionsAre(bindings: seq<Binding>, axis: MouseAxisKind, delta: int)
    ensures Picks(bindings, MotionBy(axis, delta), Motions(bindings, axis, delta))
    decreases |bindings|
  {
    hide Picks;
    if bindings == [] {
      PicksNone(MotionBy(axis, delta));
    } else {
      var front, b := bindings[..|bindings| - 1], bindings[|bindings| - 1];
      MotionsAre(front, axis, delta);
      assert Scaled(delta, b.scale) == Times(delta as real, b.scale);
      PicksNext(front, b, MotionBy(axis, delta), Motions(front, axis, delta));
      assert bindings == front + [b];
    }
  }

  /** The states a motion shows the latch: one for each direction bound to that axis for that
      pad, past its own deadzone or not. */
  lemma {:induction false} SamplesAre(bindings: seq<Binding>, axis: nat, deflection: real, slot: Option<nat>)
    ensures Picks(bindings, SampleBy(axis, deflection, slot), Samples(bindings, axis, deflection, slot))
    decreases |bindings|
  {
    hide Picks;
    if bindings == [] {
      PicksNone(SampleBy(axis, deflection, slot));
    } else {
      var front, b := bindings[..|bindings| - 1], bindings[|bindings| - 1];
      SamplesAre(front, axis, deflection, slot);
      PicksNext(front, b, SampleBy(axis, deflection, slot), Samples(front, axis, deflection, slot));
      assert bindings == front + [b];
    }
  }

  /** And the values: one for each control the whole axis drives for that pad. */
  lemma {:induction false} AnalogSamplesAre(bindings: seq<Binding>, axis: nat, deflection: real, slot: Option<nat>)
    ensures Picks(bindings, AnalogBy(axis, deflection, slot), AnalogSamples(bindings, axis, deflection, slot))
    decreases |bindings|
  {
    hide AnalogValue, Picks;
    if bindings == [] {
      PicksNone(AnalogBy(axis, deflection, slot));
    } else {
      var front, b := bindings[..|bindings| - 1], bindings[|bindings| - 1];
      AnalogSamplesAre(front, axis, deflection, slot);
      PicksNext(front, b, AnalogBy(axis, deflection, slot), AnalogSamples(front, axis, deflection, slot));
      assert bindings == front + [b];
    }
  }

  // The input a button event is of, and the way it goes.
  ghost function ButtonOf(e: DeviceEvent): Option<(Physical, bool)> {
    match e
    case KeyDown(k, _) => Some((Key(k), true))
    case KeyUp(k) => Some((Key(k), false))
    case PadDown(b) => Some((PadButton(b), true))
    case PadUp(b) => Some((PadButton(b), false))
    case MouseDown(m) => Some((MouseButtonInput(m), true))
    case MouseUp(m) => Some((MouseButtonInput(m), false))
    case _ => None
  }

  // Presses the interface keeps: repeats, keys it types with, clicks on the desktop.
  ghost predicate Kept(e: DeviceEvent, ctx: Ctx) {
    match e
    case KeyDown(_, repeated) => repeated || ctx.eguiWantsKeyboard
    case MouseDown(_) => !ctx.mouseGrabbed
    case _ => false
  }

  /** A button's event goes to every control its input drives, as a press or a release as it
      was one; only a press can be kept from the game, never a release. */
  lemma ButtonsReachTheirControls(bindings: seq<Binding>, e: DeviceEvent, ctx: Ctx)
    requires ButtonOf(e).Some?
    ensures Kept(e, ctx) ==> PlainSent(bindings, e, ctx) == [] && ButtonOf(e).value.1
    ensures !Kept(e, ctx) ==>
              var (p, pressed) := ButtonOf(e).value;
              Picks(bindings, PressBy(p, ctx.padSlot, pressed), PlainSent(bindings, e, ctx))
  {
    var (p, pressed) := ButtonOf(e).value;
    PressesAre(bindings, p, ctx.padSlot, pressed);
    hide Picks, PressBy, Presses;
  }

  /** A mouse motion goes to the controls of each mouse axis, across before down, scaled; and
      only while the mouse is the game's. */
  lemma MotionsReachTheirControls(bindings: seq<Binding>, x: int, y: int, ctx: Ctx)
    ensures !ctx.mouseGrabbed ==> PlainSent(bindings, MouseMotion(x, y), ctx) == []
    ensures ctx.mouseGrabbed ==>
              exists across, down :: PlainSent(bindings, MouseMotion(x, y), ctx) == across + down
                && Picks(bindings, MotionBy(X, x), across) && Picks(bindings, MotionBy(Y, y), down)
  {
    MotionsAre(bindings, X, x);
    MotionsAre(bindings, Y, y);
    hide Picks, MotionBy, Motions;
  }

  // Full travel of a stick is one.
  lemma NormalizedIs(value: int)
    requires -32768 <= value < 32768
    ensures 32768.0 * Normalized(value) == value as real && -1.0 <= Normalized(value) < 1.0
  {
  }

  method Press(bindings: seq<Binding>, p: Physical, slot: Option<nat>, pressed: bool) returns (sent: seq<InputEvent>)
    ensures sent == Presses(bindings, p, slot, pressed)
  {
    sent := [];
    for i := 0 to |bindings|
      invariant sent == Presses(bindings[..i], p, slot, pressed)
    {
      assert bindings[..i + 1][..i] == bindings[..i];
      if bindings[i].physical == p && SlotMatches(bindings[i], slot) {
        sent := sent + [ButtonEvent(bindings[i].target, pressed)];
      }
    }
    assert bindings[..|bindings|] == bindings;
  }

  method Move(bindings: seq<Binding>, axis: MouseAxisKind, delta: int) returns (sent: seq<InputEvent>)
    ensures sent == Motions(bindings, axis, delta)
  {
    hide Scaled;
    sent := [];
    for i := 0 to |bindings|
      invariant sent == Motions(bindings[..i], axis, delta)
    {
      assert bindings[..i + 1][..i] == bindings[..i];
      if bindings[i].physical == MouseAxis(axis) {
        sent := sent + [RelativeEvent(bindings[i].target, Scaled(delta, bindings[i].scale))];
      }
    }
    assert bindings[..|bindings|] == bindings;
  }

  class DispatchState {
    var padAxis: seq<(AxisKey, bool)>
    var padAnalog: seq<(AnalogKey, real)>
    ghost var seen: seq<(AxisKey, bool)>
    ghost var sent: seq<(AxisKey, bool)>
    ghost var seenAnalog: seq<(AnalogKey, real)>
    ghost var sentAnalog: seq<(AnalogKey, real)>

    /** For every key, what was sent is the changes of what was seen. */
    ghost predicate Valid()
      reads this
    {
      LatchOk(padAxis, seen, sent, false) && LatchOk(padAnalog, seenAnalog, sentAnalog, 0.0)
    }

    constructor ()
      ensures Valid() && seen == [] && sent == [] && seenAnalog == [] && sentAnalog == []
    {
      padAxis, padAnalog, seen, sent, seenAnalog, sentAnalog := [], [], [], [], [], [];
    }

    method DigitalChanged(key: AxisKey, pressed: bool) returns (changed: bool)
      requires Valid()
      modifies this`padAxis, this`seen, this`sent
      ensures Valid() && seen == old(seen) + [(key, pressed)]
      ensures sent == old(sent) + if changed then [(key, pressed)] else []
    {
      ghost var table := padAxis;
      match Find(padAxis, key) {
        case Some(i) =>
          ReplaceLatches(padAxis, key, pressed, i);
          changed := padAxis[i].1 != pressed;
          padAxis := padAxis[i := (key, pressed)];
        case None =>
          PushLatches(padAxis, key, pressed);
          padAxis := padAxis + [(key, pressed)];
          changed := pressed;
      }
      LatchKeeps(table, seen, sent, false, key, pressed, padAxis);
      hide LatchOk;
      seen := seen + [(key, pressed)];
      sent := sent + if changed then [(key, pressed)] else [];
    }

    method AnalogChanged(key: AnalogKey, value: real) returns (changed: bool)
      requires Valid()
      modifies this`padAnalog, this`seenAnalog, this`sentAnalog
      ensures Valid() && seenAnalog == old(seenAnalog) + [(key, value)]
      ensures sentAnalog == old(sentAnalog) + if changed then [(key, value)] else []
    {
      ghost var table := padAnalog;
      match Find(padAnalog, key) {
        case Some(i) =>
          ReplaceLatches(padAnalog, key, value, i);
          changed := padAnalog[i].1 != value;
          padAnalog := padAnalog[i := (key, value)];
        case None =>
          PushLatches(padAnalog, key, value);
          padAnalog := padAnalog + [(key, value)];
          changed := value != 0.0;
      }
      LatchKeeps(table, seenAnalog, sentAnalog, 0.0, key, value, padAnalog);
      hide LatchOk;
      seenAnalog := seenAnalog + [(key, value)];
      sentAnalog := sentAnalog + if changed then [(key, value)] else [];
    }

    // A stick standing in for digital directions.
    method Directions(bindings: seq<Binding>, axis: nat, deflection: real, slot: Option<nat>)
      returns (events: seq<InputEvent>)
      requires Valid()
      modifies this`padAxis, this`seen, this`sent
      ensures Valid() && seen == old(seen) + Samples(bindings, axis, deflection, slot)
      ensures |sent| >= |old(sent)| && sent[..|old(sent)|] == old(sent)
      ensures events == Buttons(sent[|old(sent)|..])
    {
      hide Valid, Past;
      events := [];
      for i := 0 to |bindings|
        invariant Valid() && seen == old(seen) + Samples(bindings[..i], axis, deflection, slot)
        invariant |sent| >= |old(sent)| && sent[..|old(sent)|] == old(sent)
        invariant events == Buttons(sent[|old(sent)|..])
      {
        assert bindings[..i + 1][..i] == bindings[..i];
        if DirectionOf(bindings[i], axis, slot) {
          var dir, id := bindings[i].physical.dir, bindings[i].target;
          var pressed := Past(dir, deflection, bindings[i].deadzone);
          var changed := DigitalChanged(AxisKey(axis, dir, id), pressed);
          if changed {
            events := events + [ButtonEvent(id, pressed)];
          }
        }
      }
      assert bindings[..|bindings|] == bindings;
    }

    // A whole axis driving an analog control.
    method WholeAxis(bindings: seq<Binding>, axis: nat, deflection: real, slot: Option<nat>)
      returns (events: seq<InputEvent>)
      requires Valid()
      modifies this`padAnalog, this`seenAnalog, this`sentAnalog
      ensures Valid() && seenAnalog == old(seenAnalog) + AnalogSamples(bindings, axis, deflection, slot)
      ensures |sentAnalog| >= |old(sentAnalog)| && sentAnalog[..|old(sentAnalog)|] == old(sentAnalog)
      ensures events == Absolutes(sentAnalog[|old(sentAnalog)|..])
    {
      hide Valid;
      events := [];
      for i := 0 to |bindings|
        invariant Valid()
        invariant seenAnalog == old(seenAnalog) + AnalogSamples(bindings[..i], axis, deflection, slot)
        invariant |sentAnalog| >= |old(sentAnalog)| && sentAnalog[..|old(sentAnalog)|] == old(sentAnalog)
        invariant events == Absolutes(sentAnalog[|old(sentAnalog)|..])
      {
        assert bindings[..i + 1][..i] == bindings[..i];
        if AnalogOf(bindings[i], axis, slot) {
          var value := AnalogValue(deflection, bindings[i].deadzone, bindings[i].scale);
          var changed := AnalogChanged(AnalogKey(axis, bindings[i].target), value);
          if changed {
            events := events + [AbsoluteEvent(bindings[i].target, value)];
          }
        }
      }
      assert bindings[..|bindings|] == bindings;
    }

    /** One device event. A stick motion sends what the latches let through, digital first;
        everything else sends its events outright. */
    method DispatchEvent(bindings: seq<Binding>, e: DeviceEvent, ctx: Ctx)
      returns (consumed: bool, events: seq<InputEvent>)
      requires Valid()
      modifies this
      ensures Valid()
      ensures e.AxisMotion? ==>
        && consumed
        && seen == old(seen) + Samples(bindings, e.axis, Normalized(e.value), ctx.padSlot)
        && seenAnalog == old(seenAnalog) + AnalogSamples(bindings, e.axis, Normalized(e.value), ctx.padSlot)
        && |sent| >= |old(sent)| && sent[..|old(sent)|] == old(sent)
        && |sentAnalog| >= |old(sentAnalog)| && sentAnalog[..|old(sentAnalog)|] == old(sentAnalog)
        && events == Buttons(sent[|old(sent)|..]) + Absolutes(sentAnalog[|old(sentAnalog)|..])
      ensures !e.AxisMotion? ==>
        seen == old(seen) && sent == old(sent) && sentAnalog == old(sentAnalog) && events == PlainSent(bindings, e, ctx)
      ensures consumed <==> !(e.Other? || (e.KeyDown? && (e.repeated || ctx.eguiWantsKeyboard))
                              || ((e.MouseMotion? || e.MouseDown?) && !ctx.mouseGrabbed))
    {
      hide Valid, Presses, Motions, Buttons, Absolutes;
      events := [];
      consumed := true;
      match e {
        case KeyDown(k, repeated) =>
          if repeated || ctx.eguiWantsKeyboard { return false, []; }
          events := Press(bindings, Key(k), ctx.padSlot, true);
        case KeyUp(k) => events := Press(bindings, Key(k), ctx.padSlot, false);
        case PadDown(b) => events := Press(bindings, PadButton(b), ctx.padSlot, true);
        case PadUp(b) => events := Press(bindings, PadButton(b), ctx.padSlot, false);
        case AxisMotion(axis, value) =>
          var digital := Directions(bindings, axis, Normalized(value), ctx.padSlot);
          var analog := WholeAxis(bindings, axis, Normalized(value), ctx.padSlot);
          events := digital + analog;
        case MouseMotion(x, y) =>
          if !ctx.mouseGrabbed { return false, []; }
          var across := Move(bindings, X, x);
          var down := Move(bindings, Y, y);
          events := across + down;
        case MouseDown(m) =>
          if !ctx.mouseGrabbed { return false, []; }
          events := Press(bindings, MouseButtonInput(m), ctx.padSlot, true);
        case MouseUp(m) => events := Press(bindings, MouseButtonInput(m), ctx.padSlot, false);
        case Other => return false, [];
      }
    }

    /** Over any run of events: the states seen are the samples of the run's motions in
        order, the buttons its motions sent are what the latch let through, and for each
        stick direction of a control those strictly alternate, a press first. With one
        binding for a key the last one sent is the thresholded deflection of the last motion
        that reached it, whatever came after. */
    method DispatchAll(bindings: seq<Binding>, events: seq<(DeviceEvent, Ctx)>) returns (out: seq<seq<InputEvent>>)
      requires Valid()
      modifies this
      ensures Valid() && |out| == |events|
      ensures seen == old(seen) + SeenIn(bindings, events)
      ensures |sent| >= |old(sent)| && sent[..|old(sent)|] == old(sent)
      ensures ButtonsOfMotions(events, out) == Buttons(sent[|old(sent)|..])
      ensures forall j :: 0 <= j < |events| && !events[j].0.AxisMotion? ==>
                out[j] == PlainSent(bindings, events[j].0, events[j].1)
      ensures forall k, i :: 0 <= i < |Of(sent, k)| ==> Of(sent, k)[i] == (i % 2 == 0)
      ensures forall k, i: nat, j: nat :: SoleBinding(bindings, k, i) && LastMotion(bindings, events, k, i, j) ==>
                Last(Of(sent, k), false)
                == Past(k.dir, Normalized(events[j].0.value), bindings[i].deadzone)
    {
      hide Valid, Samples, AnalogSamples, PlainSent, Past, SoleBinding, LastMotion, Of;
      out := [];
      assert events[..0] == [];
      for j := 0 to |events|
        invariant Valid() && |out| == j
        invariant seen == old(seen) + SeenIn(bindings, events[..j])
        invariant |sent| >= |old(sent)| && sent[..|old(sent)|] == old(sent)
        invariant ButtonsOfMotions(events[..j], out) == Buttons(sent[|old(sent)|..])
        invariant forall m :: 0 <= m < j && !events[m].0.AxisMotion? ==>
                    out[m] == PlainSent(bindings, events[m].0, events[m].1)
      {
        ghost var before := sent;
        var _, emitted := DispatchEvent(bindings, events[j].0, events[j].1);
        assert events[..j + 1][..j] == events[..j] && (out + [emitted])[..j] == out;
        if events[j].0.AxisMotion? {
          SentAdds(old(sent), before, sent, emitted);
        }
        out := out + [emitted];
      }
      assert events[..|events|] == events;
      RunHolds(old(seen), bindings, events);
    }

    lemma RunHolds(before: seq<(AxisKey, bool)>, bindings: seq<Binding>, events: seq<(DeviceEvent, Ctx)>)
      requires Valid() && seen == before + SeenIn(bindings, events)
      ensures forall k, i :: 0 <= i < |Of(sent, k)| ==> Of(sent, k)[i] == (i % 2 == 0)
      ensures forall k, i: nat, j: nat :: SoleBinding(bindings, k, i) && LastMotion(bindings, events, k, i, j) ==>
                Last(Of(sent, k), false) == Past(k.dir, Normalized(events[j].0.value), bindings[i].deadzone)
    {
      RunFacts(padAxis, seen, sent, before, bindings, events);
    }
  }

  // What one motion sent, after what was sent before.
  lemma SentAdds(first: seq<(AxisKey, bool)>, before: seq<(AxisKey, bool)>, after: seq<(AxisKey, bool)>,
                 emitted: seq<InputEvent>)
    requires |first| <= |before| <= |after| && before[..|first|] == first && after[..|before|] == before
    requires exists analog :: emitted == Buttons(after[|before|..]) + Absolutes(analog)
    ensures after[..|first|] == first
    ensures Buttons(before[|first|..]) + ButtonsIn(emitted) == Buttons(after[|first|..])
  {
    MotionButtons(after[|before|..], emitted);
    assert after[|first|..] == before[|first|..] + after[|before|..];
    ButtonsInTwo(before[|first|..], after[|before|..]);
  }

  lemma ButtonsInTwo(a: seq<(AxisKey, bool)>, b: seq<(AxisKey, bool)>)
    ensures Buttons(a + b) == Buttons(a) + Buttons(b)
  {
  }

  // The button events of a list, in order.
  function ButtonsIn(events: seq<InputEvent>): seq<InputEvent> {
    if events == [] then [] else
      var last := events[|events| - 1];
      ButtonsIn(events[..|events| - 1]) + if last.ButtonEvent? then [last] else []
  }

  lemma {:induction false} ButtonsInAll(buttons: seq<InputEvent>)
    requires forall e :: e in buttons ==> e.ButtonEvent?
    ensures ButtonsIn(buttons) == buttons
  {
    if buttons != [] {
      ButtonsInAll(buttons[..|buttons| - 1]);
    }
  }

  lemma {:induction false} ButtonsInNone(buttons: seq<InputEvent>, others: seq<InputEvent>)
    requires forall e :: e in others ==> !e.ButtonEvent?
    ensures ButtonsIn(buttons + others) == ButtonsIn(buttons)
    decreases |others|
  {
    if others == [] {
      assert buttons + others == buttons;
    } else {
      var n := |others| - 1;
      assert (buttons + others)[..|buttons + others| - 1] == buttons + others[..n];
      ButtonsInNone(buttons, others[..n]);
    }
  }

  lemma MotionButtons(digital: seq<(AxisKey, bool)>, emitted: seq<InputEvent>)
    requires exists analog :: emitted == Buttons(digital) + Absolutes(analog)
    ensures ButtonsIn(emitted) == Buttons(digital)
  {
    var analog :| emitted == Buttons(digital) + Absolutes(analog);
    ButtonsInAll(Buttons(digital));
    ButtonsInNone(Buttons(digital), Absolutes(analog));
  }

  // The button events a run's stick motions sent, in order.
  function ButtonsOfMotions(events: seq<(DeviceEvent, Ctx)>, out: seq<seq<InputEvent>>): seq<InputEvent>
    requires |out| == |events|
  {
    if events == [] then [] else
      var n := |events| - 1;
      ButtonsOfMotions(events[..n], out[..n]) + if events[n].0.AxisMotion? then ButtonsIn(out[n]) else []
  }

  // The digital states a run's motions imply, in order.
  function SeenIn(bindings: seq<Binding>, events: seq<(DeviceEvent, Ctx)>): seq<(AxisKey, bool)> {
    if events == [] then [] else
      var (e, ctx) := events[|events| - 1];
      SeenIn(bindings, events[..|events| - 1])
      + if e.AxisMotion? then Samples(bindings, e.axis, Normalized(e.value), ctx.padSlot) else []
  }

  // The one binding of a stick direction to a control, whichever pad may drive it.
  ghost predicate SoleBinding(bindings: seq<Binding>, k: AxisKey, i: nat) {
    && i < |bindings| && bindings[i].physical == PadAxis(k.axis, k.dir) && bindings[i].target == k.target
    && forall j :: 0 <= j < |bindings| && j != i ==>
         bindings[j].physical != PadAxis(k.axis, k.dir) || bindings[j].target != k.target
  }

  // A motion of the key's axis from a pad that may drive the binding.
  predicate Reaches(bindings: seq<Binding>, k: AxisKey, i: nat, e: DeviceEvent, ctx: Ctx)
    requires i < |bindings|
  {
    e.AxisMotion? && e.axis == k.axis && SlotMatches(bindings[i], ctx.padSlot)
  }

  ghost predicate LastMotion(bindings: seq<Binding>, events: seq<(DeviceEvent, Ctx)>, k: AxisKey, i: nat, j: nat) {
    && i < |bindings| && j < |events| && Reaches(bindings, k, i, events[j].0, events[j].1)
    && forall m :: j < m < |events| ==> !Reaches(bindings, k, i, events[m].0, events[m].1)
  }

  // What one event shows of a key with a sole binding.
  lemma EventShows(bindings: seq<Binding>, k: AxisKey, i: nat, e: DeviceEvent, ctx: Ctx)
    requires SoleBinding(bindings, k, i) && e.AxisMotion?
    ensures Of(Samples(bindings, e.axis, Normalized(e.value), ctx.padSlot), k)
         == if Reaches(bindings, k, i, e, ctx) then [Past(k.dir, Normalized(e.value), bindings[i].deadzone)] else []
  {
    hide Past, Samples, Of;
    if e.axis != k.axis {
      OtherAxis(bindings, k, e.axis, Normalized(e.value), ctx.padSlot);
    } else if SlotMatches(bindings[i], ctx.padSlot) {
      OneBindingOneSample(bindings, k, Normalized(e.value), ctx.padSlot, i);
    } else {
      NoSample(bindings, k, Normalized(e.value), ctx.padSlot);
    }
  }

  lemma {:induction false} OtherAxis(bindings: seq<Binding>, k: AxisKey, axis: nat, deflection: real, slot: Option<nat>)
    requires axis != k.axis
    ensures Of(Samples(bindings, axis, deflection, slot), k) == []
    decreases |bindings|
  {
    hide Past;
    if bindings != [] {
      var before, b := bindings[..|bindings| - 1], bindings[|bindings| - 1];
      OtherAxis(before, k, axis, deflection, slot);
      var earlier := Samples(before, axis, deflection, slot);
      if DirectionOf(b, axis, slot) {
        OfPush(earlier, AxisKey(axis, b.physical.dir, b.target), Past(b.physical.dir, deflection, b.deadzone), k);
      } else {
        assert earlier + [] == earlier;
      }
    }
  }

  // After its last motion a key shows nothing new.
  lemma {:induction false} LastShown(bindings: seq<Binding>, events: seq<(DeviceEvent, Ctx)>, k: AxisKey, i: nat, j: nat)
    requires SoleBinding(bindings, k, i) && LastMotion(bindings, events, k, i, j)
    ensures var shown := Of(SeenIn(bindings, events), k);
      shown != [] && shown[|shown| - 1] == Past(k.dir, Normalized(events[j].0.value), bindings[i].deadzone)
    decreases |events|
  {
    hide Past, Samples, Of, SoleBinding;
    var n := |events| - 1;
    var (e, ctx) := events[n];
    var earlier := SeenIn(bindings, events[..n]);
    if e.AxisMotion? {
      EventShows(bindings, k, i, e, ctx);
      OfInTwo(earlier, Samples(bindings, e.axis, Normalized(e.value), ctx.padSlot), k);
    } else {
      assert earlier + [] == earlier;
    }
    if j < n {
      assert forall m :: 0 <= m < n ==> events[..n][m] == events[m];
      LastShown(bindings, events[..n], k, i, j);
      assert !Reaches(bindings, k, i, e, ctx);
    }
  }

  lemma RunFacts(table: seq<(AxisKey, bool)>, seen: seq<(AxisKey, bool)>, sent: seq<(AxisKey, bool)>,
                 before: seq<(AxisKey, bool)>, bindings: seq<Binding>, events: seq<(DeviceEvent, Ctx)>)
    requires LatchOk(table, seen, sent, false) && seen == before + SeenIn(bindings, events)
    ensures forall k, i :: 0 <= i < |Of(sent, k)| ==> Of(sent, k)[i] == (i % 2 == 0)
    ensures forall k, i: nat, j: nat :: SoleBinding(bindings, k, i) && LastMotion(bindings, events, k, i, j) ==>
              Last(Of(sent, k), false) == Past(k.dir, Normalized(events[j].0.value), bindings[i].deadzone)
  {
    hide Of, Changes, Past, SeenIn, SoleBinding, LastMotion, Latched;
    forall k, i | 0 <= i < |Of(sent, k)|
      ensures Of(sent, k)[i] == (i % 2 == 0)
    {
      DigitalAlternates(Of(seen, k), i);
    }
    forall k, i: nat, j: nat | SoleBinding(bindings, k, i) && LastMotion(bindings, events, k, i, j)
      ensures i < |bindings| && j < |events| && events[j].0.AxisMotion?
      ensures Last(Of(sent, k), false) == Past(k.dir, Normalized(events[j].0.value), bindings[i].deadzone)
    {
      KnowsIndices(bindings, events, k, i, j);
      LastShown(bindings, events, k, i, j);
      OfInTwo(before, SeenIn(bindings, events), k);
      LatestGetsThrough(Of(seen, k), false);
    }
  }

  lemma KnowsIndices(bindings: seq<Binding>, events: seq<(DeviceEvent, Ctx)>, k: AxisKey, i: nat, j: nat)
    requires LastMotion(bindings, events, k, i, j)
    ensures i < |bindings| && j < |events| && events[j].0.AxisMotion?
  {
  }

  // The only binding of a stick direction to a control that this pad may drive.
  ghost predicate OnlyBinding(bindings: seq<Binding>, k: AxisKey, slot: Option<nat>, i: nat) {
    && i < |bindings| && DirectionOf(bindings[i], k.axis, slot)
    && bindings[i].physical.dir == k.dir && bindings[i].target == k.target
    && forall j :: 0 <= j < |bindings| && j != i && DirectionOf(bindings[j], k.axis, slot) ==>
         bindings[j].physical.dir != k.dir || bindings[j].target != k.target
  }

  /** With one binding for a key, a motion of its axis leaves exactly the thresholded
      deflection as the key's latest state. */
  lemma {:induction false} OneBindingOneSample(bindings: seq<Binding>, k: AxisKey, deflection: real,
                                               slot: Option<nat>, i: nat)
    requires OnlyBinding(bindings, k, slot, i)
    ensures Of(Samples(bindings, k.axis, deflection, slot), k) == [Past(k.dir, deflection, bindings[i].deadzone)]
    decreases |bindings|
  {
    hide Past;
    var n := |bindings| - 1;
    var before, b := bindings[..n], bindings[n];
    if i == n {
      NoSample(before, k, deflection, slot);
    } else {
      OneBindingOneSample(before, k, deflection, slot, i);
    }
    SampleStep(bindings, k, deflection, slot);
  }

  // The last binding's part in the samples of a key.
  lemma SampleStep(bindings: seq<Binding>, k: AxisKey, deflection: real, slot: Option<nat>)
    requires bindings != []
    ensures var b := bindings[|bindings| - 1];
      Of(Samples(bindings, k.axis, deflection, slot), k)
      == Of(Samples(bindings[..|bindings| - 1], k.axis, deflection, slot), k)
         + if DirectionOf(b, k.axis, slot) && b.physical.dir == k.dir && b.target == k.target
           then [Past(k.dir, deflection, b.deadzone)] else []
  {
    hide Past;
    var before, b := bindings[..|bindings| - 1], bindings[|bindings| - 1];
    var earlier := Samples(before, k.axis, deflection, slot);
    if DirectionOf(b, k.axis, slot) {
      OfPush(earlier, AxisKey(k.axis, b.physical.dir, b.target), Past(b.physical.dir, deflection, b.deadzone), k);
    } else {
      assert earlier + [] == earlier;
      assert Of(earlier, k) + [] == Of(earlier, k);
    }
  }

  lemma {:induction false} NoSample(bindings: seq<Binding>, k: AxisKey, deflection: real, slot: Option<nat>)
    requires forall j :: 0 <= j < |bindings| && DirectionOf(bindings[j], k.axis, slot) ==>
               bindings[j].physical.dir != k.dir || bindings[j].target != k.target
    ensures Of(Samples(bindings, k.axis, deflection, slot), k) == []
    decreases |bindings|
  {
    hide Past;
    if bindings != [] {
      var n := |bindings| - 1;
      var before, b := bindings[..n], bindings[n];
      NoSample(before, k, deflection, slot);
      SampleStep(bindings, k, deflection, slot);
    }
  }

  lemma {:induction false} OfInTwo<K, V>(a: seq<(K, V)>, b: seq<(K, V)>, k: K)
    ensures Of(a + b, k) == Of(a, k) + Of(b, k)
    decreases |b|
  {
    if b == [] {
      assert a + b == a;
    } else {
      assert (a + b)[..|a + b| - 1] == a + b[..|b| - 1];
      OfInTwo(a, b[..|b| - 1], k);
    }
  }

  // ---------------------------------------------------------------------------
  // Reconciling held inputs
  // ---------------------------------------------------------------------------

  /** Live state of the devices. */
  datatype Devices = Devices(keys: int -> bool, padButtons: (nat, Option<nat>) -> bool,
                             padAxes: (nat, Option<nat>) -> real, mouse: MouseButton -> bool)

  predicate IsDigital(b: Binding) {
    !b.physical.PadFullAxis? && !b.physical.MouseAxis?
  }

  predicate Held(d: Devices, b: Binding)
    requires IsDigital(b)
  {
    match b.physical
    case Key(k) => d.keys(k)
    case PadButton(p) => d.padButtons(p, b.playerSlot)
    case PadAxis(axis, dir) => Past(dir, d.padAxes(axis, b.playerSlot), b.deadzone)
    case MouseButtonInput(m) => d.mouse(m)
  }

  // Down as the device of the binding's kind says, on the pad of its slot.
  ghost predicate IsDown(d: Devices, b: Binding) {
    match b.physical
    case Key(k) => d.keys(k)
    case PadButton(p) => d.padButtons(p, b.playerSlot)
    case PadAxis(axis, dir) => Deflected(dir, d.padAxes(axis, b.playerSlot), b.deadzone)
    case MouseButtonInput(m) => d.mouse(m)
    case _ => false
  }

  lemma HeldIsDown(d: Devices, b: Binding)
    ensures IsDigital(b) <==> b.physical.Key? || b.physical.PadButton? || b.physical.PadAxis? || b.physical.MouseButtonInput?
    ensures IsDigital(b) ==> (Held(d, b) <==> IsDown(d, b))
  {
  }

  ghost predicate AnyHeld(d: Devices, bindings: seq<Binding>, id: nat) {
    exists i :: 0 <= i < |bindings| && IsDigital(bindings[i]) && bindings[i].target == id && IsDown(d, bindings[i])
  }

  ghost predicate HasDigital(bindings: seq<Binding>, id: nat) {
    exists i :: 0 <= i < |bindings| && IsDigital(bindings[i]) && bindings[i].target == id
  }

  // Deflections re-asserted for analog controls, in binding order.
  function Deflections(d: Devices, bindings: seq<Binding>): seq<InputEvent> {
    if bindings == [] then [] else
      var b := bindings[|bindings| - 1];
      Deflections(d, bindings[..|bindings| - 1])
      + if b.physical.PadFullAxis?
        then [AbsoluteEvent(b.target, AnalogValue(d.padAxes(b.physical.fullAxis, b.playerSlot), b.deadzone, b.scale))]
        else []
  }

  ghost function DeflectionBy(d: Devices): Binding -> Option<InputEvent> {
    (b: Binding) => match b.physical
      case PadFullAxis(axis) => Some(AbsoluteEvent(b.target, AnalogValue(d.padAxes(axis, b.playerSlot), b.deadzone, b.scale)))
      case _ => None
  }

  /** One deflection for each control a whole axis drives, in binding order. */
  lemma {:induction false} DeflectionsAre(d: Devices, bindings: seq<Binding>)
    ensures Picks(bindings, DeflectionBy(d), Deflections(d, bindings))
    decreases |bindings|
  {
    hide AnalogValue, Picks;
    if bindings == [] {
      PicksNone(DeflectionBy(d));
    } else {
      var front, b := bindings[..|bindings| - 1], bindings[|bindings| - 1];
      DeflectionsAre(d, front);
      PicksNext(front, b, DeflectionBy(d), Deflections(d, front));
      assert bindings == front + [b];
    }
  }

  ghost predicate Once(digital: seq<(nat, bool)>) {
    forall i, j :: 0 <= i < j < |digital| ==> digital[i].0 != digital[j].0
  }

  // What has been combined so far stands for the bindings walked so far.
  ghost predicate Combined(d: Devices, bindings: seq<Binding>, digital: seq<(nat, bool)>) {
    && Once(digital)
    && forall id :: Latched(digital, id)
                 == if HasDigital(bindings, id) then Some(AnyHeld(d, bindings, id)) else None
  }

  function Merge(digital: seq<(nat, bool)>, id: nat, pressed: bool): seq<(nat, bool)> {
    match Find(digital, id)
    case Some(i) => digital[i := (id, digital[i].1 || pressed)]
    case None => digital + [(id, pressed)]
  }

  lemma MergeLatches(digital: seq<(nat, bool)>, id: nat, pressed: bool)
    requires Once(digital)
    ensures var m := Merge(digital, id, pressed);
      && Once(m) && (forall o :: o != id ==> Latched(m, o) == Latched(digital, o))
      && Latched(m, id) == Some((Latched(digital, id) == Some(true)) || pressed)
  {
    match Find(digital, id)
    case Some(i) => ReplaceLatches(digital, id, digital[i].1 || pressed, i);
    case None => PushLatches(digital, id, pressed);
  }

  lemma CombinedWalks(d: Devices, bindings: seq<Binding>, b: Binding, digital: seq<(nat, bool)>)
    requires Combined(d, bindings, digital)
    ensures Combined(d, bindings + [b], if IsDigital(b) then Merge(digital, b.target, Held(d, b)) else digital)
  {
    HeldIsDown(d, b);
    hide AnyHeld, HasDigital, Held, IsDown, IsDigital, Latched, Merge, Once;
    if IsDigital(b) {
      MergeLatches(digital, b.target, Held(d, b));
    }
    forall id
      ensures AnyHeld(d, bindings + [b], id)
         <==> AnyHeld(d, bindings, id) || (IsDigital(b) && b.target == id && IsDown(d, b))
      ensures HasDigital(bindings + [b], id) <==> HasDigital(bindings, id) || (IsDigital(b) && b.target == id)
      ensures AnyHeld(d, bindings, id) ==> HasDigital(bindings, id)
    {
      Walked(d, bindings, b, id);
    }
  }

  lemma Walked(d: Devices, bindings: seq<Binding>, b: Binding, id: nat)
    ensures AnyHeld(d, bindings + [b], id)
       <==> AnyHeld(d, bindings, id) || (IsDigital(b) && b.target == id && IsDown(d, b))
    ensures HasDigital(bindings + [b], id) <==> HasDigital(bindings, id) || (IsDigital(b) && b.target == id)
    ensures AnyHeld(d, bindings, id) ==> HasDigital(bindings, id)
  {
    var longer := bindings + [b];
    assert longer[|bindings|] == b;
    assert forall i :: 0 <= i < |bindings| ==> longer[i] == bindings[i];
  }

  // Button events only, no control twice.
  ghost predicate OneEach(events: seq<InputEvent>) {
    && (forall i :: 0 <= i < |events| ==> events[i].ButtonEvent?)
    && forall i, j :: 0 <= i < j < |events| ==> events[i].id != events[j].id
  }

  function HeldEvents(digital: seq<(nat, bool)>): seq<InputEvent> {
    seq(|digital|, i requires 0 <= i < |digital| => ButtonEvent(digital[i].0, digital[i].1))
  }

  /** Re-assert every binding's live state: the analog deflections, then exactly one button
      event for each control with a digital binding, pressed exactly when any of that
      control's digital bindings is held. */
  method Resync(bindings: seq<Binding>, d: Devices) returns (events: seq<InputEvent>)
    ensures var n := |Deflections(d, bindings)|;
      && n <= |events| && events[..n] == Deflections(d, bindings)
      && OneEach(events[n..])
      && (forall id :: HasDigital(bindings, id) <==> exists i :: 0 <= i < |events[n..]| && events[n..][i].id == id)
      && forall i :: 0 <= i < |events[n..]| ==> events[n..][i].pressed == AnyHeld(d, bindings, events[n..][i].id)
  {
    hide Held, Merge, AnyHeld;
    events := [];
    var digital: seq<(nat, bool)> := [];
    hide Combined, HasDigital;
    NothingCombined(d);
    assert bindings[..0] == [];
    for i := 0 to |bindings|
      invariant events == Deflections(d, bindings[..i]) && Combined(d, bindings[..i], digital)
    {
      assert bindings[..i + 1] == bindings[..i] + [bindings[i]];
      assert bindings[..i + 1][..i] == bindings[..i];
      CombinedWalks(d, bindings[..i], bindings[i], digital);
      var b := bindings[i];
      if b.physical.PadFullAxis? {
        var raw := d.padAxes(b.physical.fullAxis, b.playerSlot);
        events := events + [AbsoluteEvent(b.target, AnalogValue(raw, b.deadzone, b.scale))];
      } else if !b.physical.MouseAxis? {
        digital := Merge(digital, b.target, Held(d, b));
      }
    }
    assert bindings[..|bindings|] == bindings;
    Complete(d, bindings, digital);
    events := events + HeldEvents(digital);
    assert events[|Deflections(d, bindings)|..] == HeldEvents(digital);
  }

  lemma NothingCombined(d: Devices)
    ensures Combined(d, [], [])
  {
  }

  lemma Complete(d: Devices, bindings: seq<Binding>, digital: seq<(nat, bool)>)
    requires Combined(d, bindings, digital)
    ensures forall id :: HasDigital(bindings, id) <==> exists i :: 0 <= i < |digital| && digital[i].0 == id
    ensures forall i :: 0 <= i < |digital| ==> digital[i].1 == AnyHeld(d, bindings, digital[i].0)
    ensures OneEach(HeldEvents(digital))
    ensures forall id :: HasDigital(bindings, id)
                    <==> exists i :: 0 <= i < |HeldEvents(digital)| && HeldEvents(digital)[i].id == id
  {
    hide AnyHeld, HasDigital;
    var events := HeldEvents(digital);
    forall i | 0 <= i < |digital|
      ensures Latched(digital, digital[i].0) == Some(digital[i].1) && events[i].id == digital[i].0
    {
      FindIs(digital, digital[i].0, i);
    }
    forall id
      ensures HasDigital(bindings, id) <==> exists i :: 0 <= i < |events| && events[i].id == id
    {
      if HasDigital(bindings, id) {
        var i := Find(digital, id).value;
        assert events[i].id == id;
      }
    }
  }
}
