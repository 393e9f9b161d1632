/** What a machine suggests for its controls: portable names of keys, pad and mouse inputs,
    and the ladder of roles that action buttons share. */
module DefaultInputs {
  import opened Basics
  import opened InputTokens

  datatype KeyId =
    | Letter(letter: char)
    | Num(digit: nat)
    | Up | Down | Left | Right
    | Space | Enter | Tab | Escape
    | LShift | RShift | LCtrl | RCtrl | LAlt | RAlt

  datatype PadButtonId =
    | A | B | X | Y | Back | Start | Guide | LeftShoulder | RightShoulder | LeftStick | RightStick
    | DPadUp | DPadDown | DPadLeft | DPadRight

  datatype PadAxisId = LeftX | LeftY | RightX | RightY | TriggerLeft | TriggerRight

  datatype PadControl = Button(button: PadButtonId) | Axis(axis: PadAxisId, dir: AxisDir) | FullAxis(axis: PadAxisId)

  datatype MouseControl = MouseLeft | MouseRight | MouseMiddle | AxisX | AxisY

  datatype DefaultBinding = KeyDefault(key: KeyId) | PadDefault(pad: PadControl) | MouseDefault(mouse: MouseControl)

  datatype Role = Primary | Secondary | Tertiary

  predicate KeyOk(k: KeyId) {
    match k
    case Letter(c) => 'A' <= c <= 'Z'
    case Num(d) => d < 10
    case _ => true
  }

  predicate DefaultOk(d: DefaultBinding) {
    d.KeyDefault? ==> KeyOk(d.key)
  }

  // SDL numbers its scancodes by USB usage.
  function Scancode(k: KeyId): int
    requires KeyOk(k)
  {
    match k
    case Letter(c) => 4 + (c - 'A') as int
    case Num(d) => if d == 0 then 39 else 29 + d
    case Enter => 40
    case Escape => 41
    case Tab => 43
    case Space => 44
    case Right => 79
    case Left => 80
    case Down => 81
    case Up => 82
    case LCtrl => 224
    case LShift => 225
    case LAlt => 226
    case RCtrl => 228
    case RShift => 229
    case RAlt => 230
  }

  // In the controller library's order.
  function ButtonIndex(b: PadButtonId): (i: nat)
    ensures i < 15
  {
    match b
    case A => 0 case B => 1 case X => 2 case Y => 3 case Back => 4 case Guide => 5 case Start => 6
    case LeftStick => 7 case RightStick => 8 case LeftShoulder => 9 case RightShoulder => 10
    case DPadUp => 11 case DPadDown => 12 case DPadLeft => 13 case DPadRight => 14
  }

  function AxisIndex(a: PadAxisId): (i: nat)
    ensures i < 6
  {
    match a
    case LeftX => 0 case LeftY => 1 case RightX => 2 case RightY => 3 case TriggerLeft => 4 case TriggerRight => 5
  }

  function ToPhysical(d: DefaultBinding): Physical
    requires DefaultOk(d)
  {
    match d
    case KeyDefault(k) => Key(Scancode(k))
    case PadDefault(Button(b)) => PadButton(ButtonIndex(b))
    case PadDefault(Axis(a, dir)) => PadAxis(AxisIndex(a), dir)
    case PadDefault(FullAxis(a)) => PadFullAxis(AxisIndex(a))
    case MouseDefault(MouseLeft) => MouseButtonInput(MouseButton.Left)
    case MouseDefault(MouseRight) => MouseButtonInput(MouseButton.Right)
    case MouseDefault(MouseMiddle) => MouseButtonInput(MouseButton.Middle)
    case MouseDefault(AxisX) => MouseAxis(MouseAxisKind.X)
    case MouseDefault(AxisY) => MouseAxis(MouseAxisKind.Y)
  }

  // A key and a pad button for each rank; the players share the keyboard, not the pad.
  function RoleDefaults(role: Role, player: Option<nat>): (r: seq<DefaultBinding>)
    ensures forall d :: d in r ==> DefaultOk(d)
  {
    match role
    case Primary => [KeyDefault(if player == Some(2) then RShift else LShift), PadDefault(Button(A))]
    case Secondary => [KeyDefault(Space), PadDefault(Button(B))]
    case Tertiary => [KeyDefault(LCtrl), PadDefault(Button(PadButtonId.X))]
  }

  /** No two portable inputs stand for one physical input. */
  lemma TranslationIsInjective(c: DefaultBinding, d: DefaultBinding)
    requires DefaultOk(c) && DefaultOk(d) && ToPhysical(c) == ToPhysical(d)
    ensures c == d
  {
    match c {
      case KeyDefault(k) => KeysAreDistinct(k, d.key);
      case PadDefault(Button(b)) => ButtonsAreDistinct(b, d.pad.button);
      case PadDefault(Axis(a, _)) => AxesAreDistinct(a, d.pad.axis);
      case PadDefault(FullAxis(a)) => AxesAreDistinct(a, d.pad.axis);
      case MouseDefault(_) =>
    }
  }

  lemma KeysAreDistinct(k: KeyId, l: KeyId)
    requires KeyOk(k) && KeyOk(l) && Scancode(k) == Scancode(l)
    ensures k == l
  {
    if k.Letter? && l.Letter? {
      assert (k.letter - 'A') as int == (l.letter - 'A') as int;
    }
  }

  lemma ButtonsAreDistinct(b: PadButtonId, c: PadButtonId)
    requires ButtonIndex(b) == ButtonIndex(c)
    ensures b == c
  {
  }

  lemma AxesAreDistinct(a: PadAxisId, b: PadAxisId)
    requires AxisIndex(a) == AxisIndex(b)
    ensures a == b
  {
  }

  /** A library with the usual buttons and axes and these scancodes knows every suggestion,
      and none of them is an input whose token would load as another. */
  lemma SuggestionsAreKnown(lex: Lexicon, d: DefaultBinding)
    requires DefaultOk(d) && |lex.buttons| >= 15 && |lex.axes| >= 6
    requires forall k :: KeyOk(k) ==> Scancode(k) in lex.scancodes
    ensures lex.Knows(ToPhysical(d)) && !Wordless(ToPhysical(d))
  {
  }

  /** Two players' main actions are on one key exactly when both or neither is player two,
      so that two can share a keyboard. */
  lemma PrimariesShareTheKeyboard(player: Option<nat>, other: Option<nat>)
    ensures ToPhysical(RoleDefaults(Primary, player)[0]) == ToPhysical(RoleDefaults(Primary, other)[0])
       <==> (player == Some(2) <==> other == Some(2))
  {
  }

  /** Keys carry their numbers on the keyboard page of the USB usage tables: the letters from
      4, the digits from one to zero behind them, and the named keys in their places. */
  lemma KeysByUsage(c: char, d: nat)
    requires 'A' <= c <= 'Z' && d < 10
    ensures Scancode(Letter('A')) == 0x04 && Scancode(Letter(c)) - 0x04 == (c - 'A') as int
    ensures Scancode(Letter('Z')) == 0x1D && Scancode(Num(1)) == 0x1E && Scancode(Num(0)) == 0x27
    ensures d > 0 ==> Scancode(Num(d)) == 0x1E + (d - 1)
    ensures Scancode(Enter) == 0x28 && Scancode(Escape) == 0x29 && Scancode(Tab) == 0x2B && Scancode(Space) == 0x2C
    ensures Scancode(KeyId.Right) == 0x4F && Scancode(KeyId.Left) == 0x50 && Scancode(Down) == 0x51 && Scancode(Up) == 0x52
    ensures Scancode(LCtrl) == 0xE0 && Scancode(LShift) == 0xE1 && Scancode(LAlt) == 0xE2
    ensures Scancode(RCtrl) == 0xE4 && Scancode(RShift) == 0xE5 && Scancode(RAlt) == 0xE6
  {
  }

  /** Buttons and axes carry their places in the controller library's lists. */
  lemma PadsInOrder(i: nat)
    ensures var buttons := [A, B, PadButtonId.X, PadButtonId.Y, Back, Guide, Start, LeftStick, RightStick,
                            LeftShoulder, RightShoulder, DPadUp, DPadDown, DPadLeft, DPadRight];
      |buttons| == 15 && (i < 15 ==> ButtonIndex(buttons[i]) == i)
    ensures var axes := [LeftX, LeftY, RightX, RightY, TriggerLeft, TriggerRight];
      |axes| == 6 && (i < 6 ==> AxisIndex(axes[i]) == i)
  {
  }

  /** Each kind of suggestion becomes an input of its own kind, with its own number and side. */
  lemma KindsStay(k: KeyId, b: PadButtonId, a: PadAxisId, dir: AxisDir)
    requires KeyOk(k)
    ensures ToPhysical(KeyDefault(k)) == Key(Scancode(k))
    ensures ToPhysical(PadDefault(Button(b))) == PadButton(ButtonIndex(b))
    ensures ToPhysical(PadDefault(Axis(a, dir))) == PadAxis(AxisIndex(a), dir)
    ensures ToPhysical(PadDefault(FullAxis(a))) == PadFullAxis(AxisIndex(a))
    ensures ToPhysical(MouseDefault(MouseLeft)) == MouseButtonInput(MouseButton.Left)
    ensures ToPhysical(MouseDefault(MouseRight)) == MouseButtonInput(MouseButton.Right)
    ensures ToPhysical(MouseDefault(MouseMiddle)) == MouseButtonInput(MouseButton.Middle)
    ensures ToPhysical(MouseDefault(AxisX)) == MouseAxis(MouseAxisKind.X)
    ensures ToPhysical(MouseDefault(AxisY)) == MouseAxis(MouseAxisKind.Y)
  {
  }

  /** The ladder: left shift and A, right shift for a second player; space and B; left control
      and X. */
  lemma TheLadder(player: Option<nat>)
    ensures RoleDefaults(Primary, Some(2)) == [KeyDefault(RShift), PadDefault(Button(A))]
    ensures player != Some(2) ==> RoleDefaults(Primary, player) == [KeyDefault(LShift), PadDefault(Button(A))]
    ensures RoleDefaults(Secondary, player) == [KeyDefault(Space), PadDefault(Button(B))]
    ensures RoleDefaults(Tertiary, player) == [KeyDefault(LCtrl), PadDefault(Button(PadButtonId.X))]
  {
  }
}
