/** Physical inputs and the tokens they are saved as. */
module InputTokens {
  import opened Basics
  import opened Decimal

  datatype AxisDir = Positive | Negative

  datatype MouseAxisKind = X | Y

  datatype MouseButton = Left | Right | Middle | X1 | X2 | Unknown

  // Pad buttons and axes are positions in the controller library's name lists.
  datatype Physical =
    | Key(scancode: int)
    | PadButton(button: nat)
    | PadAxis(axis: nat, dir: AxisDir)
    | PadFullAxis(fullAxis: nat)
    | MouseButtonInput(mouseButton: MouseButton)
    | MouseAxis(mouseAxis: MouseAxisKind)

  /** What the device library knows: scancode numbers, the names it gives its buttons and
      axes, and its own lookups, which may accept further spellings. */
  datatype Lexicon = Lexicon(scancodes: set<int>, buttons: seq<string>, axes: seq<string>,
                             buttonNamed: string -> Option<nat>, axisNamed: string -> Option<nat>) {
    ghost predicate Valid() {
      && (forall n :: n in scancodes ==> -0x8000_0000 <= n < 0x8000_0000)
      && Looks(buttons, buttonNamed) && Looks(axes, axisNamed)
    }

    // An input the library can hand over.
    predicate Knows(p: Physical) {
      match p
      case Key(n) => n in scancodes
      case PadButton(b) => b < |buttons|
      case PadAxis(a, _) => a < |axes|
      case PadFullAxis(a) => a < |axes|
      case _ => true
    }
  }

  // A lookup that finds every name and nothing outside the list.
  ghost predicate Looks(names: seq<string>, named: string -> Option<nat>) {
    && (forall i :: 0 <= i < |names| ==> named(names[i]) == Some(i))
    && forall s :: named(s).Some? ==> named(s).value < |names|
  }

  /** One physical input bound to one control. The slot is the pad that may drive it, none
      for any; the tuning values are of type `F`. */
  datatype BindingOf<F> = Bind(physical: Physical, target: nat, playerSlot: Option<nat>, scale: F, deadzone: F)

  // `{}` of a signed number.
  function Shown(n: int): string {
    if n < 0 then "-" + Digits(-n) else Digits(n)
  }

  predicate AllDigits(s: string) {
    s != "" && forall c :: c in s ==> IsDigit(c)
  }

  // Parsing a 32-bit signed number: an optional sign, then digits.
  function ParseI32(s: string): Option<int> {
    if s == "" then None
    else if s[0] == '-' then Parsed(s[1..], true)
    else if s[0] == '+' then Parsed(s[1..], false)
    else Parsed(s, false)
  }

  function Parsed(digits: string, negative: bool): Option<int> {
    if !AllDigits(digits) then None else
      var v: int := Value(digits);
      var n := if negative then -v else v;
      if -0x8000_0000 <= n < 0x8000_0000 then Some(n) else None
  }

  function SplitOnce(s: string, c: char): Option<(string, string)> {
    if s == "" then None
    else if s[0] == c then Some(("", s[1..]))
    else match SplitOnce(s[1..], c)
      case None => None
      case Some((kind, rest)) => Some(([s[0]] + kind, rest))
  }

  function RSplitOnce(s: string, c: char): Option<(string, string)> {
    if s == "" then None
    else if s[|s| - 1] == c then Some((s[..|s| - 1], ""))
    else match RSplitOnce(s[..|s| - 1], c)
      case None => None
      case Some((rest, tail)) => Some((rest, tail + [s[|s| - 1]]))
  }

  function ToToken(lex: Lexicon, p: Physical): string
    requires lex.Knows(p)
  {
    match p
    case Key(n) => "key:" + Shown(n)
    case PadButton(b) => "pad:" + lex.buttons[b]
    case PadAxis(a, dir) => "padaxis:" + (lex.axes[a] + ":" + if dir == Positive then "+" else "-")
    case PadFullAxis(a) => "padfullaxis:" + lex.axes[a]
    case MouseButtonInput(b) =>
      "mouse:" + (match b case Right => "right" case Middle => "middle" case _ => "left")
    case MouseAxis(axis) => "mouseaxis:" + if axis == X then "x" else "y"
  }

  function FromRest(lex: Lexicon, kind: string, rest: string): Option<Physical> {
    if kind == "key" then
      (match ParseI32(rest) case Some(n) => if n in lex.scancodes then Some(Key(n)) else None case None => None)
    else if kind == "pad" then
      (match lex.buttonNamed(rest) case Some(b) => Some(PadButton(b)) case None => None)
    else if kind == "padaxis" then
      (match RSplitOnce(rest, ':')
       case None => None
       case Some((axis, sign)) =>
         if sign != "+" && sign != "-" then None else
           match lex.axisNamed(axis)
           case Some(a) => Some(PadAxis(a, if sign == "+" then Positive else Negative))
           case None => None)
    else if kind == "padfullaxis" then
      (match lex.axisNamed(rest) case Some(a) => Some(PadFullAxis(a)) case None => None)
    else if kind == "mouse" then
      if rest == "left" then Some(MouseButtonInput(Left))
      else if rest == "right" then Some(MouseButtonInput(Right))
      else if rest == "middle" then Some(MouseButtonInput(Middle))
      else None
    else if kind == "mouseaxis" then
      if rest == "x" then Some(MouseAxis(X)) else if rest == "y" then Some(MouseAxis(Y)) else None
    else None
  }

  function FromToken(lex: Lexicon, token: string): Option<Physical> {
    match SplitOnce(token, ':')
    case None => None
    case Some((kind, rest)) => FromRest(lex, kind, rest)
  }

  // ---------------------------------------------------------------------------
  // The round trip
  // ---------------------------------------------------------------------------

  lemma {:induction false} SplitAt(kind: string, c: char, rest: string)
    requires c !in kind
    ensures SplitOnce(kind + [c] + rest, c) == Some((kind, rest))
    decreases |kind|
  {
    var s := kind + [c] + rest;
    if kind == "" {
      assert s == [c] + rest;
    } else {
      assert s[1..] == kind[1..] + [c] + rest;
      SplitAt(kind[1..], c, rest);
      assert [kind[0]] + kind[1..] == kind;
    }
  }

  lemma RSplitSign(axis: string, sign: char)
    requires sign != ':'
    ensures RSplitOnce(axis + ":" + [sign], ':') == Some((axis, [sign]))
  {
    var s := axis + ":" + [sign];
    assert s[..|s| - 1] == axis + ":";
    assert (axis + ":")[..|axis|] == axis;
    assert RSplitOnce(axis + ":", ':') == Some((axis, ""));
    assert "" + [sign] == [sign];
  }

  lemma ParsesShown(n: int)
    requires -0x8000_0000 <= n < 0x8000_0000
    ensures ParseI32(Shown(n)) == Some(n)
  {
    var m: nat := if n < 0 then -n else n;
    ParsesDigits(m, n < 0);
    StartsWithDigit(m);
    hide Digits, Parsed;
    assert n < 0 ==> Shown(n)[1..] == Digits(m);
  }

  lemma ParsesDigits(m: nat, negative: bool)
    requires m <= 0x8000_0000 && (m == 0x8000_0000 ==> negative)
    ensures var v: int := m; Parsed(Digits(m), negative) == Some(if negative then -v else v)
  {
    DigitsRoundTrip(m);
    hide Digits, Value;
  }

  lemma StartsWithDigit(m: nat)
    ensures Digits(m)[0] != '-' && Digits(m)[0] != '+'
  {
    DigitsRoundTrip(m);
    hide Digits, Value;
    assert Digits(m)[0] in Digits(m);
  }

  // The kind a token starts with.
  function Kind(p: Physical): string {
    match p
    case Key(_) => "key"
    case PadButton(_) => "pad"
    case PadAxis(_, _) => "padaxis"
    case PadFullAxis(_) => "padfullaxis"
    case MouseButtonInput(_) => "mouse"
    case MouseAxis(_) => "mouseaxis"
  }

  function Rest(lex: Lexicon, p: Physical): string
    requires lex.Knows(p)
  {
    match p
    case Key(n) => Shown(n)
    case PadButton(b) => lex.buttons[b]
    case PadAxis(a, dir) => lex.axes[a] + ":" + if dir == Positive then "+" else "-"
    case PadFullAxis(a) => lex.axes[a]
    case MouseButtonInput(b) => (match b case Right => "right" case Middle => "middle" case _ => "left")
    case MouseAxis(axis) => if axis == X then "x" else "y"
  }

  lemma TokenSplits(lex: Lexicon, p: Physical)
    requires lex.Knows(p)
    ensures FromToken(lex, ToToken(lex, p)) == FromRest(lex, Kind(p), Rest(lex, p))
  {
    hide FromRest, SplitOnce, Shown;
    assert ToToken(lex, p) == Kind(p) + [':'] + Rest(lex, p);
    SplitAt(Kind(p), ':', Rest(lex, p));
  }

  // What a button is written as.
  function Written(p: Physical): Physical {
    if p.MouseButtonInput? && p.mouseButton != Right && p.mouseButton != Middle then MouseButtonInput(Left) else p
  }

  lemma RestParses(lex: Lexicon, p: Physical)
    requires lex.Valid() && lex.Knows(p)
    ensures FromRest(lex, Kind(p), Rest(lex, p)) == Some(Written(p))
  {
    hide ParseI32, Shown, RSplitOnce;
    match p
    case Key(n) => ParsesShown(n);
    case PadAxis(a, dir) =>
      RSplitSign(lex.axes[a], if dir == Positive then '+' else '-');
    case _ =>
  }

  /** What a saved token loads as: the input itself, or the left button for every mouse
      button that has no word of its own. */
  lemma TokenLoadsAs(lex: Lexicon, p: Physical)
    requires lex.Valid() && lex.Knows(p)
    ensures FromToken(lex, ToToken(lex, p)) == Some(Written(p))
  {
    TokenSplits(lex, p);
    RestParses(lex, p);
  }

  predicate Wordless(p: Physical) {
    p == MouseButtonInput(X1) || p == MouseButtonInput(X2) || p == MouseButtonInput(Unknown)
  }

  /** The round trip holds exactly for inputs other than the extra mouse buttons. */
  lemma RoundTripIff(lex: Lexicon, p: Physical)
    requires lex.Valid() && lex.Knows(p)
    ensures FromToken(lex, ToToken(lex, p)) == Some(p) <==> !Wordless(p)
  {
    TokenLoadsAs(lex, p);
    hide FromToken, ToToken;
  }

  /** Distinct inputs have distinct tokens, the extra mouse buttons aside. */
  lemma TokensAreDistinct(lex: Lexicon, p: Physical, q: Physical)
    requires lex.Valid() && lex.Knows(p) && lex.Knows(q) && !Wordless(p) && !Wordless(q)
    requires ToToken(lex, p) == ToToken(lex, q)
    ensures p == q
  {
    RoundTripIff(lex, p);
    RoundTripIff(lex, q);
    hide FromToken, ToToken;
  }

  /** Whatever spelling a token loads from, saving what it loaded and loading that again
      changes nothing. */
  lemma LoadedIsStable(lex: Lexicon, token: string)
    requires lex.Valid() && FromToken(lex, token).Some?
    ensures var p := FromToken(lex, token).value;
      lex.Knows(p) && FromToken(lex, ToToken(lex, p)) == Some(p)
  {
    var split := SplitOnce(token, ':').value;
    LoadedIsKnown(lex, split.0, split.1);
    hide FromRest;
    RoundTripIff(lex, FromToken(lex, token).value);
  }

  lemma LoadedIsKnown(lex: Lexicon, kind: string, rest: string)
    requires lex.Valid() && FromRest(lex, kind, rest).Some?
    ensures lex.Knows(FromRest(lex, kind, rest).value) && !Wordless(FromRest(lex, kind, rest).value)
  {
    hide ParseI32, RSplitOnce;
  }

  // ---------------------------------------------------------------------------
  // The language of tokens
  // ---------------------------------------------------------------------------

  /** What tokens look like, kind by kind. */
  lemma TokensLookLike(lex: Lexicon, n: int, b: nat, a: nat)
    requires n > 0 && n in lex.scancodes && -n in lex.scancodes && b < |lex.buttons| && a < |lex.axes|
    ensures ToToken(lex, Key(n)) == "key:" + Digits(n) && ToToken(lex, Key(-n)) == "key:-" + Digits(n)
    ensures 0 in lex.scancodes ==> ToToken(lex, Key(0)) == "key:0"
    ensures 4 in lex.scancodes ==> ToToken(lex, Key(4)) == "key:4"
    ensures ToToken(lex, PadButton(b)) == "pad:" + lex.buttons[b]
    ensures ToToken(lex, PadAxis(a, Positive)) == "padaxis:" + lex.axes[a] + ":+"
    ensures ToToken(lex, PadAxis(a, Negative)) == "padaxis:" + lex.axes[a] + ":-"
    ensures ToToken(lex, PadFullAxis(a)) == "padfullaxis:" + lex.axes[a]
    ensures ToToken(lex, MouseButtonInput(Left)) == "mouse:left" && ToToken(lex, MouseButtonInput(Right)) == "mouse:right"
    ensures ToToken(lex, MouseButtonInput(Middle)) == "mouse:middle"
    ensures ToToken(lex, MouseAxis(X)) == "mouseaxis:x" && ToToken(lex, MouseAxis(Y)) == "mouseaxis:y"
  {
    assert Digits(0) == "0" && Digits(4) == "4";
    assert "key:" + "0" == "key:0" && "key:" + "4" == "key:4";
    hide Digits;
    assert "padaxis:" + (lex.axes[a] + ":" + "+") == "padaxis:" + lex.axes[a] + ":+";
    assert "padaxis:" + (lex.axes[a] + ":" + "-") == "padaxis:" + lex.axes[a] + ":-";
    assert "key:" + ("-" + Digits(n)) == "key:-" + Digits(n);
  }

  lemma Splits(lex: Lexicon, kind: string, rest: string)
    requires ':' !in kind
    ensures FromToken(lex, kind + ":" + rest) == FromRest(lex, kind, rest)
  {
    SplitAt(kind, ':', rest);
  }

  /** Which mouse tokens are read, and as what. */
  lemma MouseTokens(lex: Lexicon, rest: string)
    ensures FromToken(lex, "mouse" + ":" + rest)
         == if rest == "left" then Some(MouseButtonInput(Left)) else if rest == "right" then Some(MouseButtonInput(Right))
            else if rest == "middle" then Some(MouseButtonInput(Middle)) else None
    ensures FromToken(lex, "mouseaxis" + ":" + rest)
         == if rest == "x" then Some(MouseAxis(X)) else if rest == "y" then Some(MouseAxis(Y)) else None
  {
    Splits(lex, "mouse", rest);
    Splits(lex, "mouseaxis", rest);
  }

  /** Which pad tokens: whatever the library has a button or an axis for, a direction behind
      the last colon. */
  lemma PadTokens(lex: Lexicon, name: string, sign: string)
    requires ':' !in sign
    ensures FromToken(lex, "pad" + ":" + name) == match lex.buttonNamed(name) case Some(b) => Some(PadButton(b)) case None => None
    ensures FromToken(lex, "padfullaxis" + ":" + name)
         == match lex.axisNamed(name) case Some(a) => Some(PadFullAxis(a)) case None => None
    ensures FromToken(lex, "padaxis" + ":" + (name + ":" + sign))
         == match lex.axisNamed(name)
            case Some(a) =>
              if sign == "+" then Some(PadAxis(a, Positive)) else if sign == "-" then Some(PadAxis(a, Negative)) else None
            case None => None
    ensures ':' !in name ==> FromToken(lex, "padaxis" + ":" + name) == None
  {
    Splits(lex, "pad", name);
    Splits(lex, "padfullaxis", name);
    Splits(lex, "padaxis", name + ":" + sign);
    Splits(lex, "padaxis", name);
    RSplitAt(name, sign);
    if ':' !in name {
      RSplitNone(name);
    }
  }

  lemma {:induction false} RSplitAt(name: string, sign: string)
    requires ':' !in sign
    ensures RSplitOnce(name + ":" + sign, ':') == Some((name, sign))
    decreases |sign|
  {
    var s := name + ":" + sign;
    if sign == "" {
      assert s[..|s| - 1] == name;
    } else {
      var n := |sign| - 1;
      assert s[..|s| - 1] == name + ":" + sign[..n] && s[|s| - 1] == sign[n];
      RSplitAt(name, sign[..n]);
      assert sign[..n] + [sign[n]] == sign;
    }
  }

  lemma {:induction false} RSplitNone(s: string)
    requires ':' !in s
    ensures RSplitOnce(s, ':') == None
    decreases |s|
  {
    if s != "" {
      RSplitNone(s[..|s| - 1]);
    }
  }

  lemma SignedDigits(digits: string)
    requires AllDigits(digits)
    ensures var v: int := Value(digits);
      && ParseI32(digits) == ParseI32("+" + digits) == (if v < 0x8000_0000 then Some(v) else None)
      && ParseI32("-" + digits) == (if v <= 0x8000_0000 then Some(-v) else None)
  {
    assert ("+" + digits)[1..] == digits && ("-" + digits)[1..] == digits;
    assert digits[0] in digits;
    hide Value;
  }

  /** Which key tokens: the numbers the library has a key for, signed or not, within 32 bits. */
  lemma KeyTokens(lex: Lexicon, digits: string)
    requires AllDigits(digits)
    ensures var v: int := Value(digits);
      && FromToken(lex, "key" + ":" + digits) == (if v < 0x8000_0000 && v in lex.scancodes then Some(Key(v)) else None)
      && FromToken(lex, "key" + ":" + ("+" + digits)) == FromToken(lex, "key" + ":" + digits)
      && FromToken(lex, "key" + ":" + ("-" + digits)) == (if v <= 0x8000_0000 && -v in lex.scancodes then Some(Key(-v)) else None)
  {
    hide Value, FromToken, ParseI32, AllDigits;
    Splits(lex, "key", digits);
    Splits(lex, "key", "+" + digits);
    Splits(lex, "key", "-" + digits);
    SignedDigits(digits);
  }

  /** Nothing else is read: no other kind, no token without one, no key that is not a number. */
  lemma OtherTokens(lex: Lexicon, kind: string, rest: string)
    requires ':' !in kind
    ensures kind !in ["key", "pad", "padaxis", "padfullaxis", "mouse", "mouseaxis"] ==>
              FromToken(lex, kind + ":" + rest) == None
    ensures FromToken(lex, kind) == None
    ensures kind == "key" && FromToken(lex, kind + ":" + rest).Some? ==>
              AllDigits(rest) || (rest != "" && (rest[0] == '+' || rest[0] == '-') && AllDigits(rest[1..]))
  {
    Splits(lex, kind, rest);
    SplitNone(kind);
  }

  lemma {:induction false} SplitNone(s: string)
    requires ':' !in s
    ensures SplitOnce(s, ':') == None
  {
    if s != "" {
      SplitNone(s[1..]);
    }
  }
}
