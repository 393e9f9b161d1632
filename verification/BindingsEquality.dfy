/** Deciding whether two saved binding lists are the same up to order. */
module BindingsEquality {
  import opened Basics
  import opened InputTokens
  import opened InputBindings

  // ---------------------------------------------------------------------------
  // The sort key: control, input, scale bits, deadzone bits
  // ---------------------------------------------------------------------------

  predicate TextLe(s: string, t: string) {
    s == "" || (t != "" && (s[0] < t[0] || (s[0] == t[0] && TextLe(s[1..], t[1..]))))
  }

  predicate OptionLe(x: Option<bits>, y: Option<bits>) {
    x == None || (y.Some? && x.value <= y.value)
  }

  predicate Le(a: Serialized, b: Serialized) {
    if a.control != b.control then TextLe(a.control, b.control)
    else if a.input != b.input then TextLe(a.input, b.input)
    else if a.scale != b.scale then OptionLe(a.scale, b.scale)
    else OptionLe(a.deadzone, b.deadzone)
  }

  lemma {:induction false} TextOrder(s: string, t: string)
    ensures TextLe(s, t) || TextLe(t, s)
    ensures TextLe(s, t) && TextLe(t, s) ==> s == t
  {
    if s != "" && t != "" && s[0] == t[0] {
      TextOrder(s[1..], t[1..]);
      assert s == [s[0]] + s[1..] && t == [t[0]] + t[1..];
    }
  }

  lemma {:induction false} TextTransitive(s: string, t: string, u: string)
    requires TextLe(s, t) && TextLe(t, u)
    ensures TextLe(s, u)
  {
    if s != "" && s[0] == t[0] == u[0] {
      TextTransitive(s[1..], t[1..], u[1..]);
    }
  }

  /** The key orders all entries, and only equal entries tie. */
  lemma KeyOrder(a: Serialized, b: Serialized)
    ensures Le(a, b) || Le(b, a)
    ensures Le(a, b) && Le(b, a) ==> a == b
  {
    TextOrder(a.control, b.control);
    TextOrder(a.input, b.input);
    hide TextLe;
  }

  lemma KeyTransitive(a: Serialized, b: Serialized, c: Serialized)
    requires Le(a, b) && Le(b, c)
    ensures Le(a, c)
  {
    TextOrder(a.control, b.control);
    TextOrder(b.control, c.control);
    TextOrder(a.input, b.input);
    TextOrder(b.input, c.input);
    if TextLe(a.control, b.control) && TextLe(b.control, c.control) {
      TextTransitive(a.control, b.control, c.control);
    }
    if TextLe(a.input, b.input) && TextLe(b.input, c.input) {
      TextTransitive(a.input, b.input, c.input);
    }
    hide TextLe;
  }

  // ---------------------------------------------------------------------------
  // Sorting
  // ---------------------------------------------------------------------------

  ghost predicate Ordered(s: seq<Serialized>) {
    forall i, j :: 0 <= i < j < |s| ==> Le(s[i], s[j])
  }

  function Insert(x: Serialized, s: seq<Serialized>): (r: seq<Serialized>)
    ensures multiset(r) == multiset{x} + multiset(s)
  {
    if s == [] then [x]
    else if Le(x, s[0]) then [x] + s
    else
      assert s == [s[0]] + s[1..];
      [s[0]] + Insert(x, s[1..])
  }

  function Sorted(s: seq<Serialized>): (r: seq<Serialized>)
    ensures multiset(r) == multiset(s)
  {
    if s == [] then [] else
      assert s == [s[0]] + s[1..];
      Insert(s[0], Sorted(s[1..]))
  }

  lemma {:induction false} InsertKeepsOrder(x: Serialized, s: seq<Serialized>)
    requires Ordered(s)
    ensures Ordered(Insert(x, s))
  {
    hide Le;
    var r := Insert(x, s);
    if s != [] {
      KeyOrder(x, s[0]);
      if Le(x, s[0]) {
        forall j | 0 < j < |s| ensures Le(x, s[j]) {
          KeyTransitive(x, s[0], s[j]);
        }
      } else {
        InsertKeepsOrder(x, s[1..]);
        var tail := Insert(x, s[1..]);
        forall j | 0 <= j < |tail| ensures Le(s[0], tail[j]) {
          assert tail[j] in multiset(tail);
          assert tail[j] == x || tail[j] in multiset(s[1..]);
        }
      }
    }
  }

  lemma {:induction false} SortedIsOrdered(s: seq<Serialized>)
    ensures Ordered(Sorted(s))
  {
    if s != [] {
      SortedIsOrdered(s[1..]);
      InsertKeepsOrder(s[0], Sorted(s[1..]));
    }
  }

  /** Two ordered lists of the same entries are the same list. */
  lemma {:induction false} OrderedIsUnique(s: seq<Serialized>, t: seq<Serialized>)
    requires Ordered(s) && Ordered(t) && multiset(s) == multiset(t)
    ensures s == t
    decreases |s|
  {
    hide Le;
    assert |s| == |multiset(s)| == |multiset(t)| == |t|;
    if s != [] {
      FirstsAgree(s, t);
      assert s == [s[0]] + s[1..] && t == [t[0]] + t[1..];
      assert multiset(s[1..]) == multiset(s) - multiset{s[0]};
      assert multiset(t[1..]) == multiset(t) - multiset{t[0]};
      OrderedIsUnique(s[1..], t[1..]);
    }
  }

  lemma FirstsAgree(s: seq<Serialized>, t: seq<Serialized>)
    requires Ordered(s) && Ordered(t) && multiset(s) == multiset(t) && s != [] && t != []
    ensures s[0] == t[0]
  {
    hide Le;
    assert s[0] in multiset(t) && t[0] in multiset(s);
    var i :| 0 <= i < |t| && t[i] == s[0];
    var j :| 0 <= j < |s| && s[j] == t[0];
    KeyOrder(s[0], t[0]);
  }

  // ---------------------------------------------------------------------------
  // The comparison
  // ---------------------------------------------------------------------------

  predicate OptionEq(x: Option<bits>, y: Option<bits>) {
    match (x, y)
    case (Some(v), Some(w)) => FloatEq(v, w)
    case (None, None) => true
    case _ => false
  }

  // Derived equality compares the tuning as floats, not as bits.
  predicate EntryEq(a: Serialized, b: Serialized) {
    a.control == b.control && a.input == b.input && OptionEq(a.scale, b.scale) && OptionEq(a.deadzone, b.deadzone)
  }

  predicate ListEq(a: seq<Serialized>, b: seq<Serialized>) {
    |a| == |b| && forall i :: 0 <= i < |a| ==> EntryEq(a[i], b[i])
  }

  predicate BindingsEq(a: seq<Serialized>, b: seq<Serialized>) {
    |a| == |b| && ListEq(Sorted(a), Sorted(b))
  }

  predicate HasNaN(e: Serialized) {
    (e.scale.Some? && IsNaN(e.scale.value)) || (e.deadzone.Some? && IsNaN(e.deadzone.value))
  }

  const NEGATIVE_ZERO: bits := 0x8000_0000

  predicate HasNegativeZero(e: Serialized) {
    e.scale == Some(NEGATIVE_ZERO) || e.deadzone == Some(NEGATIVE_ZERO)
  }

  lemma EntryEqIff(a: Serialized, b: Serialized)
    ensures EntryEq(a, a) <==> !HasNaN(a)
    ensures !HasNegativeZero(a) && !HasNegativeZero(b) && EntryEq(a, b) ==> a == b
  {
    ZeroBits(a.scale, b.scale);
    ZeroBits(a.deadzone, b.deadzone);
  }

  lemma ZeroBits(x: Option<bits>, y: Option<bits>)
    ensures OptionEq(x, y) && x != Some(NEGATIVE_ZERO) && y != Some(NEGATIVE_ZERO) ==> x == y
  {
  }

  /** Lists of the same entries compare equal exactly when no tuning value is a NaN. */
  lemma SameEntriesCompareEqual(a: seq<Serialized>, b: seq<Serialized>)
    requires multiset(a) == multiset(b)
    ensures BindingsEq(a, b) <==> forall e :: e in a ==> !HasNaN(e)
  {
    hide Le, EntryEq, HasNaN;
    assert |a| == |multiset(a)| == |multiset(b)| == |b|;
    SortedIsOrdered(a);
    SortedIsOrdered(b);
    OrderedIsUnique(Sorted(a), Sorted(b));
    SelfEqual(Sorted(a));
    assert forall e :: e in a <==> e in multiset(Sorted(a));
    assert forall e :: e in Sorted(a) <==> e in multiset(Sorted(a));
  }

  lemma SelfEqual(s: seq<Serialized>)
    ensures ListEq(s, s) <==> forall e :: e in s ==> !HasNaN(e)
  {
    hide EntryEq, HasNaN;
    forall e: Serialized
      ensures EntryEq(e, e) <==> !HasNaN(e)
    {
      EntryEqIff(e, e);
    }
    if e :| e in s && HasNaN(e) {
      var i :| 0 <= i < |s| && s[i] == e;
      assert !EntryEq(s[i], s[i]);
    }
  }

  /** The comparison decides equality up to order, for all lists whose tuning values are
      neither NaN nor negative zero. */
  lemma DecidesMultisets(a: seq<Serialized>, b: seq<Serialized>)
    requires forall e :: e in a || e in b ==> !HasNaN(e) && !HasNegativeZero(e)
    ensures BindingsEq(a, b) <==> multiset(a) == multiset(b)
  {
    hide EntryEq, HasNaN, HasNegativeZero, Le;
    if multiset(a) == multiset(b) {
      SameEntriesCompareEqual(a, b);
    }
    if BindingsEq(a, b) {
      var s, t := Sorted(a), Sorted(b);
      forall i | 0 <= i < |s|
        ensures s[i] == t[i]
      {
        assert s[i] in multiset(s) && t[i] in multiset(t);
        EntryEqIff(s[i], t[i]);
      }
      assert s == t;
    }
  }

  // The sign of a zero dropped, as float comparison drops it.
  function DropSign(x: Option<bits>): Option<bits> {
    if x.Some? && IsZero(x.value) then Some(ZERO) else x
  }

  function Unsigned(e: Serialized): Serialized {
    e.(scale := DropSign(e.scale), deadzone := DropSign(e.deadzone))
  }

  function UnsignedAll(s: seq<Serialized>): (r: seq<Serialized>)
    ensures |r| == |s| && forall i :: 0 <= i < |s| ==> r[i] == Unsigned(s[i])
  {
    seq(|s|, i requires 0 <= i < |s| => Unsigned(s[i]))
  }

  lemma OptionEqIff(x: Option<bits>, y: Option<bits>)
    ensures OptionEq(x, y) <==> (x.Some? ==> !IsNaN(x.value)) && DropSign(x) == DropSign(y)
  {
  }

  lemma EntryEqExactly(a: Serialized, b: Serialized)
    ensures EntryEq(a, b) <==> !HasNaN(a) && Unsigned(a) == Unsigned(b)
  {
    OptionEqIff(a.scale, b.scale);
    OptionEqIff(a.deadzone, b.deadzone);
    hide OptionEq, DropSign;
  }

  lemma ListEqExactly(s: seq<Serialized>, t: seq<Serialized>)
    ensures ListEq(s, t) <==> (forall e :: e in s ==> !HasNaN(e)) && UnsignedAll(s) == UnsignedAll(t)
  {
    hide EntryEq, HasNaN, Unsigned;
    if |s| == |t| {
      forall i | 0 <= i < |s|
        ensures EntryEq(s[i], t[i]) <==> !HasNaN(s[i]) && UnsignedAll(s)[i] == UnsignedAll(t)[i]
      {
        EntryEqExactly(s[i], t[i]);
      }
      assert (forall e :: e in s ==> !HasNaN(e)) <==> forall i :: 0 <= i < |s| ==> !HasNaN(s[i]);
    }
  }

  /** When two lists, of the same entries or not, compare equal: exactly when none of the
      tuning values is a NaN and the sorted lists agree once the sign of zero is dropped. */
  lemma EqualExactly(a: seq<Serialized>, b: seq<Serialized>)
    ensures BindingsEq(a, b)
       <==> (forall e :: e in a ==> !HasNaN(e)) && UnsignedAll(Sorted(a)) == UnsignedAll(Sorted(b))
  {
    hide Le, HasNaN, Unsigned, ListEq;
    ListEqExactly(Sorted(a), Sorted(b));
    assert forall e :: e in a <==> e in multiset(Sorted(a));
    assert forall e :: e in Sorted(a) <==> e in multiset(Sorted(a));
    assert |Sorted(a)| == |multiset(Sorted(a))| == |a| && |Sorted(b)| == |multiset(Sorted(b))| == |b|;
  }

  /** Both kinds of value make it wrong: a NaN makes a list differ from
      itself, and a zero that only changed sign goes unnoticed. */
  lemma NaNAndZeroSignFool(control: string, input: string)
    ensures var nan := [Serialized(control, input, Some(0x7FC0_0000), None)];
      !BindingsEq(nan, nan)
    ensures var plus, minus := [Serialized(control, input, Some(ZERO), None)],
                               [Serialized(control, input, Some(NEGATIVE_ZERO), None)];
      BindingsEq(plus, minus) && multiset(plus) != multiset(minus)
  {
    var plus := Serialized(control, input, Some(ZERO), None);
    var minus := Serialized(control, input, Some(NEGATIVE_ZERO), None);
    assert plus in multiset([plus]) && plus !in multiset([minus]);
  }

  // ---------------------------------------------------------------------------
  // Which tuning values it decides
  // ---------------------------------------------------------------------------

  predicate TunedIn(e: Serialized, values: set<bits>) {
    (e.scale.Some? ==> e.scale.value in values) && (e.deadzone.Some? ==> e.deadzone.value in values)
  }

  ghost predicate AllTunedIn(s: seq<Serialized>, values: set<bits>) {
    forall e :: e in s ==> TunedIn(e, values)
  }

  // Float equality tells these values apart, each from the others and none from itself.
  predicate ToldApart(values: set<bits>) {
    (forall x :: x in values ==> !IsNaN(x)) && !(ZERO in values && NEGATIVE_ZERO in values)
  }

  ghost predicate DecidesOn(values: set<bits>) {
    forall a, b :: AllTunedIn(a, values) && AllTunedIn(b, values) ==> (BindingsEq(a, b) <==> multiset(a) == multiset(b))
  }

  lemma SignsMatter(a: Serialized, b: Serialized, values: set<bits>)
    requires ToldApart(values) && TunedIn(a, values) && TunedIn(b, values)
    ensures !HasNaN(a) && (Unsigned(a) == Unsigned(b) ==> a == b)
  {
  }

  lemma SignsMatterInLists(s: seq<Serialized>, t: seq<Serialized>, values: set<bits>)
    requires ToldApart(values) && AllTunedIn(s, values) && AllTunedIn(t, values)
    requires UnsignedAll(s) == UnsignedAll(t)
    ensures s == t
  {
    hide Unsigned, TunedIn, ToldApart, HasNaN;
    assert |s| == |UnsignedAll(s)| == |t|;
    forall i | 0 <= i < |s|
      ensures s[i] == t[i]
    {
      assert UnsignedAll(s)[i] == UnsignedAll(t)[i];
      SignsMatter(s[i], t[i], values);
    }
  }

  lemma SortedTuned(s: seq<Serialized>, values: set<bits>)
    requires AllTunedIn(s, values)
    ensures AllTunedIn(Sorted(s), values)
  {
    hide TunedIn, Le;
    forall e | e in Sorted(s)
      ensures TunedIn(e, values)
    {
      assert e in multiset(Sorted(s)) && e in multiset(s);
    }
  }

  lemma NoneIsNaN(s: seq<Serialized>, values: set<bits>)
    requires ToldApart(values) && AllTunedIn(s, values)
    ensures forall e :: e in s ==> !HasNaN(e)
  {
    hide Unsigned, TunedIn, ToldApart, HasNaN;
    forall e | e in s
      ensures !HasNaN(e)
    {
      SignsMatter(e, e, values);
    }
  }

  lemma ToldApartDecides(a: seq<Serialized>, b: seq<Serialized>, values: set<bits>)
    requires ToldApart(values) && AllTunedIn(a, values) && AllTunedIn(b, values)
    ensures BindingsEq(a, b) <==> multiset(a) == multiset(b)
  {
    hide HasNaN, UnsignedAll, AllTunedIn, ToldApart, BindingsEq;
    NoneIsNaN(a, values);
    if multiset(a) == multiset(b) {
      SameEntriesCompareEqual(a, b);
    }
    if BindingsEq(a, b) {
      EqualExactly(a, b);
      SortedTuned(a, values);
      SortedTuned(b, values);
      SignsMatterInLists(Sorted(a), Sorted(b), values);
      assert multiset(a) == multiset(Sorted(a)) == multiset(Sorted(b)) == multiset(b);
    }
  }

  /** The values it can be trusted on: over all lists tuned within a set of values it decides
      equality up to order exactly when the set has no NaN and not both signs of zero. */
  lemma DecidesOnIff(values: set<bits>)
    ensures DecidesOn(values) <==> ToldApart(values)
  {
    hide BindingsEq, ToldApart;
    if ToldApart(values) {
      forall a, b | AllTunedIn(a, values) && AllTunedIn(b, values)
        ensures BindingsEq(a, b) <==> multiset(a) == multiset(b)
      {
        ToldApartDecides(a, b, values);
      }
    } else {
      FooledOn(values);
    }
  }

  lemma FooledOn(values: set<bits>)
    requires !ToldApart(values)
    ensures !DecidesOn(values)
  {
    hide BindingsEq;
    if x :| x in values && IsNaN(x) {
      var nan := [Serialized("", "", Some(x), None)];
      SameEntriesCompareEqual(nan, nan);
      assert HasNaN(nan[0]) && AllTunedIn(nan, values);
    } else {
      var plus, minus := [Serialized("", "", Some(ZERO), None)], [Serialized("", "", Some(NEGATIVE_ZERO), None)];
      NaNAndZeroSignFool("", "");
      assert AllTunedIn(plus, values) && AllTunedIn(minus, values);
    }
  }
}
