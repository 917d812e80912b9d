/**
 From the texts of the urgent run's state file and rows to the numbers `UrgentPush` reasons about
 (apps/notify/src/run.ts): both comparisons of boundaries are the comparisons of numbers.
 */
module UrgentNumbers {
  import opened Outcomes
  import opened Texts
  import InstantText
  import UrgentPush
  import UrgentState

  // --- Identifiers ----------------------------------------------------------------------------

  function Power(n: nat): (p: nat)
    ensures p >= 1
  {
    if n == 0 then 1 else 16 * Power(n - 1)
  }

  const DASH: Unit := '-' as int

  predicate IsHex(u: Unit) {
    UrgentState.Fits(u, UrgentState.HexDigit)
  }

  predicate AllHex(t: Text) {
    forall i :: 0 <= i < |t| ==> IsHex(t[i]) || t[i] == DASH
  }

  function HexValue(u: Unit): (n: nat)
    requires IsHex(u)
    ensures n < 16
  {
    if u <= '9' as int then u - '0' as int else u - 'a' as int + 10
  }

  /** How many digits a text has, dashes not counted. */
  function HexDigits(t: Text): nat {
    if t == [] then 0 else (if t[0] == DASH then 0 else 1) + HexDigits(t[1..])
  }

  /** The number an identifier writes, dashes skipped. */
  function ItemNumber(t: Text): (n: nat)
    requires AllHex(t)
    ensures n < Power(HexDigits(t))
  {
    if t == [] then 0
    else if t[0] == DASH then ItemNumber(t[1..])
    else
      DigitBound(HexValue(t[0]), Power(HexDigits(t[1..])));
      HexValue(t[0]) * Power(HexDigits(t[1..])) + ItemNumber(t[1..])
  }

  lemma DigitBound(d: nat, p: nat)
    requires d < 16
    ensures d * p + p <= 16 * p
  {
    assert (d + 1) * p <= 16 * p;
  }

  /** Dashes stand at the same places. */
  ghost predicate SameShape(a: Text, b: Text) {
    |a| == |b| && AllHex(a) && AllHex(b) && forall i :: 0 <= i < |a| ==> (a[i] == DASH <==> b[i] == DASH)
  }

  lemma {:induction false} SameDigits(a: Text, b: Text)
    requires SameShape(a, b)
    ensures HexDigits(a) == HexDigits(b)
  {
    if a != [] {
      assert a[0] == DASH <==> b[0] == DASH;
      SameDigits(a[1..], b[1..]);
    }
  }

  /** Identifiers of one shape compare as the numbers they write. */
  lemma {:induction false} ItemOrder(a: Text, b: Text)
    requires SameShape(a, b)
    ensures Less(a, b) <==> ItemNumber(a) < ItemNumber(b)
    ensures a == b <==> ItemNumber(a) == ItemNumber(b)
  {
    if a != [] {
      assert a[0] == DASH <==> b[0] == DASH;
      assert IsHex(a[0]) || a[0] == DASH;
      assert IsHex(b[0]) || b[0] == DASH;
      assert a == [a[0]] + a[1..] && b == [b[0]] + b[1..];
      ItemOrder(a[1..], b[1..]);
      SameDigits(a[1..], b[1..]);
      if a[0] != DASH {
        var p := Power(HexDigits(a[1..]));
        if a[0] < b[0] {
          InstantText.LargerDigit(HexValue(a[0]), HexValue(b[0]), p, ItemNumber(a[1..]), ItemNumber(b[1..]));
        } else if b[0] < a[0] {
          InstantText.LargerDigit(HexValue(b[0]), HexValue(a[0]), p, ItemNumber(b[1..]), ItemNumber(a[1..]));
        }
      }
    }
  }

  lemma UuidShape(a: Text, b: Text)
    requires UrgentState.IsUuid(a) && UrgentState.IsUuid(b)
    ensures SameShape(a, b)
  {
    forall i | 0 <= i < 36
      ensures (IsHex(a[i]) || a[i] == DASH) && (IsHex(b[i]) || b[i] == DASH) && (a[i] == DASH <==> b[i] == DASH)
    {
      assert UrgentState.Fits(a[i], UrgentState.UUID_PATTERN[i]) && UrgentState.Fits(b[i], UrgentState.UUID_PATTERN[i]);
    }
  }

  const NIL: Text := Ascii("00000000-0000-0000-0000-000000000000")

  lemma NilIsUuid()
    ensures UrgentState.IsUuid(NIL)
  {
    assert |NIL| == 36;
    assert forall i :: 0 <= i < 36 ==> UrgentState.Fits(NIL[i], UrgentState.UUID_PATTERN[i]);
  }

  lemma {:induction false} ZerosAreNothing(t: Text)
    requires forall i :: 0 <= i < |t| ==> t[i] == '0' as int || t[i] == DASH
    ensures AllHex(t) && ItemNumber(t) == 0
  {
    if t != [] {
      ZerosAreNothing(t[1..]);
    }
  }

  lemma NilIsNothing()
    ensures UrgentState.IsUuid(NIL) && AllHex(NIL) && ItemNumber(NIL) == 0
  {
    NilIsUuid();
    assert forall i :: 0 <= i < |NIL| ==> NIL[i] == '0' as int || NIL[i] == DASH;
    hide UrgentState.IsUuid, NIL;
    ZerosAreNothing(NIL);
  }

  // --- Boundaries -----------------------------------------------------------------------------

  ghost predicate Named(b: UrgentState.Boundary) {
    UrgentState.ValidBoundary(b) && InstantText.NamesTime(b.at)
  }

  ghost function BoundaryNumber(b: UrgentState.Boundary): UrgentPush.Boundary
    requires Named(b)
  {
    if b.item.None? then UrgentPush.Boundary(InstantText.Micros(b.at), None)
    else
      UuidShape(b.item.value, b.item.value);
      UrgentPush.Boundary(InstantText.Micros(b.at), Some(ItemNumber(b.item.value)))
  }

  /** `after`, on the texts. */
  predicate TextAfter(at: Text, item: Text, b: UrgentState.Boundary) {
    if at != b.at then Less(b.at, at)
    else Less(if b.item.None? then NIL else b.item.value, item)
  }

  /** The comparison of `earliest`, on the texts. */
  predicate TextEarlier(a: UrgentState.Boundary, b: UrgentState.Boundary) {
    || Less(a.at, b.at)
    || (a.at == b.at && Less(if a.item.None? then [] else a.item.value, if b.item.None? then [] else b.item.value))
  }

  /** What a row of the database is, as the numbers compared. */
  ghost predicate Shows(r: UrgentPush.Row, at: Text, item: Text) {
    && InstantText.NamesTime(at) && UrgentState.IsUuid(item) && AllHex(item)
    && r.at == InstantText.Micros(at) && r.item == ItemNumber(item)
  }

  /** Comparing a row's texts with a boundary's is comparing their numbers, unless one instant goes on where the other ends. */
  lemma AfterAgrees(r: UrgentPush.Row, at: Text, item: Text, b: UrgentState.Boundary)
    requires Shows(r, at, item) && Named(b)
    requires |at| >= 20 && |b.at| >= 20 && !InstantText.OneGoesOn(at, b.at)
    ensures TextAfter(at, item, b) <==> UrgentPush.After(r, BoundaryNumber(b))
  {
    NilIsNothing();
    var other := if b.item.None? then NIL else b.item.value;
    UuidShape(other, item);
    ItemOrder(other, item);
    hide ItemNumber, Less, UrgentState.IsUuid, NIL, InstantText.NamesTime, InstantText.Micros, AllHex, SameShape;
    InstantText.TextOrderExact(at, b.at);
  }

  lemma EarlierAgrees(a: UrgentState.Boundary, b: UrgentState.Boundary)
    requires Named(a) && Named(b)
    requires |a.at| >= 20 && |b.at| >= 20 && !InstantText.OneGoesOn(a.at, b.at)
    ensures TextEarlier(a, b) <==> UrgentPush.Earlier(BoundaryNumber(a), BoundaryNumber(b))
  {
    if a.item.Some? && b.item.Some? {
      UuidShape(a.item.value, b.item.value);
      ItemOrder(a.item.value, b.item.value);
    }
    NothingSortsFirst(a.item, b.item);
    hide ItemNumber, Less, UrgentState.IsUuid, InstantText.NamesTime, InstantText.Micros, AllHex, SameShape;
    InstantText.TextOrderExact(a.at, b.at);
  }

  lemma NothingSortsFirst(a: Option<Text>, b: Option<Text>)
    requires a.Some? ==> a.value != []
    requires b.Some? ==> b.value != []
    ensures a.None? ==> (Less([], if b.None? then [] else b.value) <==> b.Some?)
    ensures b.None? ==> !Less(if a.None? then [] else a.value, [])
  {}

  // --- The state ------------------------------------------------------------------------------

  ghost predicate NamedState(s: UrgentState.State) {
    Named(s.head) && forall k :: k in s.lagging ==> UrgentState.IsLaggingKey(k) && Named(s.lagging[k].cursor)
  }

  const SLASH: Unit := '/' as int

  lemma KeyParts(t: Text)
    requires UrgentState.IsLaggingKey(t)
    ensures |t| == 73 && t == t[..36] + [SLASH] + t[37..]
  {
    var half := UrgentState.Times(36, UrgentState.HexOrDash);
    var pattern := half + [UrgentState.Exactly(SLASH)] + half;
    assert pattern[36] == UrgentState.Exactly(SLASH);
    assert UrgentState.Fits(t[36], pattern[36]);
  }

  function KeyOf(t: Text): UrgentPush.Key
    requires UrgentState.IsLaggingKey(t)
  {
    KeyParts(t);
    UrgentPush.Key(t[..36], t[37..])
  }

  /** The key the code builds. */
  function KeyText(key: UrgentPush.Key): Text {
    key.organization + [SLASH] + key.person
  }

  lemma KeyReads(t: Text)
    requires UrgentState.IsLaggingKey(t)
    ensures KeyText(KeyOf(t)) == t
  {
    KeyParts(t);
  }

  ghost function LagNumber(lag: UrgentState.Lag): UrgentPush.Lag
    requires Named(lag.cursor)
  {
    UrgentPush.Lag(BoundaryNumber(lag.cursor), lag.failures)
  }

  ghost function KeysOf(s: UrgentState.State): (keys: set<UrgentPush.Key>)
    requires NamedState(s)
    ensures forall key :: key in keys ==> KeyText(key) in s.lagging
  {
    KeysRead(s);
    set t | t in s.lagging :: KeyOf(t)
  }

  lemma KeysRead(s: UrgentState.State)
    requires NamedState(s)
    ensures forall t :: t in s.lagging ==> KeyText(KeyOf(t)) == t
  {
    forall t | t in s.lagging ensures KeyText(KeyOf(t)) == t {
      KeyReads(t);
    }
  }

  ghost function StateNumber(s: UrgentState.State): UrgentPush.State
    requires NamedState(s)
  {
    UrgentPush.State(BoundaryNumber(s.head), map key | key in KeysOf(s) :: LagNumber(s.lagging[KeyText(key)]))
  }

  /** `lagging.get(key) ?? head`, on the texts. */
  function TextCursor(s: UrgentState.State, key: UrgentPush.Key): UrgentState.Boundary {
    if KeyText(key) in s.lagging then s.lagging[KeyText(key)].cursor else s.head
  }

  lemma CursorAgrees(s: UrgentState.State, key: UrgentPush.Key)
    requires NamedState(s) && |key.organization| == 36
    ensures Named(TextCursor(s, key)) && UrgentPush.Cursor(StateNumber(s), key) == BoundaryNumber(TextCursor(s, key))
  {
    hide UrgentState.IsLaggingKey, Named, BoundaryNumber;
    if KeyText(key) in s.lagging {
      KeyParts(KeyText(key));
      assert KeyOf(KeyText(key)) == key;
    }
  }

  /** A row is owed by the texts exactly when it is owed by the numbers. */
  lemma {:induction false} OwedAgrees(s: UrgentState.State, r: UrgentPush.Row, at: Text, item: Text)
    requires NamedState(s) && |r.key.organization| == 36 && Shows(r, at, item)
    requires |at| >= 20 && |TextCursor(s, r.key).at| >= 20 && !InstantText.OneGoesOn(at, TextCursor(s, r.key).at)
    ensures TextAfter(at, item, TextCursor(s, r.key)) <==> UrgentPush.After(r, UrgentPush.Cursor(StateNumber(s), r.key))
  {
    hide TextCursor, StateNumber, Named, NamedState, Shows;
    CursorAgrees(s, r.key);
    AfterAgrees(r, at, item, TextCursor(s, r.key));
  }
}
