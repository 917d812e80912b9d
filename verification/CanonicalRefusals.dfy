/**
 Which error canonicalization raises, and at which path (packages/canonicalization/src/index.ts): the first
 thing refused, items in order and properties in the order of their keys.
 */
module CanonicalRefusals {
  import opened Texts
  import opened Outcomes
  import opened Utf8
  import opened Canonical
  import opened CanonicalFaithful

  // --- Text -----------------------------------------------------------------------------------

  /** The unit at `i` is no unpaired surrogate. */
  predicate PairedAt(t: Text, i: nat)
    requires i < |t|
  {
    && (IsHigh(t[i]) ==> i + 1 < |t| && IsLow(t[i + 1]))
    && (IsLow(t[i]) ==> i > 0 && IsHigh(t[i - 1]))
  }

  /** Every high surrogate has a low one after it, and every low one a high one before it. */
  ghost predicate Paired(t: Text) {
    forall i :: 0 <= i < |t| ==> PairedAt(t, i)
  }

  lemma PairedFrom(t: Text, n: nat, i: nat)
    requires i + n < |t| && !IsLow(t[n])
    ensures PairedAt(t[n..], i) <==> PairedAt(t, i + n)
  {}

  lemma PairedTail(t: Text, n: nat)
    requires n <= |t| && (n < |t| ==> !IsLow(t[n]))
    requires forall i :: 0 <= i < n ==> PairedAt(t, i)
    ensures Paired(t) <==> Paired(t[n..])
  {
    forall i | 0 <= i < |t| - n ensures PairedAt(t[n..], i) <==> PairedAt(t, i + n) {
      PairedFrom(t, n, i);
    }
    hide PairedAt;
    if Paired(t[n..]) {
      forall i | 0 <= i < |t| ensures PairedAt(t, i) {
        if i >= n {
          assert PairedAt(t[n..], i - n);
        }
      }
    }
  }

  /** The text checked is accepted exactly when its surrogates come in pairs. */
  lemma {:induction false} ScalarExactly(t: Text)
    ensures IsScalarText(t) <==> Paired(t)
  {
    if t == [] {
    } else if IsLow(t[0]) || (IsHigh(t[0]) && (|t| == 1 || !IsLow(t[1]))) {
      assert !PairedAt(t, 0);
    } else {
      var n := if IsHigh(t[0]) then 2 else 1;
      ScalarExactly(t[n..]);
      if n < |t| && IsLow(t[n]) {
        assert t[n..][0] == t[n] && !PairedAt(t[n..], 0) && !PairedAt(t, n);
      } else {
        PairedTail(t, n);
      }
    }
  }

  // --- The first thing refused ----------------------------------------------------------------

  /** The error of a text with an unpaired surrogate. */
  predicate FaultyText(text: Text, path: Text, e: CanonicalizationError) {
    FirstFault(text).Some? && e == CanonicalizationError(Surrogate(FirstFault(text).value), path)
  }

  /** A property that is no reason to refuse its object. */
  ghost predicate Fine(p: Property) {
    IsScalarText(p.key) && (p.value == Undefined || Canonicalizable(p.value))
  }

  /** A value at `path` is refused with this error: what is refused first, in the order printed. */
  ghost predicate RefusedAs(v: Value, path: Text, e: CanonicalizationError)
    decreases v
  {
    match v
    case Numeric(number) => number.NonFinite? && e == CanonicalizationError(NonFiniteNumber, path)
    case String(text) => FaultyText(text, path, e)
    case BigInt => e == CanonicalizationError(BigIntValue, path)
    case Undefined => e == CanonicalizationError(UndefinedValue, path)
    case Callable => e == CanonicalizationError(CallableValue, path)
    case Symbol => e == CanonicalizationError(SymbolValue, path)
    case Array(items) =>
      exists i :: 0 <= i < |items|
        && (forall j :: 0 <= j < i ==> Canonicalizable(items[j]))
        && var at := path + Ascii("[") + Decimal(i) + Ascii("]");
           if items[i] == Undefined then e == CanonicalizationError(UndefinedElement, at) else RefusedAs(items[i], at, e)
    case Object(properties) =>
      exists i :: 0 <= i < |properties|
        && (forall j :: 0 <= j < |properties| && Less(properties[j].key, properties[i].key) ==> Fine(properties[j]))
        && var at := if path == [] then properties[i].key else path + Ascii(".") + properties[i].key;
           if !IsScalarText(properties[i].key) then FaultyText(properties[i].key, at, e)
           else properties[i].value != Undefined && RefusedAs(properties[i].value, at, e)
    case _ => false
  }

  lemma Paths(path: Text, i: nat, key: Text)
    ensures ItemPath(path, i) == path + Ascii("[") + Decimal(i) + Ascii("]")
    ensures KeyPath(path, key) == if path == [] then key else path + Ascii(".") + key
  {
    assert Ascii("[") == ['[' as int] && Ascii("]") == [']' as int] && Ascii(".") == ['.' as int];
  }

  /** Item `i` is refused first. */
  ghost predicate ItemRefused(items: seq<Value>, i: nat, path: Text, e: CanonicalizationError) {
    && i < |items| && (forall j :: 0 <= j < i ==> Canonicalizable(items[j]))
    && if items[i] == Undefined then e == CanonicalizationError(UndefinedElement, ItemPath(path, i))
       else RefusedAs(items[i], ItemPath(path, i), e)
  }

  /** Property `i` is refused first. */
  ghost predicate PropertyRefused(properties: seq<Property>, i: nat, path: Text, e: CanonicalizationError) {
    && i < |properties|
    && (forall j :: 0 <= j < |properties| && Less(properties[j].key, properties[i].key) ==> Fine(properties[j]))
    && if !IsScalarText(properties[i].key) then FaultyText(properties[i].key, KeyPath(path, properties[i].key), e)
       else properties[i].value != Undefined && RefusedAs(properties[i].value, KeyPath(path, properties[i].key), e)
  }

  lemma RefusedItem(v: Value, i: nat, path: Text, e: CanonicalizationError)
    requires v.Array? && ItemRefused(v.items, i, path, e)
    ensures RefusedAs(v, path, e)
  {
    Paths(path, i, []);
    hide ItemPath, Ascii, Decimal, Canonicalizable;
  }

  lemma RefusedProperty(v: Value, i: nat, path: Text, e: CanonicalizationError)
    requires v.Object? && PropertyRefused(v.properties, i, path, e)
    ensures RefusedAs(v, path, e)
  {
    Paths(path, 0, v.properties[i].key);
    hide KeyPath, Ascii, Decimal, Fine, FaultyText, IsScalarText, Less;
  }

  // --- What is refused is not accepted, and only once ------------------------------------------

  lemma {:induction false} RefusedIsNot(v: Value, path: Text, e: CanonicalizationError)
    requires RefusedAs(v, path, e)
    ensures !Canonicalizable(v)
    decreases v
  {
    match v
    case Array(items) =>
      var i := ItemOf(v, path, e);
      if items[i] != Undefined {
        RefusedIsNot(items[i], ItemPath(path, i), e);
      }
    case Object(properties) =>
      var i := PropertyOf(v, path, e);
      if IsScalarText(properties[i].key) {
        RefusedIsNot(properties[i].value, KeyPath(path, properties[i].key), e);
      }
    case _ =>
  }

  lemma ItemOf(v: Value, path: Text, e: CanonicalizationError) returns (i: nat)
    requires v.Array? && RefusedAs(v, path, e)
    ensures ItemRefused(v.items, i, path, e)
  {
    var items := v.items;
    hide Ascii, Decimal, Canonicalizable;
    i :| 0 <= i < |items|
      && (forall j :: 0 <= j < i ==> Canonicalizable(items[j]))
      && var at := path + Ascii("[") + Decimal(i) + Ascii("]");
         if items[i] == Undefined then e == CanonicalizationError(UndefinedElement, at) else RefusedAs(items[i], at, e);
    Paths(path, i, []);
    hide ItemPath;
  }

  lemma PropertyOf(v: Value, path: Text, e: CanonicalizationError) returns (i: nat)
    requires v.Object? && RefusedAs(v, path, e)
    ensures PropertyRefused(v.properties, i, path, e)
  {
    var properties := v.properties;
    hide Ascii, Fine, FaultyText, IsScalarText, Less;
    i :| 0 <= i < |properties|
      && (forall j :: 0 <= j < |properties| && Less(properties[j].key, properties[i].key) ==> Fine(properties[j]))
      && var at := if path == [] then properties[i].key else path + Ascii(".") + properties[i].key;
         if !IsScalarText(properties[i].key) then FaultyText(properties[i].key, at, e)
         else properties[i].value != Undefined && RefusedAs(properties[i].value, at, e);
    Paths(path, 0, properties[i].key);
    hide KeyPath;
  }

  /** One value is refused in one way. */
  lemma {:induction false} RefusedOnce(v: Value, path: Text, e: CanonicalizationError, f: CanonicalizationError)
    requires WellFormed(v) && RefusedAs(v, path, e) && RefusedAs(v, path, f)
    ensures e == f
    decreases v
  {
    match v
    case Array(items) =>
      var i := ItemOf(v, path, e);
      var j := ItemOf(v, path, f);
      SameItem(items, i, j, path, e, f);
      if items[i] != Undefined {
        RefusedOnce(items[i], ItemPath(path, i), e, f);
      }
    case Object(properties) =>
      var i := PropertyOf(v, path, e);
      var j := PropertyOf(v, path, f);
      SameProperty(v, i, j, path, e, f);
      if IsScalarText(properties[i].key) {
        RefusedOnce(properties[i].value, KeyPath(path, properties[i].key), e, f);
      }
    case _ =>
  }

  lemma SameItem(items: seq<Value>, i: nat, j: nat, path: Text, e: CanonicalizationError, f: CanonicalizationError)
    requires ItemRefused(items, i, path, e) && ItemRefused(items, j, path, f)
    ensures i == j
  {
    ItemNot(items, i, path, e);
    ItemNot(items, j, path, f);
    hide Canonicalizable, RefusedAs;
  }

  lemma ItemNot(items: seq<Value>, i: nat, path: Text, e: CanonicalizationError)
    requires ItemRefused(items, i, path, e)
    ensures !Canonicalizable(items[i])
  {
    if items[i] != Undefined {
      RefusedIsNot(items[i], ItemPath(path, i), e);
    }
  }

  lemma PropertyNot(properties: seq<Property>, i: nat, path: Text, e: CanonicalizationError)
    requires PropertyRefused(properties, i, path, e)
    ensures !Fine(properties[i])
  {
    if IsScalarText(properties[i].key) {
      RefusedIsNot(properties[i].value, KeyPath(path, properties[i].key), e);
    }
  }

  lemma SameProperty(v: Value, i: nat, j: nat, path: Text, e: CanonicalizationError, f: CanonicalizationError)
    requires v.Object? && WellFormed(v)
    requires PropertyRefused(v.properties, i, path, e) && PropertyRefused(v.properties, j, path, f)
    ensures i == j
  {
    PropertyNot(v.properties, i, path, e);
    PropertyNot(v.properties, j, path, f);
    var a, b := v.properties[i].key, v.properties[j].key;
    assert Distinct(Keys(v.properties));
    assert Keys(v.properties)[i] == a && Keys(v.properties)[j] == b;
    hide Fine, RefusedAs, Less, WellFormed, IsScalarText;
    LessTrichotomy(a, b);
  }

  // --- The printer's error --------------------------------------------------------------------

  lemma {:induction false} ItemsRefused(v: Value, from: nat, path: Text) returns (i: nat)
    requires v.Array? && WellFormed(v) && from <= |v.items| && PrintItems(v, from, path).Err?
    requires forall j :: 0 <= j < from ==> Canonicalizable(v.items[j])
    ensures ItemRefused(v.items, i, path, PrintItems(v, from, path).error)
    decreases v, 0, |v.items| - from
  {
    i := from;
    ItemWellFormed(v, from);
    var item, at := v.items[from], ItemPath(path, from);
    ItemsFrom(v, from, path);
    hide PrintItems, Print, RefusedAs, Canonicalizable, WellFormed;
    if item != Undefined {
      AcceptsExactly(item, at);
      if Print(item, at).Err? {
        PrintRefused(item, at);
      } else {
        i := ItemsRefused(v, from + 1, path);
      }
    }
  }

  lemma ItemWellFormed(v: Value, from: nat)
    requires v.Array? && WellFormed(v) && from < |v.items|
    ensures WellFormed(v.items[from])
  {}

  /** Key `a` of those printed is refused first. */
  ghost predicate KeyRefused(v: Value, keys: seq<Text>, a: nat, path: Text, e: CanonicalizationError)
    requires v.Object?
  {
    && a < |keys|
    && (forall b :: 0 <= b <= a ==> keys[b] in Keys(v.properties))
    && (forall b :: 0 <= b < a ==> Fine(Property(keys[b], Child(v, keys[b]))))
    && if !IsScalarText(keys[a]) then FaultyText(keys[a], KeyPath(path, keys[a]), e)
       else Child(v, keys[a]) != Undefined && RefusedAs(Child(v, keys[a]), KeyPath(path, keys[a]), e)
  }

  lemma KeyRefusedLater(v: Value, keys: seq<Text>, a: nat, path: Text, e: CanonicalizationError)
    requires v.Object? && keys != [] && keys[0] in Keys(v.properties) && Fine(Property(keys[0], Child(v, keys[0])))
    requires KeyRefused(v, keys[1..], a, path, e)
    ensures KeyRefused(v, keys, a + 1, path, e)
  {
    hide Fine, RefusedAs, FaultyText, IsScalarText, Child;
    forall b | 0 <= b <= a + 1 ensures keys[b] in Keys(v.properties) {
      if b > 0 {
        assert keys[b] == keys[1..][b - 1];
      }
    }
    forall b | 0 <= b < a + 1 ensures Fine(Property(keys[b], Child(v, keys[b]))) {
      if b > 0 {
        assert keys[b] == keys[1..][b - 1];
      }
    }
  }

  lemma {:induction false} KeysRefused(v: Value, keys: seq<Text>, path: Text) returns (a: nat)
    requires v.Object? && WellFormed(v)
    requires forall i :: 0 <= i < |keys| ==> keys[i] in Keys(v.properties)
    requires PrintKeys(v, keys, path).Err?
    ensures KeyRefused(v, keys, a, path, PrintKeys(v, keys, path).error)
    decreases v, 0, |keys|
  {
    var child, at := Child(v, keys[0]), KeyPath(path, keys[0]);
    WellFormedChild(v, keys[0]);
    a := 0;
    if IsScalarText(keys[0]) {
      if child != Undefined {
        AcceptsExactly(child, at);
      }
      if child != Undefined && Print(child, at).Err? {
        PrintRefused(child, at);
      } else {
        var later := KeysRefused(v, keys[1..], path);
        KeyRefusedLater(v, keys, later, path, PrintKeys(v, keys[1..], path).error);
        a := later + 1;
      }
    }
  }

  lemma {:induction false} KeyIsProperty(v: Value, a: nat, path: Text, e: CanonicalizationError)
    requires v.Object? && WellFormed(v) && KeyRefused(v, SortedKeys(v.properties), a, path, e)
    ensures PropertyRefused(v.properties, Position(v.properties, SortedKeys(v.properties)[a]), path, e)
  {
    var keys := SortedKeys(v.properties);
    var i := Position(v.properties, keys[a]);
    SortSorts(Keys(v.properties));
    SortMembers(Keys(v.properties));
    hide Fine, RefusedAs, FaultyText, IsScalarText, Less, WellFormed;
    forall j | 0 <= j < |v.properties| && Less(v.properties[j].key, v.properties[i].key) ensures Fine(v.properties[j]) {
      SmallerIsFine(v, a, j, path, e);
    }
  }

  lemma SmallerIsFine(v: Value, a: nat, j: nat, path: Text, e: CanonicalizationError)
    requires v.Object? && WellFormed(v) && KeyRefused(v, SortedKeys(v.properties), a, path, e)
    requires j < |v.properties| && Less(v.properties[j].key, SortedKeys(v.properties)[a])
    ensures Fine(v.properties[j])
  {
    var keys, key := SortedKeys(v.properties), v.properties[j].key;
    assert Distinct(Keys(v.properties));
    SortSorts(Keys(v.properties));
    SortMembers(Keys(v.properties));
    assert Keys(v.properties)[j] == key;
    hide Fine, RefusedAs, FaultyText, IsScalarText, WellFormed, Distinct, Less, SortedKeys;
    PositionOf(v.properties, j);
    var b :| 0 <= b < |keys| && keys[b] == key;
    if a <= b {
      NotLess(keys[a], key);
    }
    assert Fine(Property(keys[b], Child(v, keys[b])));
  }

  lemma NotLess(x: Text, y: Text)
    requires AtMost(x, y)
    ensures !Less(y, x)
  {
    LessIrreflexive(x);
    if Less(y, x) {
      AtMostAntisymmetric(x, y);
    }
  }

  lemma {:induction false} PrintRefused(v: Value, path: Text)
    requires WellFormed(v) && Print(v, path).Err?
    ensures RefusedAs(v, path, Print(v, path).error)
    decreases v, 1
  {
    match v
    case Array(items) =>
      var i := ItemsRefused(v, 0, path);
      RefusedItem(v, i, path, Print(v, path).error);
    case Object(properties) =>
      var a := KeysRefused(v, SortedKeys(properties), path);
      KeyIsProperty(v, a, path, Print(v, path).error);
      RefusedProperty(v, Position(properties, SortedKeys(properties)[a]), path, Print(v, path).error);
    case _ =>
  }

  /** The printer raises exactly the error of what is refused first, at its path. */
  lemma {:induction false} RefusalExactly(v: Value, path: Text, e: CanonicalizationError)
    requires WellFormed(v)
    ensures Print(v, path) == Err(e) <==> RefusedAs(v, path, e)
  {
    hide RefusedAs, Print, WellFormed;
    if Print(v, path).Err? {
      PrintRefused(v, path);
    }
    if RefusedAs(v, path, e) {
      RefusedIsNot(v, path, e);
      AcceptsExactly(v, path);
      RefusedOnce(v, path, e, Print(v, path).error);
    }
  }
}
