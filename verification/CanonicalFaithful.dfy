/**
 What canonical text says about the value: which values have one, and that two accepted values share
 it exactly when they agree up to property order and dropped `undefined` properties.
 */
module CanonicalFaithful {
  import opened Texts
  import opened Outcomes
  import opened Utf8
  import opened Canonical
  import opened CanonicalParser

  // --- Definitions that do not mention the printer --------------------------------------------

  /** The values canonicalization accepts. A dropped property's KEY is still checked. */
  ghost predicate Canonicalizable(v: Value) {
    match v
    case Null => true
    case Boolean(_) => true
    case Numeric(number) => number.Finite?
    case String(text) => IsScalarText(text)
    case Array(items) => forall i :: 0 <= i < |items| ==> Canonicalizable(items[i])
    case Object(properties) =>
      forall i :: 0 <= i < |properties| ==>
        && IsScalarText(properties[i].key)
        && (properties[i].value == Undefined || Canonicalizable(properties[i].value))
    case _ => false
  }

  ghost function DefinedKeys(properties: seq<Property>): set<Text> {
    set i | 0 <= i < |properties| && properties[i].value != Undefined :: properties[i].key
  }

  /** The same JSON value: property order and `undefined` properties do not count. */
  ghost predicate Equivalent(v: Value, w: Value) {
    if v.Array? && w.Array? then
      && |v.items| == |w.items|
      && forall i :: 0 <= i < |v.items| ==> Equivalent(v.items[i], w.items[i])
    else if v.Object? && w.Object? then
      && DefinedKeys(v.properties) == DefinedKeys(w.properties)
      && forall i, j ::
           && 0 <= i < |v.properties| && 0 <= j < |w.properties|
           && v.properties[i].key == w.properties[j].key
           && v.properties[i].value != Undefined && w.properties[j].value != Undefined
           ==> Equivalent(v.properties[i].value, w.properties[j].value)
    else v == w
  }

  // --- The keys that are printed --------------------------------------------------------------

  function Child(v: Value, key: Text): (child: Value)
    requires v.Object? && key in Keys(v.properties)
  {
    v.properties[Position(v.properties, key)].value
  }

  /** Of `keys`, those whose property is defined, in the order given. */
  function Kept(v: Value, keys: seq<Text>): (kept: seq<Text>)
    requires v.Object?
    requires forall i :: 0 <= i < |keys| ==> keys[i] in Keys(v.properties)
    ensures forall i :: 0 <= i < |kept| ==> kept[i] in keys && kept[i] in Keys(v.properties)
  {
    if keys == [] then []
    else
      assert keys == [keys[0]] + keys[1..];
      var rest := Kept(v, keys[1..]);
      if Child(v, keys[0]) == Undefined then rest else [keys[0]] + rest
  }

  lemma {:induction false} KeptMembers(v: Value, keys: seq<Text>, k: Text)
    requires v.Object?
    requires forall i :: 0 <= i < |keys| ==> keys[i] in Keys(v.properties)
    ensures k in Kept(v, keys) <==> k in keys && Child(v, k) != Undefined
  {
    if keys != [] {
      assert keys == [keys[0]] + keys[1..];
      KeptMembers(v, keys[1..], k);
    }
  }

  lemma {:induction false} KeptMultiset(v: Value, keys: seq<Text>)
    requires v.Object?
    requires forall i :: 0 <= i < |keys| ==> keys[i] in Keys(v.properties)
    ensures multiset(Kept(v, keys)) <= multiset(keys)
  {
    if keys != [] {
      assert keys == [keys[0]] + keys[1..];
      KeptMultiset(v, keys[1..]);
    }
  }

  lemma {:induction false} KeptSorted(v: Value, keys: seq<Text>)
    requires v.Object? && Sorted(keys)
    requires forall i :: 0 <= i < |keys| ==> keys[i] in Keys(v.properties)
    ensures Sorted(Kept(v, keys))
  {
    if keys != [] {
      KeptSorted(v, keys[1..]);
      var rest := Kept(v, keys[1..]);
      forall j | 0 <= j < |rest| ensures AtMost(keys[0], rest[j]) {
        assert rest[j] in keys[1..];
      }
    }
  }

  /** The keys an object's text shows, in order. */
  function PrintedKeys(v: Value): (keys: seq<Text>)
    requires v.Object?
  {
    Kept(v, SortedKeys(v.properties))
  }

  lemma {:induction false} PositionFirst(properties: seq<Property>, i: nat)
    requires i < |properties| && properties[i].key in Keys(properties)
    ensures Position(properties, properties[i].key) <= i
  {
    if properties[0].key != properties[i].key {
      assert Keys(properties[1..])[i - 1] == properties[i].key;
      PositionFirst(properties[1..], i - 1);
    }
  }

  lemma {:induction false} PositionOf(properties: seq<Property>, i: nat)
    requires Distinct(Keys(properties)) && i < |properties|
    ensures properties[i].key in Keys(properties)
    ensures Position(properties, properties[i].key) == i
  {
    var keys := Keys(properties);
    assert keys[i] == properties[i].key;
    PositionFirst(properties, i);
    var p := Position(properties, keys[i]);
    assert keys[p] == properties[p].key == keys[i];
  }

  lemma DistinctMultiset(keys: seq<Text>, k: Text)
    requires Distinct(keys)
    ensures multiset(keys)[k] == if k in keys then 1 else 0
  {
    if keys != [] {
      assert keys == [keys[0]] + keys[1..];
      DistinctMultiset(keys[1..], k);
    }
  }

  lemma PrintedKeysSet(v: Value)
    requires v.Object? && Distinct(Keys(v.properties))
    ensures forall k :: k in PrintedKeys(v) <==> k in DefinedKeys(v.properties)
    ensures forall k :: multiset(PrintedKeys(v))[k] <= 1
    ensures Sorted(PrintedKeys(v))
  {
    var keys := Keys(v.properties);
    SortMembers(keys);
    SortSorts(keys);
    KeptSorted(v, Sort(keys));
    KeptMultiset(v, Sort(keys));
    forall k ensures multiset(PrintedKeys(v))[k] <= 1 {
      DistinctMultiset(keys, k);
    }
    forall k ensures k in PrintedKeys(v) <==> k in DefinedKeys(v.properties) {
      KeptMembers(v, SortedKeys(v.properties), k);
      if k in DefinedKeys(v.properties) {
        var i :| 0 <= i < |v.properties| && v.properties[i].value != Undefined && v.properties[i].key == k;
        PositionOf(v.properties, i);
      }
    }
  }

  lemma SameKeysArranged(a: seq<Text>, b: seq<Text>)
    requires Sorted(a) && Sorted(b)
    requires forall k :: multiset(a)[k] <= 1 && multiset(b)[k] <= 1
    requires forall k :: k in a <==> k in b
    ensures a == b
  {
    forall k ensures multiset(a)[k] == multiset(b)[k] {
      assert k in multiset(a) <==> k in a;
      assert k in multiset(b) <==> k in b;
    }
    assert multiset(a) == multiset(b);
    SortedUnique(a, b);
  }

  /** Objects with the same defined keys print the same keys in the same order. */
  lemma PrintedKeysAgree(v: Value, w: Value)
    requires v.Object? && Distinct(Keys(v.properties))
    requires w.Object? && Distinct(Keys(w.properties))
    ensures DefinedKeys(v.properties) == DefinedKeys(w.properties) <==> PrintedKeys(v) == PrintedKeys(w)
  {
    PrintedKeysSet(v);
    PrintedKeysSet(w);
    var a, b := PrintedKeys(v), PrintedKeys(w);
    var s, t := DefinedKeys(v.properties), DefinedKeys(w.properties);
    if s == t {
      SameKeysArranged(a, b);
    }
    if a == b {
      assert s == t;
    }
  }

  // --- Undefined properties do not matter -----------------------------------------------------

  /** All of `keys` name defined properties of `v`. */
  ghost predicate AllDefined(v: Value, keys: seq<Text>)
    requires v.Object?
  {
    forall i :: 0 <= i < |keys| ==> keys[i] in Keys(v.properties) && Child(v, keys[i]) != Undefined
  }

  lemma KeptDefined(v: Value, keys: seq<Text>)
    requires v.Object?
    requires forall i :: 0 <= i < |keys| ==> keys[i] in Keys(v.properties)
    ensures AllDefined(v, Kept(v, keys))
  {
    forall i | 0 <= i < |Kept(v, keys)| ensures Child(v, Kept(v, keys)[i]) != Undefined {
      KeptMembers(v, keys, Kept(v, keys)[i]);
    }
  }

  lemma {:induction false} PrintKept(v: Value, keys: seq<Text>, path: Text)
    requires v.Object?
    requires forall i :: 0 <= i < |keys| ==> keys[i] in Keys(v.properties)
    requires PrintKeys(v, keys, path).Ok?
    ensures PrintKeys(v, Kept(v, keys), path) == PrintKeys(v, keys, path)
    decreases |keys|
  {
    if keys != [] {
      PrintKept(v, keys[1..], path);
      if Child(v, keys[0]) != Undefined {
        assert Kept(v, keys)[1..] == Kept(v, keys[1..]);
      }
    }
  }

  lemma {:induction false} NormalKept(v: Value, keys: seq<Text>)
    requires v.Object?
    requires forall i :: 0 <= i < |keys| ==> keys[i] in Keys(v.properties)
    ensures NormalKeys(v, Kept(v, keys)) == NormalKeys(v, keys)
    decreases |keys|
  {
    if keys != [] {
      NormalKept(v, keys[1..]);
      if Child(v, keys[0]) != Undefined {
        assert Kept(v, keys)[1..] == Kept(v, keys[1..]);
      }
    }
  }

  lemma EquivalentChildren(v: Value, w: Value, k: Text)
    requires v.Object? && w.Object? && Equivalent(v, w)
    requires k in Keys(v.properties) && Child(v, k) != Undefined
    requires k in Keys(w.properties) && Child(w, k) != Undefined
    ensures Equivalent(Child(v, k), Child(w, k))
  {
    var i, j := Position(v.properties, k), Position(w.properties, k);
    assert v.properties[i].key == w.properties[j].key;
  }

  lemma WellFormedChild(v: Value, k: Text)
    requires v.Object? && WellFormed(v) && k in Keys(v.properties)
    ensures WellFormed(Child(v, k)) && Child(v, k) < v
  {}

  // --- Equivalent values print alike ----------------------------------------------------------

  lemma {:induction false} EquivalentPrintsAlike(v: Value, w: Value, path: Text, other: Text)
    requires WellFormed(v) && WellFormed(w) && Equivalent(v, w)
    requires Print(v, path).Ok? && Print(w, other).Ok?
    ensures Print(v, path).value == Print(w, other).value
    decreases v, 1
  {
    if v.Array? {
      EquivalentItems(v, w, 0, path, other);
    } else if v.Object? {
      var ks := PrintedKeys(v);
      PrintedKeysAgree(v, w);
      PrintKept(v, SortedKeys(v.properties), path);
      PrintKept(w, SortedKeys(w.properties), other);
      KeptDefined(v, SortedKeys(v.properties));
      KeptDefined(w, SortedKeys(w.properties));
      EquivalentKeys(v, w, ks, path, other);
    }
  }

  lemma {:induction false} EquivalentItems(v: Value, w: Value, from: nat, path: Text, other: Text)
    requires v.Array? && WellFormed(v) && WellFormed(w) && Equivalent(v, w)
    requires from <= |v.items|
    requires PrintItems(v, from, path).Ok? && PrintItems(w, from, other).Ok?
    ensures PrintItems(v, from, path).value == PrintItems(w, from, other).value
    decreases v, 0, |v.items| - from
  {
    if from < |v.items| {
      EquivalentPrintsAlike(v.items[from], w.items[from], ItemPath(path, from), ItemPath(other, from));
      EquivalentItems(v, w, from + 1, path, other);
    }
  }

  lemma {:induction false} EquivalentKeys(v: Value, w: Value, keys: seq<Text>, path: Text, other: Text)
    requires v.Object? && w.Object? && WellFormed(v) && WellFormed(w) && Equivalent(v, w)
    requires AllDefined(v, keys) && AllDefined(w, keys)
    requires PrintKeys(v, keys, path).Ok? && PrintKeys(w, keys, other).Ok?
    ensures PrintKeys(v, keys, path).value == PrintKeys(w, keys, other).value
    decreases v, 0, |keys|
  {
    if keys != [] {
      var k := keys[0];
      EquivalentChildren(v, w, k);
      WellFormedChild(v, k);
      WellFormedChild(w, k);
      EquivalentPrintsAlike(Child(v, k), Child(w, k), KeyPath(path, k), KeyPath(other, k));
      EquivalentKeys(v, w, keys[1..], path, other);
    }
  }

  // --- Values with one normal form are equivalent ---------------------------------------------

  lemma ConsInjective<T>(x: T, xs: seq<T>, y: T, ys: seq<T>)
    requires [x] + xs == [y] + ys
    ensures x == y && xs == ys
  {
    assert x == ([x] + xs)[0] == ([y] + ys)[0] == y;
    assert xs == ([x] + xs)[1..] == ([y] + ys)[1..] == ys;
  }

  lemma NormalHead(v: Value, keys: seq<Text>)
    requires v.Object? && keys != [] && AllDefined(v, keys)
    ensures NormalKeys(v, keys)
         == [Property(keys[0], Normal(Child(v, keys[0])))] + NormalKeys(v, keys[1..])
  {}

  lemma {:induction false} SameNormalKeys(v: Value, w: Value, a: seq<Text>, b: seq<Text>)
    requires v.Object? && w.Object?
    requires AllDefined(v, a) && AllDefined(w, b)
    requires NormalKeys(v, a) == NormalKeys(w, b)
    ensures a == b
    ensures forall i :: 0 <= i < |a| ==> Normal(Child(v, a[i])) == Normal(Child(w, a[i]))
    decreases |a|
  {
    hide Normal, Child, Position, Keys;
    if a != [] {
      NormalHead(v, a);
    }
    if b != [] {
      NormalHead(w, b);
    }
    if a != [] && b != [] {
      ConsInjective(Property(a[0], Normal(Child(v, a[0]))), NormalKeys(v, a[1..]),
                    Property(b[0], Normal(Child(w, b[0]))), NormalKeys(w, b[1..]));
      SameNormalKeys(v, w, a[1..], b[1..]);
      assert a == [a[0]] + a[1..] && b == [b[0]] + b[1..];
    }
  }

  lemma NormalItemsHead(v: Value, from: nat)
    requires v.Array? && from < |v.items|
    ensures NormalItems(v, from) == [Normal(v.items[from])] + NormalItems(v, from + 1)
  {}

  lemma {:induction false} NormalAtItem(v: Value, from: nat, i: nat)
    requires v.Array? && from <= i < |v.items|
    ensures NormalItems(v, from)[i - from] == Normal(v.items[i])
    decreases i - from
  {
    NormalItemsHead(v, from);
    hide *;
    if from < i {
      NormalAtItem(v, from + 1, i);
    }
  }

  lemma {:induction false} SameNormalIsEquivalent(v: Value, w: Value)
    requires WellFormed(v) && WellFormed(w) && Normal(v) == Normal(w)
    ensures Equivalent(v, w)
    decreases v, 1
  {
    if v.Array? {
      assert |v.items| == |NormalItems(v, 0)| == |NormalItems(w, 0)| == |w.items|;
      forall i | 0 <= i < |v.items| ensures Equivalent(v.items[i], w.items[i]) {
        NormalAtItem(v, 0, i);
        NormalAtItem(w, 0, i);
        SameNormalIsEquivalent(v.items[i], w.items[i]);
      }
    } else if v.Object? {
      SameNormalObjects(v, w);
    }
  }

  lemma {:induction false} SameNormalObjects(v: Value, w: Value)
    requires v.Object? && w.Object?
    requires WellFormed(v) && WellFormed(w) && Normal(v) == Normal(w)
    ensures Equivalent(v, w)
    decreases v, 0
  {
    NormalKept(v, SortedKeys(v.properties));
    NormalKept(w, SortedKeys(w.properties));
    KeptDefined(v, SortedKeys(v.properties));
    KeptDefined(w, SortedKeys(w.properties));
    SameNormalKeys(v, w, PrintedKeys(v), PrintedKeys(w));
    PrintedKeysAgree(v, w);
    PrintedKeysSet(v);
    forall i, j |
      && 0 <= i < |v.properties| && 0 <= j < |w.properties|
      && v.properties[i].key == w.properties[j].key
      && v.properties[i].value != Undefined && w.properties[j].value != Undefined
      ensures Equivalent(v.properties[i].value, w.properties[j].value)
    {
      PositionOf(v.properties, i);
      PositionOf(w.properties, j);
      assert v.properties[i].key in DefinedKeys(v.properties);
      SameNormalIsEquivalent(v.properties[i].value, w.properties[j].value);
    }
  }

  // --- Main results ---------------------------------------------------------------------------

  /** Two accepted values have the same canonical text exactly when they are the same JSON value. */
  lemma {:induction false} CanonicalTextFaithful(v: Value, w: Value)
    requires WellFormed(v) && WellFormed(w)
    requires Print(v, []).Ok? && Print(w, []).Ok?
    ensures Print(v, []).value == Print(w, []).value <==> Equivalent(v, w)
  {
    if Print(v, []).value == Print(w, []).value {
      RoundTrip(v);
      RoundTrip(w);
      SameNormalIsEquivalent(v, w);
    }
    if Equivalent(v, w) {
      EquivalentPrintsAlike(v, w, [], []);
    }
  }

  /** Exactly the canonicalizable values are printed; every other value is an error. */
  lemma {:induction false} AcceptsExactly(v: Value, path: Text)
    requires WellFormed(v)
    ensures Print(v, path).Ok? <==> Canonicalizable(v)
    decreases v, 2
  {
    if v.Array? {
      AcceptsItems(v, 0, path);
    } else if v.Object? {
      AcceptsObject(v, path);
    }
  }

  ghost predicate KeyAccepted(v: Value, k: Text)
    requires v.Object? && k in Keys(v.properties)
  {
    IsScalarText(k) && (Child(v, k) == Undefined || Canonicalizable(Child(v, k)))
  }

  ghost predicate AllAccepted(v: Value, keys: seq<Text>)
    requires v.Object?
    requires forall i :: 0 <= i < |keys| ==> keys[i] in Keys(v.properties)
  {
    keys == [] || (KeyAccepted(v, keys[0]) && AllAccepted(v, keys[1..]))
  }

  lemma {:induction false} AllAcceptedMembers(v: Value, keys: seq<Text>)
    requires v.Object?
    requires forall i :: 0 <= i < |keys| ==> keys[i] in Keys(v.properties)
    ensures AllAccepted(v, keys) <==> forall k :: k in keys ==> KeyAccepted(v, k)
  {
    if keys != [] {
      assert keys == [keys[0]] + keys[1..];
      AllAcceptedMembers(v, keys[1..]);
    }
  }

  lemma CanonicalizableByKey(v: Value)
    requires v.Object? && Distinct(Keys(v.properties))
    ensures Canonicalizable(v) <==> forall k :: k in Keys(v.properties) ==> KeyAccepted(v, k)
  {
    var keys := Keys(v.properties);
    forall i | 0 <= i < |v.properties|
      ensures v.properties[i].key in keys && Child(v, v.properties[i].key) == v.properties[i].value
    {
      PositionOf(v.properties, i);
    }
    if Canonicalizable(v) {
      forall k | k in keys ensures KeyAccepted(v, k) {
        assert v.properties[Position(v.properties, k)].key == k;
      }
    }
    if forall k :: k in keys ==> KeyAccepted(v, k) {
      forall i | 0 <= i < |v.properties|
        ensures IsScalarText(v.properties[i].key)
        ensures v.properties[i].value == Undefined || Canonicalizable(v.properties[i].value)
      {
        assert KeyAccepted(v, v.properties[i].key);
      }
    }
  }

  lemma {:induction false} AcceptsObject(v: Value, path: Text)
    requires v.Object? && WellFormed(v)
    ensures Print(v, path).Ok? <==> Canonicalizable(v)
    decreases v, 1
  {
    CanonicalizableByKey(v);
    SortMembers(Keys(v.properties));
    AllAcceptedMembers(v, SortedKeys(v.properties));
    AcceptsKeys(v, SortedKeys(v.properties), path);
  }

  lemma {:induction false} AcceptsItems(v: Value, from: nat, path: Text)
    requires v.Array? && WellFormed(v) && from <= |v.items|
    ensures PrintItems(v, from, path).Ok? <==> forall i :: from <= i < |v.items| ==> Canonicalizable(v.items[i])
    decreases v, 0, |v.items| - from
  {
    if from < |v.items| {
      var item := v.items[from];
      AcceptsExactly(item, ItemPath(path, from));
      AcceptsItems(v, from + 1, path);
      assert (forall i :: from <= i < |v.items| ==> Canonicalizable(v.items[i]))
        <==> Canonicalizable(item) && forall i :: from + 1 <= i < |v.items| ==> Canonicalizable(v.items[i]);
    }
  }

  lemma {:induction false} AcceptsKeys(v: Value, keys: seq<Text>, path: Text)
    requires v.Object? && WellFormed(v)
    requires forall i :: 0 <= i < |keys| ==> keys[i] in Keys(v.properties)
    ensures PrintKeys(v, keys, path).Ok? <==> AllAccepted(v, keys)
    decreases v, 0, |keys|
  {
    if keys != [] {
      WellFormedChild(v, keys[0]);
      AcceptsExactly(Child(v, keys[0]), KeyPath(path, keys[0]));
      AcceptsKeys(v, keys[1..], path);
    }
  }

  // --- Records with fixed keys ----------------------------------------------------------------

  /** Equivalent objects agree on a key they both define. */
  lemma EquivalentField(p: seq<Property>, q: seq<Property>, i: nat)
    requires Equivalent(Object(p), Object(q))
    requires i < |p| && i < |q| && p[i].key == q[i].key
    requires p[i].value != Undefined && q[i].value != Undefined
    ensures Equivalent(p[i].value, q[i].value)
  {
    var v, w := Object(p), Object(q);
    assert v.properties[i] == p[i] && w.properties[i] == q[i];
  }

  lemma DefinedAt(p: seq<Property>, i: nat)
    requires Distinct(Keys(p)) && i < |p|
    ensures p[i].key in DefinedKeys(p) <==> p[i].value != Undefined
  {
    if p[i].key in DefinedKeys(p) {
      var j :| 0 <= j < |p| && p[j].value != Undefined && p[j].key == p[i].key;
      assert Keys(p)[i] == Keys(p)[j];
    }
  }

  lemma DefinedKeysAgree(p: seq<Property>, q: seq<Property>)
    requires Keys(p) == Keys(q)
    requires forall i :: 0 <= i < |p| ==> (p[i].value == Undefined <==> q[i].value == Undefined)
    ensures DefinedKeys(p) <= DefinedKeys(q)
  {
    forall k | k in DefinedKeys(p) ensures k in DefinedKeys(q) {
      var i :| 0 <= i < |p| && p[i].value != Undefined && p[i].key == k;
      assert Keys(p)[i] == Keys(q)[i];
    }
  }

  /** Property by property. */
  ghost predicate FieldAgrees(p: seq<Property>, q: seq<Property>, i: nat)
    requires i < |p| && i < |q|
  {
    Equivalent(p[i].value, q[i].value)
  }

  lemma FieldAgreesAt(p: seq<Property>, q: seq<Property>, i: nat)
    requires Keys(p) == Keys(q) && Distinct(Keys(p)) && i < |p|
    requires Equivalent(Object(p), Object(q))
    ensures FieldAgrees(p, q, i)
  {
    DefinedAt(p, i);
    DefinedAt(q, i);
    assert Keys(p)[i] == Keys(q)[i];
    if p[i].value != Undefined && q[i].value != Undefined {
      EquivalentField(p, q, i);
    }
  }

  /** Two records with one list of keys agree exactly when they agree field by field. */
  lemma {:induction false} RecordsAgree(p: seq<Property>, q: seq<Property>)
    requires Keys(p) == Keys(q) && Distinct(Keys(p))
    ensures Equivalent(Object(p), Object(q)) <==> forall i :: 0 <= i < |p| ==> FieldAgrees(p, q, i)
  {
    if Equivalent(Object(p), Object(q)) {
      forall i | 0 <= i < |p| ensures FieldAgrees(p, q, i) {
        FieldAgreesAt(p, q, i);
      }
    }
    if forall i :: 0 <= i < |p| ==> FieldAgrees(p, q, i) {
      forall i | 0 <= i < |p| ensures p[i].value == Undefined <==> q[i].value == Undefined {
        assert FieldAgrees(p, q, i);
      }
      DefinedKeysAgree(p, q);
      DefinedKeysAgree(q, p);
      forall i, j | 0 <= i < |p| && 0 <= j < |q| && p[i].key == q[j].key
        ensures Equivalent(p[i].value, q[j].value)
      {
        assert Keys(p)[i] == Keys(p)[j];
        assert FieldAgrees(p, q, i);
      }
    }
  }
}
