/**
 ECMAScript text: sequences of UTF-16 code units, compared and sorted by code unit, as `<` on
 strings and `Array.prototype.sort` without a comparator do.
 */
module Texts {

  type Unit = u: nat | u < 0x10000

  type Text = seq<Unit>

  /** The code units of an ASCII literal. */
  function Ascii(s: string): (t: Text)
    requires forall i :: 0 <= i < |s| ==> s[i] < '\U{007f}'
    ensures |t| == |s|
    ensures forall i :: 0 <= i < |s| ==> t[i] == s[i] as int
  {
    seq(|s|, i requires 0 <= i < |s| => s[i] as int)
  }

  /** `left < right` on strings. */
  predicate Less(left: Text, right: Text) {
    if right == [] then false
    else if left == [] then true
    else left[0] < right[0] || (left[0] == right[0] && Less(left[1..], right[1..]))
  }

  predicate AtMost(left: Text, right: Text) {
    left == right || Less(left, right)
  }

  lemma {:induction false} LessIrreflexive(a: Text)
    ensures !Less(a, a)
  {
    if a != [] {
      LessIrreflexive(a[1..]);
    }
  }

  lemma {:induction false} LessTransitive(a: Text, b: Text, c: Text)
    requires Less(a, b) && Less(b, c)
    ensures Less(a, c)
  {
    if a != [] && a[0] == b[0] && b[0] == c[0] {
      LessTransitive(a[1..], b[1..], c[1..]);
    }
  }

  lemma {:induction false} LessTrichotomy(a: Text, b: Text)
    ensures Less(a, b) || a == b || Less(b, a)
  {
    if a == [] || b == [] {
    } else if a[0] == b[0] {
      LessTrichotomy(a[1..], b[1..]);
      assert a == [a[0]] + a[1..] && b == [b[0]] + b[1..];
    }
  }

  lemma AtMostAntisymmetric(a: Text, b: Text)
    requires AtMost(a, b) && AtMost(b, a)
    ensures a == b
  {
    if a != b {
      LessTransitive(a, b, a);
      LessIrreflexive(a);
    }
  }

  lemma AtMostTransitive(a: Text, b: Text, c: Text)
    requires AtMost(a, b) && AtMost(b, c)
    ensures AtMost(a, c)
  {
    if a != b && b != c {
      LessTransitive(a, b, c);
    }
  }

  // --- Sorting --------------------------------------------------------------------------------

  ghost predicate Sorted(s: seq<Text>) {
    forall i, j :: 0 <= i < j < |s| ==> AtMost(s[i], s[j])
  }

  function Insert(x: Text, s: seq<Text>): (r: seq<Text>)
    ensures multiset(r) == multiset{x} + multiset(s)
  {
    if s == [] then [x]
    else if AtMost(x, s[0]) then [x] + s
    else
      assert s == [s[0]] + s[1..];
      [s[0]] + Insert(x, s[1..])
  }

  lemma {:induction false} InsertSorted(x: Text, s: seq<Text>)
    requires Sorted(s)
    ensures Sorted(Insert(x, s))
  {
    if s == [] {
    } else if AtMost(x, s[0]) {
      forall j | 0 <= j < |s| ensures AtMost(x, s[j]) {
        AtMostTransitive(x, s[0], s[j]);
      }
    } else {
      LessTrichotomy(x, s[0]);
      InsertSorted(x, s[1..]);
      var rest := Insert(x, s[1..]);
      forall j | 0 <= j < |rest| ensures AtMost(s[0], rest[j]) {
        assert rest[j] in multiset(rest);
        assert rest[j] == x || rest[j] in s[1..];
      }
    }
  }

  /** `[...texts].sort()`. */
  function Sort(s: seq<Text>): (r: seq<Text>)
    ensures multiset(r) == multiset(s)
  {
    if s == [] then []
    else
      assert s == [s[0]] + s[1..];
      Insert(s[0], Sort(s[1..]))
  }

  lemma {:induction false} SortSorts(s: seq<Text>)
    ensures Sorted(Sort(s))
  {
    if s != [] {
      SortSorts(s[1..]);
      InsertSorted(s[0], Sort(s[1..]));
    }
  }

  /** The least text of a sorted list is its head. */
  lemma SortedHeads(a: seq<Text>, b: seq<Text>)
    requires a != [] && b != []
    requires Sorted(a) && Sorted(b) && multiset(a) == multiset(b)
    ensures a[0] == b[0]
  {
    assert a[0] in multiset(b) && b[0] in multiset(a);
    var i :| 0 <= i < |b| && b[i] == a[0];
    var j :| 0 <= j < |a| && a[j] == b[0];
    AtMostAntisymmetric(a[0], b[0]);
  }

  lemma TailMultiset(a: seq<Text>)
    requires a != []
    ensures multiset(a[1..]) == multiset(a) - multiset{a[0]}
  {
    assert a == [a[0]] + a[1..];
  }

  /** A sorted arrangement is unique, so which sorting algorithm the engine uses cannot matter. */
  lemma {:induction false} SortedUnique(a: seq<Text>, b: seq<Text>)
    requires Sorted(a) && Sorted(b) && multiset(a) == multiset(b)
    ensures a == b
  {
    assert |a| == |multiset(a)| == |multiset(b)| == |b|;
    if a != [] {
      SortedHeads(a, b);
      TailMultiset(a);
      TailMultiset(b);
      SortedUnique(a[1..], b[1..]);
      assert a == [a[0]] + a[1..] && b == [b[0]] + b[1..];
    }
  }

  lemma SortMembers(s: seq<Text>)
    ensures |Sort(s)| == |s|
    ensures forall x :: x in Sort(s) <==> x in s
    ensures forall i :: 0 <= i < |Sort(s)| ==> Sort(s)[i] in s
  {
    assert |Sort(s)| == |multiset(Sort(s))| == |multiset(s)| == |s|;
    forall x ensures x in Sort(s) <==> x in s {
      assert x in Sort(s) <==> x in multiset(Sort(s));
      assert x in s <==> x in multiset(s);
    }
  }

  /** Sorting identifies exactly the rearrangements of one list. */
  lemma {:induction false} SortCanonical(a: seq<Text>, b: seq<Text>)
    ensures Sort(a) == Sort(b) <==> multiset(a) == multiset(b)
  {
    SortSorts(a);
    SortSorts(b);
    if multiset(a) == multiset(b) {
      SortedUnique(Sort(a), Sort(b));
    }
  }

  // --- Joining --------------------------------------------------------------------------------

  /** `parts.join(separator)` for a one-unit separator. */
  function Join(parts: seq<Text>, separator: Unit): Text {
    if parts == [] then []
    else if |parts| == 1 then parts[0]
    else parts[0] + [separator] + Join(parts[1..], separator)
  }

  /** Where `text` first holds `separator`, or its length. */
  function FirstOf(text: Text, separator: Unit): (k: nat)
    ensures k <= |text|
    ensures separator !in text[..k]
    ensures k < |text| ==> text[k] == separator
  {
    if text == [] then 0
    else if text[0] == separator then 0
    else
      var k := FirstOf(text[1..], separator);
      assert text[..k + 1] == [text[0]] + text[1..][..k];
      k + 1
  }

  lemma FirstOfPrefix(part: Text, rest: Text, separator: Unit)
    requires separator !in part
    requires rest == [] || rest[0] == separator
    ensures FirstOf(part + rest, separator) == |part|
  {
    assert part == (part + rest)[..|part|];
  }

  /** Joining is injective on non-empty lists whose parts do not hold the separator. */
  lemma {:induction false} JoinInjective(a: seq<Text>, b: seq<Text>, separator: Unit)
    requires a != [] && b != []
    requires forall i :: 0 <= i < |a| ==> separator !in a[i]
    requires forall i :: 0 <= i < |b| ==> separator !in b[i]
    requires Join(a, separator) == Join(b, separator)
    ensures a == b
  {
    var restA := if |a| == 1 then [] else [separator] + Join(a[1..], separator);
    var restB := if |b| == 1 then [] else [separator] + Join(b[1..], separator);
    assert Join(a, separator) == a[0] + restA;
    assert Join(b, separator) == b[0] + restB;
    FirstOfPrefix(a[0], restA, separator);
    FirstOfPrefix(b[0], restB, separator);
    assert a[0] == (a[0] + restA)[..|a[0]|] == (b[0] + restB)[..|b[0]|] == b[0];
    assert restA == (a[0] + restA)[|a[0]|..] == (b[0] + restB)[|b[0]|..] == restB;
    assert a == [a[0]] + a[1..] && b == [b[0]] + b[1..];
    if |a| > 1 {
      assert restA[1..] == Join(a[1..], separator);
      assert restB[1..] == Join(b[1..], separator);
      JoinInjective(a[1..], b[1..], separator);
    }
  }
}
