/**
 A reference parser for JSON without white space (RFC 8259, hexadecimal digits in lower case), and the proof that it undoes the
 canonical printer: what comes back is the value with keys sorted and undefined properties gone.
 */
module CanonicalParser {
  import opened Texts
  import opened Outcomes
  import opened Utf8
  import opened Hashes
  import opened Canonical

  // --- The parser -----------------------------------------------------------------------------

  /** One character of a string literal, which may be an escape. */
  function ReadUnit(t: Text): (r: Option<(Unit, Text)>)
    ensures r.Some? ==> |r.value.1| < |t|
  {
    if t == [] || t[0] == QUOTE || t[0] < 0x20 then None
    else if t[0] != BACKSLASH then Some((t[0], t[1..]))
    else if |t| < 2 then None
    else if t[1] == QUOTE || t[1] == BACKSLASH || t[1] == '/' as int then Some((t[1], t[2..]))
    else if t[1] == 'b' as int then Some((0x08, t[2..]))
    else if t[1] == 't' as int then Some((0x09, t[2..]))
    else if t[1] == 'n' as int then Some((0x0a, t[2..]))
    else if t[1] == 'f' as int then Some((0x0c, t[2..]))
    else if t[1] == 'r' as int then Some((0x0d, t[2..]))
    else if t[1] == 'u' as int && |t| >= 6
         && IsHexUnit(t[2]) && IsHexUnit(t[3]) && IsHexUnit(t[4]) && IsHexUnit(t[5]) then
      Some((4096 * HexValue(t[2]) + 256 * HexValue(t[3])
            + 16 * HexValue(t[4]) + HexValue(t[5]), t[6..]))
    else None
  }

  /** The rest of a string literal, after its opening quote. */
  function ParseString(t: Text): (r: Option<(Text, Text)>)
    ensures r.Some? ==> |r.value.1| < |t|
    decreases |t|
  {
    if t == [] then None
    else if t[0] == QUOTE then Some(([], t[1..]))
    else
      var (u, afterUnit) :- ReadUnit(t);
      var (text, rest) :- ParseString(afterUnit);
      Some(([u] + text, rest))
  }

  /** How many leading units of `t` can belong to a number. */
  function NumeralSpan(t: Text): (k: nat)
    ensures k <= |t|
  {
    if t == [] || !IsNumeralUnit(t[0]) then 0 else 1 + NumeralSpan(t[1..])
  }

  function ParseNumber(t: Text): (r: Option<(Value, Text)>)
    ensures r.Some? ==> |r.value.1| < |t|
  {
    var k := NumeralSpan(t);
    if k > 0 && IsNumeral(t[..k]) then Some((Numeric(Finite(t[..k])), t[k..])) else None
  }

  function ParseValue(t: Text): (r: Option<(Value, Text)>)
    ensures r.Some? ==> |r.value.1| < |t|
    decreases |t|, 0
  {
    if t == [] then None
    else if NULL_TEXT <= t then Some((Null, t[4..]))
    else if TRUE_TEXT <= t then Some((Boolean(true), t[4..]))
    else if FALSE_TEXT <= t then Some((Boolean(false), t[5..]))
    else if t[0] == QUOTE then
      var (text, rest) :- ParseString(t[1..]);
      Some((String(text), rest))
    else if t[0] == OPEN_BRACKET then
      if |t| > 1 && t[1] == CLOSE_BRACKET then Some((Array([]), t[2..]))
      else
        var (items, rest) :- ParseItems(t[1..]);
        Some((Array(items), rest))
    else if t[0] == OPEN_BRACE then
      if |t| > 1 && t[1] == CLOSE_BRACE then Some((Object([]), t[2..]))
      else
        var (properties, rest) :- ParseProperties(t[1..]);
        Some((Object(properties), rest))
    else ParseNumber(t)
  }

  /** One or more items up to and including the closing bracket. */
  function ParseItems(t: Text): (r: Option<(seq<Value>, Text)>)
    ensures r.Some? ==> |r.value.1| < |t|
    decreases |t|, 1
  {
    var (item, afterItem) :- ParseValue(t);
    if afterItem == [] then None
    else if afterItem[0] == CLOSE_BRACKET then Some(([item], afterItem[1..]))
    else if afterItem[0] != COMMA then None
    else
      var (items, rest) :- ParseItems(afterItem[1..]);
      Some(([item] + items, rest))
  }

  /** A property's name and the colon after it. */
  function ParseKey(t: Text): (r: Option<(Text, Text)>)
    ensures r.Some? ==> |r.value.1| < |t|
  {
    if t == [] || t[0] != QUOTE then None
    else
      var (key, afterKey) :- ParseString(t[1..]);
      if afterKey == [] || afterKey[0] != COLON then None else Some((key, afterKey[1..]))
  }

  /** One or more properties up to and including the closing brace. */
  function ParseProperties(t: Text): (r: Option<(seq<Property>, Text)>)
    ensures r.Some? ==> |r.value.1| < |t|
    decreases |t|, 1
  {
    var (key, afterKey) :- ParseKey(t);
    var (value, afterValue) :- ParseValue(afterKey);
    if afterValue == [] then None
    else if afterValue[0] == CLOSE_BRACE then Some(([Property(key, value)], afterValue[1..]))
    else if afterValue[0] != COMMA then None
    else
      var (properties, rest) :- ParseProperties(afterValue[1..]);
      Some(([Property(key, value)] + properties, rest))
  }

  /** A whole text that is one value. */
  function Parse(t: Text): Option<Value> {
    var (value, rest) :- ParseValue(t);
    if rest == [] then Some(value) else None
  }

  // --- What a value becomes -------------------------------------------------------------------

  /** Keys in code-unit order at every level, undefined properties gone. */
  function Normal(v: Value): Value
    decreases v, 1
  {
    match v
    case Array(items) => Array(NormalItems(v, 0))
    case Object(properties) =>
      Object(NormalKeys(v, SortedKeys(properties)))
    case _ => v
  }

  function NormalItems(v: Value, from: nat): (items: seq<Value>)
    requires v.Array? && from <= |v.items|
    ensures |items| == |v.items| - from
    decreases v, 0, |v.items| - from
  {
    if from == |v.items| then [] else [Normal(v.items[from])] + NormalItems(v, from + 1)
  }

  function NormalKeys(v: Value, keys: seq<Text>): (properties: seq<Property>)
    requires v.Object?
    requires forall i :: 0 <= i < |keys| ==> keys[i] in Keys(v.properties)
    decreases v, 0, |keys|
  {
    if keys == [] then []
    else
      var child := v.properties[Position(v.properties, keys[0])].value;
      var rest := NormalKeys(v, keys[1..]);
      if child == Undefined then rest else [Property(keys[0], Normal(child))] + rest
  }

  // --- Strings and numbers come back ----------------------------------------------------------

  lemma ReadEscaped(u: Unit, rest: Text)
    ensures ReadUnit(EscapeUnit(u) + rest) == Some((u, rest))
    ensures EscapeUnit(u)[0] != QUOTE
  {
    var t := EscapeUnit(u) + rest;
    assert t[|EscapeUnit(u)|..] == rest;
    if u < 0x20 && |EscapeUnit(u)| == 6 {
      assert t[2] == '0' as int && t[3] == '0' as int;
      assert HexValue(HexUnit(u / 16)) == u / 16;
      assert HexValue(HexUnit(u % 16)) == u % 16;
    }
  }

  /** Of the spellings that read as a unit, the printed one is the shortest, and no other is as short. */
  lemma ShortestEscape(u: Unit, t: Text, rest: Text)
    requires t != [] && ReadUnit(t + rest) == Some((u, rest))
    ensures |EscapeUnit(u)| <= |t|
    ensures |EscapeUnit(u)| == |t| ==> t == EscapeUnit(u)
  {
    var all := t + rest;
    assert all[0] == t[0];
    assert |all| - |rest| == |t|;
    if all[0] == BACKSLASH && all[1] == 'u' as int && |t| == 6 {
      assert all[..6] == t;
    } else if |t| == 2 {
      assert t == [all[0], all[1]];
    }
  }

  /** A unit is read from some leading units, and what follows them is left. */
  lemma ReadFrom(t: Text)
    requires ReadUnit(t).Some?
    ensures var n := |t| - |ReadUnit(t).value.1|;
            0 < n <= |t| && t == t[..n] + ReadUnit(t).value.1
  {}

  /** What `t` reads as, and what is left, are no shorter spelled than printed; and as long only when printed. */
  ghost predicate Shortest(t: Text, text: Text, rest: Text) {
    && |Escape(text)| + 1 + |rest| <= |t|
    && (|Escape(text)| + 1 + |rest| == |t| ==> t == Escape(text) + [QUOTE] + rest)
  }

  lemma ShortestCons(u: Unit, spelled: Text, after: Text, tail: Text, rest: Text)
    requires |EscapeUnit(u)| <= |spelled| && (|EscapeUnit(u)| == |spelled| ==> spelled == EscapeUnit(u))
    requires Shortest(after, tail, rest)
    ensures Shortest(spelled + after, [u] + tail, rest)
  {
    assert ([u] + tail)[1..] == tail;
    assert Escape([u] + tail) == EscapeUnit(u) + Escape(tail);
    hide Escape, EscapeUnit;
    assert EscapeUnit(u) + (Escape(tail) + [QUOTE] + rest) == EscapeUnit(u) + Escape(tail) + [QUOTE] + rest;
  }

  /**
   However a text is spelled as a string literal, the printed literal is no longer; and one as long is the
   printed one. `t` is what follows the opening quote.
   */
  lemma {:induction false} ShortestString(t: Text)
    requires ParseString(t).Some?
    ensures Shortest(t, ParseString(t).value.0, ParseString(t).value.1)
    decreases |t|
  {
    hide ReadUnit, EscapeUnit;
    if t[0] == QUOTE {
      assert t == [QUOTE] + t[1..];
    } else {
      hide Shortest;
      var (u, after) := ReadUnit(t).value;
      var n := |t| - |after|;
      ReadFrom(t);
      ShortestEscape(u, t[..n], after);
      ShortestString(after);
      ShortestCons(u, t[..n], after, ParseString(after).value.0, ParseString(after).value.1);
    }
  }

  lemma {:induction false} ParseEscaped(text: Text, rest: Text)
    ensures ParseString(Escape(text) + [QUOTE] + rest) == Some((text, rest))
  {
    var t := Escape(text) + [QUOTE] + rest;
    if text == [] {
      assert t == [QUOTE] + rest;
    } else {
      var tail := Escape(text[1..]) + [QUOTE] + rest;
      assert t == EscapeUnit(text[0]) + tail;
      ReadEscaped(text[0], tail);
      ParseEscaped(text[1..], rest);
      assert text == [text[0]] + text[1..];
    }
  }

  lemma {:induction false} NumeralRunUnits(t: Text)
    requires NumeralRun(t) != Bad
    ensures forall i :: 0 <= i < |t| ==> IsNumeralUnit(t[i])
  {
    if t != [] {
      NumeralRunUnits(t[..|t| - 1]);
    }
  }

  lemma {:induction false} SpanStops(t: Text, rest: Text)
    requires forall i :: 0 <= i < |t| ==> IsNumeralUnit(t[i])
    requires rest == [] || !IsNumeralUnit(rest[0])
    ensures NumeralSpan(t + rest) == |t|
  {
    if t == [] {
      assert t + rest == rest;
    } else {
      assert (t + rest)[1..] == t[1..] + rest;
      SpanStops(t[1..], rest);
    }
  }

  lemma ParseNumeral(t: Numeral, rest: Text)
    requires rest == [] || !IsNumeralUnit(rest[0])
    ensures t != [] && IsNumeralUnit(t[0])
    ensures ParseValue(t + rest) == Some((Numeric(Finite(t)), rest))
  {
    NumeralRunUnits(t);
    SpanStops(t, rest);
    assert t != [] by {
      assert NumeralRun([]) == Start;
    }
    assert (t + rest)[0] == t[0];
    assert (t + rest)[..|t|] == t && (t + rest)[|t|..] == rest;
  }

  lemma ParseQuoted(text: Text, rest: Text)
    ensures ParseValue(Quote(text) + rest) == Some((String(text), rest))
  {
    var t := Quote(text) + rest;
    assert t[0] == QUOTE;
    assert t[1..] == Escape(text) + [QUOTE] + rest;
    ParseEscaped(text, rest);
  }

  lemma JoinCons(part: Text, parts: seq<Text>)
    ensures Join([part] + parts, COMMA)
         == if parts == [] then part else part + [COMMA] + Join(parts, COMMA)
  {
    assert ([part] + parts)[1..] == parts;
  }

  // --- The round trip -------------------------------------------------------------------------

  /** A canonical text never starts with a closing bracket. */
  lemma PrintedStart(v: Value, path: Text)
    requires Print(v, path).Ok?
    ensures Print(v, path).value != []
    ensures Print(v, path).value[0] != CLOSE_BRACKET
  {
    if v.Numeric? {
      ParseNumeral(v.number.numeral, []);
    }
  }

  lemma ParseLiteral(v: Value, rest: Text)
    requires v.Null? || v.Boolean?
    ensures ParseValue(Print(v, []).value + rest) == Some((v, rest))
  {
    var literal := Print(v, []).value;
    var t := literal + rest;
    assert t[0] == literal[0];
    assert TRUE_TEXT[0] != NULL_TEXT[0] && FALSE_TEXT[0] != NULL_TEXT[0] && FALSE_TEXT[0] != TRUE_TEXT[0];
    assert t[..|literal|] == literal && t[|literal|..] == rest;
  }

  lemma ParseArray(body: Text, items: seq<Value>, rest: Text)
    requires body != [] && body[0] != CLOSE_BRACKET
    requires ParseItems(body) == Some((items, rest))
    ensures ParseValue([OPEN_BRACKET] + body) == Some((Array(items), rest))
  {
    var t := [OPEN_BRACKET] + body;
    assert t[0] == OPEN_BRACKET && t[1] == body[0];
    assert t[1..] == body;
  }

  lemma ParseObject(body: Text, properties: seq<Property>, rest: Text)
    requires body != [] && body[0] == QUOTE
    requires ParseProperties(body) == Some((properties, rest))
    ensures ParseValue([OPEN_BRACE] + body) == Some((Object(properties), rest))
  {
    var t := [OPEN_BRACE] + body;
    assert t[0] == OPEN_BRACE && t[1] == body[0];
    assert t[1..] == body;
  }

  lemma ParseEmpty(rest: Text)
    ensures ParseValue([OPEN_BRACKET] + [] + [CLOSE_BRACKET] + rest) == Some((Array([]), rest))
    ensures ParseValue([OPEN_BRACE] + [] + [CLOSE_BRACE] + rest) == Some((Object([]), rest))
  {
    var a := [OPEN_BRACKET] + [] + [CLOSE_BRACKET] + rest;
    assert a[0] == OPEN_BRACKET && a[1] == CLOSE_BRACKET && a[2..] == rest;
    var o := [OPEN_BRACE] + [] + [CLOSE_BRACE] + rest;
    assert o[0] == OPEN_BRACE && o[1] == CLOSE_BRACE && o[2..] == rest;
  }

  lemma Enclosed(opening: Unit, inner: Text, closing: Unit, rest: Text)
    ensures [opening] + inner + [closing] + rest == [opening] + (inner + [closing] + rest)
  {}

  lemma {:induction false} ParsePrinted(v: Value, path: Text, rest: Text)
    requires Print(v, path).Ok?
    requires rest == [] || !IsNumeralUnit(rest[0])
    ensures ParseValue(Print(v, path).value + rest) == Some((Normal(v), rest))
    decreases v, 2
  {
    match v
    case Null => ParseLiteral(v, rest);
    case Boolean(_) => ParseLiteral(v, rest);
    case Numeric(number) => ParseNumeral(number.numeral, rest);
    case String(text) => ParseQuoted(text, rest);
    case Array(items) => ParsePrintedArray(v, path, rest);
    case Object(properties) => ParsePrintedObject(v, path, rest);
  }

  lemma {:induction false} ParsePrintedArray(v: Value, path: Text, rest: Text)
    requires v.Array? && Print(v, path).Ok?
    ensures ParseValue(Print(v, path).value + rest) == Some((Normal(v), rest))
    decreases v, 1
  {
    var parts := PrintItems(v, 0, path).value;
    if v.items == [] {
      ParseEmpty(rest);
    } else {
      ParsePrintedItems(v, 0, path, rest);
      var body := Join(parts, COMMA) + [CLOSE_BRACKET] + rest;
      PrintedStart(v.items[0], ItemPath(path, 0));
      assert body[0] == parts[0][0];
      ParseArray(body, NormalItems(v, 0), rest);
      Enclosed(OPEN_BRACKET, Join(parts, COMMA), CLOSE_BRACKET, rest);
    }
  }

  lemma {:induction false} ParsePrintedObject(v: Value, path: Text, rest: Text)
    requires v.Object? && Print(v, path).Ok?
    ensures ParseValue(Print(v, path).value + rest) == Some((Normal(v), rest))
    decreases v, 1
  {
    var keys := SortedKeys(v.properties);
    var parts := PrintKeys(v, keys, path).value;
    ParsePrintedKeys(v, keys, path, rest);
    if parts == [] {
      ParseEmpty(rest);
    } else {
      var body := Join(parts, COMMA) + [CLOSE_BRACE] + rest;
      KeyPartsStart(v, keys, path);
      ParseObject(body, NormalKeys(v, keys), rest);
      Enclosed(OPEN_BRACE, Join(parts, COMMA), CLOSE_BRACE, rest);
    }
  }

  lemma JoinThen(part: Text, parts: seq<Text>, closing: Unit, rest: Text)
    ensures Join([part] + parts, COMMA) + [closing] + rest
         == if parts == [] then part + ([closing] + rest)
            else part + ([COMMA] + (Join(parts, COMMA) + [closing] + rest))
  {
    JoinCons(part, parts);
  }

  lemma ParseLastItem(printed: Text, item: Value, rest: Text)
    requires ParseValue(printed + ([CLOSE_BRACKET] + rest)) == Some((item, [CLOSE_BRACKET] + rest))
    ensures ParseItems(printed + ([CLOSE_BRACKET] + rest)) == Some(([item], rest))
  {
    assert ([CLOSE_BRACKET] + rest)[1..] == rest;
  }

  lemma ParseNextItem(printed: Text, item: Value, tail: Text, others: seq<Value>, rest: Text)
    requires ParseValue(printed + ([COMMA] + tail)) == Some((item, [COMMA] + tail))
    requires ParseItems(tail) == Some((others, rest))
    ensures ParseItems(printed + ([COMMA] + tail)) == Some(([item] + others, rest))
  {
    assert ([COMMA] + tail)[1..] == tail;
  }

  lemma {:induction false} ParsePrintedItems(v: Value, from: nat, path: Text, rest: Text)
    requires v.Array? && from < |v.items|
    requires PrintItems(v, from, path).Ok?
    ensures ParseItems(Join(PrintItems(v, from, path).value, COMMA) + [CLOSE_BRACKET] + rest)
         == Some((NormalItems(v, from), rest))
    decreases v, 0, |v.items| - from
  {
    var item := v.items[from];
    var part := Print(item, ItemPath(path, from)).value;
    var parts := PrintItems(v, from + 1, path).value;
    JoinThen(part, parts, CLOSE_BRACKET, rest);
    if parts == [] {
      ParsePrinted(item, ItemPath(path, from), [CLOSE_BRACKET] + rest);
      ParseLastItem(part, Normal(item), rest);
      assert NormalItems(v, from) == [Normal(item)];
    } else {
      var tail := Join(parts, COMMA) + [CLOSE_BRACKET] + rest;
      ParsePrinted(item, ItemPath(path, from), [COMMA] + tail);
      ParsePrintedItems(v, from + 1, path, rest);
      ParseNextItem(part, Normal(item), tail, NormalItems(v, from + 1), rest);
    }
  }

  lemma ParsePrintedKey(key: Text, after: Text)
    ensures ParseKey(Quote(key) + [COLON] + after) == Some((key, after))
  {
    var t := Quote(key) + [COLON] + after;
    var afterKey := [COLON] + after;
    assert t[0] == QUOTE;
    assert t[1..] == Escape(key) + [QUOTE] + afterKey;
    ParseEscaped(key, afterKey);
    assert afterKey[1..] == after;
  }

  /** The last property of an object. */
  lemma ParseLastProperty(key: Text, printed: Text, value: Value, rest: Text)
    requires ParseValue(printed + ([CLOSE_BRACE] + rest)) == Some((value, [CLOSE_BRACE] + rest))
    ensures ParseProperties(Quote(key) + [COLON] + printed + ([CLOSE_BRACE] + rest))
         == Some(([Property(key, value)], rest))
  {
    var after := [CLOSE_BRACE] + rest;
    ParsePrintedKey(key, printed + after);
    assert Quote(key) + [COLON] + printed + after == Quote(key) + [COLON] + (printed + after);
    assert after[1..] == rest;
  }

  /** A property followed by others. */
  lemma ParseNextProperty(key: Text, printed: Text, value: Value, tail: Text, others: seq<Property>, rest: Text)
    requires ParseValue(printed + ([COMMA] + tail)) == Some((value, [COMMA] + tail))
    requires ParseProperties(tail) == Some((others, rest))
    ensures ParseProperties(Quote(key) + [COLON] + printed + ([COMMA] + tail))
         == Some(([Property(key, value)] + others, rest))
  {
    var after := [COMMA] + tail;
    ParsePrintedKey(key, printed + after);
    assert Quote(key) + [COLON] + printed + after == Quote(key) + [COLON] + (printed + after);
    assert after[1..] == tail;
  }

  lemma {:induction false} ParsePrintedKeys(v: Value, keys: seq<Text>, path: Text, rest: Text)
    requires v.Object?
    requires forall i :: 0 <= i < |keys| ==> keys[i] in Keys(v.properties)
    requires PrintKeys(v, keys, path).Ok?
    ensures PrintKeys(v, keys, path).value == [] <==> NormalKeys(v, keys) == []
    ensures PrintKeys(v, keys, path).value != [] ==>
              ParseProperties(Join(PrintKeys(v, keys, path).value, COMMA) + [CLOSE_BRACE] + rest)
              == Some((NormalKeys(v, keys), rest))
    decreases v, 0, |keys|
  {
    if keys != [] {
      var key := keys[0];
      var child := v.properties[Position(v.properties, key)].value;
      var parts := PrintKeys(v, keys[1..], path).value;
      ParsePrintedKeys(v, keys[1..], path, rest);
      if child != Undefined {
        var printed := Print(child, KeyPath(path, key)).value;
        var part := Quote(key) + [COLON] + printed;
        JoinThen(part, parts, CLOSE_BRACE, rest);
        if parts == [] {
          ParsePrinted(child, KeyPath(path, key), [CLOSE_BRACE] + rest);
          ParseLastProperty(key, printed, Normal(child), rest);
          assert NormalKeys(v, keys) == [Property(key, Normal(child))];
        } else {
          var tail := Join(parts, COMMA) + [CLOSE_BRACE] + rest;
          ParsePrinted(child, KeyPath(path, key), [COMMA] + tail);
          ParseNextProperty(key, printed, Normal(child), tail, NormalKeys(v, keys[1..]), rest);
        }
      }
    }
  }

  lemma {:induction false} KeyPartsStart(v: Value, keys: seq<Text>, path: Text)
    requires v.Object?
    requires forall i :: 0 <= i < |keys| ==> keys[i] in Keys(v.properties)
    requires PrintKeys(v, keys, path).Ok? && PrintKeys(v, keys, path).value != []
    ensures var body := Join(PrintKeys(v, keys, path).value, COMMA);
            body != [] && body[0] == QUOTE
    decreases |keys|
  {
    if v.properties[Position(v.properties, keys[0])].value == Undefined {
      KeyPartsStart(v, keys[1..], path);
    }
  }

  /** The parser undoes the printer: `Parse(canonicalize(v))` is `v` in normal form. */
  lemma {:induction false} RoundTrip(v: Value)
    requires Print(v, []).Ok?
    ensures Parse(Print(v, []).value) == Some(Normal(v))
  {
    ParsePrinted(v, [], []);
    assert Print(v, []).value + [] == Print(v, []).value;
  }
}
