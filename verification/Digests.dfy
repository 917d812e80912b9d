/**
 Canonical bytes, digests of values and digests under a format tag
 (packages/canonicalization/src/index.ts).
 */
module Digests {
  import opened Texts
  import opened Outcomes
  import opened Hashes
  import opened Utf8
  import opened Canonical
  import opened CanonicalFaithful

  // --- Canonical text has no unpaired surrogate -----------------------------------------------

  lemma ScalarAround(before: Text, middle: Text, after: Text)
    requires IsScalarText(before) && IsScalarText(middle) && IsScalarText(after)
    ensures IsScalarText(before + middle + after)
  {
    ScalarConcat(before, middle);
    ScalarConcat(before + middle, after);
  }

  lemma {:induction false} EscapeScalar(text: Text)
    requires IsScalarText(text)
    ensures IsScalarText(Escape(text))
  {
    if text == [] {
    } else if IsHigh(text[0]) {
      EscapeScalar(text[2..]);
      assert text[1..][1..] == text[2..] && text[1..][0] == text[1];
      assert Escape(text) == text[..2] + Escape(text[2..]);
      ScalarConcat(text[..2], Escape(text[2..]));
    } else {
      EscapeScalar(text[1..]);
      ScalarPlain(EscapeUnit(text[0]));
      ScalarConcat(EscapeUnit(text[0]), Escape(text[1..]));
    }
  }

  lemma QuoteScalar(text: Text)
    requires IsScalarText(text)
    ensures IsScalarText(Quote(text))
  {
    EscapeScalar(text);
    ScalarPlain([QUOTE]);
    ScalarAround([QUOTE], Escape(text), [QUOTE]);
  }

  lemma {:induction false} NumeralUnitsPlain(t: Text)
    requires NumeralRun(t) != Bad
    ensures forall i :: 0 <= i < |t| ==> !IsHigh(t[i]) && !IsLow(t[i])
  {
    if t != [] {
      NumeralUnitsPlain(t[..|t| - 1]);
    }
  }

  lemma {:induction false} JoinScalar(parts: seq<Text>, separator: Unit)
    requires !IsHigh(separator) && !IsLow(separator)
    requires forall i :: 0 <= i < |parts| ==> IsScalarText(parts[i])
    ensures IsScalarText(Join(parts, separator))
  {
    if |parts| > 1 {
      JoinScalar(parts[1..], separator);
      ScalarPlain([separator]);
      ScalarAround(parts[0], [separator], Join(parts[1..], separator));
    }
  }

  lemma BracketScalar(opening: Unit, parts: seq<Text>, closing: Unit)
    requires !IsHigh(opening) && !IsLow(opening) && !IsHigh(closing) && !IsLow(closing)
    requires forall i :: 0 <= i < |parts| ==> IsScalarText(parts[i])
    ensures IsScalarText([opening] + Join(parts, COMMA) + [closing])
  {
    JoinScalar(parts, COMMA);
    ScalarPlain([opening]);
    ScalarPlain([closing]);
    ScalarAround([opening], Join(parts, COMMA), [closing]);
  }

  lemma {:induction false} PrintedScalar(v: Value, path: Text)
    requires Print(v, path).Ok?
    ensures IsScalarText(Print(v, path).value)
    decreases v, 1
  {
    match v
    case Null => ScalarPlain(NULL_TEXT);
    case Boolean(flag) => ScalarPlain(Print(v, path).value);
    case Numeric(number) =>
      NumeralUnitsPlain(number.numeral);
      ScalarPlain(number.numeral);
    case String(text) => QuoteScalar(text);
    case Array(_) =>
      PrintedItemsScalar(v, 0, path);
      BracketScalar(OPEN_BRACKET, PrintItems(v, 0, path).value, CLOSE_BRACKET);
    case Object(properties) =>
      PrintedKeysScalar(v, SortedKeys(properties), path);
      BracketScalar(OPEN_BRACE, PrintKeys(v, SortedKeys(properties), path).value, CLOSE_BRACE);
  }

  lemma {:induction false} PrintedItemsScalar(v: Value, from: nat, path: Text)
    requires v.Array? && from <= |v.items|
    requires PrintItems(v, from, path).Ok?
    ensures forall part :: part in PrintItems(v, from, path).value ==> IsScalarText(part)
    decreases v, 0, |v.items| - from
  {
    if from < |v.items| {
      PrintedScalar(v.items[from], ItemPath(path, from));
      PrintedItemsScalar(v, from + 1, path);
    }
  }

  lemma {:induction false} PrintedKeysScalar(v: Value, keys: seq<Text>, path: Text)
    requires v.Object?
    requires forall i :: 0 <= i < |keys| ==> keys[i] in Keys(v.properties)
    requires PrintKeys(v, keys, path).Ok?
    ensures forall part :: part in PrintKeys(v, keys, path).value ==> IsScalarText(part)
    decreases v, 0, |keys|
  {
    if keys != [] {
      var child := v.properties[Position(v.properties, keys[0])].value;
      PrintedKeysScalar(v, keys[1..], path);
      if child != Undefined {
        PrintedScalar(child, KeyPath(path, keys[0]));
        QuoteScalar(keys[0]);
        ScalarPlain([COLON]);
        ScalarAround(Quote(keys[0]), [COLON], Print(child, KeyPath(path, keys[0])).value);
      }
    }
  }

  // --- Bytes and digests ----------------------------------------------------------------------

  function CanonicalBytes(v: Value): Result<Bytes, CanonicalizationError> {
    var text :- Print(v, []);
    Ok(Encode(text))
  }

  function Digest(h: Hash, v: Value): Printed {
    var bytes :- CanonicalBytes(v);
    Ok(HexDigest(h, bytes))
  }

  /** Two accepted values have the same canonical bytes exactly when they are the same JSON value. */
  lemma {:induction false} CanonicalBytesFaithful(v: Value, w: Value)
    requires WellFormed(v) && WellFormed(w)
    requires Print(v, []).Ok? && Print(w, []).Ok?
    ensures CanonicalBytes(v).value == CanonicalBytes(w).value <==> Equivalent(v, w)
  {
    PrintedScalar(v, []);
    PrintedScalar(w, []);
    if CanonicalBytes(v).value == CanonicalBytes(w).value {
      EncodeInjective(Print(v, []).value, Print(w, []).value);
    }
    CanonicalTextFaithful(v, w);
  }

  /** Two accepted values have one digest exactly when they are one value, or collide. */
  lemma {:induction false} DigestFaithful(h: Hash, v: Value, w: Value)
    requires WellFormed(v) && WellFormed(w)
    requires Print(v, []).Ok? && Print(w, []).Ok?
    ensures Digest(h, v).value == Digest(h, w).value <==>
            Equivalent(v, w) || CollisionAmong(h, {CanonicalBytes(v).value, CanonicalBytes(w).value})
  {
    CanonicalBytesFaithful(v, w);
    HexDigestAgree(h, CanonicalBytes(v).value, CanonicalBytes(w).value);
  }

  // --- Format tags ----------------------------------------------------------------------------

  const FORMAT_KEY: Text := Ascii("format")

  function Split(text: Text, separator: Unit): (parts: seq<Text>)
    ensures parts != []
  {
    if text == [] then [[]]
    else
      var rest := Split(text[1..], separator);
      if text[0] == separator then [[]] + rest else [[text[0]] + rest[0]] + rest[1..]
  }

  predicate IsTagWord(part: Text) {
    part != [] && forall i :: 0 <= i < |part| ==> IsDigit(part[i]) || 'a' as int <= part[i] <= 'z' as int
  }

  lemma TagWordByUnit(part: Text)
    ensures IsTagWord(part) <==> part != [] && forall u :: u in part ==> u in Ascii("0123456789abcdefghijklmnopqrstuvwxyz")
  {
    var all := Ascii("0123456789abcdefghijklmnopqrstuvwxyz");
    assert |all| == 36 && forall i :: 0 <= i < 36 ==> all[i] == if i < 10 then 0x30 + i else 0x57 + i;
    forall u: Unit ensures u in all <==> IsDigit(u) || 'a' as int <= u <= 'z' as int {
      if IsDigit(u) {
        assert all[u - 0x30] == u;
      } else if 'a' as int <= u <= 'z' as int {
        assert all[u - 0x57] == u;
      }
    }
  }

  predicate IsTagVersion(part: Text) {
    && |part| >= 2 && part[0] == 'v' as int && '1' as int <= part[1] <= '9' as int
    && forall i :: 2 <= i < |part| ==> IsDigit(part[i])
  }

  /** `kf-<name>-v<n>`: `kf`, one or more lowercase words, a positive version. */
  predicate IsFormatTag(tag: Text) {
    var parts := Split(tag, '-' as int);
    && |parts| >= 3
    && parts[0] == Ascii("kf")
    && IsTagVersion(parts[|parts| - 1])
    && forall i :: 1 <= i < |parts| - 1 ==> IsTagWord(parts[i])
  }

  lemma {:induction false} SplitParts(text: Text, separator: Unit)
    ensures Join(Split(text, separator), separator) == text
    ensures forall i :: 0 <= i < |Split(text, separator)| ==> separator !in Split(text, separator)[i]
  {
    if text != [] {
      SplitParts(text[1..], separator);
      assert text == [text[0]] + text[1..];
      var rest := Split(text[1..], separator);
      if text[0] == separator {
        assert ([[]] + rest)[1..] == rest;
      } else {
        assert ([[text[0]] + rest[0]] + rest[1..])[1..] == rest[1..];
      }
    }
  }

  /** Splitting finds the parts a text was joined from. */
  lemma SplitJoined(parts: seq<Text>, separator: Unit)
    requires parts != [] && forall i :: 0 <= i < |parts| ==> separator !in parts[i]
    ensures Split(Join(parts, separator), separator) == parts
  {
    SplitParts(Join(parts, separator), separator);
    JoinInjective(Split(Join(parts, separator), separator), parts, separator);
  }

  /** What a run of digits stands for. */
  function NumberOf(t: Text): (n: nat)
    requires forall i :: 0 <= i < |t| ==> IsDigit(t[i])
  {
    if t == [] then 0
    else
      assert IsDigit(t[|t| - 1]);
      10 * NumberOf(t[..|t| - 1]) + (t[|t| - 1] - '0' as int)
  }

  /** A number's decimal is read as that number, and starts with no zero unless it is zero. */
  lemma {:induction false} DecimalReads(n: nat)
    ensures NumberOf(Decimal(n)) == n
    ensures Decimal(n)[0] == '0' as int <==> n == 0
    ensures n == 0 ==> Decimal(n) == ['0' as int]
  {
    if n < 10 {
      assert Decimal(n)[..0] == [];
    } else {
      DecimalReads(n / 10);
      var t := Decimal(n);
      assert t[..|t| - 1] == Decimal(n / 10);
    }
  }

  lemma {:induction false} DigitsAreDecimal(t: Text)
    requires t != [] && t[0] != '0' as int && forall i :: 0 <= i < |t| ==> IsDigit(t[i])
    ensures NumberOf(t) > 0 && Decimal(NumberOf(t)) == t
  {
    var init, last := t[..|t| - 1], t[|t| - 1];
    assert t == init + [last];
    if init == [] {
      assert NumberOf(t) == last - '0' as int;
    } else {
      DigitsAreDecimal(init);
      assert NumberOf(t) / 10 == NumberOf(init) && NumberOf(t) % 10 == last - '0' as int;
    }
  }

  /** `v` and a positive integer. */
  ghost predicate NamesVersion(part: Text) {
    exists n :: n > 0 && part == ['v' as int] + Decimal(n)
  }

  lemma {:induction false} TagVersionExact(part: Text)
    ensures IsTagVersion(part) <==> NamesVersion(part)
  {
    if IsTagVersion(part) {
      var digits := part[1..];
      DigitsAreDecimal(digits);
      assert part == ['v' as int] + Decimal(NumberOf(digits));
    }
    if NamesVersion(part) {
      var n :| n > 0 && part == ['v' as int] + Decimal(n);
      DecimalReads(n);
      assert part[1] == Decimal(n)[0];
      assert forall i :: 2 <= i < |part| ==> part[i] == Decimal(n)[i - 1];
    }
  }

  /** `kf-`, words of digits and lower-case letters, a version. */
  ghost predicate TagOf(tag: Text, words: seq<Text>, version: Text) {
    && words != [] && (forall i :: 0 <= i < |words| ==> IsTagWord(words[i]))
    && NamesVersion(version)
    && tag == Join([Ascii("kf")] + words + [version], '-' as int)
  }

  /** The tags accepted are those built this way. */
  lemma {:induction false} FormatTagExact(tag: Text)
    ensures IsFormatTag(tag) <==> exists words, version :: TagOf(tag, words, version)
  {
    if IsFormatTag(tag) {
      var parts := Split(tag, '-' as int);
      var n := |parts| - 1;
      SplitParts(tag, '-' as int);
      TagVersionExact(parts[n]);
      assert [Ascii("kf")] + parts[1..n] + [parts[n]] == parts;
      assert TagOf(tag, parts[1..n], parts[n]);
    }
    if words, version :| TagOf(tag, words, version) {
      TagOfIsTag(tag, words, version);
    }
  }

  lemma TagOfIsTag(tag: Text, words: seq<Text>, version: Text)
    requires TagOf(tag, words, version)
    ensures IsFormatTag(tag)
  {
    var parts := [Ascii("kf")] + words + [version];
    TagVersionExact(version);
    forall i | 0 <= i < |parts| ensures '-' as int !in parts[i] {
      assert i == 0 || i == |parts| - 1 || parts[i] == words[i - 1];
    }
    SplitJoined(parts, '-' as int);
    assert forall i :: 1 <= i < |parts| - 1 ==> parts[i] == words[i - 1];
  }

  /** The value a tagged digest is taken of: `{ ...fields, format: tag }`. */
  function Tagged(tag: Text, fields: Value): Value
    requires fields.Object?
  {
    Object(fields.properties + [Property(FORMAT_KEY, String(tag))])
  }

  function TaggedPreimage(tag: Text, fields: Value): Result<Bytes, CanonicalizationError> {
    if !IsFormatTag(tag) then Err(CanonicalizationError(MalformedTag, FORMAT_KEY))
    else if !fields.Object? then Err(CanonicalizationError(NotAPlainObject, []))
    else if FORMAT_KEY in Keys(fields.properties) then Err(CanonicalizationError(OwnFormat, FORMAT_KEY))
    else CanonicalBytes(Tagged(tag, fields))
  }

  function TaggedDigest(h: Hash, tag: Text, fields: Value): Printed {
    var bytes :- TaggedPreimage(tag, fields);
    Ok(HexDigest(h, bytes))
  }

  lemma TagScalar(tag: Text)
    requires IsFormatTag(tag)
    ensures IsScalarText(tag)
  {
    var parts := Split(tag, '-' as int);
    SplitParts(tag, '-' as int);
    forall i | 0 <= i < |parts| ensures IsScalarText(parts[i]) {
      assert i == 0 || i == |parts| - 1 || IsTagWord(parts[i]);
      ScalarPlain(parts[i]);
    }
    hide IsScalarText;
    JoinScalar(parts, '-' as int);
  }

  lemma {:induction false} TaggedCanonicalizable(tag: Text, fields: Value)
    requires fields.Object? && IsScalarText(tag)
    ensures Canonicalizable(Tagged(tag, fields)) <==> Canonicalizable(fields)
  {
    ScalarPlain(FORMAT_KEY);
    var p, q := fields.properties, Tagged(tag, fields).properties;
    assert forall i :: 0 <= i < |p| ==> q[i] == p[i];
    assert q[|p|] == Property(FORMAT_KEY, String(tag));
    hide FORMAT_KEY, IsScalarText, Tagged;
    assert |q| == |p| + 1;
    assert (forall i :: 0 <= i < |q| ==>
              IsScalarText(q[i].key) && (q[i].value == Undefined || Canonicalizable(q[i].value)))
      <==> forall i :: 0 <= i < |p| ==>
              IsScalarText(p[i].key) && (p[i].value == Undefined || Canonicalizable(p[i].value));
  }

  /** When there is a tagged digest, and which refusal comes first. */
  lemma {:induction false} TaggedAccepted(tag: Text, fields: Value)
    requires WellFormed(fields)
    ensures TaggedPreimage(tag, fields).Ok? <==>
              IsFormatTag(tag) && fields.Object? && FORMAT_KEY !in Keys(fields.properties) && Canonicalizable(fields)
    ensures !IsFormatTag(tag) ==> TaggedPreimage(tag, fields) == Err(CanonicalizationError(MalformedTag, FORMAT_KEY))
    ensures IsFormatTag(tag) && !fields.Object? ==>
              TaggedPreimage(tag, fields) == Err(CanonicalizationError(NotAPlainObject, []))
    ensures IsFormatTag(tag) && fields.Object? && FORMAT_KEY in Keys(fields.properties) ==>
              TaggedPreimage(tag, fields) == Err(CanonicalizationError(OwnFormat, FORMAT_KEY))
  {
    hide IsFormatTag, Print, Tagged, Canonicalizable, FORMAT_KEY, WellFormed, Keys;
    if IsFormatTag(tag) && fields.Object? && FORMAT_KEY !in Keys(fields.properties) {
      TaggedWellFormed(tag, fields);
      AcceptsExactly(Tagged(tag, fields), []);
      TagScalar(tag);
      TaggedCanonicalizable(tag, fields);
    }
  }

  lemma TaggedWellFormed(tag: Text, fields: Value)
    requires fields.Object? && WellFormed(fields)
    requires FORMAT_KEY !in Keys(fields.properties)
    ensures WellFormed(Tagged(tag, fields))
  {
    var p := fields.properties;
    var q := Tagged(tag, fields).properties;
    forall i, j | 0 <= i < j < |q| ensures Keys(q)[i] != Keys(q)[j] {
      assert Keys(q)[i] == Keys(p)[i];
      if j < |p| {
        assert Keys(q)[j] == Keys(p)[j];
      }
    }
  }

  lemma TaggedDefinedKeys(tag: Text, fields: Value)
    requires fields.Object? && FORMAT_KEY !in Keys(fields.properties)
    ensures DefinedKeys(Tagged(tag, fields).properties) == DefinedKeys(fields.properties) + {FORMAT_KEY}
    ensures FORMAT_KEY !in DefinedKeys(fields.properties)
  {
    var p, q := fields.properties, Tagged(tag, fields).properties;
    assert q[|p|].key == FORMAT_KEY && q[|p|].value != Undefined;
    forall k ensures k in DefinedKeys(q) <==> k in DefinedKeys(p) + {FORMAT_KEY} {
      if k in DefinedKeys(p) {
        var i :| 0 <= i < |p| && p[i].value != Undefined && p[i].key == k;
        assert q[i] == p[i];
      }
    }
    assert forall i :: 0 <= i < |p| ==> Keys(p)[i] == p[i].key != FORMAT_KEY;
  }

  /** Tagging keeps what differs and what agrees. */
  lemma {:induction false} TaggedEquivalence(tag: Text, fields: Value, otherTag: Text, others: Value)
    requires fields.Object? && FORMAT_KEY !in Keys(fields.properties)
    requires others.Object? && FORMAT_KEY !in Keys(others.properties)
    ensures Equivalent(Tagged(tag, fields), Tagged(otherTag, others)) <==>
            tag == otherTag && Equivalent(fields, others)
  {
    TaggedDefinedKeys(tag, fields);
    TaggedDefinedKeys(otherTag, others);
    var a, b := fields.properties, others.properties;
    var c, d := Tagged(tag, fields).properties, Tagged(otherTag, others).properties;
    assert c[|a|].key == d[|b|].key == FORMAT_KEY;
    assert forall i :: 0 <= i < |a| ==> c[i] == a[i] && Keys(a)[i] == a[i].key != FORMAT_KEY;
    assert forall j :: 0 <= j < |b| ==> d[j] == b[j] && Keys(b)[j] == b[j].key != FORMAT_KEY;
    if Equivalent(Tagged(tag, fields), Tagged(otherTag, others)) {
      assert Equivalent(c[|a|].value, d[|b|].value);
      assert DefinedKeys(a) == DefinedKeys(c) - {FORMAT_KEY} == DefinedKeys(d) - {FORMAT_KEY} == DefinedKeys(b);
      forall i, j | 0 <= i < |a| && 0 <= j < |b| && a[i].key == b[j].key
                    && a[i].value != Undefined && b[j].value != Undefined
        ensures Equivalent(a[i].value, b[j].value)
      {
        assert c[i] == a[i] && d[j] == b[j];
      }
    }
  }

  /**
   A tagged digest names its tag and its fields: two agree exactly when both agree, or the two
   preimages collide.
   */
  lemma {:induction false} TaggedDigestSeparates(h: Hash, tag: Text, fields: Value, otherTag: Text, others: Value)
    requires WellFormed(fields) && WellFormed(others)
    requires TaggedPreimage(tag, fields).Ok? && TaggedPreimage(otherTag, others).Ok?
    ensures TaggedDigest(h, tag, fields).value == TaggedDigest(h, otherTag, others).value <==>
            || (tag == otherTag && Equivalent(fields, others))
            || CollisionAmong(h, {TaggedPreimage(tag, fields).value, TaggedPreimage(otherTag, others).value})
  {
    TaggedWellFormed(tag, fields);
    TaggedWellFormed(otherTag, others);
    TaggedEquivalence(tag, fields, otherTag, others);
    DigestFaithful(h, Tagged(tag, fields), Tagged(otherTag, others));
  }

  /** A value with no `format` of its own never shares a digest with a tagged one, unless they collide. */
  lemma {:induction false} TaggedNeverBare(h: Hash, tag: Text, fields: Value, bare: Value)
    requires WellFormed(fields) && WellFormed(bare)
    requires bare.Object? ==> FORMAT_KEY !in DefinedKeys(bare.properties)
    requires TaggedPreimage(tag, fields).Ok? && Print(bare, []).Ok?
    requires TaggedDigest(h, tag, fields).value == Digest(h, bare).value
    ensures CollisionAmong(h, {TaggedPreimage(tag, fields).value, CanonicalBytes(bare).value})
  {
    TaggedWellFormed(tag, fields);
    TaggedDefinedKeys(tag, fields);
    DigestFaithful(h, Tagged(tag, fields), bare);
    assert FORMAT_KEY in DefinedKeys(Tagged(tag, fields).properties);
  }
}
