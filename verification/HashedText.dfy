/**
 The exact text of the records that are hashed, for every record: what
 packages/canonicalization/src/index.ts prints for an audit link, a checkpoint leaf and a master-record
 member, byte for byte. Names and punctuation are written out here, in the order they are printed in.
 */
module HashedText {
  import opened Texts
  import opened Outcomes
  import opened Hashes
  import opened Utf8
  import opened Canonical
  import opened CanonicalFaithful
  import opened Digests
  import opened AuditChain

  // --- The text of a record -------------------------------------------------------------------

  /** The code units of a literal; a character above U+FFFF has no single one. */
  function Units(s: string): (t: Text)
    ensures |t| == |s|
  {
    seq(|s|, i requires 0 <= i < |s| => if s[i] < '\U{10000}' then s[i] as int else 0xfffd)
  }

  /** `"name":value` */
  function Named(name: string, value: Text): Text {
    Units("\"") + Units(name) + Units("\":") + value
  }

  /** Parts in braces, with commas. */
  function Braced(parts: seq<Text>): Text {
    Units("{") + Join(parts, ',' as int) + Units("}")
  }

  /** A nullable text: `null`, or the text quoted. */
  function QuotedOrNull(text: Option<Text>): Text {
    match text
    case None => Units("null")
    case Some(t) => Quote(t)
  }

  function QuotedAll(texts: seq<Text>): (parts: seq<Text>)
    ensures |parts| == |texts|
    ensures forall i :: 0 <= i < |texts| ==> parts[i] == Quote(texts[i])
  {
    seq(|texts|, i requires 0 <= i < |texts| => Quote(texts[i]))
  }

  /** Quoted texts in brackets, with commas. */
  function QuotedList(texts: seq<Text>): Text {
    Units("[") + Join(QuotedAll(texts), ',' as int) + Units("]")
  }

  // --- The order of names ---------------------------------------------------------------------

  /** The unit at `k` decides. */
  lemma {:induction false} LessAt(a: Text, b: Text, k: nat)
    requires k <= |a| && k < |b| && a[..k] == b[..k]
    requires k < |a| ==> a[k] < b[k]
    ensures Less(a, b)
    decreases k
  {
    if k > 0 {
      assert a[0] == a[..k][0] == b[..k][0] == b[0];
      assert a[1..][..k - 1] == a[..k][1..] == b[..k][1..] == b[1..][..k - 1];
      LessAt(a[1..], b[1..], k - 1);
    }
  }

  ghost predicate Ascending(keys: seq<Text>) {
    forall i :: 0 <= i < |keys| - 1 ==> Less(keys[i], keys[i + 1])
  }

  lemma {:induction false} AscendingPair(keys: seq<Text>, i: nat, j: nat)
    requires Ascending(keys) && i < j < |keys|
    ensures Less(keys[i], keys[j])
    decreases j - i
  {
    if i + 1 < j {
      AscendingPair(keys, i + 1, j);
      LessTransitive(keys[i], keys[i + 1], keys[j]);
    }
  }

  /** Keys in ascending order are the sorted keys. */
  lemma AscendingIsSorted(properties: seq<Property>, keys: seq<Text>)
    requires Distinct(Keys(properties)) && Ascending(keys)
    requires forall k :: k in keys <==> k in Keys(properties)
    ensures SortedKeys(properties) == keys
  {
    hide Less;
    var all := Keys(properties);
    forall i, j | 0 <= i < j < |keys| ensures AtMost(keys[i], keys[j]) && keys[i] != keys[j] {
      AscendingPair(keys, i, j);
      LessIrreflexive(keys[i]);
    }
    SortSorts(all);
    SortMembers(all);
    forall k ensures multiset(Sort(all))[k] <= 1 && multiset(keys)[k] <= 1 {
      DistinctMultiset(all, k);
      DistinctMultiset(keys, k);
    }
    SameKeysArranged(Sort(all), keys);
  }

  // --- Printing a record ----------------------------------------------------------------------

  lemma {:induction false} EscapePlain(t: Text)
    requires forall i :: 0 <= i < |t| ==> 0x20 <= t[i] && t[i] != QUOTE && t[i] != BACKSLASH
    ensures Escape(t) == t
  {
    if t != [] {
      EscapePlain(t[1..]);
      assert t == [t[0]] + t[1..];
    }
  }

  /** `key` prints as `name`: letters, digits and the like, not escaped. */
  ghost predicate Spells(key: Text, name: string) {
    && |key| == |name|
    && forall i :: 0 <= i < |name| ==> ' ' <= name[i] < '\U{007f}' && name[i] != '\"' && name[i] != '\\' && key[i] == name[i] as int
  }

  lemma AsciiSpells(name: string)
    requires forall i :: 0 <= i < |name| ==> '@' < name[i] < '{' && name[i] != '\\'
    ensures Spells(Ascii(name), name)
  {}

  lemma NamedIsPrinted(key: Text, name: string, value: Text)
    requires Spells(key, name)
    ensures Quote(key) + [COLON] + value == Named(name, value)
    ensures CheckScalar(key, KeyPath([], key)).Ok?
  {
    EscapePlain(key);
    ScalarPlain(key);
    assert key == Units(name);
    assert Units("\":") == [QUOTE, COLON] && Units("\"") == [QUOTE];
  }

  /** Property `key` of `v` prints as `name` with `value`. */
  ghost predicate PrintsField(v: Value, key: Text, name: string, value: Text)
    requires v.Object?
  {
    && Spells(key, name)
    && key in Keys(v.properties)
    && Child(v, key) != Undefined
    && Print(Child(v, key), key) == Ok(value)
  }

  ghost predicate PrintsFields(v: Value, keys: seq<Text>, names: seq<string>, values: seq<Text>)
    requires v.Object?
  {
    && |keys| == |names| == |values|
    && forall i :: 0 <= i < |keys| ==> PrintsField(v, keys[i], names[i], values[i])
  }

  lemma FieldsAdded(v: Value, keys: seq<Text>, names: seq<string>, values: seq<Text>, more: seq<Text>, others: seq<string>, rest: seq<Text>)
    requires v.Object? && PrintsFields(v, keys, names, values) && PrintsFields(v, more, others, rest)
    ensures PrintsFields(v, keys + more, names + others, values + rest)
  {
    hide PrintsField;
  }

  lemma FieldPrinted(v: Value, keys: seq<Text>, name: string, value: Text)
    requires v.Object? && keys != [] && PrintsField(v, keys[0], name, value)
    requires forall i :: 0 <= i < |keys| ==> keys[i] in Keys(v.properties)
    requires PrintKeys(v, keys[1..], []).Ok?
    ensures PrintKeys(v, keys, []) == Ok([Named(name, value)] + PrintKeys(v, keys[1..], []).value)
  {
    hide Named, Print, CheckScalar, Spells;
    NamedIsPrinted(keys[0], name, value);
  }

  lemma {:induction false} FieldsPrinted(v: Value, keys: seq<Text>, names: seq<string>, values: seq<Text>)
    requires v.Object? && PrintsFields(v, keys, names, values)
    ensures forall i :: 0 <= i < |keys| ==> keys[i] in Keys(v.properties)
    ensures PrintKeys(v, keys, []).Ok?
    ensures |PrintKeys(v, keys, []).value| == |names|
    ensures forall i :: 0 <= i < |names| ==> PrintKeys(v, keys, []).value[i] == Named(names[i], values[i])
    decreases |keys|
  {
    hide PrintsField, Named;
    forall i | 0 <= i < |keys| ensures keys[i] in Keys(v.properties) {
      FieldIsThere(v, keys[i], names[i], values[i]);
    }
    if keys != [] {
      assert PrintsFields(v, keys[1..], names[1..], values[1..]);
      FieldsPrinted(v, keys[1..], names[1..], values[1..]);
      FieldPrinted(v, keys, names[0], values[0]);
      hide PrintKeys, PrintsFields;
      forall i | 0 < i < |names| ensures PrintKeys(v, keys, []).value[i] == Named(names[i], values[i]) {
        assert names[1..][i - 1] == names[i] && values[1..][i - 1] == values[i];
      }
    }
  }

  lemma FieldIsThere(v: Value, key: Text, name: string, value: Text)
    requires v.Object? && PrintsField(v, key, name, value)
    ensures key in Keys(v.properties)
  {}

  /** `parts` are the fields of a record in the order they are printed. */
  ghost predicate AreFields(parts: seq<Text>, names: seq<string>, values: seq<Text>) {
    && |parts| == |names| == |values|
    && forall i :: 0 <= i < |parts| ==> parts[i] == Named(names[i], values[i])
  }

  /** A record prints its fields in braces, in the order of their names. */
  lemma RecordPrinted(v: Value, keys: seq<Text>, names: seq<string>, values: seq<Text>, parts: seq<Text>)
    requires v.Object? && Distinct(Keys(v.properties)) && Ascending(keys)
    requires forall k :: k in Keys(v.properties) ==> k in keys
    requires PrintsFields(v, keys, names, values) && AreFields(parts, names, values)
    ensures Print(v, []) == Ok(Braced(parts))
  {
    forall k | k in keys ensures k in Keys(v.properties) {
      var i :| 0 <= i < |keys| && keys[i] == k;
      assert PrintsField(v, keys[i], names[i], values[i]);
    }
    AscendingIsSorted(v.properties, keys);
    FieldsPrinted(v, keys, names, values);
    hide Named, Ascending, SortedKeys, PrintsFields;
    assert PrintKeys(v, keys, []).value == parts;
    assert Units("{") == [OPEN_BRACE] && Units("}") == [CLOSE_BRACE];
  }

  lemma FieldAt(v: Value, i: nat, name: string, value: Text)
    requires v.Object? && Distinct(Keys(v.properties)) && i < |v.properties|
    requires v.properties[i].value != Undefined && Spells(v.properties[i].key, name)
    requires Print(v.properties[i].value, v.properties[i].key) == Ok(value)
    ensures PrintsField(v, v.properties[i].key, name, value)
  {
    hide Print, Spells, Distinct;
    PositionOf(v.properties, i);
  }

  lemma NullablePrinted(text: Option<Text>, path: Text)
    requires text.Some? ==> IsScalarText(text.value)
    ensures Print(Nullable(text), path) == Ok(QuotedOrNull(text))
  {
    assert Units("null") == ['n' as int, 'u' as int, 'l' as int, 'l' as int];
  }

  lemma {:induction false} ItemsPrinted(texts: seq<Text>, from: nat, path: Text)
    requires from <= |texts| && forall i :: 0 <= i < |texts| ==> IsScalarText(texts[i])
    ensures PrintItems(Strings(texts), from, path) == Ok(QuotedAll(texts)[from..])
    decreases |texts| - from
  {
    if from < |texts| {
      ItemsPrinted(texts, from + 1, path);
      assert Print(Strings(texts).items[from], ItemPath(path, from)) == Ok(Quote(texts[from]));
      hide Quote;
      assert QuotedAll(texts)[from..] == [Quote(texts[from])] + QuotedAll(texts)[from + 1..];
    }
  }

  lemma ListPrinted(texts: seq<Text>, path: Text)
    requires forall i :: 0 <= i < |texts| ==> IsScalarText(texts[i])
    ensures Print(Strings(texts), path) == Ok(QuotedList(texts))
  {
    ItemsPrinted(texts, 0, path);
    assert Units("[") == [OPEN_BRACKET] && Units("]") == [CLOSE_BRACKET];
    assert QuotedAll(texts)[0..] == QuotedAll(texts);
  }

  // --- Literals and escapes -------------------------------------------------------------------

  /** The escapes with a letter of their own, as section 3.2.2.2 of RFC 8785 lists them. */
  lemma LetterEscapes()
    ensures EscapeUnit(0x08) == Units("\\b") && EscapeUnit(0x09) == Units("\\t") && EscapeUnit(0x0a) == Units("\\n")
    ensures EscapeUnit(0x0c) == Units("\\f") && EscapeUnit(0x0d) == Units("\\r")
    ensures EscapeUnit(0x22) == Units("\\\"") && EscapeUnit(0x5c) == Units("\\\\")
  {}

  /** Any other control character is escaped by its number, in lower-case hexadecimal; nothing else is escaped. */
  lemma OtherEscapes(u: Unit)
    ensures EscapeUnit(0x01) == Units("\\u0001") && EscapeUnit(0x1f) == Units("\\u001f")
    ensures u >= 0x20 && u != 0x22 && u != 0x5c ==> EscapeUnit(u) == [u]
  {}

  /** One list of every kind of value without parts: the literals, a number as it is written, a text quoted. */
  lemma {:induction false} ListOfEach(number: Numeral, text: Text, path: Text)
    requires IsScalarText(text)
    ensures Print(Array([Null, Boolean(true), Boolean(false), Numeric(Finite(number)), String(text)]), path)
         == Ok(Units("[null,true,false,") + number + (Units(",") + Quote(text) + Units("]")))
  {
    EachItem(number, text, path);
    JoinEach(number, Quote(text));
    hide PrintItems, Join, Quote, Units, IsScalarText;
  }

  lemma EachItem(number: Numeral, text: Text, path: Text)
    requires IsScalarText(text)
    ensures PrintItems(Array([Null, Boolean(true), Boolean(false), Numeric(Finite(number)), String(text)]), 0, path)
         == Ok([NULL_TEXT, TRUE_TEXT, FALSE_TEXT, number, Quote(text)])
  {
    var v := Array([Null, Boolean(true), Boolean(false), Numeric(Finite(number)), String(text)]);
    var last, none: seq<Text> := Quote(text), [];
    assert PrintItems(v, 5, path) == Ok(none);
    hide PrintItems, Quote, IsScalarText, NULL_TEXT, TRUE_TEXT, FALSE_TEXT, ItemPath, Print;
    TextPrinted(text, ItemPath(path, 4));
    NumberPrinted(number, ItemPath(path, 3));
    LiteralsPrinted(ItemPath(path, 2));
    LiteralsPrinted(ItemPath(path, 1));
    LiteralsPrinted(ItemPath(path, 0));
    assert [last][1..] == none && [number, last][1..] == [last];
    assert [FALSE_TEXT, number, last][1..] == [number, last];
    assert [TRUE_TEXT, FALSE_TEXT, number, last][1..] == [FALSE_TEXT, number, last];
    assert [NULL_TEXT, TRUE_TEXT, FALSE_TEXT, number, last][1..] == [TRUE_TEXT, FALSE_TEXT, number, last];
    OneItem(v, 4, path, [last]);
    OneItem(v, 3, path, [number, last]);
    OneItem(v, 2, path, [FALSE_TEXT, number, last]);
    OneItem(v, 1, path, [TRUE_TEXT, FALSE_TEXT, number, last]);
    OneItem(v, 0, path, [NULL_TEXT, TRUE_TEXT, FALSE_TEXT, number, last]);
  }

  lemma LiteralsPrinted(path: Text)
    ensures Print(Null, path) == Ok(NULL_TEXT)
    ensures Print(Boolean(true), path) == Ok(TRUE_TEXT) && Print(Boolean(false), path) == Ok(FALSE_TEXT)
  {}

  lemma NumberPrinted(number: Numeral, path: Text)
    ensures Print(Numeric(Finite(number)), path) == Ok(number)
  {}

  lemma TextPrinted(text: Text, path: Text)
    requires IsScalarText(text)
    ensures Print(String(text), path) == Ok(Quote(text))
  {}

  lemma OneItem(v: Value, i: nat, path: Text, parts: seq<Text>)
    requires v.Array? && i < |v.items| && v.items[i] != Undefined && parts != []
    requires Print(v.items[i], ItemPath(path, i)) == Ok(parts[0]) && PrintItems(v, i + 1, path) == Ok(parts[1..])
    ensures PrintItems(v, i, path) == Ok(parts)
  {
    hide Print;
    ItemsFrom(v, i, path);
    assert parts == [parts[0]] + parts[1..];
  }

  lemma JoinFive(a: Text, b: Text, c: Text, d: Text, e: Text, separator: Unit)
    ensures Join([a, b, c, d, e], separator)
         == a + [separator] + (b + [separator] + (c + [separator] + (d + [separator] + e)))
  {
    assert [a, b, c, d, e][1..] == [b, c, d, e] && [b, c, d, e][1..] == [c, d, e];
    assert [c, d, e][1..] == [d, e] && [d, e][1..] == [e];
    assert Join([d, e], separator) == d + [separator] + e;
    assert Join([c, d, e], separator) == c + [separator] + (d + [separator] + e);
    assert Join([b, c, d, e], separator) == b + [separator] + (c + [separator] + (d + [separator] + e));
  }

  lemma JoinEach(number: Text, last: Text)
    ensures [OPEN_BRACKET] + Join([NULL_TEXT, TRUE_TEXT, FALSE_TEXT, number, last], COMMA) + [CLOSE_BRACKET]
         == Units("[null,true,false,") + number + (Units(",") + last + Units("]"))
  {
    hide Join;
    JoinFive(NULL_TEXT, TRUE_TEXT, FALSE_TEXT, number, last, COMMA);
    assert Units("[null,true,false,") ==
           [OPEN_BRACKET] + NULL_TEXT + [COMMA] + TRUE_TEXT + [COMMA] + FALSE_TEXT + [COMMA];
    assert Units(",") == [COMMA] && Units("]") == [CLOSE_BRACKET];
    hide Units;
    Reassociated([OPEN_BRACKET], NULL_TEXT, [COMMA], TRUE_TEXT, FALSE_TEXT, number, last, [CLOSE_BRACKET]);
  }

  lemma Reassociated(opening: Text, a: Text, comma: Text, b: Text, c: Text, d: Text, e: Text, closing: Text)
    ensures opening + (a + comma + (b + comma + (c + comma + (d + comma + e)))) + closing
         == (opening + a + comma + b + comma + c + comma) + d + (comma + e + closing)
  {}

  // --- Audit links ----------------------------------------------------------------------------

  ghost predicate ScalarAct(e: ChainEntry) {
    && IsScalarText(e.actionId) && IsScalarText(e.actionType) && IsScalarText(e.actorId)
    && IsScalarText(e.actingRoleId) && IsScalarText(e.effectiveAt)
    && (forall i :: 0 <= i < |e.objectIds| ==> IsScalarText(e.objectIds[i]))
    && (e.beforeDigest.Some? ==> IsScalarText(e.beforeDigest.value))
    && (e.afterDigest.Some? ==> IsScalarText(e.afterDigest.value))
  }

  /** The fields of a link, in the order printed; only version 2 names its format. */
  function LinkParts(e: ChainEntry, tagged: bool): seq<Text> {
    [ Named("acting_role_id", Quote(e.actingRoleId)),
      Named("action_id", Quote(e.actionId)),
      Named("action_type", Quote(e.actionType)),
      Named("actor_id", Quote(e.actorId)),
      Named("after_digest", QuotedOrNull(e.afterDigest)),
      Named("before_digest", QuotedOrNull(e.beforeDigest)),
      Named("effective_at", Quote(e.effectiveAt)) ]
    + (if tagged then [Named("format", Quote(Units("kf-audit-link-v2")))] else [])
    + [Named("object_ids", QuotedList(Sort(e.objectIds)))]
  }

  lemma LinkKeysSpelled()
    ensures Spells(LINK_KEYS[0], "action_id") && Spells(LINK_KEYS[1], "action_type")
    ensures Spells(LINK_KEYS[2], "actor_id") && Spells(LINK_KEYS[3], "acting_role_id")
  {
    hide Spells;
    AsciiSpells("action_id");
    AsciiSpells("action_type");
    AsciiSpells("actor_id");
    AsciiSpells("acting_role_id");
  }

  lemma OtherLinkKeysSpelled()
    ensures Spells(LINK_KEYS[4], "object_ids") && Spells(LINK_KEYS[5], "effective_at")
    ensures Spells(LINK_KEYS[6], "before_digest") && Spells(LINK_KEYS[7], "after_digest")
    ensures Spells(FORMAT_KEY, "format")
  {
    hide Spells;
    AsciiSpells("object_ids");
    AsciiSpells("effective_at");
    AsciiSpells("before_digest");
    AsciiSpells("after_digest");
    AsciiSpells("format");
  }

  function SortedLinkKeys(tagged: bool): (keys: seq<Text>) {
    [LINK_KEYS[3], LINK_KEYS[0], LINK_KEYS[1], LINK_KEYS[2], LINK_KEYS[7], LINK_KEYS[6], LINK_KEYS[5]]
    + (if tagged then [FORMAT_KEY] else []) + [LINK_KEYS[4]]
  }

  lemma LinkKeysAscend(tagged: bool)
    ensures Ascending(SortedLinkKeys(tagged))
  {
    LessAt(LINK_KEYS[3], LINK_KEYS[0], 4);
    LessAt(LINK_KEYS[0], LINK_KEYS[1], 7);
    LessAt(LINK_KEYS[1], LINK_KEYS[2], 3);
    LessAt(LINK_KEYS[2], LINK_KEYS[7], 1);
    LessAt(LINK_KEYS[7], LINK_KEYS[6], 0);
    LessAt(LINK_KEYS[6], LINK_KEYS[5], 0);
    LessAt(LINK_KEYS[5], LINK_KEYS[4], 0);
    LessAt(LINK_KEYS[5], FORMAT_KEY, 0);
    LessAt(FORMAT_KEY, LINK_KEYS[4], 0);
    hide Less;
  }

  lemma LinkKeysArranged(e: ChainEntry, format: LinkFormat, k: Text)
    requires IsLinkFormat(format) && k in Keys(LinkValue(e, format).properties)
    ensures k in SortedLinkKeys(format == LinkV2)
  {
    LinkValueKeys(e, format);
    assert |LINK_KEYS| == 8;
    hide LinkValue, LINK_KEYS, FORMAT_KEY;
  }

  lemma LinkNamesPrinted(e: ChainEntry, format: LinkFormat)
    requires IsLinkFormat(format) && ScalarAct(e)
    ensures var v := LinkValue(e, format);
            && PrintsField(v, LINK_KEYS[0], "action_id", Quote(e.actionId))
            && PrintsField(v, LINK_KEYS[1], "action_type", Quote(e.actionType))
            && PrintsField(v, LINK_KEYS[2], "actor_id", Quote(e.actorId))
            && PrintsField(v, LINK_KEYS[3], "acting_role_id", Quote(e.actingRoleId))
            && PrintsField(v, LINK_KEYS[5], "effective_at", Quote(e.effectiveAt))
  {
    var v := LinkValue(e, format);
    LinkKeysSpelled();
    OtherLinkKeysSpelled();
    LinkValueShape(e, format);
    assert |LINK_KEYS| == 8;
    hide LINK_KEYS, FORMAT_KEY, Spells, Strings, Nullable, Quote, PrintsField, Keys, Distinct;
    FieldAt(v, 0, "action_id", Quote(e.actionId));
    FieldAt(v, 1, "action_type", Quote(e.actionType));
    FieldAt(v, 2, "actor_id", Quote(e.actorId));
    FieldAt(v, 3, "acting_role_id", Quote(e.actingRoleId));
    FieldAt(v, 5, "effective_at", Quote(e.effectiveAt));
  }

  lemma LinkRestPrinted(e: ChainEntry, format: LinkFormat)
    requires IsLinkFormat(format) && ScalarAct(e)
    ensures var v := LinkValue(e, format);
            && PrintsField(v, LINK_KEYS[4], "object_ids", QuotedList(Sort(e.objectIds)))
            && PrintsField(v, LINK_KEYS[6], "before_digest", QuotedOrNull(e.beforeDigest))
            && PrintsField(v, LINK_KEYS[7], "after_digest", QuotedOrNull(e.afterDigest))
  {
    var v := LinkValue(e, format);
    OtherLinkKeysSpelled();
    LinkValueShape(e, format);
    LinkTagSpelled();
    SortMembers(e.objectIds);
    ListPrinted(Sort(e.objectIds), LINK_KEYS[4]);
    NullablePrinted(e.beforeDigest, LINK_KEYS[6]);
    NullablePrinted(e.afterDigest, LINK_KEYS[7]);
    NullableDefined(e.beforeDigest);
    NullableDefined(e.afterDigest);
    hide LINK_KEYS, FORMAT_KEY, LINK_V2_NAME, Spells, QuotedList, QuotedOrNull, Strings, Nullable, PrintsField, Keys, Distinct, ScalarAct, Sort, IsScalarText, Print;
    FieldAt(v, 4, "object_ids", QuotedList(Sort(e.objectIds)));
    FieldAt(v, 6, "before_digest", QuotedOrNull(e.beforeDigest));
    FieldAt(v, 7, "after_digest", QuotedOrNull(e.afterDigest));
  }

  lemma LinkTagPrinted(e: ChainEntry)
    ensures PrintsField(LinkValue(e, LinkV2), FORMAT_KEY, "format", Quote(LINK_V2_NAME))
  {
    var v := LinkValue(e, LinkV2);
    OtherLinkKeysSpelled();
    LinkValueShape(e, LinkV2);
    ScalarPlain(LINK_V2_NAME);
    hide LINK_KEYS, FORMAT_KEY, LINK_V2_NAME, Spells, Strings, Nullable, Quote, PrintsField, Keys, Distinct, Sort;
    FieldAt(v, 8, "format", Quote(LINK_V2_NAME));
  }

  function LinkNames(tagged: bool): seq<string> {
    ["acting_role_id", "action_id", "action_type", "actor_id", "after_digest", "before_digest", "effective_at"]
    + (if tagged then ["format"] else []) + ["object_ids"]
  }

  function LinkTexts(e: ChainEntry, tagged: bool): seq<Text> {
    [ Quote(e.actingRoleId), Quote(e.actionId), Quote(e.actionType), Quote(e.actorId),
      QuotedOrNull(e.afterDigest), QuotedOrNull(e.beforeDigest), Quote(e.effectiveAt) ]
    + (if tagged then [Quote(Units("kf-audit-link-v2"))] else []) + [QuotedList(Sort(e.objectIds))]
  }

  lemma LinkPartsNamed(e: ChainEntry, tagged: bool)
    ensures AreFields(LinkParts(e, tagged), LinkNames(tagged), LinkTexts(e, tagged))
  {
    hide Named, Quote, QuotedOrNull, QuotedList, Units, Sort;
  }

  lemma LinkTagSpelled()
    ensures LINK_V2_NAME == Units("kf-audit-link-v2")
    ensures |LINK_KEYS| == 8
  {}

  lemma LinkFieldsPrinted(e: ChainEntry, format: LinkFormat)
    requires IsLinkFormat(format) && ScalarAct(e)
    ensures var tagged := format == LinkV2;
            PrintsFields(LinkValue(e, format), SortedLinkKeys(tagged), LinkNames(tagged), LinkTexts(e, tagged))
  {
    hide LINK_KEYS, FORMAT_KEY, LINK_V2_NAME, QuotedList, QuotedOrNull, Quote, PrintsField, LinkValue, Units, Sort, ScalarAct;
    LinkNamesPrinted(e, format);
    LinkRestPrinted(e, format);
    LinkTagSpelled();
    if format == LinkV2 {
      LinkTagPrinted(e);
    }
  }

  /** The text of a link, for every act. */
  lemma {:induction false} LinkPrinted(e: ChainEntry, format: LinkFormat)
    requires IsLinkFormat(format) && ScalarAct(e)
    ensures Print(LinkValue(e, format), []) == Ok(Braced(LinkParts(e, format == LinkV2)))
  {
    var v, tagged := LinkValue(e, format), format == LinkV2;
    LinkFieldsPrinted(e, format);
    LinkPartsNamed(e, tagged);
    LinkKeysAscend(tagged);
    LinkValueShape(e, format);
    forall k | k in Keys(v.properties) ensures k in SortedLinkKeys(tagged) {
      LinkKeysArranged(e, format, k);
    }
    hide *;
    RecordPrinted(v, SortedLinkKeys(tagged), LinkNames(tagged), LinkTexts(e, tagged), LinkParts(e, tagged));
  }

  lemma FieldCanonicalizable(v: Value, i: nat, value: Value)
    requires v.Object? && Canonicalizable(v) && i < |v.properties|
    requires v.properties[i].value == value != Undefined
    ensures Canonicalizable(value)
  {}

  /** The value of each field of a link. */
  lemma LinkValues(e: ChainEntry, format: LinkFormat)
    ensures var p := LinkValue(e, format).properties;
            && |p| >= 8
            && p[0].value == String(e.actionId) && p[1].value == String(e.actionType)
            && p[2].value == String(e.actorId) && p[3].value == String(e.actingRoleId)
            && p[4].value == Strings(Sort(e.objectIds)) && p[5].value == String(e.effectiveAt)
            && p[6].value == Nullable(e.beforeDigest) && p[7].value == Nullable(e.afterDigest)
  {
    hide LINK_KEYS, Strings, Nullable, Sort;
  }

  lemma ActCanonicalizable(e: ChainEntry, format: LinkFormat)
    requires Canonicalizable(LinkValue(e, format))
    ensures ScalarAct(e)
  {
    hide *;
    var v := LinkValue(e, format);
    LinkValues(e, format);
    assert Nullable(e.beforeDigest) != Undefined && Nullable(e.afterDigest) != Undefined by {
      NullableDefined(e.beforeDigest);
      NullableDefined(e.afterDigest);
    }
    FieldCanonicalizable(v, 0, String(e.actionId));
    FieldCanonicalizable(v, 1, String(e.actionType));
    FieldCanonicalizable(v, 2, String(e.actorId));
    FieldCanonicalizable(v, 3, String(e.actingRoleId));
    FieldCanonicalizable(v, 4, Strings(Sort(e.objectIds)));
    FieldCanonicalizable(v, 5, String(e.effectiveAt));
    FieldCanonicalizable(v, 6, Nullable(e.beforeDigest));
    FieldCanonicalizable(v, 7, Nullable(e.afterDigest));
    TextsCanonicalizable(e.objectIds);
    TextCanonicalizable(e.actionId);
    TextCanonicalizable(e.actionType);
    TextCanonicalizable(e.actorId);
    TextCanonicalizable(e.actingRoleId);
    TextCanonicalizable(e.effectiveAt);
    NullableCanonicalizable(e.beforeDigest);
    NullableCanonicalizable(e.afterDigest);
    AllScalar(e);
  }

  lemma AllScalar(e: ChainEntry)
    requires IsScalarText(e.actionId) && IsScalarText(e.actionType) && IsScalarText(e.actorId)
    requires IsScalarText(e.actingRoleId) && IsScalarText(e.effectiveAt)
    requires forall i :: 0 <= i < |e.objectIds| ==> IsScalarText(e.objectIds[i])
    requires e.beforeDigest.Some? ==> IsScalarText(e.beforeDigest.value)
    requires e.afterDigest.Some? ==> IsScalarText(e.afterDigest.value)
    ensures ScalarAct(e)
  {
    hide IsScalarText;
  }

  lemma NullableDefined(text: Option<Text>)
    ensures Nullable(text) != Undefined
  {}

  lemma TextCanonicalizable(text: Text)
    ensures Canonicalizable(String(text)) <==> IsScalarText(text)
  {}

  lemma NullableCanonicalizable(text: Option<Text>)
    ensures Canonicalizable(Nullable(text)) <==> (text.Some? ==> IsScalarText(text.value))
  {
    hide IsScalarText;
  }

  lemma SortedIndex(texts: seq<Text>, i: nat) returns (j: nat)
    requires i < |texts|
    ensures j < |Sort(texts)| && Sort(texts)[j] == texts[i]
  {
    assert texts[i] in multiset(Sort(texts));
    j :| 0 <= j < |Sort(texts)| && Sort(texts)[j] == texts[i];
  }

  lemma {:induction false} TextsCanonicalizable(texts: seq<Text>)
    requires Canonicalizable(Strings(Sort(texts)))
    ensures forall i :: 0 <= i < |texts| ==> IsScalarText(texts[i])
  {
    hide *;
    forall i | 0 <= i < |texts| ensures IsScalarText(texts[i]) {
      SortedItemCanonicalizable(texts, i);
    }
  }

  lemma {:induction false} SortedItemCanonicalizable(texts: seq<Text>, i: nat)
    requires i < |texts| && Canonicalizable(Strings(Sort(texts)))
    ensures IsScalarText(texts[i])
  {
    hide *;
    var j := SortedIndex(texts, i);
    ItemCanonicalizable(Sort(texts), j);
  }

  lemma ItemCanonicalizable(texts: seq<Text>, j: nat)
    requires j < |texts| && Canonicalizable(Strings(texts))
    ensures IsScalarText(texts[j])
  {
    hide IsScalarText;
    assert Canonicalizable(Strings(texts).items[j]);
  }

  /**
   What is hashed for a link, and when there is such a thing: a known format is asked for first, then a
   predecessor of 64 hexadecimal digits, then text without unpaired surrogates.
   */
  lemma {:induction false} LinkPreimageText(previous: Text, e: ChainEntry, format: LinkFormat)
    ensures LinkPreimage(previous, e, format).Ok? <==>
              (format == LinkV1 || format == LinkV2) && IsDigestText(previous) && ScalarAct(e)
    ensures LinkPreimage(previous, e, format).Ok? ==>
              LinkPreimage(previous, e, format).value
              == Unhex(previous) + Encode(Braced(LinkParts(e, format == LinkV2)))
    ensures format.UnknownLink? ==>
              LinkPreimage(previous, e, format) == Err(CanonicalizationError(UnknownLinkFormat, Units("format")))
    ensures !format.UnknownLink? && !IsDigestText(previous) ==>
              LinkPreimage(previous, e, format) == Err(CanonicalizationError(MalformedPrevious, Units("previous")))
  {
    assert Ascii("previous") == Units("previous") && FORMAT_KEY == Units("format");
    if IsLinkFormat(format) {
      LinkValueShape(e, format);
      AcceptsExactly(LinkValue(e, format), []);
      if Canonicalizable(LinkValue(e, format)) {
        ActCanonicalizable(e, format);
      }
      if ScalarAct(e) {
        LinkPrinted(e, format);
      }
    }
    hide LinkValue, Print, LinkParts, ScalarAct, Canonicalizable, IsDigestText, Units, Ascii;
  }
}
