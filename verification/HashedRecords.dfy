/**
 The exact text hashed for a checkpoint leaf and for a master-record member, for every event and every
 envelope (apps/checkpoint/src/sign/chain.ts, packages/documents/src/master-record.ts), and which of them
 are accepted.
 */
module HashedRecords {
  import opened Texts
  import opened Outcomes
  import opened Hashes
  import opened Utf8
  import opened Canonical
  import opened CanonicalFaithful
  import opened Digests
  import opened AuditChain
  import opened Checkpoint
  import opened MemberDigests
  import opened HashedText

  // --- Master-record members ------------------------------------------------------------------

  /** The fields of a member, in the order printed; only version 2 names its format. */
  function MemberParts(e: Envelope, content: Text, tagged: bool): seq<Text> {
    [ Named("classification", Quote(e.classification)),
      Named("content", content) ]
    + (if tagged then [Named("format", Quote(Units("kf-master-record-member-v2")))] else [])
    + [ Named("id", Quote(e.id)),
        Named("lifecycleState", Quote(e.lifecycleState)),
        Named("objectType", Quote(e.objectType)),
        Named("organizationId", Quote(e.organizationId)),
        Named("rowVersion", Quote(e.rowVersion)),
        Named("title", Quote(e.title)) ]
  }

  function MemberNames(tagged: bool): seq<string> {
    ["classification", "content"] + (if tagged then ["format"] else [])
    + ["id", "lifecycleState", "objectType", "organizationId", "rowVersion", "title"]
  }

  function MemberTexts(e: Envelope, content: Text, tagged: bool): seq<Text> {
    [Quote(e.classification), content] + (if tagged then [Quote(Units("kf-master-record-member-v2"))] else [])
    + [Quote(e.id), Quote(e.lifecycleState), Quote(e.objectType), Quote(e.organizationId), Quote(e.rowVersion), Quote(e.title)]
  }

  function SortedMemberKeys(tagged: bool): seq<Text> {
    [ENVELOPE_KEYS[3], ENVELOPE_KEYS[7]] + (if tagged then [FORMAT_KEY] else [])
    + [ENVELOPE_KEYS[0], ENVELOPE_KEYS[5], ENVELOPE_KEYS[1], ENVELOPE_KEYS[2], ENVELOPE_KEYS[6], ENVELOPE_KEYS[4]]
  }

  lemma MemberPartsNamed(e: Envelope, content: Text, tagged: bool)
    ensures AreFields(MemberParts(e, content, tagged), MemberNames(tagged), MemberTexts(e, content, tagged))
  {
    hide Named, Quote, Units;
  }

  lemma MemberKeysSpelled()
    ensures Spells(ENVELOPE_KEYS[0], "id") && Spells(ENVELOPE_KEYS[1], "objectType")
    ensures Spells(ENVELOPE_KEYS[2], "organizationId") && Spells(ENVELOPE_KEYS[3], "classification")
  {
    hide Spells;
    AsciiSpells("id");
    AsciiSpells("objectType");
    AsciiSpells("organizationId");
    AsciiSpells("classification");
  }

  lemma OtherMemberKeysSpelled()
    ensures Spells(ENVELOPE_KEYS[4], "title") && Spells(ENVELOPE_KEYS[5], "lifecycleState")
    ensures Spells(ENVELOPE_KEYS[6], "rowVersion") && Spells(ENVELOPE_KEYS[7], "content")
    ensures Spells(FORMAT_KEY, "format")
  {
    hide Spells;
    AsciiSpells("title");
    AsciiSpells("lifecycleState");
    AsciiSpells("rowVersion");
    AsciiSpells("content");
    AsciiSpells("format");
  }

  lemma MemberKeysAscend(tagged: bool)
    ensures Ascending(SortedMemberKeys(tagged))
  {
    LessAt(ENVELOPE_KEYS[3], ENVELOPE_KEYS[7], 1);
    LessAt(ENVELOPE_KEYS[7], FORMAT_KEY, 0);
    LessAt(FORMAT_KEY, ENVELOPE_KEYS[0], 0);
    LessAt(ENVELOPE_KEYS[7], ENVELOPE_KEYS[0], 0);
    LessAt(ENVELOPE_KEYS[0], ENVELOPE_KEYS[5], 0);
    LessAt(ENVELOPE_KEYS[5], ENVELOPE_KEYS[1], 0);
    LessAt(ENVELOPE_KEYS[1], ENVELOPE_KEYS[2], 1);
    LessAt(ENVELOPE_KEYS[2], ENVELOPE_KEYS[6], 0);
    LessAt(ENVELOPE_KEYS[6], ENVELOPE_KEYS[4], 0);
    hide Less;
  }

  /** The value that is printed and hashed. */
  function MemberValue(e: Envelope, tagged: bool): (v: Value)
    ensures v.Object?
  {
    if tagged then Tagged(MEMBER_V2_TAG, Object(EnvelopeFields(e))) else Object(EnvelopeFields(e))
  }

  lemma MemberValueKeys(e: Envelope, tagged: bool)
    ensures var p := MemberValue(e, tagged).properties;
            && Keys(p) == ENVELOPE_KEYS + (if tagged then [FORMAT_KEY] else [])
            && |ENVELOPE_KEYS| == 8 && Distinct(Keys(p))
            && (forall i :: 0 <= i < 8 ==> p[i] == EnvelopeFields(e)[i])
            && (tagged ==> p[8] == Property(FORMAT_KEY, String(MEMBER_V2_TAG)))
  {
    EnvelopeShape(e);
    EnvelopeKeysDistinct();
    assert forall i :: 0 <= i < 8 ==> Keys(EnvelopeFields(e))[i] == ENVELOPE_KEYS[i];
    hide ENVELOPE_KEYS, FORMAT_KEY, MEMBER_V2_TAG, EnvelopeFields;
  }

  lemma MemberKeysArranged(e: Envelope, tagged: bool, k: Text)
    requires k in Keys(MemberValue(e, tagged).properties)
    ensures k in SortedMemberKeys(tagged)
  {
    MemberValueKeys(e, tagged);
    hide ENVELOPE_KEYS, FORMAT_KEY, MemberValue;
  }

  ghost predicate ScalarEnvelope(e: Envelope) {
    && IsScalarText(e.id) && IsScalarText(e.objectType) && IsScalarText(e.organizationId)
    && IsScalarText(e.classification) && IsScalarText(e.title) && IsScalarText(e.lifecycleState)
    && IsScalarText(e.rowVersion)
  }

  lemma MemberNamesPrinted(e: Envelope, tagged: bool)
    requires ScalarEnvelope(e)
    ensures var v := MemberValue(e, tagged);
            && PrintsField(v, ENVELOPE_KEYS[0], "id", Quote(e.id))
            && PrintsField(v, ENVELOPE_KEYS[1], "objectType", Quote(e.objectType))
            && PrintsField(v, ENVELOPE_KEYS[2], "organizationId", Quote(e.organizationId))
            && PrintsField(v, ENVELOPE_KEYS[3], "classification", Quote(e.classification))
  {
    var v := MemberValue(e, tagged);
    MemberKeysSpelled();
    MemberValueKeys(e, tagged);
    hide ENVELOPE_KEYS, FORMAT_KEY, MEMBER_V2_TAG, Spells, Quote, PrintsField, Keys, Distinct, MemberValue;
    FieldAt(v, 0, "id", Quote(e.id));
    FieldAt(v, 1, "objectType", Quote(e.objectType));
    FieldAt(v, 2, "organizationId", Quote(e.organizationId));
    FieldAt(v, 3, "classification", Quote(e.classification));
  }

  lemma MemberRestPrinted(e: Envelope, content: Text, tagged: bool)
    requires ScalarEnvelope(e) && e.content != Undefined && Print(e.content, ENVELOPE_KEYS[7]) == Ok(content)
    ensures var v := MemberValue(e, tagged);
            && PrintsField(v, ENVELOPE_KEYS[4], "title", Quote(e.title))
            && PrintsField(v, ENVELOPE_KEYS[5], "lifecycleState", Quote(e.lifecycleState))
            && PrintsField(v, ENVELOPE_KEYS[6], "rowVersion", Quote(e.rowVersion))
            && PrintsField(v, ENVELOPE_KEYS[7], "content", content)
  {
    var v := MemberValue(e, tagged);
    OtherMemberKeysSpelled();
    MemberValueKeys(e, tagged);
    hide ENVELOPE_KEYS, FORMAT_KEY, MEMBER_V2_TAG, Spells, Quote, PrintsField, Keys, Distinct, MemberValue;
    FieldAt(v, 4, "title", Quote(e.title));
    FieldAt(v, 5, "lifecycleState", Quote(e.lifecycleState));
    FieldAt(v, 6, "rowVersion", Quote(e.rowVersion));
    FieldAt(v, 7, "content", content);
  }

  lemma MemberTagSpelled()
    ensures MEMBER_V2_TAG == Units("kf-master-record-member-v2")
    ensures IsScalarText(MEMBER_V2_TAG)
  {
    ScalarPlain(MEMBER_V2_TAG);
  }

  lemma MemberTagPrinted(e: Envelope)
    ensures PrintsField(MemberValue(e, true), FORMAT_KEY, "format", Quote(MEMBER_V2_TAG))
  {
    var v := MemberValue(e, true);
    OtherMemberKeysSpelled();
    MemberValueKeys(e, true);
    MemberTagSpelled();
    hide ENVELOPE_KEYS, FORMAT_KEY, MEMBER_V2_TAG, Spells, Quote, PrintsField, Keys, Distinct, MemberValue;
    FieldAt(v, 8, "format", Quote(MEMBER_V2_TAG));
  }

  lemma MemberFieldsPrinted(e: Envelope, content: Text, tagged: bool)
    requires ScalarEnvelope(e) && e.content != Undefined && Print(e.content, ENVELOPE_KEYS[7]) == Ok(content)
    ensures PrintsFields(MemberValue(e, tagged), SortedMemberKeys(tagged), MemberNames(tagged), MemberTexts(e, content, tagged))
  {
    hide ENVELOPE_KEYS, FORMAT_KEY, MEMBER_V2_TAG, Quote, PrintsField, MemberValue, Units, ScalarEnvelope, Print;
    var v, K := MemberValue(e, tagged), ENVELOPE_KEYS;
    MemberValueKeys(e, tagged);
    MemberNamesPrinted(e, tagged);
    MemberRestPrinted(e, content, tagged);
    var head, tail := [K[3], K[7]], [K[0], K[5], K[1], K[2], K[6], K[4]];
    var ends := ["id", "lifecycleState", "objectType", "organizationId", "rowVersion", "title"];
    var texts := [Quote(e.id), Quote(e.lifecycleState), Quote(e.objectType), Quote(e.organizationId), Quote(e.rowVersion), Quote(e.title)];
    assert PrintsFields(v, head, ["classification", "content"], [Quote(e.classification), content]);
    assert PrintsFields(v, tail, ends, texts);
    if tagged {
      MemberTagSpelled();
      MemberTagPrinted(e);
      assert PrintsFields(v, [FORMAT_KEY], ["format"], [Quote(MEMBER_V2_TAG)]);
      hide PrintsFields;
      FieldsAdded(v, head, ["classification", "content"], [Quote(e.classification), content], [FORMAT_KEY], ["format"], [Quote(MEMBER_V2_TAG)]);
      FieldsAdded(v, head + [FORMAT_KEY], ["classification", "content"] + ["format"], [Quote(e.classification), content] + [Quote(MEMBER_V2_TAG)],
                  tail, ends, texts);
    } else {
      hide PrintsFields;
      FieldsAdded(v, head, ["classification", "content"], [Quote(e.classification), content], tail, ends, texts);
      assert SortedMemberKeys(false) == head + tail && MemberNames(false) == ["classification", "content"] + ends;
      assert MemberTexts(e, content, false) == [Quote(e.classification), content] + texts;
    }
  }

  lemma {:induction false} MemberPrinted(e: Envelope, content: Text, tagged: bool)
    requires ScalarEnvelope(e) && e.content != Undefined && Print(e.content, ENVELOPE_KEYS[7]) == Ok(content)
    ensures Print(MemberValue(e, tagged), []) == Ok(Braced(MemberParts(e, content, tagged)))
  {
    var v := MemberValue(e, tagged);
    MemberFieldsPrinted(e, content, tagged);
    MemberPartsNamed(e, content, tagged);
    MemberKeysAscend(tagged);
    MemberValueKeys(e, tagged);
    forall k | k in Keys(v.properties) ensures k in SortedMemberKeys(tagged) {
      MemberKeysArranged(e, tagged, k);
    }
    hide *;
    RecordPrinted(v, SortedMemberKeys(tagged), MemberNames(tagged), MemberTexts(e, content, tagged), MemberParts(e, content, tagged));
  }

  lemma SecondVersion()
    ensures NamesVersion(Ascii("v2"))
  {
    assert Decimal(2) == ['2' as int];
    assert Ascii("v2") == ['v' as int] + Decimal(2);
  }

  lemma MemberTagJoined()
    ensures var dash := ['-' as int];
            Ascii("kf") + dash + (Ascii("master") + dash + (Ascii("record") + dash + (Ascii("member") + dash + Ascii("v2"))))
            == MEMBER_V2_TAG
  {}

  lemma MemberTagIsTag()
    ensures IsFormatTag(MEMBER_V2_TAG)
  {
    MemberTagJoined();
    SecondVersion();
    assert IsTagWord(Ascii("master")) && IsTagWord(Ascii("record")) && IsTagWord(Ascii("member"));
    hide IsTagWord, NamesVersion, Ascii, MEMBER_V2_TAG, Join;
    var words := [Ascii("master"), Ascii("record"), Ascii("member")];
    JoinFive(Ascii("kf"), Ascii("master"), Ascii("record"), Ascii("member"), Ascii("v2"), '-' as int);
    assert [Ascii("kf")] + words + [Ascii("v2")]
        == [Ascii("kf"), Ascii("master"), Ascii("record"), Ascii("member"), Ascii("v2")];
    TagOfIsTag(MEMBER_V2_TAG, words, Ascii("v2"));
  }

  lemma EnvelopeValues(e: Envelope, tagged: bool)
    ensures var p := MemberValue(e, tagged).properties;
            && |p| >= 8
            && p[0].value == String(e.id) && p[1].value == String(e.objectType)
            && p[2].value == String(e.organizationId) && p[3].value == String(e.classification)
            && p[4].value == String(e.title) && p[5].value == String(e.lifecycleState)
            && p[6].value == String(e.rowVersion) && p[7].value == e.content
  {
    hide ENVELOPE_KEYS, FORMAT_KEY, MEMBER_V2_TAG;
  }

  lemma EnvelopeCanonicalizable(e: Envelope, tagged: bool)
    requires e.content != Undefined && Canonicalizable(MemberValue(e, tagged))
    ensures ScalarEnvelope(e) && Canonicalizable(e.content)
  {
    EnvelopeValues(e, tagged);
    hide MemberValue, Canonicalizable, IsScalarText;
    var v := MemberValue(e, tagged);
    FieldCanonicalizable(v, 0, String(e.id));
    FieldCanonicalizable(v, 1, String(e.objectType));
    FieldCanonicalizable(v, 2, String(e.organizationId));
    FieldCanonicalizable(v, 3, String(e.classification));
    FieldCanonicalizable(v, 4, String(e.title));
    FieldCanonicalizable(v, 5, String(e.lifecycleState));
    FieldCanonicalizable(v, 6, String(e.rowVersion));
    FieldCanonicalizable(v, 7, e.content);
    TextCanonicalizable(e.id);
    TextCanonicalizable(e.objectType);
    TextCanonicalizable(e.organizationId);
    TextCanonicalizable(e.classification);
    TextCanonicalizable(e.title);
    TextCanonicalizable(e.lifecycleState);
    TextCanonicalizable(e.rowVersion);
  }

  lemma MemberPreimageIs(e: Envelope, format: MemberFormat)
    ensures MemberPreimage(e, format) == CanonicalBytes(MemberValue(e, format == MemberV2))
  {
    EnvelopeShape(e);
    MemberTagIsTag();
    hide EnvelopeFields, FORMAT_KEY, MEMBER_V2_TAG, IsFormatTag, CanonicalBytes;
  }

  lemma ContentKey()
    ensures |ENVELOPE_KEYS| == 8 && ENVELOPE_KEYS[7] == Units("content")
  {}

  lemma MemberWellFormed(e: Envelope, tagged: bool)
    requires WellFormed(e.content)
    ensures WellFormed(MemberValue(e, tagged))
  {
    hide ENVELOPE_KEYS, FORMAT_KEY, EnvelopeFields, MEMBER_V2_TAG;
    EnvelopeShape(e);
    if tagged {
      TaggedWellFormed(MEMBER_V2_TAG, Object(EnvelopeFields(e)));
    }
  }

  /** What is hashed for a member under each format, and when there is such a thing. */
  lemma {:induction false} MemberPreimageText(e: Envelope, format: MemberFormat)
    requires WellFormed(e.content) && e.content != Undefined
    ensures MemberPreimage(e, format).Ok? <==> ScalarEnvelope(e) && Canonicalizable(e.content)
    ensures MemberPreimage(e, format).Ok? ==>
              && Print(e.content, Units("content")).Ok?
              && MemberPreimage(e, format).value
                 == Encode(Braced(MemberParts(e, Print(e.content, Units("content")).value, format == MemberV2)))
  {
    var tagged := format == MemberV2;
    hide ENVELOPE_KEYS, Units, MemberParts, Encode, Braced, IsScalarText, WellFormed, ScalarEnvelope, Print, Canonicalizable, MemberPreimage, MemberValue;
    ContentKey();
    MemberPreimageIs(e, format);
    MemberWellFormed(e, tagged);
    AcceptsExactly(e.content, ENVELOPE_KEYS[7]);
    AcceptsExactly(MemberValue(e, tagged), []);
    if Canonicalizable(MemberValue(e, tagged)) {
      EnvelopeCanonicalizable(e, tagged);
    }
    if ScalarEnvelope(e) && Canonicalizable(e.content) {
      MemberPrinted(e, Print(e.content, ENVELOPE_KEYS[7]).value, tagged);
    }
  }

  // --- Checkpoint leaves ----------------------------------------------------------------------

  ghost predicate ScalarOrNone(text: Option<Text>) {
    text.Some? ==> IsScalarText(text.value)
  }

  ghost predicate ScalarEvent(e: AuditEntry) {
    && ScalarAct(e.act) && IsScalarText(e.seqNo) && IsScalarText(e.id) && IsScalarText(e.recordedAt)
    && IsScalarText(e.prevDigest) && IsScalarText(e.digest)
    && ScalarOrNone(e.objectId) && ScalarOrNone(e.requestId) && ScalarOrNone(e.reason)
  }

  /** The fields of a leaf, in the order printed; object identifiers stay in the order recorded. */
  function LeafFields(e: AuditEntry): seq<Text> {
    [ Named("acting_role_id", Quote(e.act.actingRoleId)),
      Named("action_id", Quote(e.act.actionId)),
      Named("action_type", Quote(e.act.actionType)),
      Named("actor_id", Quote(e.act.actorId)),
      Named("after_digest", QuotedOrNull(e.act.afterDigest)),
      Named("before_digest", QuotedOrNull(e.act.beforeDigest)),
      Named("digest", Quote(e.digest)),
      Named("effective_at", Quote(e.act.effectiveAt)),
      Named("id", Quote(e.id)),
      Named("object_id", QuotedOrNull(e.objectId)),
      Named("object_ids", QuotedList(e.act.objectIds)),
      Named("prev_digest", Quote(e.prevDigest)),
      Named("reason", QuotedOrNull(e.reason)),
      Named("recorded_at", Quote(e.recordedAt)),
      Named("request_id", QuotedOrNull(e.requestId)),
      Named("seq", Quote(e.seqNo)) ]
  }

  lemma LeafKeysSpelled()
    ensures Spells(LEAF_KEYS[0], "seq")
    ensures Spells(LEAF_KEYS[1], "id")
    ensures Spells(LEAF_KEYS[2], "action_id")
    ensures Spells(LEAF_KEYS[3], "actor_id")
    ensures Spells(LEAF_KEYS[4], "acting_role_id")
    ensures Spells(LEAF_KEYS[5], "action_type")
    ensures Spells(LEAF_KEYS[6], "object_id")
    ensures Spells(LEAF_KEYS[7], "object_ids")
  {
    hide Spells;
    AsciiSpells("seq");
    AsciiSpells("id");
    AsciiSpells("action_id");
    AsciiSpells("actor_id");
    AsciiSpells("acting_role_id");
    AsciiSpells("action_type");
    AsciiSpells("object_id");
    AsciiSpells("object_ids");
  }

  lemma OtherLeafKeysSpelled()
    ensures Spells(LEAF_KEYS[8], "recorded_at")
    ensures Spells(LEAF_KEYS[9], "effective_at")
    ensures Spells(LEAF_KEYS[10], "request_id")
    ensures Spells(LEAF_KEYS[11], "reason")
    ensures Spells(LEAF_KEYS[12], "before_digest")
    ensures Spells(LEAF_KEYS[13], "after_digest")
    ensures Spells(LEAF_KEYS[14], "prev_digest")
    ensures Spells(LEAF_KEYS[15], "digest")
  {
    hide Spells;
    AsciiSpells("recorded_at");
    AsciiSpells("effective_at");
    AsciiSpells("request_id");
    AsciiSpells("reason");
    AsciiSpells("before_digest");
    AsciiSpells("after_digest");
    AsciiSpells("prev_digest");
    AsciiSpells("digest");
  }

  function SortedLeafKeys(): (keys: seq<Text>)
    ensures |keys| == 16
  {
    LeafKeysDistinct();
    [LEAF_KEYS[4], LEAF_KEYS[2], LEAF_KEYS[5], LEAF_KEYS[3], LEAF_KEYS[13], LEAF_KEYS[12],
     LEAF_KEYS[15], LEAF_KEYS[9], LEAF_KEYS[1], LEAF_KEYS[6], LEAF_KEYS[7], LEAF_KEYS[14],
     LEAF_KEYS[11], LEAF_KEYS[8], LEAF_KEYS[10], LEAF_KEYS[0]]
  }

  lemma FirstLeafKeysAscend()
    ensures forall i :: 0 <= i < 5 ==> Less(SortedLeafKeys()[i], SortedLeafKeys()[i + 1])
  {
    LeafKeysDistinct();
    LessAt(LEAF_KEYS[4], LEAF_KEYS[2], 4);
    LessAt(LEAF_KEYS[2], LEAF_KEYS[5], 7);
    LessAt(LEAF_KEYS[5], LEAF_KEYS[3], 3);
    LessAt(LEAF_KEYS[3], LEAF_KEYS[13], 1);
    LessAt(LEAF_KEYS[13], LEAF_KEYS[12], 0);
    hide Less, LEAF_KEYS;
  }

  lemma MiddleLeafKeysAscend()
    ensures forall i :: 5 <= i < 10 ==> Less(SortedLeafKeys()[i], SortedLeafKeys()[i + 1])
  {
    LeafKeysDistinct();
    LessAt(LEAF_KEYS[12], LEAF_KEYS[15], 0);
    LessAt(LEAF_KEYS[15], LEAF_KEYS[9], 0);
    LessAt(LEAF_KEYS[9], LEAF_KEYS[1], 0);
    LessAt(LEAF_KEYS[1], LEAF_KEYS[6], 0);
    LessAt(LEAF_KEYS[6], LEAF_KEYS[7], 9);
    hide Less, LEAF_KEYS;
  }

  lemma LastLeafKeysAscend()
    ensures forall i :: 10 <= i < 15 ==> Less(SortedLeafKeys()[i], SortedLeafKeys()[i + 1])
  {
    LeafKeysDistinct();
    LessAt(LEAF_KEYS[7], LEAF_KEYS[14], 0);
    LessAt(LEAF_KEYS[14], LEAF_KEYS[11], 0);
    LessAt(LEAF_KEYS[11], LEAF_KEYS[8], 2);
    LessAt(LEAF_KEYS[8], LEAF_KEYS[10], 2);
    LessAt(LEAF_KEYS[10], LEAF_KEYS[0], 0);
    hide Less, LEAF_KEYS;
  }

  lemma LeafFieldAt(e: AuditEntry, i: nat, name: string, value: Text)
    requires i < 16 && Spells(LEAF_KEYS[i], name)
    requires Print(LeafParts(e)[i], LEAF_KEYS[i]) == Ok(value)
    ensures PrintsField(LeafValue(e), LEAF_KEYS[i], name, value)
  {
    LeafWellFormed(e);
    LeafPartWellFormed(e, i);
    var v := LeafValue(e);
    assert Distinct(Keys(v.properties));
    hide LEAF_KEYS, LeafParts, LeafValue, Print, Spells, PrintsField;
    FieldAt(v, i, name, value);
  }

  lemma LeafTextAt(e: AuditEntry, i: nat, name: string, text: Text)
    requires i < 16 && Spells(LEAF_KEYS[i], name)
    requires LeafParts(e)[i] == String(text) && IsScalarText(text)
    ensures PrintsField(LeafValue(e), LEAF_KEYS[i], name, Quote(text))
  {
    hide LEAF_KEYS, LeafParts, LeafValue, Spells, PrintsField;
    LeafFieldAt(e, i, name, Quote(text));
  }

  lemma LeafOptionAt(e: AuditEntry, i: nat, name: string, text: Option<Text>)
    requires i < 16 && Spells(LEAF_KEYS[i], name)
    requires LeafParts(e)[i] == Nullable(text) && ScalarOrNone(text)
    ensures PrintsField(LeafValue(e), LEAF_KEYS[i], name, QuotedOrNull(text))
  {
    hide LEAF_KEYS, LeafParts, LeafValue, Spells, PrintsField;
    LeafKeysDistinct();
    NullablePrinted(text, LEAF_KEYS[i]);
    LeafFieldAt(e, i, name, QuotedOrNull(text));
  }

  lemma LeafListAt(e: AuditEntry, i: nat, name: string, texts: seq<Text>)
    requires i < 16 && Spells(LEAF_KEYS[i], name)
    requires LeafParts(e)[i] == Strings(texts) && forall j :: 0 <= j < |texts| ==> IsScalarText(texts[j])
    ensures PrintsField(LeafValue(e), LEAF_KEYS[i], name, QuotedList(texts))
  {
    hide LEAF_KEYS, LeafParts, LeafValue, Spells, PrintsField;
    LeafKeysDistinct();
    ListPrinted(texts, LEAF_KEYS[i]);
    LeafFieldAt(e, i, name, QuotedList(texts));
  }

  lemma LeafPartTexts(e: AuditEntry)
    ensures var p := LeafParts(e);
            && p[0] == String(e.seqNo) && p[1] == String(e.id) && p[2] == String(e.act.actionId)
            && p[3] == String(e.act.actorId) && p[4] == String(e.act.actingRoleId)
            && p[5] == String(e.act.actionType) && p[8] == String(e.recordedAt)
            && p[9] == String(e.act.effectiveAt) && p[14] == String(e.prevDigest) && p[15] == String(e.digest)
  {
    hide Strings, Nullable;
  }

  lemma LeafPartRest(e: AuditEntry)
    ensures var p := LeafParts(e);
            && p[6] == Nullable(e.objectId) && p[7] == Strings(e.act.objectIds) && p[10] == Nullable(e.requestId)
            && p[11] == Nullable(e.reason) && p[12] == Nullable(e.act.beforeDigest)
            && p[13] == Nullable(e.act.afterDigest)
  {
    hide Strings, Nullable;
  }

  lemma ScalarEventMeans(e: AuditEntry)
    requires ScalarEvent(e)
    ensures IsScalarText(e.seqNo) && IsScalarText(e.id) && IsScalarText(e.act.actionId)
    ensures IsScalarText(e.act.actorId) && IsScalarText(e.act.actingRoleId) && IsScalarText(e.act.actionType)
    ensures IsScalarText(e.recordedAt) && IsScalarText(e.act.effectiveAt)
    ensures IsScalarText(e.prevDigest) && IsScalarText(e.digest)
    ensures ScalarOrNone(e.objectId) && ScalarOrNone(e.requestId) && ScalarOrNone(e.reason)
    ensures ScalarOrNone(e.act.beforeDigest) && ScalarOrNone(e.act.afterDigest)
    ensures forall i :: 0 <= i < |e.act.objectIds| ==> IsScalarText(e.act.objectIds[i])
  {
    hide IsScalarText;
  }

  lemma FirstLeafFields(e: AuditEntry)
    requires ScalarEvent(e)
    ensures |LEAF_KEYS| == 16
    ensures PrintsFields(LeafValue(e), [LEAF_KEYS[4], LEAF_KEYS[2], LEAF_KEYS[5], LEAF_KEYS[3]],
                         ["acting_role_id", "action_id", "action_type", "actor_id"],
                         [Quote(e.act.actingRoleId), Quote(e.act.actionId), Quote(e.act.actionType), Quote(e.act.actorId)])
  {
    hide LEAF_KEYS, LeafValue, LeafParts, Spells, PrintsField, Quote, QuotedOrNull, QuotedList, IsScalarText, Strings, Nullable, ScalarEvent, ScalarOrNone;
    LeafKeysDistinct();
    LeafKeysSpelled();
    OtherLeafKeysSpelled();
    LeafPartTexts(e);
    LeafPartRest(e);
    ScalarEventMeans(e);
    LeafTextAt(e, 4, "acting_role_id", e.act.actingRoleId);
    LeafTextAt(e, 2, "action_id", e.act.actionId);
    LeafTextAt(e, 5, "action_type", e.act.actionType);
    LeafTextAt(e, 3, "actor_id", e.act.actorId);
  }

  lemma SecondLeafFields(e: AuditEntry)
    requires ScalarEvent(e)
    ensures |LEAF_KEYS| == 16
    ensures PrintsFields(LeafValue(e), [LEAF_KEYS[13], LEAF_KEYS[12], LEAF_KEYS[15], LEAF_KEYS[9]],
                         ["after_digest", "before_digest", "digest", "effective_at"],
                         [QuotedOrNull(e.act.afterDigest), QuotedOrNull(e.act.beforeDigest), Quote(e.digest), Quote(e.act.effectiveAt)])
  {
    hide LEAF_KEYS, LeafValue, LeafParts, Spells, PrintsField, Quote, QuotedOrNull, QuotedList, IsScalarText, Strings, Nullable, ScalarEvent, ScalarOrNone;
    LeafKeysDistinct();
    LeafKeysSpelled();
    OtherLeafKeysSpelled();
    LeafPartTexts(e);
    LeafPartRest(e);
    ScalarEventMeans(e);
    LeafOptionAt(e, 13, "after_digest", e.act.afterDigest);
    LeafOptionAt(e, 12, "before_digest", e.act.beforeDigest);
    LeafTextAt(e, 15, "digest", e.digest);
    LeafTextAt(e, 9, "effective_at", e.act.effectiveAt);
  }

  lemma ThirdLeafFields(e: AuditEntry)
    requires ScalarEvent(e)
    ensures |LEAF_KEYS| == 16
    ensures PrintsFields(LeafValue(e), [LEAF_KEYS[1], LEAF_KEYS[6], LEAF_KEYS[7], LEAF_KEYS[14]],
                         ["id", "object_id", "object_ids", "prev_digest"],
                         [Quote(e.id), QuotedOrNull(e.objectId), QuotedList(e.act.objectIds), Quote(e.prevDigest)])
  {
    hide LEAF_KEYS, LeafValue, LeafParts, Spells, PrintsField, Quote, QuotedOrNull, QuotedList, IsScalarText, Strings, Nullable, ScalarEvent, ScalarOrNone;
    LeafKeysDistinct();
    LeafKeysSpelled();
    OtherLeafKeysSpelled();
    LeafPartTexts(e);
    LeafPartRest(e);
    ScalarEventMeans(e);
    LeafTextAt(e, 1, "id", e.id);
    LeafOptionAt(e, 6, "object_id", e.objectId);
    LeafListAt(e, 7, "object_ids", e.act.objectIds);
    LeafTextAt(e, 14, "prev_digest", e.prevDigest);
  }

  lemma FourthLeafFields(e: AuditEntry)
    requires ScalarEvent(e)
    ensures |LEAF_KEYS| == 16
    ensures PrintsFields(LeafValue(e), [LEAF_KEYS[11], LEAF_KEYS[8], LEAF_KEYS[10], LEAF_KEYS[0]],
                         ["reason", "recorded_at", "request_id", "seq"],
                         [QuotedOrNull(e.reason), Quote(e.recordedAt), QuotedOrNull(e.requestId), Quote(e.seqNo)])
  {
    hide LEAF_KEYS, LeafValue, LeafParts, Spells, PrintsField, Quote, QuotedOrNull, QuotedList, IsScalarText, Strings, Nullable, ScalarEvent, ScalarOrNone;
    LeafKeysDistinct();
    LeafKeysSpelled();
    OtherLeafKeysSpelled();
    LeafPartTexts(e);
    LeafPartRest(e);
    ScalarEventMeans(e);
    LeafOptionAt(e, 11, "reason", e.reason);
    LeafTextAt(e, 8, "recorded_at", e.recordedAt);
    LeafOptionAt(e, 10, "request_id", e.requestId);
    LeafTextAt(e, 0, "seq", e.seqNo);
  }

  function LeafNames(): (names: seq<string>) {
    ["acting_role_id", "action_id", "action_type", "actor_id"] +
    ["after_digest", "before_digest", "digest", "effective_at"] +
    ["id", "object_id", "object_ids", "prev_digest"] +
    ["reason", "recorded_at", "request_id", "seq"]
  }

  function LeafTexts(e: AuditEntry): (values: seq<Text>) {
    [Quote(e.act.actingRoleId), Quote(e.act.actionId), Quote(e.act.actionType), Quote(e.act.actorId)] +
    [QuotedOrNull(e.act.afterDigest), QuotedOrNull(e.act.beforeDigest), Quote(e.digest), Quote(e.act.effectiveAt)] +
    [Quote(e.id), QuotedOrNull(e.objectId), QuotedList(e.act.objectIds), Quote(e.prevDigest)] +
    [QuotedOrNull(e.reason), Quote(e.recordedAt), QuotedOrNull(e.requestId), Quote(e.seqNo)]
  }

  lemma LeafFieldsNamed(e: AuditEntry)
    ensures AreFields(LeafFields(e), LeafNames(), LeafTexts(e))
  {
    hide Named, Quote, QuotedOrNull, QuotedList;
  }

  lemma LeafFieldsPrinted(e: AuditEntry)
    requires ScalarEvent(e)
    ensures PrintsFields(LeafValue(e), SortedLeafKeys(), LeafNames(), LeafTexts(e))
  {
    hide LEAF_KEYS, LeafValue, PrintsField, PrintsFields, Quote, QuotedOrNull, QuotedList, ScalarEvent;
    FirstLeafFields(e);
    SecondLeafFields(e);
    ThirdLeafFields(e);
    FourthLeafFields(e);
    var v := LeafValue(e);
    var k1, k2, k3, k4 := [LEAF_KEYS[4], LEAF_KEYS[2], LEAF_KEYS[5], LEAF_KEYS[3]],
      [LEAF_KEYS[13], LEAF_KEYS[12], LEAF_KEYS[15], LEAF_KEYS[9]],
      [LEAF_KEYS[1], LEAF_KEYS[6], LEAF_KEYS[7], LEAF_KEYS[14]],
      [LEAF_KEYS[11], LEAF_KEYS[8], LEAF_KEYS[10], LEAF_KEYS[0]];
    var n1, n2, n3, n4 := ["acting_role_id", "action_id", "action_type", "actor_id"],
      ["after_digest", "before_digest", "digest", "effective_at"],
      ["id", "object_id", "object_ids", "prev_digest"],
      ["reason", "recorded_at", "request_id", "seq"];
    var t1, t2, t3, t4 := [Quote(e.act.actingRoleId), Quote(e.act.actionId), Quote(e.act.actionType), Quote(e.act.actorId)],
      [QuotedOrNull(e.act.afterDigest), QuotedOrNull(e.act.beforeDigest), Quote(e.digest), Quote(e.act.effectiveAt)],
      [Quote(e.id), QuotedOrNull(e.objectId), QuotedList(e.act.objectIds), Quote(e.prevDigest)],
      [QuotedOrNull(e.reason), Quote(e.recordedAt), QuotedOrNull(e.requestId), Quote(e.seqNo)];
    FieldsAdded(v, k1, n1, t1, k2, n2, t2);
    FieldsAdded(v, k1 + k2, n1 + n2, t1 + t2, k3, n3, t3);
    FieldsAdded(v, k1 + k2 + k3, n1 + n2 + n3, t1 + t2 + t3, k4, n4, t4);
    assert SortedLeafKeys() == k1 + k2 + k3 + k4;
  }

  lemma LeafKeysArranged(e: AuditEntry, k: Text)
    requires k in Keys(LeafValue(e).properties)
    ensures k in SortedLeafKeys()
  {
    LeafKeysDistinct();
    hide LEAF_KEYS;
    var i :| 0 <= i < 16 && Keys(LeafValue(e).properties)[i] == k;
    assert k == LEAF_KEYS[i];
  }

  lemma {:induction false} LeafPrinted(e: AuditEntry)
    requires ScalarEvent(e)
    ensures Print(LeafValue(e), []) == Ok(Braced(LeafFields(e)))
  {
    var v := LeafValue(e);
    LeafFieldsPrinted(e);
    LeafFieldsNamed(e);
    FirstLeafKeysAscend();
    MiddleLeafKeysAscend();
    LastLeafKeysAscend();
    assert Ascending(SortedLeafKeys()) by {
      hide Less, SortedLeafKeys;
    }
    LeafWellFormed(e);
    assert Distinct(Keys(v.properties));
    forall k | k in Keys(v.properties) ensures k in SortedLeafKeys() {
      LeafKeysArranged(e, k);
    }
    hide *;
    RecordPrinted(v, SortedLeafKeys(), LeafNames(), LeafTexts(e), LeafFields(e));
  }

  lemma LeafPartCanonicalizable(e: AuditEntry, i: nat)
    requires i < 16 && Canonicalizable(LeafValue(e))
    ensures Canonicalizable(LeafParts(e)[i])
  {
    LeafPartWellFormed(e, i);
    hide Canonicalizable, LeafParts, LEAF_KEYS;
    FieldCanonicalizable(LeafValue(e), i, LeafParts(e)[i]);
  }

  lemma LeafTextScalar(e: AuditEntry, i: nat, text: Text)
    requires i < 16 && Canonicalizable(LeafValue(e)) && LeafParts(e)[i] == String(text)
    ensures IsScalarText(text)
  {
    hide LeafParts, LeafValue, LEAF_KEYS, IsScalarText;
    LeafPartCanonicalizable(e, i);
  }

  lemma LeafOptionScalar(e: AuditEntry, i: nat, text: Option<Text>)
    requires i < 16 && Canonicalizable(LeafValue(e)) && LeafParts(e)[i] == Nullable(text)
    ensures ScalarOrNone(text)
  {
    hide LeafParts, LeafValue, LEAF_KEYS, IsScalarText;
    LeafPartCanonicalizable(e, i);
    NullableCanonicalizable(text);
  }

  lemma EventTextsScalar(e: AuditEntry)
    requires Canonicalizable(LeafValue(e))
    ensures IsScalarText(e.seqNo) && IsScalarText(e.id) && IsScalarText(e.act.actionId)
    ensures IsScalarText(e.act.actorId) && IsScalarText(e.act.actingRoleId) && IsScalarText(e.act.actionType)
    ensures IsScalarText(e.recordedAt) && IsScalarText(e.act.effectiveAt)
    ensures IsScalarText(e.prevDigest) && IsScalarText(e.digest)
  {
    hide *;
    LeafPartTexts(e);
    LeafTextScalar(e, 0, e.seqNo);
    LeafTextScalar(e, 1, e.id);
    LeafTextScalar(e, 2, e.act.actionId);
    LeafTextScalar(e, 3, e.act.actorId);
    LeafTextScalar(e, 4, e.act.actingRoleId);
    LeafTextScalar(e, 5, e.act.actionType);
    LeafTextScalar(e, 8, e.recordedAt);
    LeafTextScalar(e, 9, e.act.effectiveAt);
    LeafTextScalar(e, 14, e.prevDigest);
    LeafTextScalar(e, 15, e.digest);
  }

  lemma EventCanonicalizable(e: AuditEntry)
    requires Canonicalizable(LeafValue(e))
    ensures ScalarEvent(e)
  {
    EventTextsScalar(e);
    hide LeafValue, LEAF_KEYS, Canonicalizable, IsScalarText, Strings, Nullable;
    LeafOptionScalar(e, 6, e.objectId);
    LeafOptionScalar(e, 10, e.requestId);
    LeafOptionScalar(e, 11, e.reason);
    LeafOptionScalar(e, 12, e.act.beforeDigest);
    LeafOptionScalar(e, 13, e.act.afterDigest);
    LeafPartCanonicalizable(e, 7);
    AllItemsCanonicalizable(e.act.objectIds);
  }

  lemma {:induction false} AllItemsCanonicalizable(texts: seq<Text>)
    requires Canonicalizable(Strings(texts))
    ensures forall i :: 0 <= i < |texts| ==> IsScalarText(texts[i])
  {
    hide *;
    forall i | 0 <= i < |texts| ensures IsScalarText(texts[i]) {
      ItemCanonicalizable(texts, i);
    }
  }

  /** What a leaf commits to, byte for byte, and which events have a leaf. */
  lemma {:induction false} LeafBytesText(e: AuditEntry)
    ensures LeafBytes(e).Ok? <==> ScalarEvent(e)
    ensures LeafBytes(e).Ok? ==> LeafBytes(e).value == Encode(Braced(LeafFields(e)))
  {
    hide LeafValue, Print, LeafFields, Encode, Braced, ScalarEvent, Canonicalizable, WellFormed;
    LeafWellFormed(e);
    AcceptsExactly(LeafValue(e), []);
    if ScalarEvent(e) {
      LeafPrinted(e);
    }
    if Canonicalizable(LeafValue(e)) {
      EventCanonicalizable(e);
    }
  }
}
