/**
 The content digest of one master-record member (packages/documents/src/master-record.ts): what it
 commits to, under each of its two formats.
 */
module MemberDigests {
  import opened Texts
  import opened Outcomes
  import opened Hashes
  import opened Canonical
  import opened CanonicalFaithful
  import opened Digests

  datatype MemberFormat = MemberV1 | MemberV2

  /** `masterRecordMemberFormat`: an unknown manifest format is refused. */
  function FormatOf(manifestFormat: Option<Text>): Option<MemberFormat> {
    if manifestFormat == Some(Ascii("kf-master-record-v1")) then Some(MemberV1)
    else if manifestFormat == Some(Ascii("kf-master-record-v2")) then Some(MemberV1)
    else if manifestFormat == Some(Ascii("kf-master-record-v3")) then Some(MemberV2)
    else None
  }

  /** The manifest formats by name: the first two digest members as version 1 does, the third as version 2. */
  lemma FormatsByName(manifestFormat: Option<Text>)
    ensures FormatOf(manifestFormat) == Some(MemberV1) <==>
            manifestFormat == Some(Ascii("kf-master-record-v1")) || manifestFormat == Some(Ascii("kf-master-record-v2"))
    ensures FormatOf(manifestFormat) == Some(MemberV2) <==> manifestFormat == Some(Ascii("kf-master-record-v3"))
  {
    assert Ascii("kf-master-record-v1")[18] != Ascii("kf-master-record-v3")[18];
    assert Ascii("kf-master-record-v2")[18] != Ascii("kf-master-record-v3")[18];
  }

  /** A record's envelope, its row version and its payload. */
  datatype Envelope = Envelope(
    id: Text,
    objectType: Text,
    organizationId: Text,
    classification: Text,
    title: Text,
    lifecycleState: Text,
    rowVersion: Text,
    content: Value)

  const ENVELOPE_KEYS: seq<Text> := [
    Ascii("id"), Ascii("objectType"), Ascii("organizationId"), Ascii("classification"),
    Ascii("title"), Ascii("lifecycleState"), Ascii("rowVersion"), Ascii("content")]

  const MEMBER_V2_TAG: Text := Ascii("kf-master-record-member-v2")

  function EnvelopeFields(e: Envelope): (fields: seq<Property>)
    ensures |fields| == 8
  {
    [ Property(ENVELOPE_KEYS[0], String(e.id)),
      Property(ENVELOPE_KEYS[1], String(e.objectType)),
      Property(ENVELOPE_KEYS[2], String(e.organizationId)),
      Property(ENVELOPE_KEYS[3], String(e.classification)),
      Property(ENVELOPE_KEYS[4], String(e.title)),
      Property(ENVELOPE_KEYS[5], String(e.lifecycleState)),
      Property(ENVELOPE_KEYS[6], String(e.rowVersion)),
      Property(ENVELOPE_KEYS[7], e.content) ]
  }

  /** The bytes hashed: version 1 carries no format, version 2 names its own. */
  function MemberPreimage(e: Envelope, format: MemberFormat): Result<Bytes, CanonicalizationError> {
    match format
    case MemberV1 => CanonicalBytes(Object(EnvelopeFields(e)))
    case MemberV2 => TaggedPreimage(MEMBER_V2_TAG, Object(EnvelopeFields(e)))
  }

  /** `masterRecordMemberDigest` */
  function MemberDigest(h: Hash, e: Envelope, format: MemberFormat): Printed {
    var bytes :- MemberPreimage(e, format);
    Ok(HexDigest(h, bytes))
  }

  /** One revision of one record: every envelope field, and the same JSON payload. */
  ghost predicate SameRevision(a: Envelope, b: Envelope) {
    a.(content := Null) == b.(content := Null) && Equivalent(a.content, b.content)
  }

  lemma EnvelopeKeysDistinct()
    ensures |ENVELOPE_KEYS| == 8
    ensures Distinct(ENVELOPE_KEYS)
    ensures FORMAT_KEY !in ENVELOPE_KEYS
  {
    assert |ENVELOPE_KEYS[0]| == 2 && |ENVELOPE_KEYS[1]| == 10 && |ENVELOPE_KEYS[2]| == 14 && |ENVELOPE_KEYS[3]| == 14;
    assert |ENVELOPE_KEYS[4]| == 5 && |ENVELOPE_KEYS[5]| == 14 && |ENVELOPE_KEYS[6]| == 10 && |ENVELOPE_KEYS[7]| == 7;
    assert ENVELOPE_KEYS[1][0] == 'o' as int && ENVELOPE_KEYS[6][0] == 'r' as int;
    assert ENVELOPE_KEYS[2][0] == 'o' as int && ENVELOPE_KEYS[3][0] == 'c' as int && ENVELOPE_KEYS[5][0] == 'l' as int;
    assert |FORMAT_KEY| == 6;
  }

  lemma EnvelopeShape(e: Envelope)
    ensures Keys(EnvelopeFields(e)) == ENVELOPE_KEYS
    ensures Distinct(Keys(EnvelopeFields(e))) && FORMAT_KEY !in Keys(EnvelopeFields(e))
    ensures WellFormed(e.content) ==> WellFormed(Object(EnvelopeFields(e)))
  {
    EnvelopeKeysDistinct();
    hide ENVELOPE_KEYS, FORMAT_KEY;
    var p := EnvelopeFields(e);
    assert forall i :: 0 <= i < 8 ==> Keys(p)[i] == ENVELOPE_KEYS[i];
    assert forall i :: 0 <= i < 7 ==> p[i].value.String?;
  }

  lemma TextsAt(p: seq<Property>, q: seq<Property>, i: nat, s: Text, t: Text)
    requires i < |p| && i < |q| && p[i].value == String(s) && q[i].value == String(t)
    ensures FieldAgrees(p, q, i) <==> s == t
  {}

  lemma FieldsAgree(a: Envelope, b: Envelope)
    ensures (forall i :: 0 <= i < 8 ==> FieldAgrees(EnvelopeFields(a), EnvelopeFields(b), i)) <==> SameRevision(a, b)
  {
    var p, q := EnvelopeFields(a), EnvelopeFields(b);
    hide ENVELOPE_KEYS, Equivalent;
    assert FieldAgrees(p, q, 7) <==> Equivalent(a.content, b.content);
    hide FieldAgrees;
    TextsAt(p, q, 0, a.id, b.id);
    TextsAt(p, q, 1, a.objectType, b.objectType);
    TextsAt(p, q, 2, a.organizationId, b.organizationId);
    TextsAt(p, q, 3, a.classification, b.classification);
    TextsAt(p, q, 4, a.title, b.title);
    TextsAt(p, q, 5, a.lifecycleState, b.lifecycleState);
    TextsAt(p, q, 6, a.rowVersion, b.rowVersion);
  }

  /** Two envelopes print alike exactly when they are one revision. */
  lemma {:induction false} EnvelopesAgree(a: Envelope, b: Envelope)
    ensures Equivalent(Object(EnvelopeFields(a)), Object(EnvelopeFields(b))) <==> SameRevision(a, b)
  {
    hide *;
    EnvelopeShape(a);
    EnvelopeShape(b);
    RecordsAgree(EnvelopeFields(a), EnvelopeFields(b));
    FieldsAgree(a, b);
  }

  lemma UntaggedFields(e: Envelope)
    ensures FORMAT_KEY !in DefinedKeys(EnvelopeFields(e))
  {
    EnvelopeShape(e);
    var p := EnvelopeFields(e);
    hide ENVELOPE_KEYS, FORMAT_KEY, EnvelopeFields;
    assert forall i :: 0 <= i < |p| ==> Keys(p)[i] == p[i].key;
  }

  lemma BareMember(h: Hash, e: Envelope)
    requires MemberPreimage(e, MemberV1).Ok?
    ensures var v := Object(EnvelopeFields(e));
            && Print(v, []).Ok?
            && CanonicalBytes(v) == MemberPreimage(e, MemberV1)
            && Digest(h, v) == MemberDigest(h, e, MemberV1)
  {
    hide Print, EnvelopeFields, HexDigest;
  }

  lemma TaggedMember(h: Hash, e: Envelope)
    requires MemberPreimage(e, MemberV2).Ok?
    ensures var v := Object(EnvelopeFields(e));
            && TaggedPreimage(MEMBER_V2_TAG, v) == MemberPreimage(e, MemberV2)
            && TaggedDigest(h, MEMBER_V2_TAG, v) == MemberDigest(h, e, MemberV2)
  {
    hide TaggedPreimage, EnvelopeFields, HexDigest;
  }

  /** The two formats never share a digest, unless their preimages collide. */
  lemma {:induction false} FormatsSeparate(h: Hash, a: Envelope, b: Envelope)
    requires WellFormed(a.content) && WellFormed(b.content)
    requires MemberPreimage(a, MemberV1).Ok? && MemberPreimage(b, MemberV2).Ok?
    requires MemberDigest(h, a, MemberV1).value == MemberDigest(h, b, MemberV2).value
    ensures CollisionAmong(h, {MemberPreimage(a, MemberV1).value, MemberPreimage(b, MemberV2).value})
  {
    hide *;
    var v, w := Object(EnvelopeFields(a)), Object(EnvelopeFields(b));
    EnvelopeShape(a);
    EnvelopeShape(b);
    UntaggedFields(a);
    BareMember(h, a);
    TaggedMember(h, b);
    TaggedNeverBare(h, MEMBER_V2_TAG, w, v);
    assert {CanonicalBytes(v).value, TaggedPreimage(MEMBER_V2_TAG, w).value}
        == {TaggedPreimage(MEMBER_V2_TAG, w).value, CanonicalBytes(v).value};
  }

  lemma FormatsApart(h: Hash, a: Envelope, f: MemberFormat, b: Envelope, g: MemberFormat)
    requires WellFormed(a.content) && WellFormed(b.content) && f != g
    requires MemberPreimage(a, f).Ok? && MemberPreimage(b, g).Ok?
    requires MemberDigest(h, a, f).value == MemberDigest(h, b, g).value
    ensures CollisionAmong(h, {MemberPreimage(a, f).value, MemberPreimage(b, g).value})
  {
    hide *;
    if f == MemberV1 {
      FormatsSeparate(h, a, b);
    } else {
      FormatsSeparate(h, b, a);
      assert {MemberPreimage(a, f).value, MemberPreimage(b, g).value}
          == {MemberPreimage(b, g).value, MemberPreimage(a, f).value};
    }
  }

  lemma OneFormat(h: Hash, a: Envelope, b: Envelope, f: MemberFormat)
    requires WellFormed(a.content) && WellFormed(b.content)
    requires MemberPreimage(a, f).Ok? && MemberPreimage(b, f).Ok?
    ensures MemberDigest(h, a, f).value == MemberDigest(h, b, f).value <==>
            || SameRevision(a, b)
            || CollisionAmong(h, {MemberPreimage(a, f).value, MemberPreimage(b, f).value})
  {
    hide *;
    var v, w := Object(EnvelopeFields(a)), Object(EnvelopeFields(b));
    EnvelopeShape(a);
    EnvelopeShape(b);
    EnvelopesAgree(a, b);
    match f {
      case MemberV1 =>
        BareMember(h, a);
        BareMember(h, b);
        DigestFaithful(h, v, w);
      case MemberV2 =>
        TaggedMember(h, a);
        TaggedMember(h, b);
        TaggedDigestSeparates(h, MEMBER_V2_TAG, v, MEMBER_V2_TAG, w);
    }
  }

  /**
   A member digest pins its format, every envelope field, the row version and the payload: two agree
   exactly when all of these do, or their preimages collide.
   */
  lemma {:induction false} MemberDigestExact(h: Hash, a: Envelope, f: MemberFormat, b: Envelope, g: MemberFormat)
    requires WellFormed(a.content) && WellFormed(b.content)
    requires MemberPreimage(a, f).Ok? && MemberPreimage(b, g).Ok?
    ensures MemberDigest(h, a, f).value == MemberDigest(h, b, g).value <==>
            || (f == g && SameRevision(a, b))
            || CollisionAmong(h, {MemberPreimage(a, f).value, MemberPreimage(b, g).value})
  {
    hide MemberPreimage, SameRevision, HexDigest, CollisionAmong, WellFormed;
    if f == g {
      OneFormat(h, a, b, f);
    } else {
      HexDigestAgree(h, MemberPreimage(a, f).value, MemberPreimage(b, g).value);
      if MemberDigest(h, a, f).value == MemberDigest(h, b, g).value {
        FormatsApart(h, a, f, b, g);
      }
    }
  }
}
