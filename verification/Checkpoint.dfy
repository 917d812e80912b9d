/**
 A checkpoint commits to the audit events it covers through the canonical bytes of each event
 (apps/checkpoint/src/sign/chain.ts, apps/checkpoint/src/sign/checkpoint.ts). What a signed root then
 pins, and what the chain adds to it.
 */
module Checkpoint {
  import opened Texts
  import opened Outcomes
  import opened Hashes
  import opened Canonical
  import opened CanonicalFaithful
  import opened Digests
  import opened AuditChain
  import opened MerkleBinding

  const LEAF_KEYS: seq<Text> := [
    Ascii("seq"), Ascii("id"), Ascii("action_id"), Ascii("actor_id"), Ascii("acting_role_id"),
    Ascii("action_type"), Ascii("object_id"), Ascii("object_ids"), Ascii("recorded_at"),
    Ascii("effective_at"), Ascii("request_id"), Ascii("reason"), Ascii("before_digest"),
    Ascii("after_digest"), Ascii("prev_digest"), Ascii("digest")]

  lemma LeafKeysDistinct()
    ensures |LEAF_KEYS| == 16 && Distinct(LEAF_KEYS)
  {
    assert |LEAF_KEYS[0]| == 3 && |LEAF_KEYS[1]| == 2 && |LEAF_KEYS[2]| == 9 && |LEAF_KEYS[3]| == 8;
    assert |LEAF_KEYS[4]| == 14 && |LEAF_KEYS[5]| == 11 && |LEAF_KEYS[6]| == 9 && |LEAF_KEYS[7]| == 10;
    assert |LEAF_KEYS[8]| == 11 && |LEAF_KEYS[9]| == 12 && |LEAF_KEYS[10]| == 10 && |LEAF_KEYS[11]| == 6;
    assert |LEAF_KEYS[12]| == 13 && |LEAF_KEYS[13]| == 12 && |LEAF_KEYS[14]| == 11 && |LEAF_KEYS[15]| == 6;
    assert LEAF_KEYS[2][0] == 'a' as int && LEAF_KEYS[6][0] == 'o' as int;
    assert LEAF_KEYS[5][0] == 'a' as int && LEAF_KEYS[8][0] == 'r' as int && LEAF_KEYS[14][0] == 'p' as int;
    assert LEAF_KEYS[9][0] == 'e' as int && LEAF_KEYS[13][0] == 'a' as int;
    assert LEAF_KEYS[7][0] == 'o' as int && LEAF_KEYS[10][0] == 'r' as int;
    assert LEAF_KEYS[11][0] == 'r' as int && LEAF_KEYS[15][0] == 'd' as int;
  }

  /** The values a leaf commits to, in the order of `LEAF_KEYS`. The link format is not one of them. */
  function LeafParts(e: AuditEntry): (parts: seq<Value>)
    ensures |parts| == 16
  {
    [ String(e.seqNo), String(e.id), String(e.act.actionId), String(e.act.actorId),
      String(e.act.actingRoleId), String(e.act.actionType), Nullable(e.objectId),
      Strings(e.act.objectIds), String(e.recordedAt), String(e.act.effectiveAt),
      Nullable(e.requestId), Nullable(e.reason), Nullable(e.act.beforeDigest),
      Nullable(e.act.afterDigest), String(e.prevDigest), String(e.digest) ]
  }

  /** `leafBytes` under `kf.audit-checkpoint.v3`, before canonicalization. */
  function LeafValue(e: AuditEntry): (v: Value)
    ensures v.Object? && |v.properties| == 16
    ensures forall i :: 0 <= i < 16 ==> v.properties[i] == Property(LEAF_KEYS[i], LeafParts(e)[i])
  {
    Object(seq(16, i requires 0 <= i < 16 => Property(LEAF_KEYS[i], LeafParts(e)[i])))
  }

  function LeafBytes(e: AuditEntry): Result<Bytes, CanonicalizationError> {
    CanonicalBytes(LeafValue(e))
  }

  lemma LeafPartWellFormed(e: AuditEntry, i: nat)
    requires i < 16
    ensures WellFormed(LeafParts(e)[i]) && LeafParts(e)[i] != Undefined
  {}

  lemma LeafWellFormed(e: AuditEntry)
    ensures WellFormed(LeafValue(e))
  {
    LeafKeysDistinct();
    hide LEAF_KEYS, LeafParts;
    var p := LeafValue(e).properties;
    assert Keys(p) == LEAF_KEYS;
    forall i | 0 <= i < 16 ensures WellFormed(p[i].value) {
      LeafPartWellFormed(e, i);
    }
  }

  /** A text, a null, or a list of texts: such values are equivalent only when equal. */
  lemma PlainEquivalence(v: Value, w: Value, texts: seq<Text>, others: seq<Text>)
    requires Equivalent(v, w)
    requires (!v.Array? && !v.Object?) || (v == Strings(texts) && w == Strings(others))
    ensures v == w
  {
    if v.Array? {
      StringsInjective(texts, others);
    }
  }

  lemma LeafPartsAgree(a: AuditEntry, b: AuditEntry, i: nat)
    requires i < 16 && Equivalent(LeafValue(a), LeafValue(b))
    ensures LeafParts(a)[i] == LeafParts(b)[i]
  {
    LeafPartWellFormed(a, i);
    LeafPartWellFormed(b, i);
    EquivalentField(LeafValue(a).properties, LeafValue(b).properties, i);
    hide LEAF_KEYS, Strings, Equivalent, LeafValue;
    PlainEquivalence(LeafParts(a)[i], LeafParts(b)[i], a.act.objectIds, b.act.objectIds);
  }

  /** The same row in every field but the recorded link format. */
  ghost predicate SameExceptFormat(a: AuditEntry, b: AuditEntry) {
    a.(linkFormat := b.linkFormat) == b
  }

  lemma LeafIdentity(a: AuditEntry, b: AuditEntry)
    requires forall i :: 0 <= i < 16 ==> LeafParts(a)[i] == LeafParts(b)[i]
    ensures a.seqNo == b.seqNo && a.id == b.id && a.objectId == b.objectId
    ensures a.act.actionId == b.act.actionId && a.act.actorId == b.act.actorId
    ensures a.act.actingRoleId == b.act.actingRoleId && a.act.actionType == b.act.actionType
    ensures Strings(a.act.objectIds) == Strings(b.act.objectIds)
  {
    hide Strings;
    var p, q := LeafParts(a), LeafParts(b);
    assert p[0] == q[0] && p[1] == q[1] && p[2] == q[2] && p[3] == q[3];
    assert p[4] == q[4] && p[5] == q[5] && p[6] == q[6] && p[7] == q[7];
  }

  lemma LeafRecord(a: AuditEntry, b: AuditEntry)
    requires forall i :: 0 <= i < 16 ==> LeafParts(a)[i] == LeafParts(b)[i]
    ensures a.recordedAt == b.recordedAt && a.act.effectiveAt == b.act.effectiveAt
    ensures a.requestId == b.requestId && a.reason == b.reason
    ensures a.act.beforeDigest == b.act.beforeDigest && a.act.afterDigest == b.act.afterDigest
    ensures a.prevDigest == b.prevDigest && a.digest == b.digest
  {
    hide Strings;
    var p, q := LeafParts(a), LeafParts(b);
    assert p[8] == q[8] && p[9] == q[9] && p[10] == q[10] && p[11] == q[11];
    assert p[12] == q[12] && p[13] == q[13] && p[14] == q[14] && p[15] == q[15];
  }

  lemma StringsEqual(a: seq<Text>, b: seq<Text>)
    requires Strings(a) == Strings(b)
    ensures a == b
  {
    forall i | 0 <= i < |a| ensures a[i] == b[i] {
      assert Strings(a).items[i] == Strings(b).items[i];
    }
  }

  lemma LeafPartsInjective(a: AuditEntry, b: AuditEntry)
    requires forall i :: 0 <= i < 16 ==> LeafParts(a)[i] == LeafParts(b)[i]
    ensures SameExceptFormat(a, b)
  {
    LeafIdentity(a, b);
    LeafRecord(a, b);
    hide LeafParts;
    StringsEqual(a.act.objectIds, b.act.objectIds);
  }

  /** Equivalent leaves are one event, up to the link format the row recorded. */
  lemma LeafValueInjective(a: AuditEntry, b: AuditEntry)
    requires Equivalent(LeafValue(a), LeafValue(b))
    ensures SameExceptFormat(a, b)
  {
    forall i | 0 <= i < 16 ensures LeafParts(a)[i] == LeafParts(b)[i] {
      LeafPartsAgree(a, b, i);
    }
    hide LeafValue, LEAF_KEYS, Equivalent;
    LeafPartsInjective(a, b);
  }

  /** Two events with the same leaf bytes are one event, up to the recorded link format. */
  lemma LeafBytesInjective(a: AuditEntry, b: AuditEntry)
    requires LeafBytes(a).Ok? && LeafBytes(a) == LeafBytes(b)
    ensures SameExceptFormat(a, b)
  {
    LeafWellFormed(a);
    LeafWellFormed(b);
    CanonicalBytesFaithful(LeafValue(a), LeafValue(b));
    LeafValueInjective(a, b);
  }

  // --- The root of a checkpoint ---------------------------------------------------------------

  ghost predicate AllLeaves(entries: seq<AuditEntry>) {
    forall i :: 0 <= i < |entries| ==> LeafBytes(entries[i]).Ok?
  }

  /** The leaf entries of a checkpoint's tree. */
  ghost function LeafEntries(entries: seq<AuditEntry>): (leaves: seq<Bytes>)
    requires AllLeaves(entries)
    ensures |leaves| == |entries|
    ensures forall i :: 0 <= i < |entries| ==> leaves[i] == LeafBytes(entries[i]).value
  {
    seq(|entries|, i requires 0 <= i < |entries| => LeafBytes(entries[i]).value)
  }

  /** `merkleRoot(entries.map((e) => leafHash(leafBytes(e))))` */
  ghost function CheckpointRoot(h: Hash, entries: seq<AuditEntry>): Bytes
    requires AllLeaves(entries)
  {
    Root(h, LeafEntries(entries))
  }

  ghost predicate SameEvents(a: seq<AuditEntry>, b: seq<AuditEntry>) {
    |a| == |b| && forall i :: 0 <= i < |a| ==> SameExceptFormat(a[i], b[i])
  }

  /**
   A signed root pins the events it covers: two event lists with one root are the same events in the
   same order, in every committed field, or two of the hashed byte strings collide.
   */
  lemma {:induction false} CheckpointPinsEvents(h: Hash, a: seq<AuditEntry>, b: seq<AuditEntry>)
    requires AllLeaves(a) && AllLeaves(b)
    requires CheckpointRoot(h, a) == CheckpointRoot(h, b)
    ensures SameEvents(a, b) || CollisionAmong(h, TreeInputs(h, LeafEntries(a)) + TreeInputs(h, LeafEntries(b)))
  {
    hide LeafBytes, CollisionAmong, TreeInputs, Root;
    RootPinsEntries(h, LeafEntries(a), LeafEntries(b));
    if LeafEntries(a) == LeafEntries(b) {
      forall i | 0 <= i < |a| ensures SameExceptFormat(a[i], b[i]) {
        assert LeafEntries(a)[i] == LeafEntries(b)[i];
        LeafBytesInjective(a[i], b[i]);
      }
    }
  }

  /** Relabelling one row: the recorded digest no longer recomputes, unless the two preimages collide. */
  lemma {:induction false} RelabelledLinkDetected(h: Hash, a: AuditEntry, b: AuditEntry)
    requires SameExceptFormat(a, b)
    requires AuditChainDigest(h, a.prevDigest, a.act, a.linkFormat) == Ok(a.digest)
    requires AuditChainDigest(h, b.prevDigest, b.act, b.linkFormat) == Ok(b.digest)
    ensures || a == b
            || CollisionAmong(h, {LinkPreimage(a.prevDigest, a.act, a.linkFormat).value,
                                  LinkPreimage(b.prevDigest, b.act, b.linkFormat).value})
  {
    hide AuditChainDigest, CollisionAmong, LinkPreimage;
    SameLink(h, a, b);
  }

  lemma InputAt(h: Hash, entries: seq<AuditEntry>, first: Text, i: nat)
    requires Linked(h, entries, first) && i < |entries|
    ensures LinkPreimage(entries[i].prevDigest, entries[i].act, entries[i].linkFormat).Ok?
    ensures LinkPreimage(entries[i].prevDigest, entries[i].act, entries[i].linkFormat).value in ChainInputs(entries)
  {}

  lemma RowAgrees(h: Hash, a: seq<AuditEntry>, firstA: Text, b: seq<AuditEntry>, firstB: Text, i: nat)
    requires Linked(h, a, firstA) && Linked(h, b, firstB)
    requires i < |a| == |b| && SameExceptFormat(a[i], b[i])
    ensures a[i] == b[i] || CollisionAmong(h, ChainInputs(a) + ChainInputs(b))
  {
    InputAt(h, a, firstA, i);
    InputAt(h, b, firstB, i);
    hide CollisionAmong, ChainInputs, AuditChainDigest, LinkPreimage;
    RelabelledLinkDetected(h, a[i], b[i]);
    var two := {LinkPreimage(a[i].prevDigest, a[i].act, a[i].linkFormat).value,
                LinkPreimage(b[i].prevDigest, b[i].act, b[i].linkFormat).value};
    if CollisionAmong(h, two) {
      CollisionMonotone(h, two, ChainInputs(a) + ChainInputs(b));
    }
  }

  /**
   The link format is not a leaf field and does not have to be: over verified chains, one root means
   the same rows with the same recorded formats, or something hashed collides.
   */
  lemma {:induction false} CheckpointPinsFormats(h: Hash, a: seq<AuditEntry>, firstA: Text, b: seq<AuditEntry>, firstB: Text)
    requires AllLeaves(a) && AllLeaves(b)
    requires Linked(h, a, firstA) && Linked(h, b, firstB)
    requires CheckpointRoot(h, a) == CheckpointRoot(h, b)
    ensures || a == b
            || CollisionAmong(h, TreeInputs(h, LeafEntries(a)) + TreeInputs(h, LeafEntries(b)))
            || CollisionAmong(h, ChainInputs(a) + ChainInputs(b))
  {
    CheckpointPinsEvents(h, a, b);
    hide LeafBytes, CollisionAmong, TreeInputs, Root, ChainInputs, AuditChainDigest, LinkPreimage, Linked, SameExceptFormat;
    if SameEvents(a, b) && !CollisionAmong(h, ChainInputs(a) + ChainInputs(b)) {
      forall i | 0 <= i < |a| ensures a[i] == b[i] {
        RowAgrees(h, a, firstA, b, firstB, i);
      }
    }
  }
}
