/**
 The audit hash chain: how a link is computed (packages/canonicalization/src/index.ts), how a chain
 is verified (apps/checkpoint/src/sign/chain.ts), and what a verified chain's last digest pins.
 */
module AuditChain {
  import opened Texts
  import opened Outcomes
  import opened Hashes
  import opened Utf8
  import opened Canonical
  import opened CanonicalFaithful
  import opened Digests

  // --- Links ----------------------------------------------------------------------------------

  datatype LinkFormat = LinkV1 | LinkV2 | UnknownLink(name: Text)

  predicate IsLinkFormat(format: LinkFormat) {
    format == LinkV1 || format == LinkV2
  }

  /** The place of a format in `AUDIT_LINK_FORMATS`, or -1. */
  function FormatIndex(format: LinkFormat): int {
    match format
    case LinkV1 => 0
    case LinkV2 => 1
    case UnknownLink(_) => -1
  }

  /** `auditLinkFormatMayFollow` */
  predicate MayFollow(previous: Option<LinkFormat>, next: LinkFormat) {
    previous == None || FormatIndex(next) >= FormatIndex(previous.value)
  }

  datatype ChainEntry = ChainEntry(
    actionId: Text,
    actionType: Text,
    actorId: Text,
    actingRoleId: Text,
    objectIds: seq<Text>,
    effectiveAt: Text,
    beforeDigest: Option<Text>,
    afterDigest: Option<Text>)

  function Nullable(text: Option<Text>): Value {
    match text
    case None => Null
    case Some(t) => String(t)
  }

  function Strings(texts: seq<Text>): (v: Value)
    ensures v.Array? && |v.items| == |texts|
    ensures forall i :: 0 <= i < |texts| ==> v.items[i] == String(texts[i])
  {
    Array(seq(|texts|, i requires 0 <= i < |texts| => String(texts[i])))
  }

  const LINK_KEYS: seq<Text> := [
    Ascii("action_id"), Ascii("action_type"), Ascii("actor_id"), Ascii("acting_role_id"),
    Ascii("object_ids"), Ascii("effective_at"), Ascii("before_digest"), Ascii("after_digest")]

  const LINK_V2_NAME: Text := Ascii("kf-audit-link-v2")

  function LinkFields(entry: ChainEntry): seq<Property> {
    [ Property(LINK_KEYS[0], String(entry.actionId)),
      Property(LINK_KEYS[1], String(entry.actionType)),
      Property(LINK_KEYS[2], String(entry.actorId)),
      Property(LINK_KEYS[3], String(entry.actingRoleId)),
      Property(LINK_KEYS[4], Strings(Sort(entry.objectIds))),
      Property(LINK_KEYS[5], String(entry.effectiveAt)),
      Property(LINK_KEYS[6], Nullable(entry.beforeDigest)),
      Property(LINK_KEYS[7], Nullable(entry.afterDigest)) ]
  }

  /** What a link commits to besides its predecessor. */
  function LinkValue(entry: ChainEntry, format: LinkFormat): (v: Value)
    ensures v.Object?
  {
    Object(LinkFields(entry) +
           if format == LinkV1 then [] else [Property(FORMAT_KEY, String(LINK_V2_NAME))])
  }

  /** The bytes hashed by `chainDigest`: the predecessor's digest, then the canonical entry. */
  function ChainPreimage(previous: Text, entry: Value): Result<Bytes, CanonicalizationError> {
    if !IsDigestText(previous) then Err(CanonicalizationError(MalformedPrevious, Ascii("previous")))
    else
      var bytes :- CanonicalBytes(entry);
      Ok(Unhex(previous) + bytes)
  }

  function LinkPreimage(previous: Text, entry: ChainEntry, format: LinkFormat): Result<Bytes, CanonicalizationError> {
    if !IsLinkFormat(format) then Err(CanonicalizationError(UnknownLinkFormat, FORMAT_KEY))
    else ChainPreimage(previous, LinkValue(entry, format))
  }

  /** `auditChainDigest` */
  function AuditChainDigest(h: Hash, previous: Text, entry: ChainEntry, format: LinkFormat): Printed {
    var bytes :- LinkPreimage(previous, entry, format);
    Ok(HexDigest(h, bytes))
  }

  // --- What a link commits to -----------------------------------------------------------------

  /** The same act: object identifiers are a multiset at this boundary. */
  ghost predicate SameAct(a: ChainEntry, b: ChainEntry) {
    && a.(objectIds := []) == b.(objectIds := [])
    && multiset(a.objectIds) == multiset(b.objectIds)
  }

  lemma LinkKeysDistinct()
    ensures Distinct(LINK_KEYS)
    ensures FORMAT_KEY !in LINK_KEYS
  {
    assert |LINK_KEYS[0]| == 9 && |LINK_KEYS[1]| == 11 && |LINK_KEYS[2]| == 8 && |LINK_KEYS[3]| == 14;
    assert |LINK_KEYS[4]| == 10 && |LINK_KEYS[5]| == 12 && |LINK_KEYS[6]| == 13 && |LINK_KEYS[7]| == 12;
    assert LINK_KEYS[5][0] == 'e' as int && LINK_KEYS[7][0] == 'a' as int;
    assert |FORMAT_KEY| == 6;
  }

  lemma LinkValueKeys(entry: ChainEntry, format: LinkFormat)
    requires IsLinkFormat(format)
    ensures Keys(LinkValue(entry, format).properties)
         == LINK_KEYS + if format == LinkV1 then [] else [FORMAT_KEY]
  {
    assert |LINK_KEYS| == 8;
    hide LINK_KEYS;
    assert forall i :: 0 <= i < 8 ==> LinkFields(entry)[i].key == LINK_KEYS[i];
  }

  lemma LinkFieldWellFormed(entry: ChainEntry, i: nat)
    requires i < |LinkFields(entry)|
    ensures WellFormed(LinkFields(entry)[i].value)
  {}

  lemma LinkValueShape(entry: ChainEntry, format: LinkFormat)
    requires IsLinkFormat(format)
    ensures WellFormed(LinkValue(entry, format))
    ensures FORMAT_KEY in DefinedKeys(LinkValue(entry, format).properties) <==> format == LinkV2
  {
    LinkKeysDistinct();
    LinkValueKeys(entry, format);
    assert |LINK_KEYS| == 8;
    hide LINK_KEYS, FORMAT_KEY;
    forall i | 0 <= i < |LinkFields(entry)| ensures WellFormed(LinkFields(entry)[i].value) {
      LinkFieldWellFormed(entry, i);
    }
    var p := LinkValue(entry, format).properties;
    if format == LinkV2 {
      assert p[8].key == FORMAT_KEY && p[8].value != Undefined;
    } else {
      assert forall i :: 0 <= i < |p| ==> p[i].key == Keys(p)[i];
    }
  }

  lemma StringsInjective(a: seq<Text>, b: seq<Text>)
    requires Equivalent(Strings(a), Strings(b))
    ensures a == b
  {
    forall i | 0 <= i < |a| ensures a[i] == b[i] {
      assert Equivalent(Strings(a).items[i], Strings(b).items[i]);
    }
  }

  lemma NullableInjective(a: Option<Text>, b: Option<Text>)
    requires Equivalent(Nullable(a), Nullable(b))
    ensures a == b
  {}

  lemma LinkFieldAgrees(a: ChainEntry, f: LinkFormat, b: ChainEntry, g: LinkFormat, i: nat)
    requires Equivalent(LinkValue(a, f), LinkValue(b, g))
    requires i < 8
    ensures Equivalent(LinkFields(a)[i].value, LinkFields(b)[i].value)
  {
    assert LinkValue(a, f).properties[i] == LinkFields(a)[i];
    assert LinkValue(b, g).properties[i] == LinkFields(b)[i];
    EquivalentField(LinkValue(a, f).properties, LinkValue(b, g).properties, i);
  }

  /** Equal link values are the same act under the same format. */
  lemma LinkValueInjective(a: ChainEntry, f: LinkFormat, b: ChainEntry, g: LinkFormat)
    requires IsLinkFormat(f) && IsLinkFormat(g)
    requires Equivalent(LinkValue(a, f), LinkValue(b, g))
    ensures f == g && SameAct(a, b)
  {
    assert f == g by {
      LinkValueShape(a, f);
      LinkValueShape(b, g);
    }
    hide LinkValue, LINK_KEYS;
    LinkFieldAgrees(a, f, b, g, 0);
    LinkFieldAgrees(a, f, b, g, 1);
    LinkFieldAgrees(a, f, b, g, 2);
    LinkFieldAgrees(a, f, b, g, 3);
    LinkFieldAgrees(a, f, b, g, 4);
    LinkFieldAgrees(a, f, b, g, 5);
    LinkFieldAgrees(a, f, b, g, 6);
    LinkFieldAgrees(a, f, b, g, 7);
    StringsInjective(Sort(a.objectIds), Sort(b.objectIds));
    SortCanonical(a.objectIds, b.objectIds);
    NullableInjective(a.beforeDigest, b.beforeDigest);
    NullableInjective(a.afterDigest, b.afterDigest);
  }

  lemma {:induction false} SameActEquivalent(a: ChainEntry, b: ChainEntry, f: LinkFormat)
    requires IsLinkFormat(f) && SameAct(a, b)
    ensures LinkValue(a, f) == LinkValue(b, f)
  {
    SortCanonical(a.objectIds, b.objectIds);
  }

  /**
   A link's preimage pins its predecessor, its act and its format; in particular a v1 and a v2 link
   never share one. Reordering object identifiers changes nothing.
   */
  lemma {:induction false} LinkPreimageExact(p: Text, a: ChainEntry, f: LinkFormat, q: Text, b: ChainEntry, g: LinkFormat)
    requires LinkPreimage(p, a, f).Ok? && LinkPreimage(q, b, g).Ok?
    ensures LinkPreimage(p, a, f) == LinkPreimage(q, b, g) <==> p == q && f == g && SameAct(a, b)
  {
    var x, y := CanonicalBytes(LinkValue(a, f)).value, CanonicalBytes(LinkValue(b, g)).value;
    if LinkPreimage(p, a, f) == LinkPreimage(q, b, g) {
      assert Unhex(p) == (Unhex(p) + x)[..32] == (Unhex(q) + y)[..32] == Unhex(q);
      assert x == (Unhex(p) + x)[32..] == (Unhex(q) + y)[32..] == y;
      HexUnhex(p);
      HexUnhex(q);
      LinkValueShape(a, f);
      LinkValueShape(b, g);
      CanonicalBytesFaithful(LinkValue(a, f), LinkValue(b, g));
      LinkValueInjective(a, f, b, g);
    }
    if p == q && f == g && SameAct(a, b) {
      SameActEquivalent(a, b, f);
    }
  }

  // --- Verifying a chain ----------------------------------------------------------------------

  datatype AuditEntry = AuditEntry(
    seqNo: Text,
    id: Text,
    act: ChainEntry,
    objectId: Option<Text>,
    recordedAt: Text,
    requestId: Option<Text>,
    reason: Option<Text>,
    prevDigest: Text,
    digest: Text,
    linkFormat: LinkFormat)

  datatype Fault = WrongPrevious | UnknownFormat | FormatRegressed | WrongDigest

  datatype Verdict = Intact | Broken(atSeq: Text, fault: Fault) | Thrown(error: CanonicalizationError)

  /** `verifyChain` from some entry on. */
  function Walk(h: Hash, entries: seq<AuditEntry>, prev: Text, previousFormat: Option<LinkFormat>): Verdict {
    if entries == [] then Intact
    else
      var e := entries[0];
      if e.prevDigest != prev then Broken(e.seqNo, WrongPrevious)
      else if !IsLinkFormat(e.linkFormat) then Broken(e.seqNo, UnknownFormat)
      else if !MayFollow(previousFormat, e.linkFormat) then Broken(e.seqNo, FormatRegressed)
      else match AuditChainDigest(h, prev, e.act, e.linkFormat)
        case Err(error) => Thrown(error)
        case Ok(recomputed) =>
          if e.digest != recomputed then Broken(e.seqNo, WrongDigest)
          else Walk(h, entries[1..], e.digest, Some(e.linkFormat))
  }

  /** `verifyChain`: the first place the chain breaks. */
  method VerifyChain(h: Hash, entries: seq<AuditEntry>, expectedFirstPrev: Text) returns (v: Verdict)
    ensures v == Walk(h, entries, expectedFirstPrev, None)
  {
    var prev := expectedFirstPrev;
    var previousFormat: Option<LinkFormat> := None;
    var i := 0;
    assert entries[0..] == entries;
    while i < |entries|
      invariant i <= |entries|
      invariant Walk(h, entries[i..], prev, previousFormat) == Walk(h, entries, expectedFirstPrev, None)
    {
      var e := entries[i];
      assert entries[i..][0] == e && entries[i..][1..] == entries[i + 1..];
      if e.prevDigest != prev {
        return Broken(e.seqNo, WrongPrevious);
      }
      if !IsLinkFormat(e.linkFormat) {
        return Broken(e.seqNo, UnknownFormat);
      }
      if !MayFollow(previousFormat, e.linkFormat) {
        return Broken(e.seqNo, FormatRegressed);
      }
      var recomputed := AuditChainDigest(h, prev, e.act, e.linkFormat);
      if recomputed.Err? {
        return Thrown(recomputed.error);
      }
      if e.digest != recomputed.value {
        return Broken(e.seqNo, WrongDigest);
      }
      prev := e.digest;
      previousFormat := Some(e.linkFormat);
      i := i + 1;
    }
    v := Intact;
  }

  /** The digest entry `i` must name as its predecessor. */
  function Predecessor(entries: seq<AuditEntry>, first: Text, i: nat): Text
    requires i <= |entries|
  {
    if i == 0 then first else entries[i - 1].digest
  }

  /** Every entry names its predecessor and recomputes under the format it recorded. */
  ghost predicate Linked(h: Hash, entries: seq<AuditEntry>, first: Text) {
    forall i :: 0 <= i < |entries| ==>
      && entries[i].prevDigest == Predecessor(entries, first, i)
      && AuditChainDigest(h, entries[i].prevDigest, entries[i].act, entries[i].linkFormat) == Ok(entries[i].digest)
  }

  /** v1 links, then v2 links. */
  ghost predicate MovesOnce(entries: seq<AuditEntry>) {
    exists k :: 0 <= k <= |entries| && Cutover(entries, k)
  }

  ghost predicate Cutover(entries: seq<AuditEntry>, k: nat)
    requires k <= |entries|
  {
    forall i :: 0 <= i < |entries| ==> entries[i].linkFormat == if i < k then LinkV1 else LinkV2
  }

  lemma LinkedTail(h: Hash, entries: seq<AuditEntry>, first: Text)
    requires entries != []
    ensures Linked(h, entries, first) <==>
            && entries[0].prevDigest == first
            && AuditChainDigest(h, first, entries[0].act, entries[0].linkFormat) == Ok(entries[0].digest)
            && Linked(h, entries[1..], entries[0].digest)
  {
    hide AuditChainDigest, LinkPreimage;
    var e, tail := entries[0], entries[1..];
    if Linked(h, entries, first) {
      forall i | 0 <= i < |tail|
        ensures tail[i].prevDigest == Predecessor(tail, e.digest, i)
        ensures AuditChainDigest(h, tail[i].prevDigest, tail[i].act, tail[i].linkFormat) == Ok(tail[i].digest)
      {
        assert tail[i] == entries[i + 1];
      }
    }
    if e.prevDigest == first && AuditChainDigest(h, first, e.act, e.linkFormat) == Ok(e.digest)
       && Linked(h, tail, e.digest) {
      forall i | 0 <= i < |entries|
        ensures entries[i].prevDigest == Predecessor(entries, first, i)
        ensures AuditChainDigest(h, entries[i].prevDigest, entries[i].act, entries[i].linkFormat) == Ok(entries[i].digest)
      {
        if i > 0 {
          assert tail[i - 1] == entries[i];
        }
      }
    }
  }

  lemma MovesOnceTail(entries: seq<AuditEntry>)
    requires entries != []
    ensures MovesOnce(entries) <==>
            if entries[0].linkFormat == LinkV2 then Cutover(entries[1..], 0)
            else entries[0].linkFormat == LinkV1 && MovesOnce(entries[1..])
  {
    var tail := entries[1..];
    if MovesOnce(entries) {
      var k :| 0 <= k <= |entries| && Cutover(entries, k);
      if k == 0 {
        assert Cutover(tail, 0);
      } else {
        assert Cutover(tail, k - 1);
      }
    }
    if entries[0].linkFormat == LinkV2 && Cutover(tail, 0) {
      assert forall i :: 0 < i < |entries| ==> entries[i] == tail[i - 1];
      assert Cutover(entries, 0);
    }
    if entries[0].linkFormat == LinkV1 && MovesOnce(tail) {
      var k :| 0 <= k <= |tail| && Cutover(tail, k);
      assert forall i :: 0 < i < |entries| ==> entries[i] == tail[i - 1];
      assert Cutover(entries, k + 1);
    }
  }

  lemma CutoverTail(entries: seq<AuditEntry>)
    requires entries != []
    ensures Cutover(entries, 0) <==> entries[0].linkFormat == LinkV2 && Cutover(entries[1..], 0)
  {
    assert forall i :: 0 < i < |entries| ==> entries[i] == entries[1..][i - 1];
  }

  lemma WalkStep(h: Hash, entries: seq<AuditEntry>, prev: Text, previousFormat: Option<LinkFormat>)
    requires entries != []
    ensures Walk(h, entries, prev, previousFormat) == Intact <==>
            && entries[0].prevDigest == prev
            && IsLinkFormat(entries[0].linkFormat)
            && MayFollow(previousFormat, entries[0].linkFormat)
            && AuditChainDigest(h, prev, entries[0].act, entries[0].linkFormat) == Ok(entries[0].digest)
            && Walk(h, entries[1..], entries[0].digest, Some(entries[0].linkFormat)) == Intact
  {
    hide AuditChainDigest;
  }

  lemma {:induction false} WalkExact(h: Hash, entries: seq<AuditEntry>, prev: Text, previousFormat: Option<LinkFormat>)
    requires previousFormat.Some? ==> IsLinkFormat(previousFormat.value)
    ensures Walk(h, entries, prev, previousFormat) == Intact <==>
            && Linked(h, entries, prev)
            && if previousFormat == Some(LinkV2) then Cutover(entries, 0) else MovesOnce(entries)
  {
    if entries == [] {
      assert Cutover(entries, 0);
    } else {
      hide AuditChainDigest, Linked, MovesOnce, Cutover, Walk;
      var e, tail := entries[0], entries[1..];
      WalkStep(h, entries, prev, previousFormat);
      LinkedTail(h, entries, prev);
      MovesOnceTail(entries);
      CutoverTail(entries);
      if IsLinkFormat(e.linkFormat) {
        WalkExact(h, tail, e.digest, Some(e.linkFormat));
      }
    }
  }

  /** A chain is accepted exactly when every link recomputes and formats move from v1 to v2 at most once. */
  lemma {:induction false} VerifyChainExact(h: Hash, entries: seq<AuditEntry>, first: Text)
    ensures Walk(h, entries, first, None) == Intact <==> Linked(h, entries, first) && MovesOnce(entries)
  {
    WalkExact(h, entries, first, None);
  }

  // --- Where a chain breaks -------------------------------------------------------------------

  /** What entry `i` of a chain fails: the checks in their order, each without the ones before it. */
  ghost predicate Fails(h: Hash, entries: seq<AuditEntry>, first: Text, i: nat, fault: Fault)
    requires i < |entries|
  {
    var e := entries[i];
    var regressed := i > 0 && entries[i - 1].linkFormat == LinkV2 && e.linkFormat == LinkV1;
    match fault
    case WrongPrevious => e.prevDigest != Predecessor(entries, first, i)
    case UnknownFormat => e.prevDigest == Predecessor(entries, first, i) && e.linkFormat.UnknownLink?
    case FormatRegressed => e.prevDigest == Predecessor(entries, first, i) && regressed
    case WrongDigest =>
      && e.prevDigest == Predecessor(entries, first, i) && !e.linkFormat.UnknownLink? && !regressed
      && AuditChainDigest(h, e.prevDigest, e.act, e.linkFormat).Ok?
      && AuditChainDigest(h, e.prevDigest, e.act, e.linkFormat).value != e.digest
  }

  function FormatBefore(entries: seq<AuditEntry>, i: nat): Option<LinkFormat>
    requires i <= |entries|
  {
    if i == 0 then None else Some(entries[i - 1].linkFormat)
  }

  /** Past an intact beginning the walk goes on with the rest. */
  lemma {:induction false} WalkPast(h: Hash, entries: seq<AuditEntry>, first: Text, i: nat)
    requires i <= |entries| && Walk(h, entries[..i], first, None) == Intact
    ensures Walk(h, entries, first, None) == Walk(h, entries[i..], Predecessor(entries, first, i), FormatBefore(entries, i))
  {
    if i == 0 {
      assert entries[0..] == entries;
    } else {
      WalkSplit(h, entries, first, None, i);
    }
  }

  lemma {:induction false} WalkSplit(h: Hash, entries: seq<AuditEntry>, prev: Text, format: Option<LinkFormat>, i: nat)
    requires 0 < i <= |entries| && Walk(h, entries[..i], prev, format) == Intact
    ensures Walk(h, entries, prev, format) == Walk(h, entries[i..], entries[i - 1].digest, Some(entries[i - 1].linkFormat))
  {
    hide AuditChainDigest;
    var tail := entries[1..];
    assert entries[..i][0] == entries[0] && entries[..i][1..] == tail[..i - 1] && tail[i - 1..] == entries[i..];
    if i > 1 {
      WalkSplit(h, tail, entries[0].digest, Some(entries[0].linkFormat), i - 1);
    }
  }

  lemma LastFormatKnown(h: Hash, entries: seq<AuditEntry>, first: Text, i: nat)
    requires 0 < i <= |entries| && Walk(h, entries[..i], first, None) == Intact
    ensures !entries[i - 1].linkFormat.UnknownLink?
  {
    WalkExact(h, entries[..i], first, None);
    hide Walk, Linked;
    var k :| 0 <= k <= i && Cutover(entries[..i], k);
    assert entries[..i][i - 1] == entries[i - 1];
  }

  /** The entries before `i` are intact, and entry `i` gives the verdict. */
  ghost predicate BreaksAt(h: Hash, entries: seq<AuditEntry>, first: Text, v: Verdict, i: nat) {
    && i < |entries|
    && Linked(h, entries[..i], first) && MovesOnce(entries[..i])
    && match v
       case Intact => false
       case Broken(atSeq, fault) => atSeq == entries[i].seqNo && Fails(h, entries, first, i, fault)
       case Thrown(error) =>
         && entries[i].prevDigest == Predecessor(entries, first, i) && !entries[i].linkFormat.UnknownLink?
         && !(i > 0 && entries[i - 1].linkFormat == LinkV2 && entries[i].linkFormat == LinkV1)
         && AuditChainDigest(h, entries[i].prevDigest, entries[i].act, entries[i].linkFormat) == Err(error)
  }

  lemma HeadDecides(h: Hash, entries: seq<AuditEntry>, prev: Text, format: Option<LinkFormat>)
    requires entries != [] && Walk(h, [entries[0]], prev, format) != Intact
    ensures Walk(h, entries, prev, format) == Walk(h, [entries[0]], prev, format)
  {
    hide AuditChainDigest;
    assert Walk(h, [entries[0]][1..], entries[0].digest, Some(entries[0].linkFormat)) == Intact;
  }

  lemma OneDecides(h: Hash, entries: seq<AuditEntry>, first: Text, v: Verdict, i: nat)
    requires i < |entries| && v != Intact && (i > 0 ==> !entries[i - 1].linkFormat.UnknownLink?)
    requires Linked(h, entries[..i], first) && MovesOnce(entries[..i])
    ensures Walk(h, [entries[i]], Predecessor(entries, first, i), FormatBefore(entries, i)) == v
            <==> BreaksAt(h, entries, first, v, i)
  {
    hide AuditChainDigest, Linked, MovesOnce;
    assert Walk(h, [entries[i]][1..], entries[i].digest, Some(entries[i].linkFormat)) == Intact;
  }

  /** One entry after an intact beginning decides. */
  lemma {:induction false} EntryDecides(h: Hash, entries: seq<AuditEntry>, first: Text, v: Verdict, i: nat)
    requires i < |entries| && v != Intact && Walk(h, entries[..i], first, None) == Intact
    ensures BreaksAt(h, entries, first, v, i) ==> Walk(h, entries, first, None) == v
    ensures Walk(h, entries[..i + 1], first, None) == v ==> BreaksAt(h, entries, first, v, i)
  {
    var until := entries[..i + 1];
    assert until[..i] == entries[..i] && until[i..] == [entries[i]] && entries[i..][0] == entries[i];
    WalkPast(h, entries, first, i);
    WalkPast(h, until, first, i);
    WalkExact(h, entries[..i], first, None);
    if i > 0 {
      LastFormatKnown(h, entries, first, i);
    }
    hide Walk, BreaksAt, Linked, MovesOnce;
    OneDecides(h, entries, first, v, i);
    if BreaksAt(h, entries, first, v, i) {
      HeadDecides(h, entries[i..], Predecessor(entries, first, i), FormatBefore(entries, i));
    }
  }

  lemma {:induction false} BreakExists(h: Hash, entries: seq<AuditEntry>, first: Text, n: nat)
    requires n <= |entries| && Walk(h, entries[..n], first, None) != Intact
    ensures exists i :: BreaksAt(h, entries, first, Walk(h, entries, first, None), i)
  {
    hide BreaksAt;
    if Walk(h, entries[..n - 1], first, None) == Intact {
      EntryDecides(h, entries, first, Walk(h, entries[..n], first, None), n - 1);
      assert BreaksAt(h, entries, first, Walk(h, entries, first, None), n - 1);
    } else {
      BreakExists(h, entries, first, n - 1);
    }
  }

  /** A chain is refused exactly at the first entry that fails, for the first of the checks it fails. */
  lemma {:induction false} VerdictExact(h: Hash, entries: seq<AuditEntry>, first: Text, v: Verdict)
    requires v != Intact
    ensures Walk(h, entries, first, None) == v <==> exists i :: BreaksAt(h, entries, first, v, i)
  {
    if Walk(h, entries, first, None) == v {
      assert entries[..|entries|] == entries;
      BreakExists(h, entries, first, |entries|);
    }
    if i: nat :| BreaksAt(h, entries, first, v, i) {
      WalkExact(h, entries[..i], first, None);
      EntryDecides(h, entries, first, v, i);
    }
  }

  // --- What the last digest pins --------------------------------------------------------------

  /** The byte strings hashed to recompute a chain. */
  ghost function ChainInputs(entries: seq<AuditEntry>): set<Bytes> {
    set i | 0 <= i < |entries| && LinkPreimage(entries[i].prevDigest, entries[i].act, entries[i].linkFormat).Ok?
      :: LinkPreimage(entries[i].prevDigest, entries[i].act, entries[i].linkFormat).value
  }

  function LastDigest(entries: seq<AuditEntry>, first: Text): Text {
    Predecessor(entries, first, |entries|)
  }

  /** The same history: the same acts under the same formats, in the same order. */
  ghost predicate SameHistory(a: seq<AuditEntry>, b: seq<AuditEntry>) {
    && |a| == |b|
    && forall i :: 0 <= i < |a| ==>
         && SameAct(a[i].act, b[i].act)
         && a[i].linkFormat == b[i].linkFormat
         && a[i].prevDigest == b[i].prevDigest
         && a[i].digest == b[i].digest
  }

  lemma {:induction false} LinkedInit(h: Hash, entries: seq<AuditEntry>, first: Text)
    requires entries != [] && Linked(h, entries, first)
    ensures Linked(h, entries[..|entries| - 1], first)
    ensures LastDigest(entries[..|entries| - 1], first) == entries[|entries| - 1].prevDigest
  {
    hide AuditChainDigest;
    var init := entries[..|entries| - 1];
    forall i | 0 <= i < |init|
      ensures init[i].prevDigest == Predecessor(init, first, i)
      ensures AuditChainDigest(h, init[i].prevDigest, init[i].act, init[i].linkFormat) == Ok(init[i].digest)
    {
      assert init[i] == entries[i];
    }
  }

  lemma InputsInit(entries: seq<AuditEntry>)
    requires entries != []
    ensures ChainInputs(entries[..|entries| - 1]) <= ChainInputs(entries)
  {
    hide LinkPreimage;
    var init := entries[..|entries| - 1];
    forall x | x in ChainInputs(init) ensures x in ChainInputs(entries) {
      var i :| 0 <= i < |init| && LinkPreimage(init[i].prevDigest, init[i].act, init[i].linkFormat) == Ok(x);
      assert init[i] == entries[i];
    }
  }

  /** Two links with one digest are one link, or their preimages collide. */
  lemma {:induction false} SameLink(h: Hash, a: AuditEntry, b: AuditEntry)
    requires AuditChainDigest(h, a.prevDigest, a.act, a.linkFormat) == Ok(a.digest)
    requires AuditChainDigest(h, b.prevDigest, b.act, b.linkFormat) == Ok(b.digest)
    requires a.digest == b.digest
    ensures || (a.prevDigest == b.prevDigest && a.linkFormat == b.linkFormat && SameAct(a.act, b.act))
            || CollisionAmong(h, {LinkPreimage(a.prevDigest, a.act, a.linkFormat).value,
                                  LinkPreimage(b.prevDigest, b.act, b.linkFormat).value})
  {
    HexDigestAgree(h, LinkPreimage(a.prevDigest, a.act, a.linkFormat).value,
                   LinkPreimage(b.prevDigest, b.act, b.linkFormat).value);
    LinkPreimageExact(a.prevDigest, a.act, a.linkFormat, b.prevDigest, b.act, b.linkFormat);
  }

  lemma LastInput(h: Hash, entries: seq<AuditEntry>, first: Text)
    requires entries != [] && Linked(h, entries, first)
    ensures var e := entries[|entries| - 1];
            && LinkPreimage(e.prevDigest, e.act, e.linkFormat).Ok?
            && LinkPreimage(e.prevDigest, e.act, e.linkFormat).value in ChainInputs(entries)
            && HexDigest(h, LinkPreimage(e.prevDigest, e.act, e.linkFormat).value) == e.digest
  {}

  /** Chains that end in one digest end in one link, or collide. */
  lemma {:induction false} ChainsMeet(h: Hash, a: seq<AuditEntry>, firstA: Text, b: seq<AuditEntry>, firstB: Text)
    requires a != [] && b != []
    requires Linked(h, a, firstA) && Linked(h, b, firstB)
    requires a[|a| - 1].digest == b[|b| - 1].digest
    ensures || CollisionAmong(h, ChainInputs(a) + ChainInputs(b))
            || (var x, y := a[|a| - 1], b[|b| - 1];
                SameAct(x.act, y.act) && x.linkFormat == y.linkFormat && x.prevDigest == y.prevDigest)
  {
    hide LinkPreimage, SameAct, ChainInputs;
    var x, y := a[|a| - 1], b[|b| - 1];
    LastInput(h, a, firstA);
    LastInput(h, b, firstB);
    SameLink(h, x, y);
    var two := {LinkPreimage(x.prevDigest, x.act, x.linkFormat).value,
                LinkPreimage(y.prevDigest, y.act, y.linkFormat).value};
    if CollisionAmong(h, two) {
      CollisionMonotone(h, two, ChainInputs(a) + ChainInputs(b));
    }
  }

  lemma HistoryGrows(a: seq<AuditEntry>, b: seq<AuditEntry>)
    requires a != [] && |a| == |b|
    requires SameHistory(a[..|a| - 1], b[..|b| - 1])
    requires var x, y := a[|a| - 1], b[|b| - 1];
             SameAct(x.act, y.act) && x.linkFormat == y.linkFormat && x.prevDigest == y.prevDigest && x.digest == y.digest
    ensures SameHistory(a, b)
  {
    var n := |a| - 1;
    forall i | 0 <= i < |a|
      ensures SameAct(a[i].act, b[i].act) && a[i].linkFormat == b[i].linkFormat
      ensures a[i].prevDigest == b[i].prevDigest && a[i].digest == b[i].digest
    {
      if i < n {
        assert a[i] == a[..n][i] && b[i] == b[..n][i];
      }
    }
  }

  /**
   Two chains of one length with one last digest start from the same digest and record the same
   history, or two of the byte strings hashed to recompute them collide.
   */
  lemma {:induction false} ChainPinsHistory(h: Hash, a: seq<AuditEntry>, firstA: Text, b: seq<AuditEntry>, firstB: Text)
    requires Linked(h, a, firstA) && Linked(h, b, firstB)
    requires |a| == |b|
    requires LastDigest(a, firstA) == LastDigest(b, firstB)
    ensures || (firstA == firstB && SameHistory(a, b))
            || CollisionAmong(h, ChainInputs(a) + ChainInputs(b))
  {
    hide AuditChainDigest, LinkPreimage, SameAct, ChainInputs;
    if a != [] {
      ChainsMeet(h, a, firstA, b, firstB);
      if !CollisionAmong(h, ChainInputs(a) + ChainInputs(b)) {
        var m, n := a[..|a| - 1], b[..|b| - 1];
        LinkedInit(h, a, firstA);
        LinkedInit(h, b, firstB);
        InputsInit(a);
        InputsInit(b);
        ChainPinsHistory(h, m, firstA, n, firstB);
        if CollisionAmong(h, ChainInputs(m) + ChainInputs(n)) {
          CollisionMonotone(h, ChainInputs(m) + ChainInputs(n), ChainInputs(a) + ChainInputs(b));
        }
        HistoryGrows(a, b);
      }
    }
  }

  /** 64 zeros: the predecessor of the first entry. */
  const GENESIS_DIGEST: Text := Zeros(64)

  /** `'0'.repeat(n)` */
  function Zeros(n: nat): Text {
    if n == 0 then [] else ['0' as int] + Zeros(n - 1)
  }

  /** Something hashed has the genesis digest: a preimage of 64 zeros. */
  ghost predicate HitsGenesis(h: Hash, hashed: set<Bytes>) {
    exists x :: x in hashed && HexDigest(h, x) == GENESIS_DIGEST
  }

  /**
   The length is pinned too: two chains from genesis with one last digest record the same history,
   or something hashed on the way collides or hashes to the genesis digest itself.
   */
  lemma {:induction false} GenesisChainPinsHistory(h: Hash, a: seq<AuditEntry>, b: seq<AuditEntry>)
    requires Linked(h, a, GENESIS_DIGEST) && Linked(h, b, GENESIS_DIGEST)
    requires LastDigest(a, GENESIS_DIGEST) == LastDigest(b, GENESIS_DIGEST)
    ensures || SameHistory(a, b)
            || CollisionAmong(h, ChainInputs(a) + ChainInputs(b))
            || HitsGenesis(h, ChainInputs(a) + ChainInputs(b))
    decreases |a| + |b|
  {
    hide AuditChainDigest, LinkPreimage, SameAct, ChainInputs, GENESIS_DIGEST, SameHistory;
    if |a| == |b| {
      ChainPinsHistory(h, a, GENESIS_DIGEST, b, GENESIS_DIGEST);
    } else if a == [] {
      LastInput(h, b, GENESIS_DIGEST);
    } else if b == [] {
      LastInput(h, a, GENESIS_DIGEST);
    } else {
      UnequalChainsMeet(h, a, b);
    }
  }

  lemma {:induction false} UnequalChainsMeet(h: Hash, a: seq<AuditEntry>, b: seq<AuditEntry>)
    requires Linked(h, a, GENESIS_DIGEST) && Linked(h, b, GENESIS_DIGEST)
    requires LastDigest(a, GENESIS_DIGEST) == LastDigest(b, GENESIS_DIGEST)
    requires a != [] && b != [] && |a| != |b|
    ensures || CollisionAmong(h, ChainInputs(a) + ChainInputs(b))
            || HitsGenesis(h, ChainInputs(a) + ChainInputs(b))
    decreases |a| + |b|, 0
  {
    hide AuditChainDigest, LinkPreimage, SameAct, ChainInputs, GENESIS_DIGEST;
    ChainsMeet(h, a, GENESIS_DIGEST, b, GENESIS_DIGEST);
    var all := ChainInputs(a) + ChainInputs(b);
    if !CollisionAmong(h, all) {
      var m, n := a[..|a| - 1], b[..|b| - 1];
      LinkedInit(h, a, GENESIS_DIGEST);
      LinkedInit(h, b, GENESIS_DIGEST);
      InputsInit(a);
      InputsInit(b);
      GenesisChainPinsHistory(h, m, n);
      if CollisionAmong(h, ChainInputs(m) + ChainInputs(n)) {
        CollisionMonotone(h, ChainInputs(m) + ChainInputs(n), all);
      }
    }
  }
}
