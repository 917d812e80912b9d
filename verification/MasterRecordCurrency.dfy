/**
 Whether a master-record claim is still the reader's corpus
 (packages/documents/src/master-record-reading.ts, master-record.ts, master-record-repository.ts):
 the answer from the record of writes, and the whole comparison it stands in for.
 */
module MasterRecordCurrency {
  import opened Texts
  import opened Outcomes
  import opened Hashes
  import opened Utf8
  import opened Canonical
  import opened CanonicalFaithful
  import opened Digests
  import opened MemberDigests
  import opened CorpusDigests

  // --- What the database holds ----------------------------------------------------------------

  /** A record and what the reader's row security, grants, exclusions and holds say of it now. */
  datatype Candidate = Candidate(envelope: Envelope, visible: bool, covered: bool, excluded: bool)

  /** A claim: its header, its item rows and the lists of its manifest. */
  datatype Claim = Claim(
    corpusDigest: Text,
    manifestFormat: Option<Text>,
    items: seq<Entry>,
    manifestIncluded: seq<Member>,
    manifestWithdrawn: seq<Member>)

  /** The row of `content.master_record_currency_delta`: the records the unseen writes named. */
  datatype Delta = Delta(format: Text, objects: seq<Text>)

  function Of(items: seq<Entry>, state: MemberState): seq<Member> {
    if items == [] then []
    else (if items[0].state == state then [items[0].member] else []) + Of(items[1..], state)
  }

  // --- The reader's permitted set -------------------------------------------------------------

  function MemberOf(h: Hash, e: Envelope, f: MemberFormat): Result<Member, CanonicalizationError> {
    var digest :- MemberDigest(h, e, f);
    Ok(Member(e.id, e.objectType, digest, e.classification))
  }

  predicate Asked(id: Text, only: Option<seq<Text>>) {
    only == None || id in only.value
  }

  /** `enumeratePermittedSet`, of every record or of those named. */
  function Enumerate(h: Hash, world: seq<Candidate>, f: MemberFormat, only: Option<seq<Text>>):
    Result<seq<Member>, CanonicalizationError>
  {
    if world == [] then Ok([])
    else
      var rest :- Enumerate(h, world[1..], f, only);
      Admit(h, world[0], f, only, rest)
  }

  /** A record row security shows is digested; it is kept when a grant covers it and nothing excludes it. */
  function Admit(h: Hash, c: Candidate, f: MemberFormat, only: Option<seq<Text>>, rest: seq<Member>):
    Result<seq<Member>, CanonicalizationError>
  {
    if c.visible && Asked(c.envelope.id, only) then
      var member :- MemberOf(h, c.envelope, f);
      Ok(if !c.excluded && c.covered then [member] + rest else rest)
    else Ok(rest)
  }

  function Among(members: seq<Member>, ids: seq<Text>): seq<Member> {
    if members == [] then []
    else (if members[0].objectId in ids then [members[0]] else []) + Among(members[1..], ids)
  }

  function Outside(members: seq<Member>, ids: seq<Text>): seq<Member> {
    if members == [] then []
    else (if members[0].objectId in ids then [] else [members[0]]) + Outside(members[1..], ids)
  }

  // --- The whole comparison -------------------------------------------------------------------

  const NUL: Unit := 0

  /** `memberKey` */
  function MemberKey(m: Member): Text {
    Join([m.objectId, m.objectType, m.contentDigest], NUL)
  }

  function KeysOf(members: seq<Member>): set<Text> {
    set i | 0 <= i < |members| :: MemberKey(members[i])
  }

  datatype Violation = OverDisclosure(keys: set<Text>) | UnderDisclosure(keys: set<Text>) | DigestMoved

  /** `assertPermissionSetInvariant`: what it throws, if anything. */
  function Violated(h: Hash, digest: Text, included: seq<Member>, withdrawn: seq<Member>, permitted: seq<Member>):
    Option<Violation>
  {
    var over, under := KeysOf(included) - KeysOf(permitted), KeysOf(permitted) - KeysOf(included);
    if over != {} then Some(OverDisclosure(over))
    else if under != {} then Some(UnderDisclosure(under))
    else if CorpusDigest(h, permitted, withdrawn) != digest then Some(DigestMoved)
    else None
  }

  datatype Source = Items(format: Text) | Manifest(included: seq<Member>, withdrawn: seq<Member>)

  datatype Basis = Recorded | Rechecked | Compared

  datatype Currency =
    | Current(basis: Basis, memberFormat: MemberFormat, members: Source)
    | Stale(currentCorpusDigest: Text)

  datatype Fault = UnknownManifestFormat | Uncanonical(error: CanonicalizationError)

  /** The item rows reproduce the claim's recorded digest. */
  predicate Reproduces(h: Hash, claim: Claim) {
    CorpusDigest(h, Of(claim.items, Included), Of(claim.items, Withdrawn)) == claim.corpusDigest
  }

  /** Enumerate the reader's corpus and compare it with the claim: the end of `masterRecordCurrency`. */
  function CompareWhole(h: Hash, world: seq<Candidate>, claim: Claim): Result<Currency, Fault> {
    match FormatOf(claim.manifestFormat)
    case None => Err(UnknownManifestFormat)
    case Some(f) =>
      match Enumerate(h, world, f, None)
      case Err(error) => Err(Uncanonical(error))
      case Ok(permitted) =>
        var members := if Reproduces(h, claim) then Items(claim.manifestFormat.value)
                       else Manifest(claim.manifestIncluded, claim.manifestWithdrawn);
        var included := if members.Items? then Of(claim.items, Included) else members.included;
        var withdrawn := if members.Items? then Of(claim.items, Withdrawn) else members.withdrawn;
        if Violated(h, claim.corpusDigest, included, withdrawn, permitted).Some?
        then Ok(Stale(CorpusDigest(h, permitted, withdrawn)))
        else Ok(Current(Compared, f, members))
  }

  // --- The answer from the record of writes ---------------------------------------------------

  /** `new Map(claimed.map((row) => [row.object_id, row.content_digest]))` */
  function Held(claimed: seq<Member>): map<Text, Text> {
    if claimed == [] then map[]
    else map[claimed[0].objectId := claimed[0].contentDigest] + Held(claimed[1..])
  }

  predicate SameAmong(live: seq<Member>, held: map<Text, Text>) {
    && |live| == |held|
    && forall i :: 0 <= i < |live| ==> live[i].objectId in held && held[live[i].objectId] == live[i].contentDigest
  }

  /** `claimMovedAmong`: the live members among `ids`, unless they are as the claim holds them. */
  function ClaimMovedAmong(h: Hash, world: seq<Candidate>, claim: Claim, f: MemberFormat, ids: seq<Text>):
    Result<Option<seq<Member>>, CanonicalizationError>
  {
    var live :- Enumerate(h, world, f, Some(ids));
    Ok(if SameAmong(live, Held(Among(Of(claim.items, Included), ids))) then None else Some(live))
  }

  datatype Known =
    | NoAnswer
    | KnownCurrent(basis: Basis, format: Text)
    | KnownMoved(rechecked: seq<Text>, live: seq<Member>)

  /** `currencyFromRecord` */
  function CurrencyFromRecord(h: Hash, world: seq<Candidate>, claim: Claim, delta: Option<Delta>): Result<Known, Fault> {
    match delta
    case None => Ok(NoAnswer)
    case Some(Delta(format, objects)) =>
      if objects == [] then Ok(KnownCurrent(Recorded, format))
      else match FormatOf(Some(format))
        case None => Err(UnknownManifestFormat)
        case Some(f) =>
          match ClaimMovedAmong(h, world, claim, f, objects)
          case Err(error) => Err(Uncanonical(error))
          case Ok(None) => Ok(KnownCurrent(Rechecked, format))
          case Ok(Some(live)) => Ok(KnownMoved(objects, live))
  }

  /** `masterRecordCurrency` */
  function Answer(h: Hash, world: seq<Candidate>, claim: Claim, delta: Option<Delta>): Result<Currency, Fault> {
    var known :- CurrencyFromRecord(h, world, claim, delta);
    match known
    case NoAnswer => CompareWhole(h, world, claim)
    case KnownCurrent(basis, format) =>
      (match FormatOf(Some(format))
       case None => Err(UnknownManifestFormat)
       case Some(f) => Ok(Current(basis, f, Items(format))))
    case KnownMoved(rechecked, live) =>
      if Reproduces(h, claim) then
        Ok(Stale(CorpusDigest(h, Outside(Of(claim.items, Included), rechecked) + live, Of(claim.items, Withdrawn))))
      else CompareWhole(h, world, claim)
  }

  // --- Filtering by record --------------------------------------------------------------------

  ghost predicate DistinctIds(members: seq<Member>) {
    forall i, j :: 0 <= i < j < |members| ==> members[i].objectId != members[j].objectId
  }

  lemma {:induction false} AmongMembers(members: seq<Member>, ids: seq<Text>, m: Member)
    ensures m in Among(members, ids) <==> m in members && m.objectId in ids
  {
    if members != [] {
      assert members == [members[0]] + members[1..];
      AmongMembers(members[1..], ids, m);
    }
  }

  lemma ConsDistinct(m: Member, rest: seq<Member>)
    requires DistinctIds(rest)
    requires forall x :: x in rest ==> x.objectId != m.objectId
    ensures DistinctIds([m] + rest)
  {}

  lemma {:induction false} AmongDistinct(members: seq<Member>, ids: seq<Text>)
    requires DistinctIds(members)
    ensures DistinctIds(Among(members, ids))
  {
    if members != [] {
      var rest := Among(members[1..], ids);
      AmongDistinct(members[1..], ids);
      forall x | x in rest ensures x.objectId != members[0].objectId {
        AmongMembers(members[1..], ids, x);
      }
      ConsDistinct(members[0], rest);
    }
  }

  /** The records named and the rest make up the whole. */
  lemma {:induction false} SplitMembers(members: seq<Member>, ids: seq<Text>)
    ensures multiset(members) == multiset(Outside(members, ids)) + multiset(Among(members, ids))
  {
    if members != [] {
      assert members == [members[0]] + members[1..];
      SplitMembers(members[1..], ids);
    }
  }

  // --- Enumerating ----------------------------------------------------------------------------

  lemma AmongCons(m: Member, rest: seq<Member>, ids: seq<Text>)
    ensures Among([m] + rest, ids) == (if m.objectId in ids then [m] else []) + Among(rest, ids)
  {
    assert ([m] + rest)[1..] == rest;
  }

  lemma MemberNames(h: Hash, e: Envelope, f: MemberFormat)
    requires MemberOf(h, e, f).Ok?
    ensures MemberOf(h, e, f).value.objectId == e.id
  {
    hide MemberDigest;
  }

  lemma AdmitRestricted(h: Hash, c: Candidate, f: MemberFormat, ids: seq<Text>, rest: seq<Member>)
    requires Admit(h, c, f, None, rest).Ok?
    ensures Admit(h, c, f, Some(ids), Among(rest, ids)) == Ok(Among(Admit(h, c, f, None, rest).value, ids))
  {
    hide MemberOf, Among;
    if c.visible {
      MemberNames(h, c.envelope, f);
      AmongCons(MemberOf(h, c.envelope, f).value, rest, ids);
      assert [] + Among(rest, ids) == Among(rest, ids);
    }
  }

  /** Restricting the enumeration to some records keeps exactly those of the whole. */
  lemma {:induction false} RestrictedIsAmong(h: Hash, world: seq<Candidate>, f: MemberFormat, ids: seq<Text>)
    requires Enumerate(h, world, f, None).Ok?
    ensures Enumerate(h, world, f, Some(ids)) == Ok(Among(Enumerate(h, world, f, None).value, ids))
  {
    if world != [] {
      hide Admit, Among;
      RestrictedIsAmong(h, world[1..], f, ids);
      AdmitRestricted(h, world[0], f, ids, Enumerate(h, world[1..], f, None).value);
    }
  }

  /** A record the reader may be shown: seen, covered by a grant, neither excluded nor held. */
  predicate Permitted(c: Candidate) {
    c.visible && c.covered && !c.excluded
  }

  ghost predicate IsPermitted(h: Hash, world: seq<Candidate>, f: MemberFormat, only: Option<seq<Text>>, m: Member) {
    exists i :: 0 <= i < |world| && IsMemberOf(h, world[i], f, only, m)
  }

  ghost predicate IsMemberOf(h: Hash, c: Candidate, f: MemberFormat, only: Option<seq<Text>>, m: Member) {
    && Permitted(c) && (only == None || c.envelope.id in only.value)
    && MemberOf(h, c.envelope, f) == Ok(m)
  }

  lemma AdmitExactly(h: Hash, c: Candidate, f: MemberFormat, only: Option<seq<Text>>, rest: seq<Member>, m: Member)
    requires Admit(h, c, f, only, rest).Ok?
    ensures m in Admit(h, c, f, only, rest).value <==> IsMemberOf(h, c, f, only, m) || m in rest
  {
    hide MemberOf;
  }

  /** The enumeration holds exactly the members of the records the reader may be shown, of those asked for. */
  lemma {:induction false} PermittedExactly(h: Hash, world: seq<Candidate>, f: MemberFormat, only: Option<seq<Text>>, m: Member)
    requires Enumerate(h, world, f, only).Ok?
    ensures m in Enumerate(h, world, f, only).value <==> IsPermitted(h, world, f, only, m)
  {
    hide Admit, IsMemberOf;
    if world != [] {
      var rest := Enumerate(h, world[1..], f, only).value;
      PermittedExactly(h, world[1..], f, only, m);
      AdmitExactly(h, world[0], f, only, rest, m);
      assert forall i :: 0 < i < |world| ==> world[i] == world[1..][i - 1];
      if IsPermitted(h, world[1..], f, only, m) {
        var i :| 0 <= i < |world| - 1 && IsMemberOf(h, world[1..][i], f, only, m);
        assert IsMemberOf(h, world[i + 1], f, only, m);
      }
    }
  }

  /** The record is seen and asked for, so it is digested, whatever grants and exclusions then say. */
  predicate IsDigested(c: Candidate, only: Option<seq<Text>>) {
    c.visible && (only == None || c.envelope.id in only.value)
  }

  /** The enumeration fails exactly when a record that is digested has no digest. */
  lemma {:induction false} EnumerateFails(h: Hash, world: seq<Candidate>, f: MemberFormat, only: Option<seq<Text>>)
    ensures Enumerate(h, world, f, only).Ok? <==>
            forall i :: 0 <= i < |world| && IsDigested(world[i], only) ==> MemberPreimage(world[i].envelope, f).Ok?
  {
    hide MemberPreimage, HexDigest;
    if world != [] {
      EnumerateFails(h, world[1..], f, only);
      assert forall i :: 0 < i < |world| ==> world[i] == world[1..][i - 1];
      if forall i :: 0 <= i < |world| - 1 && IsDigested(world[1..][i], only) ==> MemberPreimage(world[1..][i].envelope, f).Ok? {
        assert forall i :: 0 < i < |world| && IsDigested(world[i], only) ==> MemberPreimage(world[i].envelope, f).Ok?;
      }
    }
  }

  ghost predicate DistinctRecords(world: seq<Candidate>) {
    forall i, j :: 0 <= i < j < |world| ==> world[i].envelope.id != world[j].envelope.id
  }

  /** Each permitted member is what its record's envelope gives. */
  lemma {:induction false} PermittedFrom(h: Hash, world: seq<Candidate>, f: MemberFormat, m: Member)
    requires Enumerate(h, world, f, None).Ok? && m in Enumerate(h, world, f, None).value
    ensures exists i :: 0 <= i < |world| && MemberOf(h, world[i].envelope, f) == Ok(m)
  {
    var rest := Enumerate(h, world[1..], f, None).value;
    if m in rest {
      PermittedFrom(h, world[1..], f, m);
      var i :| 0 <= i < |world| - 1 && MemberOf(h, world[1..][i].envelope, f) == Ok(m);
      assert world[i + 1] == world[1..][i];
    } else {
      assert MemberOf(h, world[0].envelope, f) == Ok(m);
    }
  }

  lemma {:induction false} PermittedDistinct(h: Hash, world: seq<Candidate>, f: MemberFormat)
    requires Enumerate(h, world, f, None).Ok? && DistinctRecords(world)
    ensures DistinctIds(Enumerate(h, world, f, None).value)
  {
    hide MemberDigest;
    if world != [] {
      PermittedDistinct(h, world[1..], f);
      var rest := Enumerate(h, world[1..], f, None).value;
      forall x | x in rest ensures x.objectId != world[0].envelope.id {
        PermittedFrom(h, world[1..], f, x);
      }
      if MemberOf(h, world[0].envelope, f).Ok? {
        ConsDistinct(MemberOf(h, world[0].envelope, f).value, rest);
      }
    }
  }

  // --- Lists without repetition ---------------------------------------------------------------

  ghost function Ids(members: seq<Member>): set<Text> {
    set i | 0 <= i < |members| :: members[i].objectId
  }

  lemma IdsTail(members: seq<Member>)
    requires members != []
    ensures Ids(members) == {members[0].objectId} + Ids(members[1..])
  {
    var tail := members[1..];
    forall id | id in Ids(members) ensures id in {members[0].objectId} + Ids(tail) {
      var i :| 0 <= i < |members| && members[i].objectId == id;
      if i > 0 {
        assert tail[i - 1] == members[i];
      }
    }
    forall id | id in Ids(tail) ensures id in Ids(members) {
      var i :| 0 <= i < |tail| && tail[i].objectId == id;
      assert members[i + 1] == tail[i];
    }
  }

  lemma DistinctTail(members: seq<Member>)
    requires members != [] && DistinctIds(members)
    ensures DistinctIds(members[1..]) && members[0].objectId !in Ids(members[1..])
  {}

  lemma {:induction false} IdCount(members: seq<Member>)
    requires DistinctIds(members)
    ensures |Ids(members)| == |members|
  {
    if members != [] {
      IdsTail(members);
      DistinctTail(members);
      IdCount(members[1..]);
    }
  }

  /** What the claim holds of each record: one digest per record. */
  lemma {:induction false} HeldExact(claimed: seq<Member>)
    requires DistinctIds(claimed)
    ensures Held(claimed).Keys == Ids(claimed)
    ensures forall i :: 0 <= i < |claimed| ==>
              claimed[i].objectId in Held(claimed) && Held(claimed)[claimed[i].objectId] == claimed[i].contentDigest
  {
    if claimed != [] {
      DistinctTail(claimed);
      IdsTail(claimed);
      HeldExact(claimed[1..]);
      hide Ids, DistinctIds;
      forall i | 0 <= i < |claimed|
        ensures claimed[i].objectId in Held(claimed)
        ensures Held(claimed)[claimed[i].objectId] == claimed[i].contentDigest
      {
        if i > 0 {
          assert claimed[i] == claimed[1..][i - 1];
        }
      }
    }
  }

  lemma DistinctOnce(members: seq<Member>, m: Member)
    requires DistinctIds(members)
    ensures multiset(members)[m] <= 1
  {
    if m in members {
      var i :| 0 <= i < |members| && members[i] == m;
      var before, after := members[..i], members[i + 1..];
      assert members == before + [m] + after;
      assert m !in before && m !in after;
      assert multiset(members) == multiset(before) + multiset{m} + multiset(after);
    } else {
      assert m !in multiset(members);
    }
  }

  /** Lists without repetition, of one length, one within the other: one list rearranged. */
  lemma Rearranged(a: seq<Member>, b: seq<Member>)
    requires DistinctIds(a) && DistinctIds(b) && |a| == |b|
    requires forall m :: m in a ==> m in b
    ensures multiset(a) == multiset(b)
  {
    forall m ensures multiset(a)[m] <= multiset(b)[m] {
      DistinctOnce(a, m);
      if m in a {
        assert m in multiset(b);
      } else {
        assert m !in multiset(a);
      }
    }
    assert multiset(a) <= multiset(b);
    assert |multiset(b) - multiset(a)| == |multiset(b)| - |multiset(a)| == 0;
    assert multiset(b) == multiset(a) + (multiset(b) - multiset(a));
  }

  // --- The record of writes agrees with the whole comparison -----------------------------------

  /** No NUL in what a member key is made of: text in the database cannot carry one. */
  ghost predicate Keyed(m: Member) {
    NUL !in m.objectId && NUL !in m.objectType && NUL !in m.contentDigest
  }

  ghost predicate AllKeyed(members: seq<Member>) {
    forall i :: 0 <= i < |members| ==> Keyed(members[i])
  }

  lemma KeyInjective(m: Member, n: Member)
    requires Keyed(m) && Keyed(n) && MemberKey(m) == MemberKey(n)
    ensures m.(classification := []) == n.(classification := [])
  {
    var p, q := [m.objectId, m.objectType, m.contentDigest], [n.objectId, n.objectType, n.contentDigest];
    JoinInjective(p, q, NUL);
    assert p[0] == q[0] && p[1] == q[1] && p[2] == q[2];
  }

  lemma KeysFollow(a: seq<Member>, b: seq<Member>)
    requires multiset(a) == multiset(b)
    ensures KeysOf(a) <= KeysOf(b)
  {
    forall k | k in KeysOf(a) ensures k in KeysOf(b) {
      var i :| 0 <= i < |a| && MemberKey(a[i]) == k;
      assert a[i] in multiset(b);
      var j :| 0 <= j < |b| && b[j] == a[i];
    }
  }

  /** What the schema holds of every member: ASCII fields without separators. */
  ghost predicate AllPlain(members: seq<Member>) {
    forall i :: 0 <= i < |members| ==> PlainMember(members[i])
  }

  lemma PlainBoth(included: seq<Member>, withdrawn: seq<Member>)
    requires AllPlain(included) && AllPlain(withdrawn)
    ensures PlainEntries(Entries(included, withdrawn))
  {}

  /** Rearranging a corpus leaves its digest. */
  lemma SameDigest(h: Hash, a: seq<Member>, b: seq<Member>, w: seq<Member>)
    requires multiset(a) == multiset(b)
    ensures CorpusDigest(h, a, w) == CorpusDigest(h, b, w)
  {
    hide CorpusDigest;
    EntriesMultiset(a, b, w);
    CorpusDigestOrderFree(h, a, b, w, w);
  }

  lemma SameMembersHold(h: Hash, included: seq<Member>, withdrawn: seq<Member>, permitted: seq<Member>)
    requires multiset(included) == multiset(permitted)
    ensures Violated(h, CorpusDigest(h, included, withdrawn), included, withdrawn, permitted) == None
  {
    hide CorpusDigest, KeysOf;
    KeysFollow(included, permitted);
    KeysFollow(permitted, included);
    SameDigest(h, included, permitted, withdrawn);
  }

  /**
   The invariant a served claim passes: exactly the permitted members, classification included, or
   the two corpora's sheets collide. The comparison by key alone does not see a reclassification.
   */
  lemma {:induction false} InvariantExact(h: Hash, included: seq<Member>, withdrawn: seq<Member>, permitted: seq<Member>)
    requires AllPlain(included) && AllPlain(withdrawn) && AllPlain(permitted)
    ensures Violated(h, CorpusDigest(h, included, withdrawn), included, withdrawn, permitted) == None ==>
              || multiset(included) == multiset(permitted)
              || CollisionAmong(h, {Encode(Sheet(Entries(permitted, withdrawn))), Encode(Sheet(Entries(included, withdrawn)))})
    ensures multiset(included) == multiset(permitted) ==>
              Violated(h, CorpusDigest(h, included, withdrawn), included, withdrawn, permitted) == None
  {
    hide CorpusDigest, KeysOf, AllPlain, Sheet, Entries, CollisionAmong;
    if multiset(included) == multiset(permitted) {
      SameMembersHold(h, included, withdrawn, permitted);
    }
    PlainBoth(included, withdrawn);
    PlainBoth(permitted, withdrawn);
    CorpusDigestExact(h, permitted, included, withdrawn, withdrawn);
    if multiset(Entries(permitted, withdrawn)) == multiset(Entries(included, withdrawn)) {
      EntriesCancel(permitted, included, withdrawn);
    }
  }

  /** A member of `a` that `b` has nothing under the key of. */
  ghost predicate Missing(a: seq<Member>, b: seq<Member>, key: Text) {
    && (exists i :: 0 <= i < |a| && MemberKey(a[i]) == key)
    && forall j :: 0 <= j < |b| ==> MemberKey(b[j]) != key
  }

  lemma MissingKeys(a: seq<Member>, b: seq<Member>, key: Text)
    ensures key in KeysOf(a) - KeysOf(b) <==> Missing(a, b, key)
  {
    hide MemberKey;
  }

  /** A member's key: its record, type and digest, with a NUL between them. */
  lemma KeyText(m: Member)
    ensures MemberKey(m) == m.objectId + [0] + m.objectType + [0] + m.contentDigest
  {
    var parts := [m.objectId, m.objectType, m.contentDigest];
    assert parts[1..] == [m.objectType, m.contentDigest] && parts[1..][1..] == [m.contentDigest];
    assert Join(parts[1..], NUL) == m.objectType + [0] + m.contentDigest;
  }

  /**
   What the invariant throws: over-disclosure for the members the reader is not permitted, before
   under-disclosure for permitted members left out, before a digest that is not the recorded one.
   */
  lemma {:induction false} ViolationExactly(h: Hash, digest: Text, included: seq<Member>, withdrawn: seq<Member>, permitted: seq<Member>)
    ensures var v := Violated(h, digest, included, withdrawn, permitted);
            var over, under := exists k :: Missing(included, permitted, k), exists k :: Missing(permitted, included, k);
            && (over <==> v.Some? && v.value.OverDisclosure?)
            && (!over && under <==> v.Some? && v.value.UnderDisclosure?)
            && (over ==> forall k :: k in v.value.keys <==> Missing(included, permitted, k))
            && (!over && under ==> forall k :: k in v.value.keys <==> Missing(permitted, included, k))
            && (!over && !under ==> (v == None <==> CorpusDigest(h, permitted, withdrawn) == digest))
  {
    var over, under := KeysOf(included) - KeysOf(permitted), KeysOf(permitted) - KeysOf(included);
    forall k ensures k in over <==> Missing(included, permitted, k) {
      MissingKeys(included, permitted, k);
    }
    forall k ensures k in under <==> Missing(permitted, included, k) {
      MissingKeys(permitted, included, k);
    }
    hide KeysOf, Missing, CorpusDigest;
    if k :| k in over {
      assert Missing(included, permitted, k);
    }
    if k :| k in under {
      assert Missing(permitted, included, k);
    }
  }

  /** Passing the invariant means no key on either side alone. */
  lemma HeldKeysAgree(h: Hash, digest: Text, included: seq<Member>, withdrawn: seq<Member>, permitted: seq<Member>)
    requires Violated(h, digest, included, withdrawn, permitted) == None
    ensures KeysOf(included) == KeysOf(permitted)
  {
    hide CorpusDigest, KeysOf;
    var i, p := KeysOf(included), KeysOf(permitted);
    assert i - p == {} && p - i == {};
    assert forall k :: k in i ==> k !in i - p;
    assert forall k :: k in p ==> k !in p - i;
  }

  lemma KeyPartner(a: seq<Member>, b: seq<Member>, m: Member)
    requires KeysOf(a) <= KeysOf(b) && AllKeyed(a) && AllKeyed(b) && m in a
    ensures exists n :: n in b && m.(classification := []) == n.(classification := [])
  {
    var i :| 0 <= i < |a| && a[i] == m;
    hide MemberKey, Keyed;
    assert MemberKey(m) in KeysOf(b);
    var j :| 0 <= j < |b| && MemberKey(b[j]) == MemberKey(m);
    KeyInjective(m, b[j]);
    assert b[j] in b;
  }

  lemma IdsFollow(a: seq<Member>, b: seq<Member>, ids: seq<Text>)
    requires KeysOf(a) <= KeysOf(b) && AllKeyed(a) && AllKeyed(b)
    ensures Ids(Among(a, ids)) <= Ids(Among(b, ids))
  {
    hide KeysOf, AllKeyed, Among;
    forall id | id in Ids(Among(a, ids)) ensures id in Ids(Among(b, ids)) {
      var i :| 0 <= i < |Among(a, ids)| && Among(a, ids)[i].objectId == id;
      AmongMembers(a, ids, Among(a, ids)[i]);
      KeyPartner(a, b, Among(a, ids)[i]);
      var n :| n in b && Among(a, ids)[i].(classification := []) == n.(classification := []);
      AmongMembers(b, ids, n);
      var j :| 0 <= j < |Among(b, ids)| && Among(b, ids)[j] == n;
    }
  }

  /** When every key agrees, the records named are as the claim holds them. */
  lemma KeysAgreeAmong(permitted: seq<Member>, included: seq<Member>, ids: seq<Text>)
    requires DistinctIds(permitted) && DistinctIds(included)
    requires AllKeyed(permitted) && AllKeyed(included) && KeysOf(permitted) == KeysOf(included)
    ensures SameAmong(Among(permitted, ids), Held(Among(included, ids)))
  {
    hide Among, Held, Ids, KeysOf, DistinctIds, AllKeyed;
    var live, claimed := Among(permitted, ids), Among(included, ids);
    AmongDistinct(permitted, ids);
    AmongDistinct(included, ids);
    IdsFollow(permitted, included, ids);
    IdsFollow(included, permitted, ids);
    assert Ids(live) == Ids(claimed);
    IdCount(live);
    IdCount(claimed);
    HeldCount(claimed);
    forall i | 0 <= i < |live|
      ensures live[i].objectId in Held(claimed) && Held(claimed)[live[i].objectId] == live[i].contentDigest
    {
      LiveHeld(permitted, included, ids, i);
    }
  }

  lemma HeldCount(claimed: seq<Member>)
    requires DistinctIds(claimed)
    ensures |Held(claimed)| == |claimed|
  {
    HeldExact(claimed);
    IdCount(claimed);
    hide Ids, DistinctIds;
    assert |Held(claimed)| == |Held(claimed).Keys|;
  }

  lemma LiveHeld(permitted: seq<Member>, included: seq<Member>, ids: seq<Text>, i: nat)
    requires DistinctIds(included) && i < |Among(permitted, ids)|
    requires AllKeyed(permitted) && AllKeyed(included) && KeysOf(permitted) == KeysOf(included)
    ensures var live, held := Among(permitted, ids), Held(Among(included, ids));
            live[i].objectId in held && held[live[i].objectId] == live[i].contentDigest
  {
    hide KeysOf, AllKeyed, DistinctIds, Held, Among;
    var m, claimed := Among(permitted, ids)[i], Among(included, ids);
    AmongMembers(permitted, ids, m);
    KeyPartner(permitted, included, m);
    var n :| n in included && m.(classification := []) == n.(classification := []);
    AmongMembers(included, ids, n);
    var j :| 0 <= j < |claimed| && claimed[j] == n;
    AmongDistinct(included, ids);
    HeldExact(claimed);
    assert claimed[j].objectId == m.objectId && claimed[j].contentDigest == m.contentDigest;
  }

  // --- Digests stand for members ---------------------------------------------------------------

  /** The claim's members were compiled from `origin` under `f`. */
  ghost predicate CompiledFrom(h: Hash, included: seq<Member>, origin: seq<Envelope>, f: MemberFormat) {
    && |included| == |origin|
    && forall i :: 0 <= i < |included| ==> WellFormed(origin[i].content) && MemberOf(h, origin[i], f) == Ok(included[i])
  }

  ghost predicate WellFormedWorld(world: seq<Candidate>) {
    forall i :: 0 <= i < |world| ==> WellFormed(world[i].envelope.content)
  }

  function Envelopes(world: seq<Candidate>): (es: seq<Envelope>)
    ensures |es| == |world|
    ensures forall i :: 0 <= i < |es| ==> es[i] == world[i].envelope
  {
    seq(|world|, i requires 0 <= i < |world| => world[i].envelope)
  }

  /** The byte strings hashed to digest these envelopes. */
  ghost function MemberInputs(es: seq<Envelope>, f: MemberFormat): set<Bytes> {
    set i | 0 <= i < |es| && MemberPreimage(es[i], f).Ok? :: MemberPreimage(es[i], f).value
  }

  lemma InputOf(es: seq<Envelope>, f: MemberFormat, i: nat)
    requires i < |es| && MemberPreimage(es[i], f).Ok?
    ensures MemberPreimage(es[i], f).value in MemberInputs(es, f)
  {}

  lemma OfRevision(h: Hash, a: Envelope, b: Envelope, f: MemberFormat)
    requires WellFormed(a.content) && WellFormed(b.content)
    requires MemberOf(h, a, f).Ok? && MemberOf(h, b, f).Ok?
    requires MemberOf(h, a, f).value.contentDigest == MemberOf(h, b, f).value.contentDigest
    ensures MemberPreimage(a, f).Ok? && MemberPreimage(b, f).Ok?
    ensures || MemberOf(h, a, f) == MemberOf(h, b, f)
            || CollisionAmong(h, {MemberPreimage(a, f).value, MemberPreimage(b, f).value})
  {
    hide MemberPreimage, CollisionAmong, WellFormed, HexDigest, Equivalent;
    MemberDigestExact(h, a, f, b, f);
  }

  /** Members with one digest are one member, or their preimages collide. */
  lemma DigestNamesMember(h: Hash, world: seq<Candidate>, origin: seq<Envelope>, f: MemberFormat, i: nat, j: nat)
    requires WellFormedWorld(world) && i < |world| && j < |origin| && WellFormed(origin[j].content)
    requires MemberOf(h, world[i].envelope, f).Ok? && MemberOf(h, origin[j], f).Ok?
    requires MemberOf(h, world[i].envelope, f).value.contentDigest == MemberOf(h, origin[j], f).value.contentDigest
    ensures || MemberOf(h, world[i].envelope, f) == MemberOf(h, origin[j], f)
            || CollisionAmong(h, MemberInputs(Envelopes(world), f) + MemberInputs(origin, f))
  {
    var a, b := world[i].envelope, origin[j];
    hide MemberOf, MemberPreimage, CollisionAmong, WellFormed, MemberInputs;
    OfRevision(h, a, b, f);
    InputOf(Envelopes(world), f, i);
    InputOf(origin, f, j);
    if CollisionAmong(h, {MemberPreimage(a, f).value, MemberPreimage(b, f).value}) {
      CollisionMonotone(h, {MemberPreimage(a, f).value, MemberPreimage(b, f).value},
                        MemberInputs(Envelopes(world), f) + MemberInputs(origin, f));
    }
  }

  /** A live member whose digest the claim holds is the member the claim holds. */
  lemma LiveIsClaimed(h: Hash, world: seq<Candidate>, f: MemberFormat, included: seq<Member>, origin: seq<Envelope>,
                      m: Member, n: Member)
    requires WellFormedWorld(world) && CompiledFrom(h, included, origin, f)
    requires Enumerate(h, world, f, None).Ok? && m in Enumerate(h, world, f, None).value
    requires n in included && m.contentDigest == n.contentDigest
    ensures m == n || CollisionAmong(h, MemberInputs(Envelopes(world), f) + MemberInputs(origin, f))
  {
    hide Enumerate, MemberOf, WellFormed, CollisionAmong, MemberInputs;
    PermittedFrom(h, world, f, m);
    var i :| 0 <= i < |world| && MemberOf(h, world[i].envelope, f) == Ok(m);
    var j :| 0 <= j < |included| && included[j] == n;
    DigestNamesMember(h, world, origin, f, i, j);
  }

  lemma HeldMember(claimed: seq<Member>, id: Text)
    requires DistinctIds(claimed) && id in Held(claimed)
    ensures exists n :: n in claimed && n.objectId == id && n.contentDigest == Held(claimed)[id]
  {
    HeldExact(claimed);
    var j :| 0 <= j < |claimed| && claimed[j].objectId == id;
    assert claimed[j] in claimed;
  }

  /** The records named are as the claim holds them only if they are its members, or digests collide. */
  lemma AmongRearranged(h: Hash, world: seq<Candidate>, f: MemberFormat, included: seq<Member>, origin: seq<Envelope>,
                        ids: seq<Text>)
    requires WellFormedWorld(world) && DistinctRecords(world)
    requires CompiledFrom(h, included, origin, f) && DistinctIds(included)
    requires Enumerate(h, world, f, None).Ok?
    requires SameAmong(Among(Enumerate(h, world, f, None).value, ids), Held(Among(included, ids)))
    ensures || multiset(Among(Enumerate(h, world, f, None).value, ids)) == multiset(Among(included, ids))
            || CollisionAmong(h, MemberInputs(Envelopes(world), f) + MemberInputs(origin, f))
  {
    hide Enumerate, WellFormedWorld, CompiledFrom, CollisionAmong, Among, DistinctRecords, DistinctIds, Held, MemberInputs;
    var permitted := Enumerate(h, world, f, None).value;
    var live, claimed := Among(permitted, ids), Among(included, ids);
    PermittedDistinct(h, world, f);
    AmongDistinct(permitted, ids);
    AmongDistinct(included, ids);
    HeldCount(claimed);
    if !CollisionAmong(h, MemberInputs(Envelopes(world), f) + MemberInputs(origin, f)) {
      forall m | m in live ensures m in claimed {
        AmongMembers(permitted, ids, m);
        var i :| 0 <= i < |live| && live[i] == m;
        HeldMember(claimed, m.objectId);
        var n :| n in claimed && n.objectId == m.objectId && n.contentDigest == Held(claimed)[m.objectId];
        AmongMembers(included, ids, n);
        LiveIsClaimed(h, world, f, included, origin, m, n);
      }
      Rearranged(live, claimed);
    }
  }

  // --- Main results ---------------------------------------------------------------------------

  /** What the schema holds of a corpus's members. */
  ghost predicate SchemaHolds(members: seq<Member>) {
    DistinctIds(members) && AllKeyed(members)
  }

  /**
   What the record of writes promises of the records it did not name: the reader's permitted set and
   the claim hold the same members among them.
   */
  ghost predicate OnlyNamedMoved(permitted: seq<Member>, included: seq<Member>, objects: seq<Text>) {
    multiset(Outside(permitted, objects)) == multiset(Outside(included, objects))
  }

  lemma OutsideAll(members: seq<Member>)
    ensures Outside(members, []) == members
  {
    if members != [] {
      OutsideAll(members[1..]);
    }
  }

  /** The corpus with the named records replaced by what they are now is the corpus as it is now. */
  lemma Replaced(permitted: seq<Member>, included: seq<Member>, objects: seq<Text>)
    requires OnlyNamedMoved(permitted, included, objects)
    ensures multiset(Outside(included, objects) + Among(permitted, objects)) == multiset(permitted)
    ensures multiset(Among(permitted, objects)) == multiset(Among(included, objects)) ==>
              multiset(included) == multiset(permitted)
  {
    hide Outside, Among;
    SplitMembers(permitted, objects);
    SplitMembers(included, objects);
  }

  /** The whole comparison, for a claim whose item rows reproduce it. */
  lemma CompareReproduced(h: Hash, world: seq<Candidate>, claim: Claim, f: MemberFormat)
    requires FormatOf(claim.manifestFormat) == Some(f) && Reproduces(h, claim)
    requires Enumerate(h, world, f, None).Ok?
    ensures var permitted := Enumerate(h, world, f, None).value;
            var included, withdrawn := Of(claim.items, Included), Of(claim.items, Withdrawn);
            CompareWhole(h, world, claim) ==
            Ok(if Violated(h, claim.corpusDigest, included, withdrawn, permitted).Some?
               then Stale(CorpusDigest(h, permitted, withdrawn))
               else Current(Compared, f, Items(claim.manifestFormat.value)))
  {
    hide Enumerate, Violated, CorpusDigest, FormatOf;
  }

  /**
   The answer from the record of writes refines the whole comparison. When only named records moved
   and the item rows reproduce the claim: whatever the comparison finds current is answered current;
   a stale answer is found stale by the comparison and carries the very digest it reports; and a
   current answer is found current by the comparison, or two of the byte strings hashed into member
   digests collide.
   */
  lemma {:induction false} RecordRefinesComparison(
    h: Hash, world: seq<Candidate>, claim: Claim, delta: Delta, f: MemberFormat, origin: seq<Envelope>)
    requires claim.manifestFormat == Some(delta.format) && FormatOf(claim.manifestFormat) == Some(f)
    requires Reproduces(h, claim)
    requires Enumerate(h, world, f, None).Ok? && WellFormedWorld(world) && DistinctRecords(world)
    requires SchemaHolds(Enumerate(h, world, f, None).value) && SchemaHolds(Of(claim.items, Included))
    requires CompiledFrom(h, Of(claim.items, Included), origin, f)
    requires OnlyNamedMoved(Enumerate(h, world, f, None).value, Of(claim.items, Included), delta.objects)
    ensures var fast, slow := Answer(h, world, claim, Some(delta)), CompareWhole(h, world, claim);
            && fast.Ok? && slow.Ok?
            && (slow.value.Current? ==> fast.value.Current?)
            && (fast.value.Stale? ==> slow.value == fast.value)
            && (fast.value.Current? ==>
                  || slow.value.Current?
                  || CollisionAmong(h, MemberInputs(Envelopes(world), f) + MemberInputs(origin, f)))
  {
    hide *;
    CompareReproduced(h, world, claim, f);
    FastAnswer(h, world, claim, delta, f);
    var permitted, included := Enumerate(h, world, f, None).value, Of(claim.items, Included);
    WhatFastKnows(h, world, claim, delta, f, origin);
  }

  /** `Of` keeps, in order, the members in a state. */
  lemma {:induction false} OfMembers(items: seq<Entry>, state: MemberState, m: Member)
    ensures multiset(Of(items, state))[m] == multiset(items)[Entry(m, state)]
  {
    if items != [] {
      assert items == [items[0]] + items[1..];
      OfMembers(items[1..], state, m);
    }
  }

  lemma MovedAmong(h: Hash, world: seq<Candidate>, claim: Claim, f: MemberFormat, ids: seq<Text>)
    requires Enumerate(h, world, f, None).Ok?
    ensures var live := Among(Enumerate(h, world, f, None).value, ids);
            ClaimMovedAmong(h, world, claim, f, ids) ==
            Ok(if SameAmong(live, Held(Among(Of(claim.items, Included), ids))) then None else Some(live))
  {
    hide Enumerate, SameAmong, Among, Held, Of;
    RestrictedIsAmong(h, world, f, ids);
  }

  /**
   What is answered when there is a record of writes: current as recorded when it names nothing; current as
   rechecked when the records it names are as the claim holds them; otherwise stale, with the digest of the
   claim's members as those records are now, if the item rows reproduce the claim; otherwise whatever the
   whole comparison says.
   */
  lemma FastAnswer(h: Hash, world: seq<Candidate>, claim: Claim, delta: Delta, f: MemberFormat)
    requires FormatOf(Some(delta.format)) == Some(f) && Enumerate(h, world, f, None).Ok?
    ensures var live := Among(Enumerate(h, world, f, None).value, delta.objects);
            var included, withdrawn := Of(claim.items, Included), Of(claim.items, Withdrawn);
            Answer(h, world, claim, Some(delta)) ==
            if delta.objects == [] then Ok(Current(Recorded, f, Items(delta.format)))
            else if SameAmong(live, Held(Among(included, delta.objects))) then Ok(Current(Rechecked, f, Items(delta.format)))
            else if CorpusDigest(h, included, withdrawn) == claim.corpusDigest then
              Ok(Stale(CorpusDigest(h, Outside(included, delta.objects) + live, withdrawn)))
            else CompareWhole(h, world, claim)
  {
    hide Enumerate, SameAmong, CorpusDigest, FormatOf, Among, Outside, Held, Of, CompareWhole, ClaimMovedAmong;
    MovedAmong(h, world, claim, f, delta.objects);
  }

  /** Without a record of writes the whole comparison answers; a format nobody knows is refused. */
  lemma OtherAnswers(h: Hash, world: seq<Candidate>, claim: Claim, delta: Delta)
    ensures Answer(h, world, claim, None) == CompareWhole(h, world, claim)
    ensures FormatOf(Some(delta.format)) == None ==> Answer(h, world, claim, Some(delta)) == Err(UnknownManifestFormat)
    ensures FormatOf(claim.manifestFormat) == None ==> CompareWhole(h, world, claim) == Err(UnknownManifestFormat)
  {
    hide FormatOf, Enumerate, ClaimMovedAmong;
  }

  /** The lists a claim is compared by: its item rows when they reproduce its digest, its manifest's otherwise. */
  ghost predicate ComparedBy(h: Hash, claim: Claim, included: seq<Member>, withdrawn: seq<Member>) {
    var fromItems, gone := Of(claim.items, Included), Of(claim.items, Withdrawn);
    if CorpusDigest(h, fromItems, gone) == claim.corpusDigest then included == fromItems && withdrawn == gone
    else included == claim.manifestIncluded && withdrawn == claim.manifestWithdrawn
  }

  /** The whole comparison: current exactly when no key is on one side alone and the digest is the recorded one. */
  lemma {:induction false} CompareExactly(
    h: Hash, world: seq<Candidate>, claim: Claim, f: MemberFormat, included: seq<Member>, withdrawn: seq<Member>)
    requires FormatOf(claim.manifestFormat) == Some(f) && Enumerate(h, world, f, None).Ok?
    requires ComparedBy(h, claim, included, withdrawn)
    ensures var permitted := Enumerate(h, world, f, None).value;
            var agree := (forall k :: !Missing(included, permitted, k) && !Missing(permitted, included, k))
                         && CorpusDigest(h, permitted, withdrawn) == claim.corpusDigest;
            && CompareWhole(h, world, claim).Ok?
            && (!agree ==> CompareWhole(h, world, claim).value == Stale(CorpusDigest(h, permitted, withdrawn)))
            && (agree ==>
                  var current := CompareWhole(h, world, claim).value;
                  && current.Current? && current.basis == Compared && current.memberFormat == f
                  && Served(claim, current.members) == included)
  {
    hide Enumerate, Violated, CorpusDigest, FormatOf, Of, Missing;
    var permitted := Enumerate(h, world, f, None).value;
    ViolationExactly(h, claim.corpusDigest, included, withdrawn, permitted);
  }

  lemma WhatFastKnows(h: Hash, world: seq<Candidate>, claim: Claim, delta: Delta, f: MemberFormat, origin: seq<Envelope>)
    requires Reproduces(h, claim)
    requires Enumerate(h, world, f, None).Ok? && WellFormedWorld(world) && DistinctRecords(world)
    requires SchemaHolds(Enumerate(h, world, f, None).value) && SchemaHolds(Of(claim.items, Included))
    requires CompiledFrom(h, Of(claim.items, Included), origin, f)
    requires OnlyNamedMoved(Enumerate(h, world, f, None).value, Of(claim.items, Included), delta.objects)
    ensures var permitted := Enumerate(h, world, f, None).value;
            var included, withdrawn := Of(claim.items, Included), Of(claim.items, Withdrawn);
            var live := Among(permitted, delta.objects);
            var same := SameAmong(live, Held(Among(included, delta.objects)));
            var whole := Violated(h, claim.corpusDigest, included, withdrawn, permitted) == None;
            && (whole ==> same)
            && CorpusDigest(h, Outside(included, delta.objects) + live, withdrawn) == CorpusDigest(h, permitted, withdrawn)
            && (same || delta.objects == [] ==>
                  whole || CollisionAmong(h, MemberInputs(Envelopes(world), f) + MemberInputs(origin, f)))
  {
    var permitted := Enumerate(h, world, f, None).value;
    var included, withdrawn := Of(claim.items, Included), Of(claim.items, Withdrawn);
    var ids := delta.objects;
    hide Enumerate, CorpusDigest, Violated, Among, Outside, Held, Of, SameAmong, CollisionAmong, MemberInputs,
      WellFormedWorld, DistinctRecords, CompiledFrom, OnlyNamedMoved, DistinctIds, AllKeyed;
    if Violated(h, claim.corpusDigest, included, withdrawn, permitted) == None {
      HeldKeysAgree(h, claim.corpusDigest, included, withdrawn, permitted);
      KeysAgreeAmong(permitted, included, ids);
    }
    Replaced(permitted, included, ids);
    SameDigest(h, Outside(included, ids) + Among(permitted, ids), permitted, withdrawn);
    if SameAmong(Among(permitted, ids), Held(Among(included, ids))) {
      AmongRearranged(h, world, f, included, origin, ids);
    }
    if ids == [] {
      NothingNamed(permitted, included);
    }
    if multiset(included) == multiset(permitted) {
      SameMembersHold(h, included, withdrawn, permitted);
    }
  }

  /** The members a current answer points to. */
  function Served(claim: Claim, members: Source): seq<Member> {
    if members.Items? then Of(claim.items, Included) else members.included
  }

  /** What a current answer of the whole comparison has compared. */
  lemma CurrentCompared(h: Hash, world: seq<Candidate>, claim: Claim)
    requires CompareWhole(h, world, claim).Ok? && CompareWhole(h, world, claim).value.Current?
    ensures var current := CompareWhole(h, world, claim).value;
            && Enumerate(h, world, current.memberFormat, None).Ok?
            && KeysOf(Served(claim, current.members)) == KeysOf(Enumerate(h, world, current.memberFormat, None).value)
  {
    hide Violated, Enumerate, Reproduces, CorpusDigest, Of, KeysOf;
    var f := FormatOf(claim.manifestFormat).value;
    var permitted, current := Enumerate(h, world, f, None).value, CompareWhole(h, world, claim).value;
    var withdrawn := if current.members.Items? then Of(claim.items, Withdrawn) else current.members.withdrawn;
    HeldKeysAgree(h, claim.corpusDigest, Served(claim, current.members), withdrawn, permitted);
  }

  /** The record `c` may be shown and has the member key. */
  ghost predicate ShowsKey(h: Hash, c: Candidate, f: MemberFormat, key: Text) {
    Permitted(c) && MemberOf(h, c.envelope, f).Ok? && MemberKey(MemberOf(h, c.envelope, f).value) == key
  }

  /**
   No answer of the whole comparison holds as current a record the reader may not be shown: each member it
   serves has the key of a record seen, covered by a grant and neither excluded nor held.
   */
  lemma {:induction false} CurrentIsPermitted(h: Hash, world: seq<Candidate>, claim: Claim, m: Member)
    requires CompareWhole(h, world, claim).Ok? && CompareWhole(h, world, claim).value.Current?
    requires m in Served(claim, CompareWhole(h, world, claim).value.members)
    ensures exists i ::
              0 <= i < |world| && ShowsKey(h, world[i], CompareWhole(h, world, claim).value.memberFormat, MemberKey(m))
  {
    hide Enumerate, CompareWhole, MemberOf, MemberKey;
    CurrentCompared(h, world, claim);
    var current := CompareWhole(h, world, claim).value;
    var permitted, served := Enumerate(h, world, current.memberFormat, None).value, Served(claim, current.members);
    var j :| 0 <= j < |served| && served[j] == m;
    assert MemberKey(m) in KeysOf(served);
    var k :| 0 <= k < |permitted| && MemberKey(permitted[k]) == MemberKey(m);
    PermittedExactly(h, world, current.memberFormat, None, permitted[k]);
    var i :| 0 <= i < |world| && IsMemberOf(h, world[i], current.memberFormat, None, permitted[k]);
    assert ShowsKey(h, world[i], current.memberFormat, MemberKey(m));
  }

  lemma NothingNamed(permitted: seq<Member>, included: seq<Member>)
    requires OnlyNamedMoved(permitted, included, [])
    ensures multiset(included) == multiset(permitted)
  {
    OutsideAll(permitted);
    OutsideAll(included);
  }
}
