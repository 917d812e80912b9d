/**
 Byte storage and its ledger of locations (packages/artifacts/src/store.ts, locations.ts), with
 conditional create and no deletions. Other replications may create objects between any two calls.
 */
module Replication {
  import opened Outcomes
  import opened Hashes

  type StoreId = nat
  type Key = nat
  type VersionId = nat

  datatype Place = Place(store: StoreId, key: Key)

  /** What a store holds under a key: its bytes and the version the store gave them. */
  datatype Object = Object(version: nat, bytes: Bytes)

  datatype Role = Working | HotCache | DurableCopy | EvidenceCopy | PublicCopy

  /** A row of `content.artifact_location`. */
  datatype Location = Location(
    versionId: VersionId,
    place: Place,
    role: Role,
    storeVersion: Option<nat>,
    verified: Option<Bytes>,
    failed: bool)

  /** A row of `content.artifact_version`. */
  datatype Version = Version(digest: Bytes, sizeBytes: nat)

  datatype Failure =
    | StoreFailed(code: nat)
    | StillConflicting
    | LimitExceeded
    | RoleNotReplicable
    | LocationMissing
    | VersionNotVisible
    | NoWorkingCopy
    | SeveralWorkingCopies
    | SourceNotConfigured
    | TargetNotConfigured
    | TargetNotDeclared
    | TargetReadOnly
    | SourceCorrupt

  // --- Reading a body -------------------------------------------------------------------------

  function Concatenated(chunks: seq<Bytes>): Bytes {
    if chunks == [] then [] else Concatenated(chunks[..|chunks| - 1]) + chunks[|chunks| - 1]
  }

  /** The body is the chunks one after the other. */
  lemma {:induction false} ConcatenatedFirst(chunk: Bytes, rest: seq<Bytes>)
    ensures Concatenated([]) == []
    ensures Concatenated([chunk] + rest) == chunk + Concatenated(rest)
  {
    var chunks := [chunk] + rest;
    if rest == [] {
      assert chunks[..0] == [] && chunks[0] == chunk;
    } else {
      var init := rest[..|rest| - 1];
      assert chunks[..|chunks| - 1] == [chunk] + init;
      ConcatenatedFirst(chunk, init);
    }
  }

  /** The size announced, or the size read, is beyond the limit. */
  predicate Exceeds(size: Option<nat>, maxBytes: Option<nat>) {
    size.Some? && maxBytes.Some? && size.value > maxBytes.value
  }

  lemma {:induction false} PrefixShorter(chunks: seq<Bytes>, i: nat)
    requires i <= |chunks|
    ensures |Concatenated(chunks[..i])| <= |Concatenated(chunks)|
    decreases |chunks|
  {
    if i == |chunks| {
      assert chunks[..i] == chunks;
    } else {
      var init := chunks[..|chunks| - 1];
      assert init[..i] == chunks[..i];
      PrefixShorter(init, i);
    }
  }

  /** The body of `S3ObjectStore.read`: all of it, or refused once it is known to exceed the limit. */
  method Accumulate(chunks: seq<Bytes>, contentLength: Option<nat>, maxBytes: Option<nat>) returns (r: Result<Bytes, Failure>)
    ensures r.Ok? ==> r.value == Concatenated(chunks)
    ensures r.Err? <==>
      maxBytes.Some? &&
      ((contentLength.Some? && contentLength.value > maxBytes.value) || |Concatenated(chunks)| > maxBytes.value)
    ensures r.Err? ==> r.error == LimitExceeded
  {
    if Exceeds(contentLength, maxBytes) {
      return Err(LimitExceeded);
    }
    var bytes: Bytes := [];
    for i := 0 to |chunks|
      invariant bytes == Concatenated(chunks[..i])
      invariant maxBytes.Some? ==> |bytes| <= maxBytes.value
    {
      assert chunks[..i + 1][..i] == chunks[..i];
      if maxBytes.Some? && |chunks[i]| > maxBytes.value - |bytes| {
        PrefixShorter(chunks, i + 1);
        return Err(LimitExceeded);
      }
      bytes := bytes + chunks[i];
    }
    assert chunks[..|chunks|] == chunks;
    return Ok(bytes);
  }

  // --- Stores ---------------------------------------------------------------------------------

  /** Everything already stored is still there, unchanged. */
  ghost predicate Extends(after: map<Place, Object>, before: map<Place, Object>) {
    forall p :: p in before ==> p in after && after[p] == before[p]
  }

  predicate Present(objects: map<Place, Object>, p: Place, version: Option<nat>) {
    p in objects && (version == None || version.value == objects[p].version)
  }

  /** The location's bytes are there and have this digest. */
  predicate Holds(h: Hash, objects: map<Place, Object>, l: Location, digest: Bytes) {
    Present(objects, l.place, l.storeVersion) && h(objects[l.place].bytes) == digest
  }

  /** The location's bytes are there, have the version's digest and are no longer than the version. */
  predicate HoldsWithin(h: Hash, objects: map<Place, Object>, l: Location, version: Version) {
    Holds(h, objects, l, version.digest) && |objects[l.place].bytes| <= version.sizeBytes
  }

  lemma HoldsLater(h: Hash, before: map<Place, Object>, after: map<Place, Object>, l: Location, digest: Bytes)
    requires Extends(after, before) && Holds(h, before, l, digest)
    ensures Holds(h, after, l, digest)
  {}

  lemma ExtendsItself(objects: map<Place, Object>)
    ensures Extends(objects, objects)
  {}

  lemma ExtendsThrough(after: map<Place, Object>, middle: map<Place, Object>, before: map<Place, Object>)
    requires Extends(after, middle) && Extends(middle, before)
    ensures Extends(after, before)
  {}

  datatype Stored = Stored(version: nat, sizeBytes: nat)

  /** An object this run created. */
  datatype Made = Made(place: Place, bytes: Bytes)

  class Stores {
    var objects: map<Place, Object>
    ghost var made: seq<Made>
    /** How many calls have failed, or been refused with nothing there. */
    ghost var faults: nat

    constructor ()
      ensures objects == map[] && made == [] && faults == 0
    {
      objects, made, faults := map[], [], 0;
    }

    /** Others create objects; a conditional create never replaces one. */
    method Elapse()
      modifies this`objects
      ensures Extends(objects, old(objects))
    {
      var created: map<Place, Object> := *;
      objects := created + objects;
    }

    method Head(p: Place, version: Option<nat>) returns (r: Result<bool, Failure>)
      modifies this
      ensures made == old(made)
      ensures Extends(objects, old(objects))
      ensures if r.Ok? then r.value == Present(objects, p, version) else r.error.StoreFailed?
      ensures faults == old(faults) + if r.Err? then 1 else 0
    {
      Elapse();
      var failure: Option<nat> := *;
      faults := faults + if failure.Some? then 1 else 0;
      r := if failure.Some? then Err(StoreFailed(failure.value)) else Ok(Present(objects, p, version));
    }

    method Read(p: Place, version: Option<nat>, maxBytes: nat) returns (r: Result<Bytes, Failure>)
      modifies this
      ensures made == old(made)
      ensures Extends(objects, old(objects))
      ensures r.Ok? ==> Present(objects, p, version) && r.value == objects[p].bytes && |r.value| <= maxBytes
      ensures r.Err? ==>
        r.error.StoreFailed? || (r.error.LimitExceeded? && Present(objects, p, version) && |objects[p].bytes| > maxBytes)
      ensures old(faults) <= faults <= old(faults) + if r.Err? && r.error.StoreFailed? then 1 else 0
      ensures faults == old(faults) ==> (r.Ok? <==> Present(objects, p, version) && |objects[p].bytes| <= maxBytes)
      ensures faults == old(faults) ==> (r == Err(StoreFailed(404)) <==> !Present(objects, p, version))
      ensures faults == old(faults) ==> (r == Err(LimitExceeded) <==> Present(objects, p, version) && |objects[p].bytes| > maxBytes)
    {
      Elapse();
      var failure: Option<nat> := *;
      if failure.Some? {
        faults := faults + 1;
        return Err(StoreFailed(failure.value));
      }
      if !Present(objects, p, version) {
        return Err(StoreFailed(404));
      }
      return if |objects[p].bytes| > maxBytes then Err(LimitExceeded) else Ok(objects[p].bytes);
    }

    /**
     One conditional create: made, refused because an object is there or may be (412, 409), or failed,
     perhaps after it was made.
     */
    method Create(p: Place, body: Bytes) returns (r: Result<Option<Stored>, Failure>)
      modifies this
      ensures made == old(made) || made == old(made) + [Made(p, body)]
      ensures r.Ok? ==> (r.value.Some? <==> made == old(made) + [Made(p, body)])
      ensures Extends(objects, old(objects))
      ensures r.Ok? && r.value.Some? ==>
        p in objects && r.value.value == Stored(objects[p].version, |objects[p].bytes|) && objects[p].bytes == body
      ensures r.Err? ==> r.error.StoreFailed?
      ensures faults == old(faults) + if r.Err? || (r == Ok(None) && p !in objects) then 1 else 0
    {
      Elapse();
      var failure: Option<nat>, conflict: bool, landed: bool, version: nat := *, *, *, *;
      faults := faults + if p !in objects && (conflict || failure.Some?) then 1 else 0;
      if p in objects || conflict {
        return Ok(None);
      }
      if failure.None? || landed {
        objects, made := objects[p := Object(version, body)], made + [Made(p, body)];
      }
      return if failure.Some? then Err(StoreFailed(failure.value)) else Ok(Some(Stored(version, |body|)));
    }

    method Existing(p: Place) returns (r: Result<Option<Stored>, Failure>)
      modifies this
      ensures made == old(made)
      ensures Extends(objects, old(objects))
      ensures if r.Ok? then r.value.Some? <==> p in objects else r.error.StoreFailed?
      ensures r.Ok? && r.value.Some? ==> r.value.value == Stored(objects[p].version, |objects[p].bytes|)
      ensures faults == old(faults) + if r.Err? then 1 else 0
    {
      Elapse();
      var failure: Option<nat> := *;
      faults := faults + if failure.Some? then 1 else 0;
      r := if failure.Some? then Err(StoreFailed(failure.value))
           else if p in objects then Ok(Some(Stored(objects[p].version, |objects[p].bytes|))) else Ok(None);
    }

    /** `putIfAbsent`: what it answers is what is there, whoever created it; nothing is replaced. It fails only when a call did. */
    method PutIfAbsent(p: Place, body: Bytes) returns (r: Result<Stored, Failure>)
      modifies this
      ensures made == old(made) || made == old(made) + [Made(p, body)]
      ensures Extends(objects, old(objects))
      ensures r.Ok? ==> p in objects && r.value == Stored(objects[p].version, |objects[p].bytes|)
      ensures old(faults) <= faults && (r.Err? ==> faults > old(faults))
      ensures r.Err? ==> r.error.StoreFailed? || (r.error == StillConflicting && faults == old(faults) + 3)
    {
      for attempt := 1 to 4
        invariant Extends(objects, old(objects)) && made == old(made)
        invariant faults == old(faults) + attempt - 1
      {
        var created := Create(p, body);
        if created.Err? {
          return Err(created.error);
        }
        if created.value.Some? {
          return Ok(created.value.value);
        }
        var existing := Existing(p);
        if existing.Err? {
          return Err(existing.error);
        }
        if existing.value.Some? {
          return Ok(existing.value.value);
        }
      }
      return Err(StillConflicting);
    }
  }

  // --- The ledger -----------------------------------------------------------------------------

  /** A digest is recorded as verified only where bytes of that digest are, and it is the version's. */
  ghost predicate LedgerSound(h: Hash, objects: map<Place, Object>, versions: map<VersionId, Version>, locations: map<nat, Location>) {
    forall id :: id in locations && locations[id].verified.Some? ==>
      && locations[id].versionId in versions
      && locations[id].verified.value == versions[locations[id].versionId].digest
      && Holds(h, objects, locations[id], locations[id].verified.value)
  }

  lemma LedgerLater(h: Hash, before: map<Place, Object>, after: map<Place, Object>,
                    versions: map<VersionId, Version>, locations: map<nat, Location>)
    requires LedgerSound(h, before, versions, locations) && Extends(after, before)
    ensures LedgerSound(h, after, versions, locations)
  {
    forall id | id in locations && locations[id].verified.Some?
      ensures Holds(h, after, locations[id], locations[id].verified.value)
    {
      HoldsLater(h, before, after, locations[id], locations[id].verified.value);
    }
  }

  lemma StillPresent(after: map<Place, Object>, before: map<Place, Object>, l: Location)
    requires Extends(after, before) && Present(before, l.place, l.storeVersion)
    ensures Present(after, l.place, l.storeVersion)
  {}

  /** What was held is held; what is not there or is other bytes now was not held. */
  lemma HeldBefore(h: Hash, after: map<Place, Object>, before: map<Place, Object>, l: Location, version: Version)
    requires Extends(after, before)
    ensures Holds(h, before, l, version.digest) ==>
              Holds(h, after, l, version.digest) && after[l.place] == before[l.place]
    ensures Holds(h, after, l, version.digest) <==>
              Present(after, l.place, l.storeVersion) && h(after[l.place].bytes) == version.digest
  {}

  /** `hashLocation`: verified exactly by reading bytes of the expected size and digest. */
  method HashLocation(h: Hash, stores: Stores, l: Location, expected: Version) returns (r: Result<bool, Failure>)
    modifies stores
    ensures Extends(stores.objects, old(stores.objects)) && stores.made == old(stores.made)
    ensures old(stores.faults) <= stores.faults && (r.Err? ==> r.error.StoreFailed? && stores.faults > old(stores.faults))
    ensures r == Ok(true) ==> Holds(h, stores.objects, l, expected.digest) && |stores.objects[l.place].bytes| == expected.sizeBytes
    ensures r == Ok(false) ==>
      !Holds(h, old(stores.objects), l, expected.digest) || |old(stores.objects)[l.place].bytes| != expected.sizeBytes
  {
    hide Extends, Holds;
    ghost var before := stores.objects;
    var head := stores.Head(l.place, l.storeVersion);
    ghost var here := stores.objects;
    HeldBefore(h, here, before, l, expected);
    if head.Err? {
      return Err(head.error);
    }
    if !head.value {
      return Ok(false);
    }
    var bytes := stores.Read(l.place, l.storeVersion, expected.sizeBytes);
    ExtendsThrough(stores.objects, here, before);
    HeldBefore(h, stores.objects, before, l, expected);
    StillPresent(stores.objects, here, l);
    if bytes.Err? {
      if bytes.error == LimitExceeded {
        return Ok(false);
      }
      return Err(bytes.error);
    }
    return Ok(|bytes.value| == expected.sizeBytes && h(bytes.value) == expected.digest);
  }

  /** The database as one transaction sees it, and the stores beside it. */
  class Artifacts {
    const h: Hash
    const stores: Stores
    const configured: set<StoreId>
    const writable: map<StoreId, bool>
    const versions: map<VersionId, Version>
    var locations: map<nat, Location>

    constructor (hash: Hash, objectStores: Stores, registry: set<StoreId>, declared: map<StoreId, bool>, known: map<VersionId, Version>)
      ensures h == hash && stores == objectStores && configured == registry && writable == declared && versions == known
      ensures locations == map[]
    {
      h, stores, configured, writable, versions := hash, objectStores, registry, declared, known;
      locations := map[];
    }

    ghost predicate Sound()
      reads this, stores
    {
      LedgerSound(h, stores.objects, versions, locations)
    }

    /** `verifyLocation`: the outcome is recorded on the row, and on no other. */
    method VerifyLocation(id: nat) returns (r: Result<bool, Failure>)
      requires Sound()
      modifies this`locations, stores
      ensures Sound() && Extends(stores.objects, old(stores.objects)) && stores.made == old(stores.made)
      ensures r == Err(LocationMissing) <==> id !in old(locations)
      ensures r == Err(VersionNotVisible) <==> id in old(locations) && old(locations)[id].versionId !in versions
      ensures r.Err? ==> locations == old(locations)
      ensures old(stores.faults) <= stores.faults
      ensures r.Err? ==> r == Err(LocationMissing) || r == Err(VersionNotVisible) || stores.faults > old(stores.faults)
      ensures r.Ok? ==> locations == old(locations)[id := old(locations)[id].(
                verified := if r.value then Some(versions[old(locations)[id].versionId].digest) else None, failed := !r.value)]
      ensures r == Ok(true) ==> old(locations)[id].place.store in configured
      ensures r == Ok(false) ==>
        var l := old(locations)[id];
        || l.place.store !in configured
        || !Holds(h, old(stores.objects), l, versions[l.versionId].digest)
        || |old(stores.objects)[l.place].bytes| != versions[l.versionId].sizeBytes
    {
      if id !in locations {
        return Err(LocationMissing);
      }
      if locations[id].versionId !in versions {
        return Err(VersionNotVisible);
      }
      var l := locations[id];
      var outcome := Ok(false);
      if l.place.store in configured {
        outcome := HashLocation(h, stores, l, versions[l.versionId]);
        LedgerLater(h, old(stores.objects), stores.objects, versions, locations);
      }
      if outcome.Err? {
        return outcome;
      }
      locations := locations[id := l.(verified := if outcome.value then Some(versions[l.versionId].digest) else None,
                                      failed := !outcome.value)];
      return outcome;
    }

    predicate IsWorkingRow(id: nat, v: VersionId)
      reads this
    {
      id in locations && locations[id].versionId == v && locations[id].role == Working
    }

    ghost predicate OneWorkingRow(id: nat, v: VersionId)
      reads this
    {
      IsWorkingRow(id, v) && forall other :: IsWorkingRow(other, v) ==> other == id
    }

    /** What replication requires before it touches a store. */
    ghost predicate MayReplicate(v: VersionId, target: StoreId, role: Role)
      reads this
    {
      && (role == HotCache || role == DurableCopy || role == EvidenceCopy)
      && v in versions
      && (exists id :: OneWorkingRow(id, v) && locations[id].place.store in configured)
      && target in configured && target in writable && writable[target]
    }

    /** The requirement that a refusal names does not hold. */
    ghost predicate Unmet(v: VersionId, target: StoreId, role: Role, e: Failure)
      reads this
    {
      match e
      case RoleNotReplicable => role != HotCache && role != DurableCopy && role != EvidenceCopy
      case VersionNotVisible => v !in versions
      case NoWorkingCopy => forall id :: !IsWorkingRow(id, v)
      case SeveralWorkingCopies => exists id, other :: id != other && IsWorkingRow(id, v) && IsWorkingRow(other, v)
      case SourceNotConfigured => exists id :: IsWorkingRow(id, v) && locations[id].place.store !in configured
      case TargetNotConfigured => target !in configured
      case TargetNotDeclared => target !in writable
      case TargetReadOnly => target in writable && !writable[target]
      case _ => false
    }

    /** Which requirement is looked at first. */
    function Turn(e: Failure): nat {
      match e
      case RoleNotReplicable => 0
      case VersionNotVisible => 1
      case NoWorkingCopy => 2
      case SeveralWorkingCopies => 3
      case SourceNotConfigured => 4
      case TargetNotConfigured => 5
      case TargetNotDeclared => 6
      case _ => 7
    }

    /** The first requirement that does not hold. */
    ghost predicate Refused(v: VersionId, target: StoreId, role: Role, e: Failure)
      reads this
    {
      Unmet(v, target, role, e) && forall f :: Turn(f) < Turn(e) ==> !Unmet(v, target, role, f)
    }

    /** What `replicateVersion` refuses before it touches a store, else the one working copy. */
    method SourceOf(v: VersionId, target: StoreId, role: Role) returns (r: Result<Location, Failure>)
      ensures r.Err? ==> Refused(v, target, role, r.error)
      ensures r.Ok? <==> MayReplicate(v, target, role)
      ensures r.Ok? ==> exists id :: OneWorkingRow(id, v) && locations[id] == r.value && r.value.place.store in configured
    {
      if role == Working || role == PublicCopy {
        return Err(RoleNotReplicable);
      }
      if v !in versions {
        return Err(VersionNotVisible);
      }
      var working := set id | id in locations && IsWorkingRow(id, v);
      if working == {} {
        assert forall id :: IsWorkingRow(id, v) ==> id in working;
        return Err(NoWorkingCopy);
      }
      var id :| id in working;
      assert IsWorkingRow(id, v);
      if working != {id} {
        TwoRows(working, id, v);
        return Err(SeveralWorkingCopies);
      }
      assert OneWorkingRow(id, v) by {
        forall other | IsWorkingRow(other, v) ensures other == id {
          assert other in working;
        }
      }
      hide IsWorkingRow;
      if locations[id].place.store !in configured {
        return Err(SourceNotConfigured);
      }
      if target !in configured {
        return Err(TargetNotConfigured);
      }
      if target !in writable {
        return Err(TargetNotDeclared);
      }
      if !writable[target] {
        return Err(TargetReadOnly);
      }
      return Ok(locations[id]);
    }

    lemma TwoRows(working: set<nat>, id: nat, v: VersionId)
      requires id in working && working != {id} && forall other :: other in working ==> IsWorkingRow(other, v)
      ensures exists other :: other != id && IsWorkingRow(other, v)
    {
      var other :| other in working && other != id;
    }

    /**
     The copy: the working bytes, checked against the version's digest, created in the target unless there. It
     fails only when a call did or the source does not hold the version's bytes.
     */
    method Copy(v: VersionId, source: Location, target: StoreId) returns (r: Result<(Place, Stored), Failure>)
      requires v in versions
      modifies stores
      ensures Extends(stores.objects, old(stores.objects))
      ensures MadeOnly(h, old(stores.made), stores.made, Place(target, source.place.key), versions[v].digest)
      ensures r.Ok? ==>
        && r.value.0 == Place(target, source.place.key) && r.value.0 in stores.objects
        && r.value.1.version == stores.objects[r.value.0].version
      ensures old(stores.faults) <= stores.faults
      ensures r.Err? ==> stores.faults > old(stores.faults) || !HoldsWithin(h, old(stores.objects), source, versions[v])
    {
      var bytes := stores.Read(source.place, source.storeVersion, versions[v].sizeBytes);
      if bytes.Err? {
        return Err(bytes.error);
      }
      if h(bytes.value) != versions[v].digest {
        return Err(SourceCorrupt);
      }
      var p := Place(target, source.place.key);
      var stored := stores.PutIfAbsent(p, bytes.value);
      if stored.Err? {
        return Err(stored.error);
      }
      return Ok((p, stored.value));
    }

    /** The insert, which keeps the row already there for this version, store and role. */
    method Upsert(v: VersionId, p: Place, role: Role, storeVersion: nat, newId: nat) returns (id: nat)
      requires newId !in locations && Sound()
      modifies this`locations
      ensures Sound() && id in locations
      ensures if HasRow(old(locations), v, p.store, role)
              then IsRowOf(locations[id], v, p.store, role) && locations == old(locations)
              else id == newId && locations == old(locations)[id := Location(v, p, role, Some(storeVersion), None, false)]
    {
      var same := set id | id in locations && IsRowOf(locations[id], v, p.store, role);
      id := newId;
      if same != {} {
        id :| id in same;
      } else {
        assert forall k :: k in locations && IsRowOf(locations[k], v, p.store, role) ==> k in same;
        locations := locations[id := Location(v, p, role, Some(storeVersion), None, false)];
      }
    }

    /**
     `replicateVersion`, as one transaction: create-only in the target, recorded under its own row, and
     verified from what is there. A run that fails leaves no row; it may leave an object. `source` is the
     working row it copies from.
     */
    method ReplicateVersion(v: VersionId, target: StoreId, role: Role, newId: nat)
      returns (r: Result<(nat, bool), Failure>, ghost source: Location)
      requires Sound() && newId !in locations
      modifies this`locations, stores
      ensures Sound() && Extends(stores.objects, old(stores.objects))
      ensures old(!MayReplicate(v, target, role)) ==>
        && r.Err? && old(Refused(v, target, role, r.error))
        && stores.objects == old(stores.objects) && stores.made == old(stores.made)
      ensures r.Err? ==> locations == old(locations)
      ensures old(MayReplicate(v, target, role)) ==>
        && old(exists id :: OneWorkingRow(id, v) && locations[id] == source)
        && MadeOnly(h, old(stores.made), stores.made, Place(target, source.place.key), versions[v].digest)
      ensures old(MayReplicate(v, target, role)) && r.Err? ==>
        stores.faults > old(stores.faults) || !HoldsWithin(h, old(stores.objects), source, versions[v])
      ensures r.Ok? ==>
        && v in versions
        && RowLeft(old(locations), locations, stores.objects, v, Place(target, source.place.key), role, newId,
                   r.value.0, if r.value.1 then Some(versions[v].digest) else None)
    {
      var found := SourceOf(v, target, role);
      if found.Err? {
        source := *;
        return Err(found.error), source;
      }
      source := found.value;
      hide LedgerSound, Extends, MadeOnly, MayReplicate, Refused, OneWorkingRow, HoldsWithin;
      var copied := Copy(v, found.value, target);
      LedgerLater(h, old(stores.objects), stores.objects, versions, locations);
      if copied.Err? {
        return Err(copied.error), source;
      }
      ghost var afterCopy := stores.objects;
      hide RowLeft;
      r := RecordCopy(v, copied.value.0, role, copied.value.1.version, newId);
      ExtendsThrough(stores.objects, afterCopy, old(stores.objects));
    }

    /** The insert and the verification, undone together when the verification fails. */
    method RecordCopy(v: VersionId, p: Place, role: Role, storeVersion: nat, newId: nat) returns (r: Result<(nat, bool), Failure>)
      requires Sound() && newId !in locations && v in versions
      requires p in stores.objects && stores.objects[p].version == storeVersion
      modifies this`locations, stores
      ensures Sound() && Extends(stores.objects, old(stores.objects)) && stores.made == old(stores.made)
      ensures r.Err? ==> locations == old(locations) && stores.faults > old(stores.faults)
      ensures old(stores.faults) <= stores.faults
      ensures r.Ok? ==>
        RowLeft(old(locations), locations, stores.objects, v, p, role, newId,
                r.value.0, if r.value.1 then Some(versions[v].digest) else None)
    {
      hide LedgerSound, Extends;
      var committed := locations;
      ExtendsItself(stores.objects);
      var id := Upsert(v, p, role, storeVersion, newId);
      var verification := VerifyLocation(id);
      if verification.Err? {
        LedgerLater(h, old(stores.objects), stores.objects, versions, committed);
        locations := committed;
        return Err(verification.error);
      }
      ExtendsAt(stores.objects, old(stores.objects), p);
      return Ok((id, verification.value));
    }

    /** One location: its bytes if they are there, no longer than the version's, and of its digest. */
    method ServeFrom(version: Version, l: Location) returns (r: Result<Option<Bytes>, Failure>)
      modifies stores
      ensures Extends(stores.objects, old(stores.objects))
      ensures r.Ok? && r.value.Some? ==> ServedFrom(h, configured, stores.objects, l, version, r.value.value)
      ensures r == Ok(None) ==> !Servable(h, configured, old(stores.objects), l, version)
      ensures old(stores.faults) <= stores.faults && (r.Err? ==> stores.faults > old(stores.faults))
    {
      hide Extends, Holds;
      ghost var before := stores.objects;
      ExtendsItself(before);
      if l.place.store !in configured {
        return Ok(None);
      }
      var head := stores.Head(l.place, l.storeVersion);
      ghost var here := stores.objects;
      HeldBefore(h, here, before, l, version);
      if head.Err? {
        return Err(head.error);
      }
      if !head.value {
        return Ok(None);
      }
      var bytes := stores.Read(l.place, l.storeVersion, version.sizeBytes);
      ExtendsThrough(stores.objects, here, before);
      HeldBefore(h, stores.objects, before, l, version);
      StillPresent(stores.objects, here, l);
      if bytes.Err? {
        return if bytes.error == LimitExceeded then Ok(None) else Err(bytes.error);
      }
      return Ok(if h(bytes.value) == version.digest then Some(bytes.value) else None);
    }

    /** The loop over the locations: the first that holds the bytes serves them. */
    method ServeInOrder(version: Version, ordered: seq<nat>)
      returns (r: Result<Option<(Bytes, nat)>, Failure>, ghost at: nat)
      requires forall id :: id in ordered ==> id in locations
      modifies stores
      ensures Extends(stores.objects, old(stores.objects))
      ensures r.Ok? ==> PassedOver(h, configured, old(stores.objects), locations, version, ordered, at)
      ensures r.Ok? && r.value.Some? ==>
        && at < |ordered| && ordered[at] == r.value.value.1
        && ServedFrom(h, configured, stores.objects, locations[ordered[at]], version, r.value.value.0)
      ensures r == Ok(None) ==> at == |ordered|
      ensures old(stores.faults) <= stores.faults && (r.Err? ==> stores.faults > old(stores.faults))
    {
      hide Servable, Extends;
      ghost var before := stores.objects;
      ExtendsItself(before);
      for i := 0 to |ordered|
        invariant Extends(stores.objects, before) && old(stores.faults) <= stores.faults
        invariant PassedOver(h, configured, before, locations, version, ordered, i)
      {
        var id := ordered[i];
        ghost var here := stores.objects;
        var served := ServeFrom(version, locations[id]);
        ExtendsThrough(stores.objects, here, before);
        if served.Err? {
          return Err(served.error), i;
        }
        if served.value.Some? {
          return Ok(Some((served.value.value, id))), i;
        }
        NotServable(h, configured, here, before, locations[id], version);
      }
      return Ok(None), |ordered|;
    }

    /**
     `readVersionBytes`: only bytes of the version's digest are served, from an eligible location; and
     nothing is served only when no eligible, configured location held them. The working copy is asked
     first, then the others as the query lists them: those before the one served did not hold the bytes.
     `rows` is what the query of `locationsOf` lists: every location of the version, once.
     */
    method ReadVersionBytes(v: VersionId, rows: seq<nat>)
      returns (r: Result<Option<(Bytes, nat)>, Failure>, ghost at: nat)
      requires forall id :: id in rows <==> id in locations && locations[id].versionId == v
      requires forall i, j :: 0 <= i < j < |rows| ==> rows[i] != rows[j]
      modifies stores
      ensures Extends(stores.objects, old(stores.objects))
      ensures r.Ok? && v !in versions ==> r.value == None
      ensures r.Err? ==> stores.faults > old(stores.faults)
      ensures r.Ok? && r.value.Some? ==>
        var (bytes, id), ordered := r.value.value, Ordered(locations, versions[v], rows);
        && at < |ordered| && ordered[at] == id
        && ServedFrom(h, configured, stores.objects, locations[id], versions[v], bytes)
        && PassedOver(h, configured, old(stores.objects), locations, versions[v], ordered, at)
      ensures r == Ok(None) && v in versions ==>
        forall id :: id in locations && locations[id].versionId == v && MayServe(locations[id], versions[v]) ==>
          !Servable(h, configured, old(stores.objects), locations[id], versions[v])
      ensures r.Ok? && r.value.Some? ==>
        var l := locations[r.value.value.1];
        && l.versionId == v && MayServe(l, versions[v])
        && (l.role != Working ==> forall id :: id in locations && locations[id].versionId == v && locations[id].role == Working ==>
              !Servable(h, configured, old(stores.objects), locations[id], versions[v]))
    {
      if v !in versions {
        ExtendsItself(stores.objects);
        return Ok(None), 0;
      }
      hide Servable, Extends, ServedFrom;
      r, at := ServeInOrder(versions[v], Ordered(locations, versions[v], rows));
      EligibleExactly();
    }
  }

  // --- What a replication leaves --------------------------------------------------------------

  predicate IsRowOf(l: Location, v: VersionId, target: StoreId, role: Role) {
    l.versionId == v && l.place.store == target && l.role == role
  }

  ghost predicate HasRow(locations: map<nat, Location>, v: VersionId, target: StoreId, role: Role) {
    exists id :: id in locations && IsRowOf(locations[id], v, target, role)
  }

  /** Nothing was created, or one object at `p` with bytes of the digest. */
  ghost predicate MadeOnly(h: Hash, before: seq<Made>, after: seq<Made>, p: Place, digest: Bytes) {
    after == before || (|after| == |before| + 1 && before <= after && after[|before|].place == p && h(after[|before|].bytes) == digest)
  }

  /** The row a replication leaves: the one already there, or a new one of the object it found or made; verified or not. */
  ghost predicate RowLeft(before: map<nat, Location>, after: map<nat, Location>, objects: map<Place, Object>,
                          v: VersionId, p: Place, role: Role, newId: nat, id: nat, verified: Option<Bytes>)
  {
    if HasRow(before, v, p.store, role)
    then id in before && IsRowOf(before[id], v, p.store, role)
         && after == before[id := before[id].(verified := verified, failed := verified.None?)]
    else id == newId && p in objects
         && after == before[id := Location(v, p, role, Some(objects[p].version), verified, verified.None?)]
  }

  lemma ExtendsAt(after: map<Place, Object>, before: map<Place, Object>, p: Place)
    requires Extends(after, before) && p in before
    ensures p in after && after[p] == before[p]
  {}

  // --- Which locations serve, in which order --------------------------------------------------

  /** A location that may serve a version: the working one, or another verified at its digest and not public. */
  predicate Eligible(l: Location, version: Version) {
    l.role == Working || (l.verified == Some(version.digest) && l.role != PublicCopy)
  }

  /** The working copy, or a copy of one of the three replicable roles whose recorded digest is the version's. */
  predicate MayServe(l: Location, version: Version) {
    match l.role
    case Working => true
    case HotCache => l.verified == Some(version.digest)
    case DurableCopy => l.verified == Some(version.digest)
    case EvidenceCopy => l.verified == Some(version.digest)
    case PublicCopy => false
  }

  lemma EligibleExactly()
    ensures forall l, version :: Eligible(l, version) <==> MayServe(l, version)
  {}

  /** The eligible rows, the working one first. */
  function Ordered(locations: map<nat, Location>, version: Version, rows: seq<nat>): (ordered: seq<nat>)
    requires forall id :: id in rows ==> id in locations
    ensures forall id :: id in ordered <==> id in rows && Eligible(locations[id], version)
  {
    Select(locations, version, rows, true) + Select(locations, version, rows, false)
  }

  function Select(locations: map<nat, Location>, version: Version, rows: seq<nat>, working: bool): (selected: seq<nat>)
    requires forall id :: id in rows ==> id in locations
    ensures forall id :: id in selected <==>
              id in rows && Eligible(locations[id], version) && (locations[id].role == Working) == working
  {
    if rows == [] then []
    else
      assert rows == [rows[0]] + rows[1..];
      var l := locations[rows[0]];
      (if Eligible(l, version) && (l.role == Working) == working then [rows[0]] else [])
      + Select(locations, version, rows[1..], working)
  }

  /** The location's store is configured and holds the version's bytes. */
  ghost predicate Servable(h: Hash, configured: set<StoreId>, objects: map<Place, Object>, l: Location, version: Version) {
    && l.place.store in configured
    && Holds(h, objects, l, version.digest)
    && |objects[l.place].bytes| <= version.sizeBytes
  }

  /** The location's store held exactly these bytes, and they have the version's digest. */
  ghost predicate ServedFrom(h: Hash, configured: set<StoreId>, objects: map<Place, Object>, l: Location,
                             version: Version, bytes: Bytes)
  {
    && Servable(h, configured, objects, l, version)
    && objects[l.place].bytes == bytes && h(bytes) == version.digest
  }

  /** None of the first `n` locations asked could serve the version. */
  ghost predicate PassedOver(h: Hash, configured: set<StoreId>, objects: map<Place, Object>, locations: map<nat, Location>,
                             version: Version, ordered: seq<nat>, n: nat)
  {
    && n <= |ordered|
    && forall j :: 0 <= j < n ==>
         ordered[j] in locations && !Servable(h, configured, objects, locations[ordered[j]], version)
  }

  lemma NotServable(h: Hash, configured: set<StoreId>, after: map<Place, Object>, before: map<Place, Object>,
                    l: Location, version: Version)
    requires Extends(after, before) && !Servable(h, configured, after, l, version)
    ensures !Servable(h, configured, before, l, version)
  {}
}
