/**
 Compiled views: a store that does not roll back beside a database that does
 (apps/kf-storage/src/orphans.ts, apps/worker/src/compiler-runtime).

 Sweeps and compiler runs interleave step by step, in milliseconds. Each takes one transaction-scoped
 lock per stored key; deletions reach the store at once and survive a rollback, references appear at
 commit. A transaction can end while the deletion it covers goes on, and its lock with it.
 */
module CompiledViewSweep {
  import opened Outcomes
  import opened Hashes

  /** A content address, ordered as its text is. */
  type Key = nat

  type Version = nat

  datatype Slot = Slot(key: Key, version: Version)

  /** A materialized view: where its bytes are, their digest and their length. */
  datatype View = View(slot: Slot, digest: Bytes, sizeBytes: nat)

  /** Who holds a lock. */
  datatype Owner = RunOf(run: nat) | SweepOf(sweep: nat)

  /**
   A compiler run: materializing its views, then, in the recording transaction, taking the lock of
   each key in order and reading each view back.
   */
  datatype Run =
    | Compiling(views: seq<View>)
    | Persisting(views: seq<View>, keys: seq<Key>, taken: nat, checked: nat)

  /**
   A sweep: between keys, in the transaction of one key it found unreferenced, or without the
   transaction and still deleting.
   */
  datatype Sweep = Idle | Claimed(key: Key, since: nat) | Stranded(key: Key, since: nat)

  /**
   `deletion`: how long after its claim a deletion may still land. `session`: how long after its claim a
   sweep's idle transaction is left alone. `abrupt`: whether a transaction may also end before that with a
   deletion still to land: a lost connection, a killed worker, a call that fails while its request goes on.
   */
  datatype Policy = Policy(deletion: nat, session: nat, abrupt: bool)

  datatype State = State(
    now: nat,
    store: map<Slot, Bytes>,
    references: set<View>,
    collections: seq<Key>,
    locks: map<Key, Owner>,
    runs: map<nat, Run>,
    sweeps: map<nat, Sweep>)

  const INITIAL := State(0, map[], {}, [], map[], map[], map[])

  datatype Action =
    | Tick(elapsed: nat)
    | Put(slot: Slot, bytes: Bytes)
    | Start(run: nat)
    | Materialize(run: nat, view: View)
    | Begin(run: nat, keys: seq<Key>)
    | TakeLock(run: nat)
    | Confirm(run: nat)
    | Commit(run: nat)
    | Abort(run: nat)
    | Claim(sweep: nat, key: Key)
    | Delete(sweep: nat, version: Version)
    | Record(sweep: nat)
    | Rollback(sweep: nat)
    | Strand(sweep: nat)

  // --- Steps ----------------------------------------------------------------------------------

  /** `verifyStoredView`: the bytes at the recorded version have the recorded length and digest. */
  predicate Stored(h: Hash, store: map<Slot, Bytes>, v: View) {
    v.slot in store && |store[v.slot]| == v.sizeBytes && h(store[v.slot]) == v.digest
  }

  predicate Referenced(references: set<View>, key: Key) {
    exists v :: v in references && v.slot.key == key
  }

  predicate Ascending(keys: seq<Key>) {
    forall i, j :: 0 <= i < j < |keys| ==> keys[i] < keys[j]
  }

  /** `[...new Set(views.map((view) => view.storageUri))].sort()`, stated of its result. */
  predicate IsKeyOrder(keys: seq<Key>, views: seq<View>) {
    && Ascending(keys)
    && (forall i :: 0 <= i < |views| ==> views[i].slot.key in keys)
    && (forall k :: k in keys ==> exists i :: 0 <= i < |views| && views[i].slot.key == k)
  }

  /** The end of a transaction releases every lock it took. */
  function Release(locks: map<Key, Owner>, owner: Owner): map<Key, Owner> {
    map k | k in locks && locks[k] != owner :: locks[k]
  }

  function RunStep(h: Hash, s: State, id: nat, run: Run, a: Action): Option<State> {
    match a
    case Materialize(_, view) =>
      if run.Compiling? && Stored(h, s.store, view)
      then Some(s.(runs := s.runs[id := Compiling(run.views + [view])])) else None
    case Begin(_, keys) =>
      if run.Compiling? && IsKeyOrder(keys, run.views)
      then Some(s.(runs := s.runs[id := Persisting(run.views, keys, 0, 0)])) else None
    case TakeLock(_) =>
      if run.Persisting? && run.taken < |run.keys| && run.keys[run.taken] !in s.locks
      then Some(s.(locks := s.locks[run.keys[run.taken] := RunOf(id)], runs := s.runs[id := run.(taken := run.taken + 1)]))
      else None
    case Confirm(_) =>
      if run.Persisting? && run.taken == |run.keys| && run.checked < |run.views| && Stored(h, s.store, run.views[run.checked])
      then Some(s.(runs := s.runs[id := run.(checked := run.checked + 1)])) else None
    case Commit(_) =>
      if run.Persisting? && run.taken == |run.keys| && run.checked == |run.views|
      then Some(s.(references := s.references + (set v | v in run.views),
                   locks := Release(s.locks, RunOf(id)), runs := s.runs - {id})) else None
    case Abort(_) => Some(s.(locks := Release(s.locks, RunOf(id)), runs := s.runs - {id}))
    case _ => None
  }

  function SweepStep(p: Policy, s: State, id: nat, a: Action): Option<State> {
    var sweep := if id in s.sweeps then s.sweeps[id] else Idle;
    match a
    case Claim(_, key) =>
      if sweep.Idle? && key !in s.locks then
        Some(if Referenced(s.references, key) then s
             else s.(locks := s.locks[key := SweepOf(id)], sweeps := s.sweeps[id := Claimed(key, s.now)]))
      else None
    case Delete(_, version) =>
      if !sweep.Idle? && s.now <= sweep.since + p.deletion
      then Some(s.(store := s.store - {Slot(sweep.key, version)})) else None
    case Record(_) =>
      if sweep.Claimed? && !Referenced(s.references, sweep.key)
      then Some(s.(collections := s.collections + [sweep.key], locks := Release(s.locks, SweepOf(id)),
                   sweeps := s.sweeps[id := Idle])) else None
    case Rollback(_) =>
      Some(s.(locks := Release(s.locks, SweepOf(id)), sweeps := s.sweeps[id := Idle]))
    case Strand(_) =>
      if sweep.Claimed? && (p.abrupt || sweep.since + p.session <= s.now)
      then Some(s.(locks := Release(s.locks, SweepOf(id)), sweeps := s.sweeps[id := Stranded(sweep.key, sweep.since)]))
      else None
    case _ => None
  }

  /** One step, when it is enabled: a lock another transaction holds is waited for. */
  function Step(h: Hash, p: Policy, s: State, a: Action): Option<State> {
    match a
    case Tick(elapsed) => Some(s.(now := s.now + elapsed))
    case Put(slot, bytes) => if slot in s.store then None else Some(s.(store := s.store[slot := bytes]))
    case Start(id) => if id in s.runs then None else Some(s.(runs := s.runs[id := Compiling([])]))
    case Claim(id, _) => SweepStep(p, s, id, a)
    case Delete(id, _) => SweepStep(p, s, id, a)
    case Record(id) => SweepStep(p, s, id, a)
    case Rollback(id) => SweepStep(p, s, id, a)
    case Strand(id) => SweepStep(p, s, id, a)
    case _ => if a.run in s.runs then RunStep(h, s, a.run, s.runs[a.run], a) else None
  }

  /** The state after a whole interleaving, if every step was enabled. */
  function Play(h: Hash, p: Policy, s: State, actions: seq<Action>): Option<State>
    decreases actions
  {
    if actions == [] then Some(s)
    else
      match Step(h, p, s, actions[0])
      case None => None
      case Some(next) => Play(h, p, next, actions[1..])
  }

  // --- What every step keeps ------------------------------------------------------------------

  predicate Holds(s: State, owner: Owner, key: Key) {
    match owner
    case RunOf(id) =>
      && id in s.runs && s.runs[id].Persisting? && s.runs[id].taken <= |s.runs[id].keys|
      && key in s.runs[id].keys[..s.runs[id].taken]
    case SweepOf(id) => id in s.sweeps && s.sweeps[id].Claimed? && s.sweeps[id].key == key
  }

  /** The lock table says exactly who is in a transaction with which keys. */
  ghost predicate LocksAgree(s: State) {
    && (forall k :: k in s.locks ==> Holds(s, s.locks[k], k))
    && (forall owner, k :: Holds(s, owner, k) ==> k in s.locks && s.locks[k] == owner)
  }

  ghost predicate RunOrdered(run: Run) {
    run.Persisting? ==>
      && run.taken <= |run.keys| && run.checked <= |run.views|
      && IsKeyOrder(run.keys, run.views)
      && (run.checked > 0 ==> run.taken == |run.keys|)
  }

  ghost predicate RunsOrdered(s: State) {
    forall id :: id in s.runs ==> RunOrdered(s.runs[id])
  }

  /** A key a sweep is collecting in its transaction is referenced by nothing. */
  ghost predicate ClaimsSound(s: State) {
    forall id :: id in s.sweeps && s.sweeps[id].Claimed? ==> !Referenced(s.references, s.sweeps[id].key)
  }

  /** What every step keeps, under any policy: the locks do what they are for. */
  ghost predicate Locked(s: State) {
    LocksAgree(s) && RunsOrdered(s) && ClaimsSound(s)
  }

  /** What a run has read back under its locks is in the store. */
  ghost predicate Confirmed(h: Hash, store: map<Slot, Bytes>, run: Run) {
    run.Persisting? && run.checked <= |run.views| ==> forall i :: 0 <= i < run.checked ==> Stored(h, store, run.views[i])
  }

  ghost predicate RunsConfirmed(h: Hash, s: State) {
    forall id :: id in s.runs ==> Confirmed(h, s.store, s.runs[id])
  }

  /** Every recorded view is in the store, at its version, with its digest. */
  ghost predicate ReferencesStored(h: Hash, s: State) {
    forall v :: v in s.references ==> Stored(h, s.store, v)
  }

  /** What every step keeps but a deletion whose transaction is over. */
  ghost predicate Sound(h: Hash, s: State) {
    Locked(s) && RunsConfirmed(h, s) && ReferencesStored(h, s)
  }

  /** A deletion that lands without the lock. */
  predicate Stray(s: State, a: Action) {
    a.Delete? && a.sweep in s.sweeps && s.sweeps[a.sweep].Stranded?
  }

  lemma InitiallySound(h: Hash)
    ensures Sound(h, INITIAL)
  {}

  // --- Locks ----------------------------------------------------------------------------------

  /** Steps that neither take nor release a lock. */
  lemma LocksUntouched(s: State, t: State)
    requires LocksAgree(s) && t.locks == s.locks
    requires forall owner, k :: Holds(s, owner, k) <==> Holds(t, owner, k)
    ensures LocksAgree(t)
  {
    hide Holds;
  }

  lemma LocksTaken(s: State, t: State, owner: Owner, key: Key)
    requires LocksAgree(s) && key !in s.locks && t.locks == s.locks[key := owner]
    requires forall o, k :: Holds(t, o, k) <==> Holds(s, o, k) || (o == owner && k == key)
    ensures LocksAgree(t)
  {
    hide Holds;
  }

  lemma LocksReleased(s: State, t: State, owner: Owner)
    requires LocksAgree(s) && t.locks == Release(s.locks, owner)
    requires forall o, k :: Holds(t, o, k) <==> Holds(s, o, k) && o != owner
    ensures LocksAgree(t)
  {
    hide Holds;
  }

  /** Two transactions never hold one key. */
  lemma Exclusive(s: State, a: Owner, b: Owner, key: Key)
    requires LocksAgree(s) && Holds(s, a, key) && Holds(s, b, key)
    ensures a == b
  {
    hide Holds;
  }

  lemma PrefixGrows(keys: seq<Key>, taken: nat, k: Key)
    requires taken < |keys|
    ensures k in keys[..taken + 1] <==> k in keys[..taken] || k == keys[taken]
  {
    assert keys[..taken + 1] == keys[..taken] + [keys[taken]];
  }

  // --- What keeps the locks -------------------------------------------------------------------

  /** Steps that move neither runs nor sweeps nor references. */
  lemma LockedUnmoved(s: State, t: State)
    requires Locked(s) && t.runs == s.runs && t.sweeps == s.sweeps && t.locks == s.locks && t.references == s.references
    ensures Locked(t)
  {
    assert forall o, k :: Holds(t, o, k) <==> Holds(s, o, k);
    LocksUntouched(s, t);
    hide LocksAgree, Holds, RunOrdered, Referenced;
  }

  /** Replacing one run by an ordered one that holds the same locks. */
  lemma RunReplaced(s: State, id: nat, run: Run)
    requires Locked(s) && RunOrdered(run)
    requires forall k :: Holds(s, RunOf(id), k) <==> Holds(s.(runs := s.runs[id := run]), RunOf(id), k)
    ensures Locked(s.(runs := s.runs[id := run]))
  {
    var t := s.(runs := s.runs[id := run]);
    forall owner, k ensures Holds(s, owner, k) <==> Holds(t, owner, k) {
      if owner == RunOf(id) {
        assert Holds(s, RunOf(id), k) <==> Holds(t, RunOf(id), k);
      }
    }
    LocksUntouched(s, t);
    hide Holds, LocksAgree, RunOrdered, Referenced;
  }

  /** Taking the next lock: what the run holds grows by that key. */
  lemma NextKeyHeld(s: State, t: State, id: nat)
    requires id in s.runs && s.runs[id].Persisting? && s.runs[id].taken < |s.runs[id].keys|
    requires t.sweeps == s.sweeps && t.runs == s.runs[id := s.runs[id].(taken := s.runs[id].taken + 1)]
    ensures forall o, k :: Holds(t, o, k) <==> Holds(s, o, k) || (o == RunOf(id) && k == s.runs[id].keys[s.runs[id].taken])
  {
    var run := s.runs[id];
    forall o, k ensures Holds(t, o, k) <==> Holds(s, o, k) || (o == RunOf(id) && k == run.keys[run.taken]) {
      PrefixGrows(run.keys, run.taken, k);
    }
  }

  lemma LockTaken(s: State, t: State, id: nat)
    requires Locked(s) && id in s.runs && s.runs[id].Persisting? && s.runs[id].taken < |s.runs[id].keys|
    requires s.runs[id].keys[s.runs[id].taken] !in s.locks
    requires t == s.(locks := s.locks[s.runs[id].keys[s.runs[id].taken] := RunOf(id)],
                     runs := s.runs[id := s.runs[id].(taken := s.runs[id].taken + 1)])
    ensures Locked(t)
  {
    var run := s.runs[id];
    assert RunOrdered(run);
    assert RunOrdered(run.(taken := run.taken + 1));
    hide Holds, LocksAgree, RunOrdered, Referenced;
    NextKeyHeld(s, t, id);
    LocksTaken(s, t, RunOf(id), run.keys[run.taken]);
  }

  /** A run that leaves its transaction holds nothing. */
  lemma RunLeaves(s: State, id: nat)
    requires Locked(s)
    ensures Locked(s.(locks := Release(s.locks, RunOf(id)), runs := s.runs - {id}))
  {
    var t := s.(locks := Release(s.locks, RunOf(id)), runs := s.runs - {id});
    assert forall o, k :: Holds(t, o, k) <==> Holds(s, o, k) && o != RunOf(id);
    LocksReleased(s, t, RunOf(id));
    hide Holds, LocksAgree, RunOrdered, Release, Referenced;
  }

  /** A run that read its views back under their locks holds the lock of every view it records. */
  lemma ConfirmedHoldsKeys(s: State, id: nat, v: View)
    requires Locked(s) && id in s.runs && s.runs[id].Persisting?
    requires s.runs[id].taken == |s.runs[id].keys| && v in s.runs[id].views
    ensures Holds(s, RunOf(id), v.slot.key)
  {
    var run := s.runs[id];
    assert RunOrdered(run);
    assert run.keys[..run.taken] == run.keys;
    var i :| 0 <= i < |run.views| && run.views[i] == v;
  }

  /** So no sweep is collecting it in a transaction. */
  lemma RecordedUnclaimed(s: State, id: nat, v: View, sweep: nat)
    requires Locked(s) && id in s.runs && s.runs[id].Persisting?
    requires s.runs[id].taken == |s.runs[id].keys| && v in s.runs[id].views
    requires sweep in s.sweeps && s.sweeps[sweep].Claimed?
    ensures s.sweeps[sweep].key != v.slot.key
  {
    ConfirmedHoldsKeys(s, id, v);
    if s.sweeps[sweep].key == v.slot.key {
      assert Holds(s, SweepOf(sweep), v.slot.key);
      Exclusive(s, RunOf(id), SweepOf(sweep), v.slot.key);
    }
  }

  /** The references a run adds are of keys no transaction is collecting. */
  lemma ReferencesLocked(s: State, id: nat)
    requires Locked(s) && id in s.runs && s.runs[id].Persisting? && s.runs[id].taken == |s.runs[id].keys|
    ensures Locked(s.(references := s.references + set v | v in s.runs[id].views))
  {
    var run := s.runs[id];
    var u := s.(references := s.references + set v | v in run.views);
    assert forall o, k :: Holds(u, o, k) <==> Holds(s, o, k);
    LocksUntouched(s, u);
    hide LocksAgree, Holds, RunOrdered;
    forall sweep | sweep in u.sweeps && u.sweeps[sweep].Claimed?
      ensures !Referenced(u.references, u.sweeps[sweep].key)
    {
      forall v | v in u.references ensures v.slot.key != u.sweeps[sweep].key {
        if v in run.views {
          RecordedUnclaimed(s, id, v, sweep);
        }
      }
    }
  }

  lemma CommitLocked(s: State, id: nat)
    requires Locked(s) && id in s.runs && s.runs[id].Persisting? && s.runs[id].taken == |s.runs[id].keys|
    ensures Locked(s.(references := s.references + (set v | v in s.runs[id].views),
                      locks := Release(s.locks, RunOf(id)), runs := s.runs - {id}))
  {
    hide Locked, Release;
    ReferencesLocked(s, id);
    RunLeaves(s.(references := s.references + set v | v in s.runs[id].views), id);
  }

  lemma KeyClaimed(s: State, id: nat, key: Key)
    requires Locked(s) && key !in s.locks && !Referenced(s.references, key)
    requires id in s.sweeps ==> s.sweeps[id].Idle?
    ensures Locked(s.(locks := s.locks[key := SweepOf(id)], sweeps := s.sweeps[id := Claimed(key, s.now)]))
  {
    var t := s.(locks := s.locks[key := SweepOf(id)], sweeps := s.sweeps[id := Claimed(key, s.now)]);
    forall o, k ensures Holds(t, o, k) <==> Holds(s, o, k) || (o == SweepOf(id) && k == key) {}
    LocksTaken(s, t, SweepOf(id), key);
    hide Holds, LocksAgree, RunOrdered, Referenced;
  }

  /** A sweep whose transaction ends, in whatever way, holds nothing. */
  lemma SweepLeaves(s: State, id: nat, sweep: Sweep)
    requires Locked(s) && !sweep.Claimed?
    ensures Locked(s.(locks := Release(s.locks, SweepOf(id)), sweeps := s.sweeps[id := sweep]))
  {
    var t := s.(locks := Release(s.locks, SweepOf(id)), sweeps := s.sweeps[id := sweep]);
    assert forall o, k :: Holds(t, o, k) <==> Holds(s, o, k) && o != SweepOf(id);
    LocksReleased(s, t, SweepOf(id));
    hide Holds, LocksAgree, RunOrdered, Release, Referenced;
  }

  lemma RunReplacedLocked(h: Hash, s: State, id: nat, a: Action)
    requires Locked(s) && id in s.runs && RunStep(h, s, id, s.runs[id], a).Some?
    requires a.Materialize? || a.Begin? || a.Confirm?
    ensures Locked(RunStep(h, s, id, s.runs[id], a).value)
  {
    var run := s.runs[id];
    assert RunOrdered(run);
    var after := RunStep(h, s, id, run, a).value.runs[id];
    assert RunOrdered(after);
    assert after.Persisting? ==> after.keys[..after.taken] == [] || (run.Persisting? && after.keys == run.keys && after.taken == run.taken);
    hide Locked, Stored, Release, IsKeyOrder, RunOrdered;
    RunReplaced(s, id, after);
  }

  lemma RunStepLocked(h: Hash, s: State, id: nat, a: Action)
    requires Locked(s) && id in s.runs && RunStep(h, s, id, s.runs[id], a).Some?
    ensures Locked(RunStep(h, s, id, s.runs[id], a).value)
  {
    hide Locked, Stored, Release, IsKeyOrder;
    match a
    case TakeLock(_) => LockTaken(s, RunStep(h, s, id, s.runs[id], a).value, id);
    case Commit(_) => CommitLocked(s, id);
    case Abort(_) => RunLeaves(s, id);
    case _ => RunReplacedLocked(h, s, id, a);
  }

  lemma SweepStepLocked(p: Policy, s: State, id: nat, a: Action)
    requires Locked(s) && SweepStep(p, s, id, a).Some?
    ensures Locked(SweepStep(p, s, id, a).value)
  {
    hide Locked, Referenced, Release;
    match a
    case Claim(_, key) =>
      if !Referenced(s.references, key) {
        KeyClaimed(s, id, key);
      }
    case Delete(_, _) => LockedUnmoved(s, SweepStep(p, s, id, a).value);
    case Record(_) =>
      var ledgered := s.(collections := s.collections + [s.sweeps[id].key]);
      LockedUnmoved(s, ledgered);
      SweepLeaves(ledgered, id, Idle);
    case Rollback(_) => SweepLeaves(s, id, Idle);
    case Strand(_) => SweepLeaves(s, id, Stranded(s.sweeps[id].key, s.sweeps[id].since));
  }

  /** Under any policy every step of every sweep and run keeps the locks as they are meant. */
  lemma StepKeepsLocks(h: Hash, p: Policy, s: State, a: Action)
    requires Locked(s) && Step(h, p, s, a).Some?
    ensures Locked(Step(h, p, s, a).value)
  {
    hide Locked, RunStep, SweepStep;
    match a
    case Tick(elapsed) => LockedUnmoved(s, s.(now := s.now + elapsed));
    case Put(slot, bytes) => LockedUnmoved(s, s.(store := s.store[slot := bytes]));
    case Start(id) => RunReplaced(s, id, Compiling([]));
    case Claim(id, _) => SweepStepLocked(p, s, id, a);
    case Delete(id, _) => SweepStepLocked(p, s, id, a);
    case Record(id) => SweepStepLocked(p, s, id, a);
    case Rollback(id) => SweepStepLocked(p, s, id, a);
    case Strand(id) => SweepStepLocked(p, s, id, a);
    case _ => RunStepLocked(h, s, a.run, a);
  }

  // --- What keeps the bytes -------------------------------------------------------------------

  lemma ConfirmedStored(h: Hash, s: State, id: nat, v: View)
    requires Sound(h, s) && id in s.runs && s.runs[id].Persisting?
    requires s.runs[id].checked == |s.runs[id].views| && v in s.runs[id].views
    ensures Stored(h, s.store, v)
  {
    hide Locked, ReferencesStored, Stored;
    assert Confirmed(h, s.store, s.runs[id]);
  }

  /** Steps that leave the store alone, and of the runs change one that has read back no more than is stored. */
  lemma BytesUnmoved(h: Hash, s: State, t: State, id: nat)
    requires Sound(h, s) && t.store == s.store && t.references == s.references
    requires forall k :: k in t.runs && k != id ==> k in s.runs && t.runs[k] == s.runs[k]
    requires id in t.runs ==> Confirmed(h, t.store, t.runs[id])
    ensures RunsConfirmed(h, t) && ReferencesStored(h, t)
  {
    hide Locked, Confirmed, Stored;
  }

  lemma BytesGrow(h: Hash, s: State, slot: Slot, bytes: Bytes)
    requires Sound(h, s) && slot !in s.store
    ensures var t := s.(store := s.store[slot := bytes]);
            RunsConfirmed(h, t) && ReferencesStored(h, t)
  {
    var t := s.(store := s.store[slot := bytes]);
    hide Locked;
    forall v | Stored(h, s.store, v) ensures Stored(h, t.store, v) {}
    forall id | id in t.runs ensures Confirmed(h, t.store, t.runs[id]) {
      assert Confirmed(h, s.store, s.runs[id]);
    }
  }

  /** A deletion under its lock touches no recorded view and no view a run has read back. */
  lemma VersionDeleted(h: Hash, s: State, id: nat, version: Version)
    requires Sound(h, s) && id in s.sweeps && s.sweeps[id].Claimed?
    ensures Sound(h, s.(store := s.store - {Slot(s.sweeps[id].key, version)}))
  {
    var key := s.sweeps[id].key;
    var t := s.(store := s.store - {Slot(key, version)});
    LockedUnmoved(s, t);
    assert !Referenced(s.references, key);
    forall v | v in t.references ensures Stored(h, t.store, v) {
      assert Stored(h, s.store, v);
    }
    forall run | run in t.runs ensures Confirmed(h, t.store, t.runs[run]) {
      assert Confirmed(h, s.store, s.runs[run]) && RunOrdered(s.runs[run]);
      hide Locked, IsKeyOrder;
      if s.runs[run].Persisting? && s.runs[run].checked > 0 {
        forall i | 0 <= i < s.runs[run].checked ensures Stored(h, t.store, s.runs[run].views[i]) {
          RecordedUnclaimed(s, run, s.runs[run].views[i], id);
        }
      }
    }
  }

  /** What a run records it has read back, so it is stored. */
  lemma ReferencesAdded(h: Hash, s: State, id: nat)
    requires Sound(h, s) && id in s.runs && s.runs[id].Persisting?
    requires s.runs[id].taken == |s.runs[id].keys| && s.runs[id].checked == |s.runs[id].views|
    ensures Sound(h, s.(references := s.references + (set v | v in s.runs[id].views),
                        locks := Release(s.locks, RunOf(id)), runs := s.runs - {id}))
  {
    var t := s.(references := s.references + (set v | v in s.runs[id].views),
                locks := Release(s.locks, RunOf(id)), runs := s.runs - {id});
    CommitLocked(s, id);
    hide Locked, Stored, Confirmed, Release;
    forall v | v in t.references ensures Stored(h, t.store, v) {
      if v !in s.references {
        ConfirmedStored(h, s, id, v);
      }
    }
  }

  /** A run's step, but its commit, changes that run alone, which has read back no more than is stored. */
  lemma RunStepConfirmed(h: Hash, s: State, id: nat, a: Action)
    requires id in s.runs && RunStep(h, s, id, s.runs[id], a).Some? && !a.Commit?
    requires RunOrdered(s.runs[id]) && Confirmed(h, s.store, s.runs[id])
    ensures var t := RunStep(h, s, id, s.runs[id], a).value;
            && t.store == s.store && t.references == s.references
            && (forall k :: k in t.runs && k != id ==> k in s.runs && t.runs[k] == s.runs[k])
            && (id in t.runs ==> Confirmed(h, t.store, t.runs[id]))
  {
    hide Stored, IsKeyOrder, Release;
  }

  lemma RunStepSound(h: Hash, s: State, id: nat, a: Action)
    requires Sound(h, s) && id in s.runs && RunStep(h, s, id, s.runs[id], a).Some?
    ensures Sound(h, RunStep(h, s, id, s.runs[id], a).value)
  {
    if a.Commit? {
      hide Sound, Release;
      ReferencesAdded(h, s, id);
    } else {
      assert RunOrdered(s.runs[id]) && Confirmed(h, s.store, s.runs[id]);
      hide RunStep, RunOrdered, Confirmed, Locked, RunsConfirmed, ReferencesStored;
      RunStepLocked(h, s, id, a);
      RunStepConfirmed(h, s, id, a);
      BytesUnmoved(h, s, RunStep(h, s, id, s.runs[id], a).value, id);
    }
  }

  lemma SweepStepSound(h: Hash, p: Policy, s: State, id: nat, a: Action)
    requires Sound(h, s) && SweepStep(p, s, id, a).Some?
    requires a.Delete? ==> id in s.sweeps && !s.sweeps[id].Stranded?
    ensures Sound(h, SweepStep(p, s, id, a).value)
  {
    if a.Delete? {
      hide Sound;
      VersionDeleted(h, s, id, a.version);
    } else {
      SweepStepLocked(p, s, id, a);
      hide Locked, RunsConfirmed, ReferencesStored, Release, Referenced;
      RunsStay(h, s, SweepStep(p, s, id, a).value);
    }
  }

  /** Every step keeps recorded and read-back views stored, but a deletion that lands without its lock. */
  lemma StepKeeps(h: Hash, p: Policy, s: State, a: Action)
    requires Sound(h, s) && Step(h, p, s, a).Some? && !Stray(s, a)
    ensures Sound(h, Step(h, p, s, a).value)
  {
    hide RunStep, Locked, RunsConfirmed, ReferencesStored;
    match a
    case Tick(_) => OutsideStepSound(h, p, s, a);
    case Put(_, _) => OutsideStepSound(h, p, s, a);
    case Start(_) => OutsideStepSound(h, p, s, a);
    case Claim(id, _) => SweepStepSound(h, p, s, id, a);
    case Delete(id, _) => SweepStepSound(h, p, s, id, a);
    case Record(id) => SweepStepSound(h, p, s, id, a);
    case Rollback(id) => SweepStepSound(h, p, s, id, a);
    case Strand(id) => SweepStepSound(h, p, s, id, a);
    case _ => RunStepSound(h, s, a.run, a);
  }

  lemma OutsideStepSound(h: Hash, p: Policy, s: State, a: Action)
    requires Sound(h, s) && Step(h, p, s, a).Some? && (a.Tick? || a.Put? || a.Start?)
    ensures Sound(h, Step(h, p, s, a).value)
  {
    var t := Step(h, p, s, a).value;
    StepKeepsLocks(h, p, s, a);
    hide Locked, RunsConfirmed, ReferencesStored, RunStep, SweepStep;
    match a
    case Put(slot, bytes) => BytesGrow(h, s, slot, bytes);
    case Start(id) => BytesUnmoved(h, s, t, id);
    case _ => RunsStay(h, s, t);
  }

  lemma RunsStay(h: Hash, s: State, t: State)
    requires Sound(h, s) && t.store == s.store && t.references == s.references && t.runs == s.runs
    ensures RunsConfirmed(h, t) && ReferencesStored(h, t)
  {
    hide Locked, Confirmed, Stored;
  }

  // --- Safety ---------------------------------------------------------------------------------

  /** No deletion of the run lands after its transaction is over. */
  ghost predicate NoneStray(h: Hash, p: Policy, s: State, actions: seq<Action>)
    decreases actions
  {
    actions != [] && Step(h, p, s, actions[0]).Some? ==>
      !Stray(s, actions[0]) && NoneStray(h, p, Step(h, p, s, actions[0]).value, actions[1..])
  }

  /** The locks are kept by whole interleavings, under any policy. */
  lemma {:induction false} LocksKept(h: Hash, p: Policy, s: State, actions: seq<Action>)
    requires Locked(s) && Play(h, p, s, actions).Some?
    ensures Locked(Play(h, p, s, actions).value)
    decreases actions
  {
    if actions != [] {
      hide Step, Locked;
      StepKeepsLocks(h, p, s, actions[0]);
      LocksKept(h, p, Step(h, p, s, actions[0]).value, actions[1..]);
    }
  }

  /**
   Under every interleaving of sweeps, runs, failures and rollbacks in which no deletion lands after its
   transaction, every view a recorded run references is in the store at its recorded version, with its
   recorded digest and length.
   */
  lemma {:induction false} NoDanglingReference(h: Hash, p: Policy, s: State, actions: seq<Action>)
    requires Sound(h, s) && Play(h, p, s, actions).Some? && NoneStray(h, p, s, actions)
    ensures Sound(h, Play(h, p, s, actions).value)
    ensures ReferencesStored(h, Play(h, p, s, actions).value)
    decreases actions
  {
    if actions != [] {
      hide Step, Locked, RunsConfirmed, ReferencesStored, Stray;
      StepKeeps(h, p, s, actions[0]);
      NoDanglingReference(h, p, Step(h, p, s, actions[0]).value, actions[1..]);
    }
  }

  /** A deletion is over before its transaction can end under it. */
  predicate DeletionCovered(p: Policy) {
    !p.abrupt && p.deletion < p.session
  }

  /** A stranded sweep's transaction lasted its session. */
  ghost predicate StrandedLate(p: Policy, s: State) {
    forall id :: id in s.sweeps && s.sweeps[id].Stranded? ==> s.sweeps[id].since + p.session <= s.now
  }

  lemma StrandedLateKept(h: Hash, p: Policy, s: State, a: Action)
    requires DeletionCovered(p) && StrandedLate(p, s) && Step(h, p, s, a).Some?
    ensures StrandedLate(p, Step(h, p, s, a).value) && !Stray(s, a)
  {
    hide Stored, Referenced, IsKeyOrder, Release;
  }

  /** Where deletions are covered none is stray. */
  lemma {:induction false} CoveredNoneStray(h: Hash, p: Policy, s: State, actions: seq<Action>)
    requires DeletionCovered(p) && StrandedLate(p, s)
    ensures NoneStray(h, p, s, actions)
    decreases actions
  {
    hide Step, StrandedLate, DeletionCovered, Stray;
    if actions != [] && Step(h, p, s, actions[0]).Some? {
      StrandedLateKept(h, p, s, actions[0]);
      CoveredNoneStray(h, p, Step(h, p, s, actions[0]).value, actions[1..]);
    }
  }

  // --- Waiting --------------------------------------------------------------------------------

  /** The run waits for a lock another transaction holds. */
  predicate Blocked(s: State, id: nat) {
    && id in s.runs && s.runs[id].Persisting?
    && s.runs[id].taken < |s.runs[id].keys| && s.runs[id].keys[s.runs[id].taken] in s.locks
  }

  function Awaited(s: State, id: nat): Key
    requires Blocked(s, id)
  {
    s.runs[id].keys[s.runs[id].taken]
  }

  /** The holder of `key` can go on: a sweep, or a run that waits for nothing. */
  predicate Free(s: State, owner: Owner) {
    owner.RunOf? ==> !Blocked(s, owner.run)
  }

  lemma {:induction false} LatestWaiter(s: State, ids: set<nat>) returns (latest: nat)
    requires ids != {} && forall id :: id in ids ==> Blocked(s, id)
    ensures latest in ids && forall id :: id in ids ==> Awaited(s, id) <= Awaited(s, latest)
    decreases |ids|
  {
    hide Blocked, Awaited;
    var id :| id in ids;
    if ids == {id} {
      latest := id;
    } else {
      var rest := LatestWaiter(s, ids - {id});
      latest := if Awaited(s, id) <= Awaited(s, rest) then rest else id;
    }
  }

  /** A waiting run holds only keys before the one it awaits. */
  lemma WaitsInOrder(s: State, id: nat, key: Key)
    requires Locked(s) && Blocked(s, id) && Holds(s, RunOf(id), key)
    ensures key < Awaited(s, id)
  {
    var run := s.runs[id];
    assert RunOrdered(run);
    var i :| 0 <= i < run.taken && run.keys[..run.taken][i] == key;
    assert run.keys[i] == key;
  }

  /** Taking locks in one order leaves no cycle: while a run waits, someone holding a lock can go on. */
  lemma {:induction false} NoDeadlock(s: State, waiting: nat)
    requires Locked(s) && Blocked(s, waiting)
    ensures exists k :: k in s.locks && Free(s, s.locks[k])
  {
    var ids := set id | id in s.runs && Blocked(s, id);
    assert waiting in ids;
    var latest := LatestWaiter(s, ids);
    var key := Awaited(s, latest);
    var owner := s.locks[key];
    assert Holds(s, owner, key);
    if !Free(s, owner) {
      assert owner.run in ids;
      WaitsInOrder(s, owner.run, key);
      assert false;
    }
  }

  // --- Four runs ------------------------------------------------------------------------------

  /** A run is known by the states it passes through. */
  lemma {:induction false} PlayThrough(h: Hash, p: Policy, states: seq<State>, actions: seq<Action>)
    requires |states| == |actions| + 1
    requires forall i :: 0 <= i < |actions| ==> Step(h, p, states[i], actions[i]) == Some(states[i + 1])
    ensures Play(h, p, states[0], actions) == Some(states[|actions|])
  {
    hide Step;
    if actions != [] {
      assert Step(h, p, states[0], actions[0]) == Some(states[1]);
      PlayThrough(h, p, states[1..], actions[1..]);
    }
  }

  lemma KeyClaims(h: Hash, p: Policy, s: State, t: State, key: Key)
    requires s.locks == map[] && s.references == {} && s.sweeps == map[]
    requires t == s.(locks := map[key := SweepOf(0)], sweeps := map[0 := Claimed(key, s.now)])
    ensures Step(h, p, s, Claim(0, key)) == Some(t)
  {
    assert s.locks[key := SweepOf(0)] == t.locks && s.sweeps[0 := t.sweeps[0]] == t.sweeps;
  }

  /** A sweep whose record fails after the delete: the bytes are gone and the ledger does not say so. */
  lemma DeleteSurvivesRollback(h: Hash, p: Policy, slot: Slot, bytes: Bytes)
    ensures var played := Play(h, p, INITIAL, [Put(slot, bytes), Claim(0, slot.key), Delete(0, slot.version), Rollback(0)]);
            && played.Some?
            && slot !in played.value.store && slot.key !in played.value.collections
            && played.value.locks == map[]
            && Sound(h, played.value)
  {
    var a := [Put(slot, bytes), Claim(0, slot.key), Delete(0, slot.version), Rollback(0)];
    var s1 := INITIAL.(store := map[slot := bytes]);
    var s2 := s1.(locks := map[slot.key := SweepOf(0)], sweeps := map[0 := Claimed(slot.key, 0)]);
    var s3 := s2.(store := map[]);
    var s4 := s3.(locks := map[], sweeps := map[0 := Idle]);
    assert Step(h, p, INITIAL, a[0]) == Some(s1);
    KeyClaims(h, p, s1, s2, slot.key);
    assert s2.store - {slot} == map[];
    assert Step(h, p, s2, a[2]) == Some(s3);
    RolledBack(h, p, s3, s4, slot.key);
    NothingLeft(h, s4);
    hide Step, Sound;
    PlayThrough(h, p, [INITIAL, s1, s2, s3, s4], a);
  }

  /** A sweep left alone deletes the unreferenced bytes, records the collection and releases its lock. */
  lemma {:induction false} SweepCollects(h: Hash, p: Policy, slot: Slot, bytes: Bytes)
    ensures var played := Play(h, p, INITIAL, [Put(slot, bytes), Claim(0, slot.key), Delete(0, slot.version), Record(0)]);
            && played.Some?
            && slot !in played.value.store && played.value.collections == [slot.key]
            && played.value.locks == map[] && played.value.sweeps == map[0 := Idle]
  {
    var a := [Put(slot, bytes), Claim(0, slot.key), Delete(0, slot.version), Record(0)];
    var s1 := INITIAL.(store := map[slot := bytes]);
    var s2 := s1.(locks := map[slot.key := SweepOf(0)], sweeps := map[0 := Claimed(slot.key, 0)]);
    var s3 := s2.(store := map[]);
    var s4 := s3.(collections := [slot.key], locks := map[], sweeps := map[0 := Idle]);
    assert Step(h, p, INITIAL, a[0]) == Some(s1);
    KeyClaims(h, p, s1, s2, slot.key);
    assert s2.store - {slot} == map[];
    assert Step(h, p, s2, a[2]) == Some(s3);
    Collected(h, p, s3, s4, slot.key);
    hide Step;
    PlayThrough(h, p, [INITIAL, s1, s2, s3, s4], a);
  }

  lemma Collected(h: Hash, p: Policy, s: State, t: State, key: Key)
    requires s.locks == map[key := SweepOf(0)] && s.sweeps == map[0 := Claimed(key, 0)]
    requires s.references == {} && s.collections == []
    requires t == s.(collections := [key], locks := map[], sweeps := map[0 := Idle])
    ensures Step(h, p, s, Record(0)) == Some(t)
  {
    assert Release(s.locks, SweepOf(0)) == map[];
    assert s.sweeps[0 := Idle] == t.sweeps;
    assert [] + [key] == [key];
  }

  lemma RolledBack(h: Hash, p: Policy, s: State, t: State, key: Key)
    requires s.locks == map[key := SweepOf(0)] && s.sweeps == map[0 := Claimed(key, 0)]
    requires t == s.(locks := map[], sweeps := map[0 := Idle])
    ensures Step(h, p, s, Rollback(0)) == Some(t)
  {
    assert Release(s.locks, SweepOf(0)) == map[];
    assert s.sweeps[0 := Idle] == t.sweeps;
  }

  lemma NothingLeft(h: Hash, s: State)
    requires s.locks == map[] && s.runs == map[] && s.references == {} && s.sweeps == map[0 := Idle]
    ensures Sound(h, s)
  {}

  lemma {:induction false} PlayConcat(h: Hash, p: Policy, s: State, a: seq<Action>, b: seq<Action>)
    requires Play(h, p, s, a).Some?
    ensures Play(h, p, s, a + b) == Play(h, p, Play(h, p, s, a).value, b)
    decreases a
  {
    hide Step;
    if a == [] {
      assert a + b == b;
    } else {
      assert (a + b)[1..] == a[1..] + b;
      PlayConcat(h, p, Step(h, p, s, a[0]).value, a[1..], b);
    }
  }

  /** The bytes are put and a run adopts them. */
  function Adopting(view: View, bytes: Bytes): seq<Action> {
    [Put(view.slot, bytes), Start(0), Materialize(0, view)]
  }

  /** The recording transaction. */
  function Recording(view: View): seq<Action> {
    [Begin(0, [view.slot.key]), TakeLock(0), Confirm(0), Commit(0)]
  }

  function Adopted(view: View, bytes: Bytes): State {
    INITIAL.(store := map[view.slot := bytes], runs := map[0 := Compiling([view])])
  }

  lemma RunAdopts(h: Hash, p: Policy, view: View, bytes: Bytes)
    requires view.digest == h(bytes) && view.sizeBytes == |bytes|
    ensures Play(h, p, INITIAL, Adopting(view, bytes)) == Some(Adopted(view, bytes))
  {
    var s1 := INITIAL.(store := map[view.slot := bytes]);
    var s2 := s1.(runs := map[0 := Compiling([])]);
    var s3 := Adopted(view, bytes);
    ViewPut(h, p, s1, view.slot, bytes);
    assert Stored(h, s1.store, view);
    hide Step, Stored, Play;
    RunMaterializes(h, p, s1, s2, s3, view);
    PlayThrough(h, p, [INITIAL, s1, s2, s3], Adopting(view, bytes));
  }

  lemma RunPersistsView(h: Hash, p: Policy, s: State, view: View)
    requires s.runs == map[0 := Compiling([view])] && s.locks == map[] && s.references == {} && Stored(h, s.store, view)
    ensures Play(h, p, s, Recording(view)) == Some(s.(references := {view}, runs := map[]))
  {
    var key := view.slot.key;
    var s1 := s.(runs := map[0 := Persisting([view], [key], 0, 0)]);
    var s2 := s1.(locks := map[key := RunOf(0)], runs := map[0 := Persisting([view], [key], 1, 0)]);
    var s3 := s2.(runs := map[0 := Persisting([view], [key], 1, 1)]);
    var s4 := s3.(references := {view}, locks := map[], runs := map[]);
    hide Step, Stored, Play;
    RunPersists(h, p, s, s1, s2, view);
    RunConfirms(h, p, s2, s3, view);
    RunCommits(h, p, s3, s4, view);
    PlayThrough(h, p, [s, s1, s2, s3, s4], Recording(view));
  }

  /** The other side goes through: a run that finds its view still there records it. */
  lemma RunRecords(h: Hash, p: Policy, slot: Slot, bytes: Bytes)
    ensures var view := View(slot, h(bytes), |bytes|);
            var played := Play(h, p, INITIAL, Adopting(view, bytes) + Recording(view));
            played.Some? && played.value.references == {view} && played.value.locks == map[]
  {
    var view := View(slot, h(bytes), |bytes|);
    assert Stored(h, Adopted(view, bytes).store, view);
    hide Step, Stored, Play, Adopting, Recording;
    RunAdopts(h, p, view, bytes);
    RunPersistsView(h, p, Adopted(view, bytes), view);
    PlayConcat(h, p, INITIAL, Adopting(view, bytes), Recording(view));
  }

  lemma RunMaterializes(h: Hash, p: Policy, s1: State, s2: State, s3: State, view: View)
    requires s1.runs == map[] && Stored(h, s1.store, view)
    requires s2 == s1.(runs := map[0 := Compiling([])]) && s3 == s2.(runs := map[0 := Compiling([view])])
    ensures Step(h, p, s1, Start(0)) == Some(s2) && Step(h, p, s2, Materialize(0, view)) == Some(s3)
  {
    hide Stored, IsKeyOrder, Release, SweepStep;
    assert [] + [view] == [view];
    assert s2.runs[0 := Compiling([] + [view])] == s3.runs;
  }

  lemma RunPersists(h: Hash, p: Policy, s3: State, s4: State, s5: State, view: View)
    requires s3.runs == map[0 := Compiling([view])] && s3.locks == map[]
    requires s4 == s3.(runs := map[0 := Persisting([view], [view.slot.key], 0, 0)])
    requires s5 == s4.(locks := map[view.slot.key := RunOf(0)], runs := map[0 := Persisting([view], [view.slot.key], 1, 0)])
    ensures Step(h, p, s3, Begin(0, [view.slot.key])) == Some(s4) && Step(h, p, s4, TakeLock(0)) == Some(s5)
  {
    var views := [view];
    assert views[0].slot.key == view.slot.key;
    assert IsKeyOrder([view.slot.key], views);
    hide IsKeyOrder, Release, SweepStep;
    assert s3.runs[0 := s4.runs[0]] == s4.runs && s4.runs[0 := s5.runs[0]] == s5.runs;
  }

  lemma RunConfirms(h: Hash, p: Policy, s5: State, s6: State, view: View)
    requires s5.runs == map[0 := Persisting([view], [view.slot.key], 1, 0)] && Stored(h, s5.store, view)
    requires s6 == s5.(runs := map[0 := Persisting([view], [view.slot.key], 1, 1)])
    ensures Step(h, p, s5, Confirm(0)) == Some(s6)
  {
    hide Stored, IsKeyOrder, Release, SweepStep;
    assert s5.runs[0 := s6.runs[0]] == s6.runs;
  }

  lemma RunCommits(h: Hash, p: Policy, s6: State, s7: State, view: View)
    requires s6.runs == map[0 := Persisting([view], [view.slot.key], 1, 1)]
    requires s6.locks == map[view.slot.key := RunOf(0)] && s6.references == {}
    requires s7 == s6.(references := {view}, locks := map[], runs := map[])
    ensures Step(h, p, s6, Commit(0)) == Some(s7)
  {
    assert Release(s6.locks, RunOf(0)) == map[];
    hide Stored, IsKeyOrder, Release, SweepStep;
    var run := s6.runs[0];
    assert {} + (set v | v in run.views) == {view};
    assert s6.runs - {0} == map[];
  }

  // --- A deletion that outlives its transaction -----------------------------------------------

  /** How long the sweep waits before its transaction ends under it. */
  function Wait(p: Policy): nat {
    if p.abrupt then 0 else p.session
  }

  /** A sweep claims the key, and its transaction ends with the deletion under way. */
  function Stranding(p: Policy, key: Key): seq<Action> {
    [Claim(0, key), Tick(Wait(p)), Strand(0)]
  }

  /** Then the run records the view, and the deletion lands. */
  function Straying(p: Policy, view: View, bytes: Bytes): seq<Action> {
    Adopting(view, bytes) + Stranding(p, view.slot.key) + Recording(view) + [Delete(0, view.slot.version)]
  }

  lemma SweepStrands(h: Hash, p: Policy, s: State, key: Key)
    requires s.now == 0 && s.locks == map[] && s.references == {} && s.sweeps == map[]
    ensures Play(h, p, s, Stranding(p, key)) == Some(s.(now := Wait(p), sweeps := map[0 := Stranded(key, 0)]))
  {
    var s1 := s.(locks := map[key := SweepOf(0)], sweeps := map[0 := Claimed(key, 0)]);
    var s2 := s1.(now := Wait(p));
    var s3 := s2.(locks := map[], sweeps := map[0 := Stranded(key, 0)]);
    KeyClaims(h, p, s, s1, key);
    SessionEnds(h, p, s1, s2, s3, key);
    hide Step, Play;
    PlayThrough(h, p, [s, s1, s2, s3], Stranding(p, key));
  }

  /** Where a transaction can end before its deletion is over, a recorded view loses its bytes. */
  lemma {:induction false} StrayDeletionDangles(h: Hash, p: Policy, slot: Slot, bytes: Bytes)
    requires !DeletionCovered(p)
    ensures var view := View(slot, h(bytes), |bytes|);
            var played := Play(h, p, INITIAL, Straying(p, view, bytes));
            played.Some? && view in played.value.references && slot !in played.value.store
  {
    var view := View(slot, h(bytes), |bytes|);
    var s1 := Adopted(view, bytes);
    var s2 := s1.(now := Wait(p), sweeps := map[0 := Stranded(slot.key, 0)]);
    var s3 := s2.(references := {view}, runs := map[]);
    var s4 := s3.(store := map[]);
    var last := [Delete(0, slot.version)];
    assert Stored(h, s2.store, view);
    LandsLate(h, p, s3, s4, slot);
    RunAdopts(h, p, view, bytes);
    SweepStrands(h, p, s1, slot.key);
    hide Step, Stored, Play, Adopting, Stranding, Recording, Wait, DeletionCovered;
    RunPersistsView(h, p, s2, view);
    PlayThrough(h, p, [s3, s4], last);
    PlayConcat(h, p, INITIAL, Adopting(view, bytes), Stranding(p, slot.key));
    PlayConcat(h, p, INITIAL, Adopting(view, bytes) + Stranding(p, slot.key), Recording(view));
    PlayConcat(h, p, INITIAL, Adopting(view, bytes) + Stranding(p, slot.key) + Recording(view), last);
  }

  lemma ViewPut(h: Hash, p: Policy, t: State, slot: Slot, bytes: Bytes)
    requires t == INITIAL.(store := map[slot := bytes])
    ensures Step(h, p, INITIAL, Put(slot, bytes)) == Some(t)
  {}

  lemma SessionEnds(h: Hash, p: Policy, s: State, t: State, u: State, key: Key)
    requires s.now == 0 && s.locks == map[key := SweepOf(0)] && s.sweeps == map[0 := Claimed(key, 0)]
    requires t == s.(now := Wait(p)) && u == t.(locks := map[], sweeps := map[0 := Stranded(key, 0)])
    ensures Step(h, p, s, Tick(Wait(p))) == Some(t) && Step(h, p, t, Strand(0)) == Some(u)
  {
    assert Release(t.locks, SweepOf(0)) == map[];
    assert t.sweeps[0 := Stranded(key, 0)] == u.sweeps;
  }

  lemma LandsLate(h: Hash, p: Policy, s: State, t: State, slot: Slot)
    requires !DeletionCovered(p) && s.now == Wait(p) && s.sweeps == map[0 := Stranded(slot.key, 0)]
    requires s.store.Keys == {slot} && t == s.(store := map[])
    ensures Step(h, p, s, Delete(0, slot.version)) == Some(t)
  {
    assert s.store - {slot} == map[];
  }

  /** No interleaving leaves a recorded view without its bytes. */
  ghost predicate NeverDangles(h: Hash, p: Policy) {
    forall actions :: Play(h, p, INITIAL, actions).Some? ==> ReferencesStored(h, Play(h, p, INITIAL, actions).value)
  }

  /**
   No interleaving of sweeps, runs, failures and rollbacks leaves a recorded view without its bytes, exactly
   when a deletion is over before its transaction can end under it.
   */
  lemma {:induction false} DanglesExactly(h: Hash, p: Policy)
    ensures NeverDangles(h, p) <==> DeletionCovered(p)
  {
    hide Play, DeletionCovered, Sound, Straying;
    if DeletionCovered(p) {
      forall actions | Play(h, p, INITIAL, actions).Some?
        ensures ReferencesStored(h, Play(h, p, INITIAL, actions).value)
      {
        InitiallySound(h);
        CoveredNoneStray(h, p, INITIAL, actions);
        NoDanglingReference(h, p, INITIAL, actions);
      }
    } else {
      var view := View(Slot(0, 0), h([]), 0);
      StrayDeletionDangles(h, p, view.slot, []);
      assert !Stored(h, Play(h, p, INITIAL, Straying(p, view, [])).value.store, view);
    }
  }
}
