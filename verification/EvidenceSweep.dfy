/**
 The sweep of unreferenced evidence bytes (`sweepOrphanedEvidence`, apps/kf-storage/src/orphans.ts).

 It holds no lock: before each of its calls other transactions may commit references and put bytes,
 and each call may fail. What they do and which calls fail is a script, so that a run is a function
 of it, which the method computes and the theorems are about.
 */
module EvidenceSweep {
  import opened Outcomes

  type Key = nat

  /** An error of the store or the database. */
  datatype Failure = Failure(accessDenied: bool, message: nat)

  /** What other transactions do before a call: the references they commit, the keys they put bytes under. */
  datatype Others = Others(committed: set<Key>, put: set<Key>)

  /** The calls made for one key. A deletion that fails may have removed the bytes; a record that fails is rolled back. */
  datatype Turn = Turn(
    atCheck: Others, checkFails: Option<Failure>,
    atDelete: Others, deleteFails: Option<Failure>, goneAnyway: bool,
    atRecord: Others, recordFails: Option<Failure>,
    atRecheck: Others, recheckFails: Option<Failure>)

  /** An object as the store lists it, and what its turn meets. */
  datatype Listed = Listed(key: Key, lastModified: int, turn: Turn)

  /** One namespace's listing, and the error it ends in, if any. */
  datatype Listing = Listing(objects: seq<Listed>, broken: Option<Failure>)

  datatype Verdict =
    | Kept
    | Collected
    | NotDeleted(error: Failure)
    | NotRecorded(error: Failure)
    | BecameReferenced

  /** A key the sweep finished examining, and the references committed when it last looked. */
  datatype Examined = Examined(key: Key, verdict: Verdict, references: set<Key>)

  datatype Refusal = OfObject(key: Key, verdict: Verdict) | OfNamespace(namespace: nat)

  datatype Report = Report(collected: seq<Key>, kept: nat, refused: seq<Refusal>)

  // --- What a report says of a history --------------------------------------------------------

  function CollectedOf(history: seq<Examined>): seq<Key> {
    if history == [] then []
    else
      var last := history[|history| - 1];
      CollectedOf(history[..|history| - 1]) + if last.verdict == Collected then [last.key] else []
  }

  function KeptOf(history: seq<Examined>): nat {
    if history == [] then 0
    else KeptOf(history[..|history| - 1]) + if history[|history| - 1].verdict == Kept then 1 else 0
  }

  function RefusedOf(history: seq<Examined>): seq<Refusal> {
    if history == [] then []
    else
      var last := history[|history| - 1];
      RefusedOf(history[..|history| - 1])
      + if last.verdict == Kept || last.verdict == Collected then [] else [OfObject(last.key, last.verdict)]
  }

  lemma ReportGrows(history: seq<Examined>, e: Examined)
    ensures CollectedOf(history + [e]) == if e.verdict == Collected then CollectedOf(history) + [e.key] else CollectedOf(history)
    ensures KeptOf(history + [e]) == if e.verdict == Kept then KeptOf(history) + 1 else KeptOf(history)
    ensures RefusedOf(history + [e]) == if e.verdict == Kept || e.verdict == Collected then RefusedOf(history)
                                        else RefusedOf(history) + [OfObject(e.key, e.verdict)]
  {
    assert (history + [e])[..|history + [e]| - 1] == history;
  }

  /** Nothing examined goes unreported: the three counts add up to what was examined. */
  lemma {:induction false} ReportsPartition(history: seq<Examined>)
    ensures |CollectedOf(history)| + KeptOf(history) + |RefusedOf(history)| == |history|
    ensures forall e :: e in history ==>
              || (e.verdict == Kept)
              || (e.verdict == Collected && e.key in CollectedOf(history))
              || (e.verdict != Collected && OfObject(e.key, e.verdict) in RefusedOf(history))
  {
    if history != [] {
      var init := history[..|history| - 1];
      assert history == init + [history[|history| - 1]];
      ReportsPartition(init);
    }
  }

  // --- One key --------------------------------------------------------------------------------

  /**
   What the sweep reaches: the keys with bytes, the committed references, this run's entries in the
   ledger of collections, and the keys it has asked the store to delete.
   */
  datatype State = State(store: set<Key>, references: set<Key>, ledger: seq<Key>, attempted: seq<Key>)

  function Later(s: State, others: Others): State {
    s.(references := s.references + others.committed, store := s.store + others.put)
  }

  function Checked(s: State, turn: Turn): State {
    Later(s, turn.atCheck)
  }

  function Deleted(s: State, key: Key, turn: Turn): State {
    var at := Later(Checked(s, turn), turn.atDelete);
    at.(attempted := at.attempted + [key],
        store := if turn.deleteFails.Some? && !turn.goneAnyway then at.store else at.store - {key})
  }

  function Recorded(s: State, key: Key, turn: Turn): State {
    var at := Later(Deleted(s, key, turn), turn.atRecord);
    at.(ledger := if turn.recordFails.Some? then at.ledger else at.ledger + [key])
  }

  function Rechecked(s: State, key: Key, turn: Turn): State {
    Later(Recorded(s, key, turn), turn.atRecheck)
  }

  /** What one key's turn leaves, and its verdict or the failure of a check. */
  datatype Step = Step(state: State, answer: Result<Verdict, Failure>)

  function StepOf(s: State, o: Listed, cutoff: int): Step {
    var turn := o.turn;
    if o.lastModified >= cutoff then Step(s, Ok(Kept))
    else if turn.checkFails.Some? then Step(Checked(s, turn), Err(turn.checkFails.value))
    else if o.key in Checked(s, turn).references then Step(Checked(s, turn), Ok(Kept))
    else if turn.deleteFails.Some? then Step(Deleted(s, o.key, turn), Ok(NotDeleted(turn.deleteFails.value)))
    else if turn.recordFails.Some? then Step(Recorded(s, o.key, turn), Ok(NotRecorded(turn.recordFails.value)))
    else
      var last := Rechecked(s, o.key, turn);
      if turn.recheckFails.Some? then Step(last, Err(turn.recheckFails.value))
      else Step(last, Ok(if o.key in last.references then BecameReferenced else Collected))
  }

  /** No bytes are lost but, perhaps, those under the key. */
  ghost predicate OnlyLoses(before: set<Key>, after: set<Key>, key: Key) {
    forall k :: k in before && k != key ==> k in after
  }

  /**
   What a verdict means of the bytes, of the ledger and of the references at the last look. Bytes of a
   key collected are there afterwards exactly when another transaction put them back.
   */
  lemma StepMeans(s: State, o: Listed, cutoff: int)
    ensures var step, turn, key := StepOf(s, o, cutoff), o.turn, o.key;
            && s.references <= step.state.references && OnlyLoses(s.store, step.state.store, key)
            && (step.answer == Ok(Kept) <==>
                  || o.lastModified >= cutoff
                  || (turn.checkFails.None? && key in s.references + turn.atCheck.committed))
            && (step.answer == Ok(Kept) ==>
                  s.store <= step.state.store && step.state.attempted == s.attempted && step.state.ledger == s.ledger)
            && (step.answer.Ok? && !step.answer.value.Kept? ==>
                  o.lastModified < cutoff && step.state.attempted == s.attempted + [key])
            && (step.answer.Ok? && (step.answer.value.Collected? || step.answer.value.BecameReferenced?) ==>
                  && step.state.ledger == s.ledger + [key]
                  && (key in step.state.store <==> key in turn.atRecord.put + turn.atRecheck.put)
                  && (step.answer.value.BecameReferenced? <==> key in step.state.references))
            && (step.answer.Ok? && step.answer.value.NotRecorded? ==>
                  step.state.ledger == s.ledger && (key in step.state.store <==> key in turn.atRecord.put))
            && (step.answer.Ok? && step.answer.value.NotDeleted? ==> step.state.ledger == s.ledger)
            && (step.answer.Err? ==>
                  || (step.state.attempted == s.attempted && step.state.ledger == s.ledger && s.store <= step.state.store)
                  || (step.state.attempted == s.attempted + [key] && step.state.ledger == s.ledger + [key]))
  {}

  /** The key is old enough and nothing refers to it when it is checked, so its deletion is asked for. */
  predicate IsDue(s: State, o: Listed, cutoff: int) {
    o.lastModified < cutoff && o.turn.checkFails == None && o.key !in s.references + o.turn.atCheck.committed
  }

  /** When each answer is given, and what a deletion that fails leaves of the bytes. */
  lemma AnswersExactly(s: State, o: Listed, cutoff: int, failure: Failure)
    ensures var step, turn, key, due := StepOf(s, o, cutoff), o.turn, o.key, IsDue(s, o, cutoff);
            && (step.answer == Ok(NotDeleted(failure)) <==> due && turn.deleteFails == Some(failure))
            && (step.answer == Ok(NotRecorded(failure)) <==>
                  due && turn.deleteFails == None && turn.recordFails == Some(failure))
            && (step.answer == Err(failure) <==>
                  || (o.lastModified < cutoff && turn.checkFails == Some(failure))
                  || (due && turn.deleteFails == None && turn.recordFails == None && turn.recheckFails == Some(failure)))
            && (step.answer.Ok? && step.answer.value.NotDeleted? ==>
                  (key in step.state.store <==>
                    !turn.goneAnyway && key in s.store + turn.atCheck.put + turn.atDelete.put))
  {}

  // --- A run ----------------------------------------------------------------------------------

  /** Where a run stands, and what it has examined. */
  datatype Progress = Progress(state: State, history: seq<Examined>)

  /** Why a namespace's loop was left. */
  datatype Stop = Exhausted | Limited | Denied | Failed(failure: Failure)

  /** A loop left, and the key whose last check failed after its deletion was recorded, if one was. */
  datatype Swept = Swept(progress: Progress, interrupted: seq<Key>, stop: Stop)

  function Note(p: Progress, o: Listed, step: Step): Progress
    requires step.answer.Ok?
  {
    Progress(step.state, p.history + [Examined(o.key, step.answer.value, step.state.references)])
  }

  function InterruptedBy(before: State, key: Key, after: State): seq<Key> {
    if after.ledger == before.ledger then [] else [key]
  }

  /** The loop over one namespace's objects, from the `i`th on. */
  function SweepObjects(p: Progress, objects: seq<Listed>, i: nat, limit: int, cutoff: int): Swept
    requires i <= |objects|
    decreases |objects| - i
  {
    if i == |objects| then Swept(p, [], Exhausted)
    else if |CollectedOf(p.history)| >= limit then Swept(p, [], Limited)
    else
      var step := StepOf(p.state, objects[i], cutoff);
      match step.answer
      case Err(failure) => Swept(p.(state := step.state), InterruptedBy(p.state, objects[i].key, step.state), Failed(failure))
      case Ok(verdict) =>
        if verdict.NotDeleted? && verdict.error.accessDenied then Swept(Note(p, objects[i], step), [], Denied)
        else SweepObjects(Note(p, objects[i], step), objects, i + 1, limit, cutoff)
  }

  /** How a run ends: it returns, perhaps because a namespace was refused, or it throws. */
  datatype End = Returned(refused: Option<nat>) | Thrown(failure: Failure)

  datatype Run = Run(progress: Progress, interrupted: seq<Key>, end: End)

  function EndOf(failure: Failure, n: nat): End {
    if failure.accessDenied then Returned(Some(n)) else Thrown(failure)
  }

  /** The loop over the namespaces, from the `n`th on. */
  function SweepFrom(p: Progress, listings: seq<Listing>, n: nat, limit: int, cutoff: int): Run
    requires n <= |listings|
    decreases |listings| - n
  {
    if n == |listings| then Run(p, [], Returned(None))
    else
      var swept := SweepObjects(p, listings[n].objects, 0, limit, cutoff);
      match swept.stop
      case Denied => Run(swept.progress, [], Returned(None))
      case Failed(failure) => Run(swept.progress, swept.interrupted, EndOf(failure, n))
      case Exhausted =>
        if listings[n].broken.Some? then Run(swept.progress, [], EndOf(listings[n].broken.value, n))
        else SweepFrom(swept.progress, listings, n + 1, limit, cutoff)
      case Limited => SweepFrom(swept.progress, listings, n + 1, limit, cutoff)
  }

  function RunOf(s: State, listings: seq<Listing>, limit: int, cutoff: int): Run {
    SweepFrom(Progress(s, []), listings, 0, limit, cutoff)
  }

  /** What a run answers. */
  function AnswerOf(run: Run): Result<Report, Failure> {
    match run.end
    case Thrown(failure) => Err(failure)
    case Returned(refused) =>
      var history := run.progress.history;
      Ok(Report(CollectedOf(history), KeptOf(history),
                if refused.Some? then RefusedOf(history) + [OfNamespace(refused.value)] else RefusedOf(history)))
  }

  // --- The sweep ------------------------------------------------------------------------------

  /** The store, the database, and the run's own entries in the ledger. */
  class World {
    var store: set<Key>
    var references: set<Key>
    var ledger: seq<Key>
    ghost var attempted: seq<Key>

    constructor (keys: set<Key>, referenced: set<Key>)
      ensures Contents() == State(keys, referenced, [], [])
    {
      store, references, ledger, attempted := keys, referenced, [], [];
    }

    ghost function Contents(): State
      reads this
    {
      State(store, references, ledger, attempted)
    }

    method Elapse(others: Others)
      modifies this
      ensures Contents() == Later(old(Contents()), others)
    {
      references, store := references + others.committed, store + others.put;
    }

    /** `referenced` */
    method Referenced(key: Key, others: Others, fails: Option<Failure>) returns (r: Result<bool, Failure>)
      modifies this
      ensures Contents() == Later(old(Contents()), others)
      ensures r == if fails.Some? then Err(fails.value) else Ok(key in references)
    {
      Elapse(others);
      r := if fails.Some? then Err(fails.value) else Ok(key in references);
    }

    /** `store.deleteEveryVersion` */
    method DeleteEveryVersion(key: Key, others: Others, fails: Option<Failure>, goneAnyway: bool) returns (r: Result<(), Failure>)
      modifies this
      ensures var at := Later(old(Contents()), others);
              Contents() == at.(attempted := at.attempted + [key],
                                store := if fails.Some? && !goneAnyway then at.store else at.store - {key})
      ensures r == if fails.Some? then Err(fails.value) else Ok(())
    {
      Elapse(others);
      attempted := attempted + [key];
      if fails.None? || goneAnyway {
        store := store - {key};
      }
      r := if fails.Some? then Err(fails.value) else Ok(());
    }

    /** `recordCollection` */
    method RecordCollection(key: Key, others: Others, fails: Option<Failure>) returns (r: Result<(), Failure>)
      modifies this
      ensures var at := Later(old(Contents()), others);
              Contents() == at.(ledger := if fails.Some? then at.ledger else at.ledger + [key])
      ensures r == if fails.Some? then Err(fails.value) else Ok(())
    {
      Elapse(others);
      if fails.Some? {
        return Err(fails.value);
      }
      ledger := ledger + [key];
      return Ok(());
    }
  }

  /** One key: checked, deleted, recorded, and checked again. */
  method Examine(world: World, o: Listed, cutoff: int) returns (r: Result<Verdict, Failure>)
    modifies world
    ensures Step(world.Contents(), r) == StepOf(old(world.Contents()), o, cutoff)
  {
    if o.lastModified >= cutoff {
      return Ok(Kept);
    }
    var turn := o.turn;
    var before := world.Referenced(o.key, turn.atCheck, turn.checkFails);
    if before.Err? {
      return Err(before.error);
    }
    if before.value {
      return Ok(Kept);
    }
    var removed := world.DeleteEveryVersion(o.key, turn.atDelete, turn.deleteFails, turn.goneAnyway);
    if removed.Err? {
      return Ok(NotDeleted(removed.error));
    }
    var recorded := world.RecordCollection(o.key, turn.atRecord, turn.recordFails);
    if recorded.Err? {
      return Ok(NotRecorded(recorded.error));
    }
    var after := world.Referenced(o.key, turn.atRecheck, turn.recheckFails);
    if after.Err? {
      return Err(after.error);
    }
    return Ok(if after.value then BecameReferenced else Collected);
  }

  /** `sweepOrphanedEvidence` after its argument checks. */
  method SweepOrphanedEvidence(world: World, listings: seq<Listing>, limit: int, cutoff: int) returns (r: Result<Report, Failure>)
    modifies world
    ensures world.Contents() == RunOf(old(world.Contents()), listings, limit, cutoff).progress.state
    ensures r == AnswerOf(RunOf(old(world.Contents()), listings, limit, cutoff))
  {
    hide StepOf, CollectedOf, KeptOf, RefusedOf;
    var collected: seq<Key>, kept: nat, refused: seq<Refusal> := [], 0, [];
    ghost var history: seq<Examined>, run := [], RunOf(world.Contents(), listings, limit, cutoff);
    NothingExamined();
    var n := 0;
    while n < |listings|
      invariant n <= |listings|
      invariant SweepFrom(Progress(world.Contents(), history), listings, n, limit, cutoff) == run
      invariant collected == CollectedOf(history) && kept == KeptOf(history) && refused == RefusedOf(history)
    {
      var objects, i := listings[n].objects, 0;
      ghost var swept := SweepObjects(Progress(world.Contents(), history), objects, 0, limit, cutoff);
      while i < |objects| && |collected| < limit
        invariant i <= |objects|
        invariant SweepObjects(Progress(world.Contents(), history), objects, i, limit, cutoff) == swept
        invariant collected == CollectedOf(history) && kept == KeptOf(history) && refused == RefusedOf(history)
      {
        var o := objects[i];
        ghost var p := Progress(world.Contents(), history);
        var examined := Examine(world, o, cutoff);
        if examined.Err? {
          if !examined.error.accessDenied {
            return Err(examined.error);
          }
          return Ok(Report(collected, kept, refused + [OfNamespace(n)]));
        }
        ghost var e := Examined(o.key, examined.value, world.references);
        ReportGrows(history, e);
        history := history + [e];
        match examined.value {
          case Kept =>
            kept := kept + 1;
          case Collected =>
            collected := collected + [o.key];
          case NotDeleted(error) =>
            refused := refused + [OfObject(o.key, examined.value)];
            if error.accessDenied {
              return Ok(Report(collected, kept, refused));
            }
          case _ =>
            refused := refused + [OfObject(o.key, examined.value)];
        }
        i := i + 1;
      }
      if i == |objects| && listings[n].broken.Some? {
        if !listings[n].broken.value.accessDenied {
          return Err(listings[n].broken.value);
        }
        return Ok(Report(collected, kept, refused + [OfNamespace(n)]));
      }
      n := n + 1;
    }
    r := Ok(Report(collected, kept, refused));
  }

  lemma NothingExamined()
    ensures CollectedOf([]) == [] && KeptOf([]) == 0 && RefusedOf([]) == []
  {}

  // --- Every deletion accounted for -----------------------------------------------------------

  /** The keys a history asked the store to delete: all but those kept. */
  function AttemptedOf(history: seq<Examined>): seq<Key> {
    if history == [] then []
    else
      var last := history[|history| - 1];
      if last.verdict == Kept then AttemptedOf(history[..|history| - 1])
      else AttemptedOf(history[..|history| - 1]) + [last.key]
  }

  predicate Unrecorded(verdict: Verdict) {
    verdict.NotDeleted? || verdict.NotRecorded?
  }

  /** The keys a history put in the ledger. */
  function LedgerOf(history: seq<Examined>): seq<Key> {
    if history == [] then []
    else
      var last := history[|history| - 1];
      if last.verdict == Kept || Unrecorded(last.verdict) then LedgerOf(history[..|history| - 1])
      else LedgerOf(history[..|history| - 1]) + [last.key]
  }

  /** What an entry says of the last look at the references. */
  predicate LookedAt(e: Examined) {
    (e.verdict == Collected ==> e.key !in e.references) && (e.verdict == BecameReferenced ==> e.key in e.references)
  }

  /** A run's deletions and ledger entries are those of its history, and of the turn that was interrupted. */
  ghost predicate Tracks(start: State, p: Progress, interrupted: seq<Key>) {
    && p.state.attempted == start.attempted + AttemptedOf(p.history) + interrupted
    && p.state.ledger == start.ledger + LedgerOf(p.history) + interrupted
    && (forall k :: k in start.store && k !in p.state.store ==> k in AttemptedOf(p.history) || k in interrupted)
    && (forall e :: e in p.history ==> LookedAt(e) && e.references <= p.state.references)
  }

  lemma HistoryGrows(history: seq<Examined>, e: Examined)
    ensures AttemptedOf(history + [e]) == if e.verdict == Kept then AttemptedOf(history) else AttemptedOf(history) + [e.key]
    ensures LedgerOf(history + [e]) == if e.verdict == Kept || Unrecorded(e.verdict) then LedgerOf(history)
                                       else LedgerOf(history) + [e.key]
  {
    assert (history + [e])[..|history + [e]| - 1] == history;
  }

  /** The state after an entry of the history, from the state before it. */
  ghost predicate Follows(before: State, e: Examined, after: State) {
    && before.references <= after.references && e.references == after.references && LookedAt(e)
    && (forall k :: k in before.store && k !in after.store ==> k == e.key && e.verdict != Kept)
    && after.attempted == (if e.verdict == Kept then before.attempted else before.attempted + [e.key])
    && after.ledger == (if e.verdict == Kept || Unrecorded(e.verdict) then before.ledger else before.ledger + [e.key])
  }

  lemma StepFollows(s: State, o: Listed, cutoff: int)
    requires StepOf(s, o, cutoff).answer.Ok?
    ensures var step := StepOf(s, o, cutoff);
            Follows(s, Examined(o.key, step.answer.value, step.state.references), step.state)
  {
    StepMeans(s, o, cutoff);
    hide StepOf;
  }

  lemma TracksThrough(start: State, p: Progress, e: Examined, after: State)
    requires Tracks(start, p, []) && Follows(p.state, e, after)
    ensures Tracks(start, Progress(after, p.history + [e]), [])
  {
    HistoryGrows(p.history, e);
    hide AttemptedOf, LedgerOf;
  }

  lemma NoteTracks(start: State, p: Progress, o: Listed, cutoff: int)
    requires Tracks(start, p, []) && StepOf(p.state, o, cutoff).answer.Ok?
    ensures Tracks(start, Note(p, o, StepOf(p.state, o, cutoff)), [])
  {
    hide StepOf, Tracks, Follows;
    var step := StepOf(p.state, o, cutoff);
    StepFollows(p.state, o, cutoff);
    TracksThrough(start, p, Examined(o.key, step.answer.value, step.state.references), step.state);
  }

  lemma InterruptionTracks(start: State, p: Progress, o: Listed, cutoff: int)
    requires Tracks(start, p, []) && StepOf(p.state, o, cutoff).answer.Err?
    ensures var step := StepOf(p.state, o, cutoff);
            Tracks(start, p.(state := step.state), InterruptedBy(p.state, o.key, step.state))
  {
    StepMeans(p.state, o, cutoff);
    hide StepOf, AttemptedOf, LedgerOf;
  }

  lemma {:induction false} ObjectsTrack(start: State, p: Progress, objects: seq<Listed>, i: nat, limit: int, cutoff: int)
    requires i <= |objects| && Tracks(start, p, [])
    ensures var swept := SweepObjects(p, objects, i, limit, cutoff);
            Tracks(start, swept.progress, swept.interrupted) && (swept.interrupted != [] ==> swept.stop.Failed?)
    decreases |objects| - i
  {
    hide StepOf, CollectedOf, Tracks, InterruptedBy;
    if i < |objects| && |CollectedOf(p.history)| < limit {
      var step := StepOf(p.state, objects[i], cutoff);
      if step.answer.Err? {
        InterruptionTracks(start, p, objects[i], cutoff);
      } else {
        NoteTracks(start, p, objects[i], cutoff);
        ObjectsTrack(start, Note(p, objects[i], step), objects, i + 1, limit, cutoff);
      }
    }
  }

  lemma {:induction false} RunTracks(start: State, p: Progress, listings: seq<Listing>, n: nat, limit: int, cutoff: int)
    requires n <= |listings| && Tracks(start, p, [])
    ensures var run := SweepFrom(p, listings, n, limit, cutoff);
            Tracks(start, run.progress, run.interrupted)
    decreases |listings| - n
  {
    hide SweepObjects, Tracks;
    if n < |listings| {
      var swept := SweepObjects(p, listings[n].objects, 0, limit, cutoff);
      ObjectsTrack(start, p, listings[n].objects, 0, limit, cutoff);
      if swept.stop.Limited? || (swept.stop.Exhausted? && listings[n].broken.None?) {
        RunTracks(start, swept.progress, listings, n + 1, limit, cutoff);
      }
    }
  }

  /** No key is listed twice. */
  ghost predicate ListedOnce(listings: seq<Listing>) {
    forall n, i, m, j ::
      (&& 0 <= n < |listings| && 0 <= i < |listings[n].objects|
       && 0 <= m < |listings| && 0 <= j < |listings[m].objects|
       && listings[n].objects[i].key == listings[m].objects[j].key) ==> n == m && i == j
  }

  /** No key examined is listed again from the `i`th object of the `n`th namespace on. */
  ghost predicate Ahead(history: seq<Examined>, listings: seq<Listing>, n: nat, i: nat) {
    forall e, m, j :: e in history && n <= m < |listings| && 0 <= j < |listings[m].objects| && (m > n || j >= i) ==>
      listings[m].objects[j].key != e.key
  }

  /** The keys a run examined, each once, and the one it was interrupted at. */
  ghost predicate ExaminedOnce(history: seq<Examined>, interrupted: seq<Key>) {
    && (forall i, j :: 0 <= i < j < |history| ==> history[i].key != history[j].key)
    && (forall e, k :: e in history && k in interrupted ==> e.key != k)
  }

  lemma {:induction false} ObjectsOnce(p: Progress, listings: seq<Listing>, n: nat, i: nat, limit: int, cutoff: int)
    requires ListedOnce(listings) && n < |listings| && i <= |listings[n].objects|
    requires ExaminedOnce(p.history, []) && Ahead(p.history, listings, n, i)
    ensures var swept := SweepObjects(p, listings[n].objects, i, limit, cutoff);
            ExaminedOnce(swept.progress.history, swept.interrupted) && Ahead(swept.progress.history, listings, n + 1, 0)
    decreases |listings[n].objects| - i
  {
    hide StepOf, CollectedOf;
    var objects := listings[n].objects;
    if i < |objects| && |CollectedOf(p.history)| < limit {
      var step := StepOf(p.state, objects[i], cutoff);
      if step.answer.Ok? {
        NotedOnce(p, listings, n, i, step);
        hide ListedOnce, ExaminedOnce, Ahead;
        ObjectsOnce(Note(p, objects[i], step), listings, n, i + 1, limit, cutoff);
      }
    }
  }

  lemma NotedOnce(p: Progress, listings: seq<Listing>, n: nat, i: nat, step: Step)
    requires ListedOnce(listings) && n < |listings| && i < |listings[n].objects| && step.answer.Ok?
    requires ExaminedOnce(p.history, []) && Ahead(p.history, listings, n, i)
    ensures ExaminedOnce(Note(p, listings[n].objects[i], step).history, [])
    ensures Ahead(Note(p, listings[n].objects[i], step).history, listings, n, i + 1)
    ensures Ahead(Note(p, listings[n].objects[i], step).history, listings, n + 1, 0)
  {}

  lemma {:induction false} RunOnce(p: Progress, listings: seq<Listing>, n: nat, limit: int, cutoff: int)
    requires ListedOnce(listings) && n <= |listings|
    requires ExaminedOnce(p.history, []) && Ahead(p.history, listings, n, 0)
    ensures var run := SweepFrom(p, listings, n, limit, cutoff);
            ExaminedOnce(run.progress.history, run.interrupted)
    decreases |listings| - n
  {
    hide SweepObjects, ListedOnce, Ahead;
    if n < |listings| {
      var swept := SweepObjects(p, listings[n].objects, 0, limit, cutoff);
      ObjectsOnce(p, listings, n, 0, limit, cutoff);
      if swept.stop.Limited? || (swept.stop.Exhausted? && listings[n].broken.None?) {
        assert ExaminedOnce(swept.progress.history, []);
        hide ExaminedOnce;
        RunOnce(swept.progress, listings, n + 1, limit, cutoff);
      }
    }
  }

  /** A deletion the run asked for is in the ledger, or in a report it returned. */
  ghost predicate Named(run: Run, key: Key) {
    || key in run.progress.state.ledger
    || (run.end.Returned? && exists verdict :: OfObject(key, verdict) in AnswerOf(run).value.refused)
  }

  /** An entry without a ledger record precedes the end. */
  ghost predicate LeavesUnrecorded(run: Run) {
    exists e :: e in run.progress.history && Unrecorded(e.verdict)
  }

  lemma {:induction false} AttemptedMember(history: seq<Examined>, key: Key)
    ensures key in AttemptedOf(history) <==> exists e :: e in history && e.key == key && e.verdict != Kept
    ensures key in LedgerOf(history) <==> exists e :: e in history && e.key == key && e.verdict != Kept && !Unrecorded(e.verdict)
  {
    if history != [] {
      var init, last := history[..|history| - 1], history[|history| - 1];
      AttemptedMember(init, key);
      assert forall e :: e in history <==> e in init || e == last by {
        assert history == init + [last];
      }
    }
  }

  /**
   Every deletion a run asks for is in the ledger or in a report it returns, exactly when the run returns
   or has met no deletion that failed or went unrecorded before it throws.
   */
  lemma {:induction false} NamedExactly(store: set<Key>, references: set<Key>, listings: seq<Listing>, limit: int, cutoff: int)
    requires ListedOnce(listings)
    ensures var run := RunOf(State(store, references, [], []), listings, limit, cutoff);
            (forall k :: k in run.progress.state.attempted ==> Named(run, k)) <==> run.end.Returned? || !LeavesUnrecorded(run)
  {
    hide SweepFrom, AttemptedOf, LedgerOf;
    var start := State(store, references, [], []);
    var run := RunOf(start, listings, limit, cutoff);
    AttemptedOfNothing();
    RunTracks(start, Progress(start, []), listings, 0, limit, cutoff);
    RunOnce(Progress(start, []), listings, 0, limit, cutoff);
    if run.end.Returned? || !LeavesUnrecorded(run) {
      forall k | k in run.progress.state.attempted ensures Named(run, k) {
        AttemptedNamed(start, run, k);
      }
    } else {
      var e :| e in run.progress.history && Unrecorded(e.verdict);
      UnrecordedUnnamed(start, run, e);
    }
  }

  lemma AttemptedOfNothing()
    ensures AttemptedOf([]) == [] && LedgerOf([]) == []
  {}

  lemma AttemptedNamed(start: State, run: Run, key: Key)
    requires start.ledger == [] && start.attempted == [] && Tracks(start, run.progress, run.interrupted)
    requires run.end.Returned? || !LeavesUnrecorded(run)
    requires key in run.progress.state.attempted
    ensures Named(run, key)
  {
    var history := run.progress.history;
    AttemptedMember(history, key);
    if key !in run.progress.state.ledger {
      var e :| e in history && e.key == key && e.verdict != Kept;
      ReportsPartition(history);
      assert OfObject(key, e.verdict) in AnswerOf(run).value.refused;
    }
  }

  lemma UnrecordedUnnamed(start: State, run: Run, e: Examined)
    requires start.ledger == [] && start.attempted == [] && Tracks(start, run.progress, run.interrupted)
    requires ExaminedOnce(run.progress.history, run.interrupted)
    requires run.end.Thrown? && e in run.progress.history && Unrecorded(e.verdict)
    ensures e.key in run.progress.state.attempted && !Named(run, e.key)
  {
    AttemptedMember(run.progress.history, e.key);
  }

  // --- What a run examines --------------------------------------------------------------------

  function Most(limit: int): nat {
    if limit < 0 then 0 else limit
  }

  lemma {:induction false} ObjectsWithinLimit(p: Progress, objects: seq<Listed>, i: nat, limit: int, cutoff: int)
    requires i <= |objects| && |CollectedOf(p.history)| <= Most(limit)
    ensures |CollectedOf(SweepObjects(p, objects, i, limit, cutoff).progress.history)| <= Most(limit)
    decreases |objects| - i
  {
    hide StepOf, CollectedOf;
    if i < |objects| && |CollectedOf(p.history)| < limit {
      var step := StepOf(p.state, objects[i], cutoff);
      if step.answer.Ok? {
        ReportGrows(p.history, Examined(objects[i].key, step.answer.value, step.state.references));
        ObjectsWithinLimit(Note(p, objects[i], step), objects, i + 1, limit, cutoff);
      }
    }
  }

  lemma {:induction false} WithinLimit(p: Progress, listings: seq<Listing>, n: nat, limit: int, cutoff: int)
    requires n <= |listings| && |CollectedOf(p.history)| <= Most(limit)
    ensures |CollectedOf(SweepFrom(p, listings, n, limit, cutoff).progress.history)| <= Most(limit)
    decreases |listings| - n
  {
    hide SweepObjects, CollectedOf, Most;
    if n < |listings| {
      var swept := SweepObjects(p, listings[n].objects, 0, limit, cutoff);
      ObjectsWithinLimit(p, listings[n].objects, 0, limit, cutoff);
      if swept.stop.Limited? || (swept.stop.Exhausted? && listings[n].broken.None?) {
        WithinLimit(swept.progress, listings, n + 1, limit, cutoff);
      }
    }
  }

  ghost predicate IsExamined(history: seq<Examined>, key: Key) {
    exists e :: e in history && e.key == key
  }

  /** A call that may end the run failed so in this namespace: listing it, or a check of one of its keys. */
  ghost predicate FailsIn(listing: Listing, failure: Failure) {
    || listing.broken == Some(failure)
    || exists i :: 0 <= i < |listing.objects| && FailsCheck(listing.objects[i], failure)
  }

  predicate FailsCheck(o: Listed, failure: Failure) {
    o.turn.checkFails == Some(failure) || o.turn.recheckFails == Some(failure)
  }

  /** A run throws what a listing or a check failed with, unless access was denied; then it returns, naming the namespace. */
  ghost predicate EndExplained(end: End, listings: seq<Listing>) {
    match end
    case Returned(None) => true
    case Returned(Some(n)) => n < |listings| && exists failure: Failure :: failure.accessDenied && FailsIn(listings[n], failure)
    case Thrown(failure) => !failure.accessDenied && exists n :: 0 <= n < |listings| && FailsIn(listings[n], failure)
  }

  lemma {:induction false} ObjectsFail(p: Progress, objects: seq<Listed>, i: nat, limit: int, cutoff: int)
    requires i <= |objects|
    ensures var stop := SweepObjects(p, objects, i, limit, cutoff).stop;
            stop.Failed? ==> exists j :: 0 <= j < |objects| && FailsCheck(objects[j], stop.failure)
    decreases |objects| - i
  {
    hide StepOf, CollectedOf, FailsCheck;
    if i < |objects| && |CollectedOf(p.history)| < limit {
      var step := StepOf(p.state, objects[i], cutoff);
      if step.answer.Err? {
        ErrFails(p.state, objects[i], cutoff);
      } else {
        ObjectsFail(Note(p, objects[i], step), objects, i + 1, limit, cutoff);
      }
    }
  }

  lemma ErrFails(s: State, o: Listed, cutoff: int)
    requires StepOf(s, o, cutoff).answer.Err?
    ensures FailsCheck(o, StepOf(s, o, cutoff).answer.error)
  {}

  /** How every run ends, wherever it starts. */
  lemma {:induction false} EndsExplained(p: Progress, listings: seq<Listing>, n: nat, limit: int, cutoff: int)
    requires n <= |listings|
    ensures EndExplained(SweepFrom(p, listings, n, limit, cutoff).end, listings)
    decreases |listings| - n
  {
    hide SweepObjects, FailsCheck;
    if n < |listings| {
      var swept := SweepObjects(p, listings[n].objects, 0, limit, cutoff);
      ObjectsFail(p, listings[n].objects, 0, limit, cutoff);
      if swept.stop.Limited? || (swept.stop.Exhausted? && listings[n].broken.None?) {
        EndsExplained(swept.progress, listings, n + 1, limit, cutoff);
      } else if swept.stop.Failed? {
        assert FailsIn(listings[n], swept.stop.failure);
      } else if swept.stop.Exhausted? {
        assert FailsIn(listings[n], listings[n].broken.value);
      }
    }
  }

  /** The store denied a deletion, after which nothing more is asked of it. */
  ghost predicate DeniedIn(history: seq<Examined>) {
    exists e :: e in history && e.verdict.NotDeleted? && e.verdict.error.accessDenied
  }

  predicate IsDenied(e: Examined) {
    e.verdict.NotDeleted? && e.verdict.error.accessDenied
  }

  ghost predicate NoneDenied(history: seq<Examined>) {
    forall i :: 0 <= i < |history| ==> !IsDenied(history[i])
  }

  /** Only the last entry may be of a deletion that was denied. */
  ghost predicate DeniedIsLast(history: seq<Examined>) {
    history == [] || NoneDenied(history[..|history| - 1])
  }

  lemma NoteDenied(history: seq<Examined>, e: Examined)
    requires NoneDenied(history)
    ensures DeniedIsLast(history + [e]) && (!IsDenied(e) ==> NoneDenied(history + [e]))
  {
    assert (history + [e])[..|history|] == history;
  }

  lemma {:induction false} ObjectsDenied(p: Progress, objects: seq<Listed>, i: nat, limit: int, cutoff: int)
    requires i <= |objects| && NoneDenied(p.history)
    ensures var swept := SweepObjects(p, objects, i, limit, cutoff);
            DeniedIsLast(swept.progress.history) && (!swept.stop.Denied? ==> NoneDenied(swept.progress.history))
    decreases |objects| - i
  {
    hide StepOf, CollectedOf;
    if i < |objects| && |CollectedOf(p.history)| < limit {
      var step := StepOf(p.state, objects[i], cutoff);
      if step.answer.Ok? {
        NoteDenied(p.history, Examined(objects[i].key, step.answer.value, step.state.references));
        if !(step.answer.value.NotDeleted? && step.answer.value.error.accessDenied) {
          hide NoneDenied, DeniedIsLast;
          ObjectsDenied(Note(p, objects[i], step), objects, i + 1, limit, cutoff);
        }
      }
    }
  }

  /** Nothing is asked of the store after it denied a deletion. */
  lemma {:induction false} RunDenied(p: Progress, listings: seq<Listing>, n: nat, limit: int, cutoff: int)
    requires n <= |listings| && NoneDenied(p.history)
    ensures DeniedIsLast(SweepFrom(p, listings, n, limit, cutoff).progress.history)
    decreases |listings| - n
  {
    hide SweepObjects;
    if n < |listings| {
      var swept := SweepObjects(p, listings[n].objects, 0, limit, cutoff);
      ObjectsDenied(p, listings[n].objects, 0, limit, cutoff);
      if swept.stop.Limited? || (swept.stop.Exhausted? && listings[n].broken.None?) {
        RunDenied(swept.progress, listings, n + 1, limit, cutoff);
      }
    }
  }

  lemma EndsDenied(history: seq<Examined>, e: Examined)
    ensures e.verdict.NotDeleted? && e.verdict.error.accessDenied ==> DeniedIn(history + [e])
  {
    assert e in history + [e];
  }

  /** A stop and what was examined before it. */
  ghost predicate Stopped(p: Progress, swept: Swept, objects: seq<Listed>, i: nat, limit: int) {
    && p.history <= swept.progress.history
    && |CollectedOf(p.history)| <= |CollectedOf(swept.progress.history)|
    && (swept.stop.Limited? ==> |CollectedOf(swept.progress.history)| >= limit)
    && (swept.stop.Denied? ==> DeniedIn(swept.progress.history))
    && (swept.stop.Exhausted? ==>
          forall j :: i <= j < |objects| ==> IsExamined(swept.progress.history, objects[j].key))
  }

  lemma StoppedEarlier(p: Progress, next: Progress, swept: Swept, objects: seq<Listed>, i: nat, limit: int, e: Examined)
    requires i < |objects| && e.key == objects[i].key && next.history == p.history + [e]
    requires Stopped(next, swept, objects, i + 1, limit)
    ensures Stopped(p, swept, objects, i, limit)
  {
    ReportGrows(p.history, e);
    hide CollectedOf, DeniedIn;
    EntryExamined(next.history, swept.progress.history, e);
    hide IsExamined;
  }

  lemma {:induction false} ObjectsExamined(p: Progress, objects: seq<Listed>, i: nat, limit: int, cutoff: int)
    requires i <= |objects|
    ensures Stopped(p, SweepObjects(p, objects, i, limit, cutoff), objects, i, limit)
    decreases |objects| - i
  {
    hide StepOf, CollectedOf, IsExamined, DeniedIn;
    if i < |objects| && |CollectedOf(p.history)| < limit {
      var step := StepOf(p.state, objects[i], cutoff);
      if step.answer.Ok? {
        var e := Examined(objects[i].key, step.answer.value, step.state.references);
        ObjectsExamined(Note(p, objects[i], step), objects, i + 1, limit, cutoff);
        hide Stopped;
        if !(step.answer.value.NotDeleted? && step.answer.value.error.accessDenied) {
          StoppedEarlier(p, Note(p, objects[i], step), SweepObjects(p, objects, i, limit, cutoff), objects, i, limit, e);
        } else {
          DeniedStops(p, Note(p, objects[i], step), objects, i, limit, e);
        }
      }
    }
  }

  lemma DeniedStops(p: Progress, next: Progress, objects: seq<Listed>, i: nat, limit: int, e: Examined)
    requires next.history == p.history + [e] && e.verdict.NotDeleted? && e.verdict.error.accessDenied
    ensures Stopped(p, Swept(next, [], Denied), objects, i, limit)
  {
    ReportGrows(p.history, e);
    EndsDenied(p.history, e);
    hide CollectedOf, DeniedIn;
  }

  lemma EntryExamined(history: seq<Examined>, longer: seq<Examined>, e: Examined)
    requires e in history && history <= longer
    ensures IsExamined(longer, e.key)
  {
    var i :| 0 <= i < |history| && history[i] == e;
    assert longer[i] == e;
  }

  ghost predicate AllExamined(history: seq<Examined>, objects: seq<Listed>) {
    forall j :: 0 <= j < |objects| ==> IsExamined(history, objects[j].key)
  }

  lemma AllExaminedLater(history: seq<Examined>, longer: seq<Examined>, objects: seq<Listed>)
    requires AllExamined(history, objects) && history <= longer
    ensures AllExamined(longer, objects)
  {
    forall j | 0 <= j < |objects| ensures IsExamined(longer, objects[j].key) {
      assert IsExamined(history, objects[j].key);
      var e :| e in history && e.key == objects[j].key;
      EntryExamined(history, longer, e);
    }
  }

  /** Nothing cut the run short. */
  ghost predicate RanThrough(run: Run, limit: int) {
    run.end == Returned(None) && |CollectedOf(run.progress.history)| < limit && !DeniedIn(run.progress.history)
  }

  lemma {:induction false} RunExamined(p: Progress, listings: seq<Listing>, n: nat, limit: int, cutoff: int)
    requires n <= |listings|
    ensures var run := SweepFrom(p, listings, n, limit, cutoff);
            && p.history <= run.progress.history
            && |CollectedOf(p.history)| <= |CollectedOf(run.progress.history)|
            && (RanThrough(run, limit) ==>
                  forall m :: n <= m < |listings| ==> AllExamined(run.progress.history, listings[m].objects))
    decreases |listings| - n
  {
    hide SweepObjects, CollectedOf, DeniedIn, IsExamined;
    if n < |listings| {
      var swept := SweepObjects(p, listings[n].objects, 0, limit, cutoff);
      ObjectsExamined(p, listings[n].objects, 0, limit, cutoff);
      if swept.stop.Limited? || (swept.stop.Exhausted? && listings[n].broken.None?) {
        RunExamined(swept.progress, listings, n + 1, limit, cutoff);
        if swept.stop.Exhausted? {
          AllExaminedLater(swept.progress.history, SweepFrom(p, listings, n, limit, cutoff).progress.history, listings[n].objects);
        }
      }
    }
  }

  /**
   Whatever other transactions do and whichever calls fail: bytes are lost only under keys the run asked to
   delete; no more than the limit are collected; a key collected was unreferenced when last looked at, and
   one reported as referenced was referenced; nothing follows a deletion that was denied, and the run ends as
   the failures met say; and a run nothing cut short examined every key listed.
   */
  lemma {:induction false} RunAccounts(store: set<Key>, references: set<Key>, listings: seq<Listing>, limit: int, cutoff: int)
    ensures var run := RunOf(State(store, references, [], []), listings, limit, cutoff);
            var last, history := run.progress.state, run.progress.history;
            && (forall k :: k in store && k !in last.store ==> k in last.attempted)
            && (forall e :: e in history ==> LookedAt(e) && e.references <= last.references)
            && |CollectedOf(history)| <= Most(limit)
            && DeniedIsLast(history) && EndExplained(run.end, listings)
            && (RanThrough(run, limit) ==>
                  forall m :: 0 <= m < |listings| ==> AllExamined(history, listings[m].objects))
  {
    hide SweepFrom, AttemptedOf, LedgerOf, RanThrough, AllExamined, LookedAt, Most, EndExplained, DeniedIsLast;
    var start := State(store, references, [], []);
    AttemptedOfNothing();
    NothingExamined();
    RunDenied(Progress(start, []), listings, 0, limit, cutoff);
    EndsExplained(Progress(start, []), listings, 0, limit, cutoff);
    RunTracks(start, Progress(start, []), listings, 0, limit, cutoff);
    WithinLimit(Progress(start, []), listings, 0, limit, cutoff);
    RunExamined(Progress(start, []), listings, 0, limit, cutoff);
  }

  lemma {:induction false} RefusedAreObjects(history: seq<Examined>, n: nat)
    ensures OfNamespace(n) !in RefusedOf(history)
  {
    if history != [] {
      RefusedAreObjects(history[..|history| - 1], n);
    }
  }

  /** A report names a namespace exactly when its listing or a check in it was denied; an error thrown is the answer. */
  lemma {:induction false} AnswerOfEnd(run: Run, n: nat, failure: Failure)
    ensures AnswerOf(run) == Err(failure) <==> run.end == Thrown(failure)
    ensures AnswerOf(run).Ok? ==> (OfNamespace(n) in AnswerOf(run).value.refused <==> run.end == Returned(Some(n)))
  {
    RefusedAreObjects(run.progress.history, n);
    hide RefusedOf, CollectedOf, KeptOf;
  }

  // --- Three runs -----------------------------------------------------------------------------

  const QUIET: Others := Others({}, {})

  /** A turn nobody disturbs and nothing fails in. */
  const CLEAN: Turn := Turn(QUIET, None, QUIET, None, false, QUIET, None, QUIET, None)

  lemma TwoObjects(s: State, first: Listed, second: Listed, limit: int, cutoff: int)
    requires limit > 1 && StepOf(s, first, cutoff).answer.Ok? && !StepOf(s, first, cutoff).answer.value.NotDeleted?
    ensures var one := StepOf(s, first, cutoff);
            var two, run := StepOf(one.state, second, cutoff), RunOf(s, [Listing([first, second], None)], limit, cutoff);
            var history := [Examined(first.key, one.answer.value, one.state.references)];
            && run.progress.state == two.state
            && (two.answer.Ok? && !two.answer.value.NotDeleted? ==>
                  && run.end == Returned(None)
                  && run.progress.history == history + [Examined(second.key, two.answer.value, two.state.references)])
            && (two.answer.Err? ==> run.progress.history == history && run.end == EndOf(two.answer.error, 0))
  {
    hide StepOf;
    var objects, listings := [first, second], [Listing([first, second], None)];
    var one, p := StepOf(s, first, cutoff), Progress(s, []);
    var next := Note(p, first, one);
    var two := StepOf(one.state, second, cutoff);
    NothingExamined();
    ReportGrows([], Examined(first.key, one.answer.value, one.state.references));
    assert next.history == [Examined(first.key, one.answer.value, one.state.references)];
    assert SweepObjects(p, objects, 0, limit, cutoff) == SweepObjects(next, objects, 1, limit, cutoff);
    if two.answer.Ok? {
      assert SweepObjects(Note(next, second, two), objects, 2, limit, cutoff) == Swept(Note(next, second, two), [], Exhausted);
    }
    var swept := SweepObjects(p, objects, 0, limit, cutoff);
    assert SweepFrom(swept.progress, listings, 1, limit, cutoff) == Run(swept.progress, [], Returned(None));
  }

  function RefusalOf(e: Examined): seq<Refusal> {
    if e.verdict == Kept || e.verdict == Collected then [] else [OfObject(e.key, e.verdict)]
  }

  lemma TwoReported(first: Examined, second: Examined)
    ensures var history := [first, second];
            && CollectedOf(history) == (if first.verdict == Collected then [first.key] else [])
                                       + (if second.verdict == Collected then [second.key] else [])
            && KeptOf(history) == (if first.verdict == Kept then 1 else 0) + (if second.verdict == Kept then 1 else 0)
            && RefusedOf(history) == RefusalOf(first) + RefusalOf(second)
  {
    hide CollectedOf, KeptOf, RefusedOf;
    NothingExamined();
    ReportGrows([], first);
    ReportGrows([first], second);
    assert [] + [first] == [first] && [first] + [second] == [first, second];
  }

  /**
   A deletion named nowhere: the first key is deleted, its ledger entry fails, and a check of the second
   fails for another reason than access, so that the report naming the first is never returned.
   */
  lemma UnrecordedNamedNowhere(failure: Failure)
    requires !failure.accessDenied
    ensures var turns := (CLEAN.(recordFails := Some(failure)), CLEAN.(checkFails := Some(failure)));
            var run := RunOf(State({1, 2}, {}, [], []), [Listing([Listed(1, 0, turns.0), Listed(2, 0, turns.1)], None)],
                             500, 1);
            && AnswerOf(run) == Err(failure)
            && 1 in run.progress.state.attempted && 1 !in run.progress.state.store && !Named(run, 1)
  {
    var first := Listed(1, 0, CLEAN.(recordFails := Some(failure)));
    var second := Listed(2, 0, CLEAN.(checkFails := Some(failure)));
    TwoObjects(State({1, 2}, {}, [], []), first, second, 500, 1);
  }

  /** A reference committed after the last look: the key is reported as collected, and the reference dangles. */
  lemma LateReference()
    ensures var turns := (CLEAN, CLEAN.(atCheck := Others({1, 2}, {})));
            var run := RunOf(State({1, 2}, {}, [], []), [Listing([Listed(1, 0, turns.0), Listed(2, 0, turns.1)], None)],
                             500, 1);
            && AnswerOf(run) == Ok(Report([1], 1, []))
            && 1 in run.progress.state.references && 1 !in run.progress.state.store
  {
    var first, second := Listed(1, 0, CLEAN), Listed(2, 0, CLEAN.(atCheck := Others({1, 2}, {})));
    TwoObjects(State({1, 2}, {}, [], []), first, second, 500, 1);
    var s := State({1, 2}, {}, [], []);
    var one := StepOf(s, first, 1);
    assert one.answer == Ok(Collected);
    var two := StepOf(one.state, second, 1);
    assert two.answer == Ok(Kept);
    var entries := (Examined(1, one.answer.value, one.state.references), Examined(2, two.answer.value, two.state.references));
    TwoReported(entries.0, entries.1);
    assert [entries.0] + [entries.1] == [entries.0, entries.1];
    assert CollectedOf([entries.0, entries.1]) == [1] && RefusedOf([entries.0, entries.1]) == [];
  }

  /** An ingest that puts the bytes back and references them: the key is reported, though nothing is lost. */
  lemma PutBackIsReported()
    ensures var turns := (CLEAN.(atRecord := Others({}, {1}), atRecheck := Others({1}, {})), CLEAN);
            var run := RunOf(State({1, 2}, {}, [], []), [Listing([Listed(1, 0, turns.0), Listed(2, 0, turns.1)], None)],
                             500, 1);
            && AnswerOf(run) == Ok(Report([2], 0, [OfObject(1, BecameReferenced)]))
            && 1 in run.progress.state.references && 1 in run.progress.state.store
  {
    var first := Listed(1, 0, CLEAN.(atRecord := Others({}, {1}), atRecheck := Others({1}, {})));
    var second := Listed(2, 0, CLEAN);
    var s := State({1, 2}, {}, [], []);
    TwoObjects(s, first, second, 500, 1);
    var one := StepOf(s, first, 1);
    assert one.answer == Ok(BecameReferenced);
    var two := StepOf(one.state, second, 1);
    assert two.answer == Ok(Collected);
    var entries := (Examined(1, one.answer.value, one.state.references), Examined(2, two.answer.value, two.state.references));
    TwoReported(entries.0, entries.1);
    assert [entries.0] + [entries.1] == [entries.0, entries.1];
    assert CollectedOf([entries.0, entries.1]) == [2] && RefusedOf([entries.0, entries.1]) == [OfObject(1, BecameReferenced)];
  }
}
