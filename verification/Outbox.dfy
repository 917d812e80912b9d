/**
 The outbox drain (apps/worker/src/outbox.ts): rows claimed with `for update skip locked`, a savepoint
 per row, and effects committed with the marks that say they happened.
 */
module Outbox {
  import opened Outcomes
  import opened Texts

  type Id = nat

  type Write = nat

  /** One write of one row's handler. */
  datatype Entry = Entry(row: Id, write: Write)

  /** What the handler of a row's topic writes; a topic nobody handles has none. */
  type Plan = Id -> Option<seq<Write>>

  /** What `log` holds of one row. */
  function Of(log: seq<Entry>, row: Id): seq<Write> {
    if log == [] then []
    else (if log[0].row == row then [log[0].write] else []) + Of(log[1..], row)
  }

  lemma OfCons(entry: Entry, rest: seq<Entry>, row: Id)
    ensures Of([entry] + rest, row) == (if entry.row == row then [entry.write] else []) + Of(rest, row)
  {
    assert ([entry] + rest)[1..] == rest;
  }

  lemma {:induction false} OfConcat(a: seq<Entry>, b: seq<Entry>, row: Id)
    ensures Of(a + b, row) == Of(a, row) + Of(b, row)
  {
    if a == [] {
      assert a + b == b;
    } else {
      assert a + b == [a[0]] + (a[1..] + b);
      OfCons(a[0], a[1..], row);
      OfCons(a[0], a[1..] + b, row);
      assert a == [a[0]] + a[1..];
      hide Of;
      OfConcat(a[1..], b, row);
    }
  }

  function Entries(row: Id, writes: seq<Write>): (entries: seq<Entry>)
    ensures |entries| == |writes|
    ensures forall i :: 0 <= i < |writes| ==> entries[i] == Entry(row, writes[i])
  {
    seq(|writes|, i requires 0 <= i < |writes| => Entry(row, writes[i]))
  }

  lemma {:induction false} OfEntries(row: Id, writes: seq<Write>, other: Id)
    ensures Of(Entries(row, writes), other) == if other == row then writes else []
  {
    if writes != [] {
      assert Entries(row, writes)[1..] == Entries(row, writes[1..]);
      OfEntries(row, writes[1..], other);
    }
  }

  /** `Math.min(Math.max(1, options.batchSize ?? DEFAULT_BATCH), 1000)` */
  function Batch(batchSize: Option<int>): (batch: nat)
    ensures 1 <= batch <= 1000
  {
    var asked := if batchSize.Some? then batchSize.value else 100;
    var atLeastOne := if asked < 1 then 1 else asked;
    if atLeastOne < 1000 then atLeastOne else 1000
  }

  // --- One drain's row loop -------------------------------------------------------------------

  /**
   A drain's surroundings: handlers by row, the rows' topics, and where a row's handler throws, if it
   does: before one of its writes, or after all of them.
   */
  datatype Env = Env(plan: Plan, topicOf: Id -> Text, throws: Id -> Option<nat>)

  /** What a drain has done in its transaction. */
  datatype Work = Work(log: seq<Entry>, marked: seq<Id>, failed: seq<Id>, unhandled: set<Text>)

  const NOTHING := Work([], [], [], {})

  /** One row: nothing for an unhandled topic or a handler that throws, all of it and the mark otherwise. */
  function AfterRow(work: Work, row: Id, env: Env): Work {
    match env.plan(row)
    case None => work.(unhandled := work.unhandled + {env.topicOf(row)})
    case Some(writes) =>
      if env.throws(row).Some? then work.(failed := work.failed + [row])
      else work.(log := work.log + Entries(row, writes), marked := work.marked + [row])
  }

  function AfterRows(rows: seq<Id>, env: Env): Work {
    if rows == [] then NOTHING
    else AfterRow(AfterRows(rows[..|rows| - 1], env), rows[|rows| - 1], env)
  }

  /** A database transaction: what it wrote and marked, and its savepoint. */
  class Transaction {
    var log: seq<Entry>
    var marked: seq<Id>
    var savedLog: seq<Entry>
    var savedMarked: seq<Id>

    constructor ()
      ensures log == [] && marked == []
    {
      log, marked, savedLog, savedMarked := [], [], [], [];
    }

    method Savepoint()
      modifies this
      ensures log == old(log) && marked == old(marked)
      ensures savedLog == log && savedMarked == marked
    {
      savedLog, savedMarked := log, marked;
    }

    method RollbackToSavepoint()
      modifies this
      ensures log == savedLog == old(savedLog) && marked == savedMarked == old(savedMarked)
    {
      log, marked := savedLog, savedMarked;
    }

    /** A handler at work: its writes in order, until it throws. */
    method Handle(row: Id, writes: seq<Write>, throwsAt: Option<nat>) returns (threw: bool)
      modifies this`log
      ensures threw == throwsAt.Some?
      ensures log == old(log) + Entries(row, if threw && throwsAt.value < |writes| then writes[..throwsAt.value] else writes)
    {
      var i := 0;
      while i < |writes|
        invariant i <= |writes| && (throwsAt.Some? ==> i <= throwsAt.value)
        invariant log == old(log) + Entries(row, writes[..i])
      {
        if throwsAt == Some(i) {
          return true;
        }
        log := log + [Entry(row, writes[i])];
        assert Entries(row, writes[..i + 1]) == Entries(row, writes[..i]) + [Entry(row, writes[i])];
        i := i + 1;
      }
      assert writes[..i] == writes;
      threw := throwsAt.Some?;
    }

    method Mark(row: Id)
      modifies this`marked
      ensures marked == old(marked) + [row]
    {
      marked := marked + [row];
    }
  }

  /** `drainOutbox`, between its claim and its commit: the topics nobody handles are reported once each, sorted. */
  method DrainRows(tx: Transaction, rows: seq<Id>, env: Env)
    returns (delivered: nat, failed: seq<Id>, unhandled: seq<Text>)
    requires tx.log == [] && tx.marked == []
    modifies tx
    ensures var work := AfterRows(rows, env);
            && tx.log == work.log && tx.marked == work.marked && failed == work.failed
            && Sorted(unhandled) && multiset(unhandled) == multiset(work.unhandled)
    ensures delivered == |tx.marked|
  {
    delivered, failed := 0, [];
    var topics: seq<Text>, i := [], 0;
    assert rows[..0] == [];
    while i < |rows|
      invariant i <= |rows|
      invariant var work := AfterRows(rows[..i], env);
                && tx.log == work.log && tx.marked == work.marked && failed == work.failed
                && multiset(topics) == multiset(work.unhandled)
      invariant delivered == |tx.marked|
    {
      var row := rows[i];
      assert rows[..i + 1][..|rows[..i + 1]| - 1] == rows[..i];
      var handler := env.plan(row);
      if handler == None {
        if env.topicOf(row) !in topics {
          topics := topics + [env.topicOf(row)];
        }
      } else {
        tx.Savepoint();
        var threw := tx.Handle(row, handler.value, env.throws(row));
        if threw {
          tx.RollbackToSavepoint();
          failed := failed + [row];
        } else {
          tx.Mark(row);
          delivered := delivered + 1;
        }
      }
      i := i + 1;
    }
    assert rows[..|rows|] == rows;
    SortSorts(topics);
    unhandled := Sort(topics);
  }

  predicate Deliverable(row: Id, env: Env) {
    env.plan(row).Some? && env.throws(row) == None
  }

  /**
   A drain's work is whole rows: those it marks have all their writes in it, once; the others have
   none. It marks exactly the deliverable rows, and reports every other one.
   */
  lemma {:induction false} WorkIsWholeRows(rows: seq<Id>, env: Env, row: Id)
    requires NoRepeats(rows)
    ensures var work := AfterRows(rows, env);
            && (row in work.marked <==> row in rows && Deliverable(row, env))
            && (row in work.failed <==> row in rows && env.plan(row).Some? && env.throws(row).Some?)
            && (row in rows && env.plan(row) == None ==> env.topicOf(row) in work.unhandled)
            && Of(work.log, row) == if row in work.marked then env.plan(row).value else []
    decreases |rows|
  {
    if rows != [] {
      var init, last := rows[..|rows| - 1], rows[|rows| - 1];
      var before := AfterRows(init, env);
      assert rows == init + [last];
      assert last !in init;
      WorkIsWholeRows(init, env, row);
      hide AfterRows, NoRepeats, Of;
      if Deliverable(last, env) {
        OfConcat(before.log, Entries(last, env.plan(last).value), row);
        OfEntries(last, env.plan(last).value, row);
      }
    }
  }

  /** A topic is reported exactly when a row of it was met that nobody handles. */
  lemma {:induction false} UnhandledTopics(rows: seq<Id>, env: Env, topic: Text)
    ensures topic in AfterRows(rows, env).unhandled <==>
            exists i :: 0 <= i < |rows| && env.plan(rows[i]) == None && env.topicOf(rows[i]) == topic
  {
    if rows != [] {
      var init, last := rows[..|rows| - 1], rows[|rows| - 1];
      UnhandledTopics(init, env, topic);
      assert rows[|rows| - 1] == last;
      assert forall i :: 0 <= i < |init| ==> rows[i] == init[i];
      hide AfterRows;
      if exists i :: 0 <= i < |init| && env.plan(init[i]) == None && env.topicOf(init[i]) == topic {
        var i :| 0 <= i < |init| && env.plan(init[i]) == None && env.topicOf(init[i]) == topic;
        assert env.plan(rows[i]) == None && env.topicOf(rows[i]) == topic;
      }
    }
  }

  /** Those of `rows` that satisfy `f`, in order. */
  function Filter(rows: seq<Id>, f: Id -> bool): seq<Id> {
    if rows == [] then []
    else Filter(rows[..|rows| - 1], f) + if f(rows[|rows| - 1]) then [rows[|rows| - 1]] else []
  }

  /** Everything the handlers of these rows write, row by row. */
  function AllWrites(rows: seq<Id>, env: Env): seq<Entry> {
    if rows == [] then []
    else
      var row := rows[|rows| - 1];
      AllWrites(rows[..|rows| - 1], env) + if env.plan(row).Some? then Entries(row, env.plan(row).value) else []
  }

  /** Rows are marked, and reported as failed, in the order claimed, and their writes are applied in that order. */
  lemma {:induction false} WorkInOrder(rows: seq<Id>, env: Env)
    ensures var work := AfterRows(rows, env);
            && work.marked == Filter(rows, (r: Id) => env.plan(r).Some? && env.throws(r) == None)
            && work.failed == Filter(rows, (r: Id) => env.plan(r).Some? && env.throws(r).Some?)
            && work.log == AllWrites(work.marked, env)
  {
    if rows != [] {
      var init, last := rows[..|rows| - 1], rows[|rows| - 1];
      WorkInOrder(init, env);
      var before := AfterRows(init, env).marked;
      assert (before + [last])[..|before|] == before;
    }
  }

  ghost predicate NoRepeats(rows: seq<Id>) {
    forall i, j :: 0 <= i < j < |rows| ==> rows[i] != rows[j]
  }

  // --- Parallel drains ------------------------------------------------------------------------

  /** A drain in its transaction: its claimed rows, where it is, and what it would commit. */
  datatype Drain = Drain(
    rows: seq<Id>,
    next: nat,
    inRow: bool,
    written: nat,
    log: seq<Entry>,
    saved: seq<Entry>,
    marked: set<Id>)

  /** The committed database, rows in `created_at` order, and the drains beside it. */
  datatype State = State(rows: seq<Id>, delivered: set<Id>, log: seq<Entry>, drains: map<nat, Drain>)

  datatype Action =
    | Insert(row: Id, position: nat)
    | Begin(drain: nat, batch: nat)
    | Skip(drain: nat)
    | Enter(drain: nat)
    | Apply(drain: nat)
    | Deliver(drain: nat)
    | Throw(drain: nat)
    | Commit(drain: nat)
    | Crash(drain: nat)

  const EMPTY := State([], {}, [], map[])

  predicate Locked(s: State, row: Id) {
    exists d :: d in s.drains && row in s.drains[d].rows
  }

  /** The first `batch` pending rows no other drain has locked. */
  function Pick(s: State, rows: seq<Id>, batch: nat): (picked: seq<Id>)
    ensures |picked| <= batch
    ensures forall r :: r in picked ==> r in rows && r !in s.delivered && !Locked(s, r)
  {
    if rows == [] || batch == 0 then []
    else if rows[0] !in s.delivered && !Locked(s, rows[0]) then [rows[0]] + Pick(s, rows[1..], batch - 1)
    else Pick(s, rows[1..], batch)
  }

  function DrainStep(plan: Plan, d: Drain, a: Action): Option<Drain> {
    if d.next >= |d.rows| then None
    else
      var row := d.rows[d.next];
      match a
      case Skip(_) => if !d.inRow && plan(row) == None then Some(d.(next := d.next + 1)) else None
      case Enter(_) =>
        if !d.inRow && plan(row).Some? then Some(d.(inRow := true, written := 0, saved := d.log)) else None
      case Apply(_) =>
        if d.inRow && plan(row).Some? && d.written < |plan(row).value|
        then Some(d.(log := d.log + [Entry(row, plan(row).value[d.written])], written := d.written + 1)) else None
      case Deliver(_) =>
        if d.inRow && plan(row).Some? && d.written == |plan(row).value|
        then Some(d.(inRow := false, next := d.next + 1, marked := d.marked + {row})) else None
      case Throw(_) => if d.inRow then Some(d.(inRow := false, next := d.next + 1, log := d.saved)) else None
      case _ => None
  }

  function Step(plan: Plan, s: State, a: Action): Option<State> {
    match a
    case Insert(row, position) =>
      if row in s.rows || position > |s.rows| then None
      else Some(s.(rows := s.rows[..position] + [row] + s.rows[position..]))
    case Begin(d, batch) =>
      if d in s.drains then None
      else Some(s.(drains := s.drains[d := Drain(Pick(s, s.rows, batch), 0, false, 0, [], [], {})]))
    case Commit(d) =>
      if d !in s.drains || s.drains[d].inRow || s.drains[d].next < |s.drains[d].rows| then None
      else Some(s.(delivered := s.delivered + s.drains[d].marked, log := s.log + s.drains[d].log, drains := s.drains - {d}))
    case Crash(d) => Some(s.(drains := s.drains - {d}))
    case _ =>
      if a.drain !in s.drains then None
      else match DrainStep(plan, s.drains[a.drain], a)
        case None => None
        case Some(next) => Some(s.(drains := s.drains[a.drain := next]))
  }

  function Play(plan: Plan, s: State, actions: seq<Action>): Option<State>
    decreases actions
  {
    if actions == [] then Some(s)
    else
      match Step(plan, s, actions[0])
      case None => None
      case Some(next) => Play(plan, next, actions[1..])
  }

  /** Delivered exactly when its handler's writes are applied: all of them, once, or none. */
  ghost predicate InStep(plan: Plan, s: State) {
    forall r :: Of(s.log, r) == if r in s.delivered && plan(r).Some? then plan(r).value else []
  }

  ghost predicate DrainSound(plan: Plan, d: Drain) {
    && NoRepeats(d.rows) && d.next <= |d.rows|
    && (forall r :: r in d.marked ==> r in d.rows[..d.next] && plan(r).Some?)
    && (d.inRow ==> d.next < |d.rows| && plan(d.rows[d.next]).Some? && d.written <= |plan(d.rows[d.next]).value|)
    && (forall r :: Of(d.log, r) == Pending(plan, d, r))
    && (d.inRow ==> forall r :: Of(d.saved, r) == if r in d.marked then plan(r).value else [])
  }

  /** What a drain's log holds of a row: all of a marked one, the writes so far of the one in hand. */
  ghost function Pending(plan: Plan, d: Drain, r: Id): seq<Write> {
    if r in d.marked && plan(r).Some? then plan(r).value
    else if d.inRow && d.next < |d.rows| && r == d.rows[d.next] && plan(r).Some? && d.written <= |plan(r).value|
      then plan(r).value[..d.written]
    else []
  }

  /** A drain holds pending rows, and no two drains hold one. */
  ghost predicate RowsApart(s: State) {
    && NoRepeats(s.rows)
    && (forall d, r :: d in s.drains && r in s.drains[d].rows ==> r in s.rows && r !in s.delivered)
    && (forall d, e, r :: d in s.drains && e in s.drains && d != e && r in s.drains[d].rows ==> r !in s.drains[e].rows)
  }

  ghost predicate DrainsSound(plan: Plan, s: State) {
    forall d :: d in s.drains ==> DrainSound(plan, s.drains[d])
  }

  ghost predicate Sound(plan: Plan, s: State) {
    InStep(plan, s) && RowsApart(s) && DrainsSound(plan, s)
  }

  lemma EmptySound(plan: Plan)
    ensures Sound(plan, EMPTY)
  {}

  lemma {:induction false} PickDistinct(s: State, rows: seq<Id>, batch: nat)
    requires NoRepeats(rows)
    ensures NoRepeats(Pick(s, rows, batch))
  {
    if rows != [] && batch > 0 {
      PickDistinct(s, rows[1..], batch);
      PickDistinct(s, rows[1..], batch - 1);
      hide Locked;
      assert rows[0] !in rows[1..];
    }
  }

  lemma LockedBy(s: State, e: nat, r: Id)
    requires e in s.drains && r in s.drains[e].rows
    ensures Locked(s, r)
  {}

  lemma BegunSound(plan: Plan, rows: seq<Id>)
    requires NoRepeats(rows)
    ensures DrainSound(plan, Drain(rows, 0, false, 0, [], [], {}))
  {
    hide NoRepeats;
  }

  lemma BeginKeeps(plan: Plan, s: State, d: nat, batch: nat)
    requires Sound(plan, s) && Step(plan, s, Begin(d, batch)).Some?
    ensures Sound(plan, Step(plan, s, Begin(d, batch)).value)
  {
    var begun := Drain(Pick(s, s.rows, batch), 0, false, 0, [], [], {});
    hide Pick, DrainSound, InStep, Of, Locked, NoRepeats;
    PickDistinct(s, s.rows, batch);
    BegunSound(plan, begun.rows);
    forall e, r | e in s.drains && r in s.drains[e].rows ensures r !in begun.rows {
      LockedBy(s, e, r);
    }
    assert Step(plan, s, Begin(d, batch)).value == s.(drains := s.drains[d := begun]);
    hide Step;
  }

  lemma InsertKeeps(plan: Plan, s: State, row: Id, position: nat)
    requires Sound(plan, s) && Step(plan, s, Insert(row, position)).Some?
    ensures Sound(plan, Step(plan, s, Insert(row, position)).value)
  {
    hide DrainSound, Of;
    var a, b := s.rows[..position], s.rows[position..];
    assert s.rows == a + b;
    Inserted(a, b, row);
  }

  lemma Inserted(a: seq<Id>, b: seq<Id>, row: Id)
    requires NoRepeats(a + b) && row !in a + b
    ensures NoRepeats(a + [row] + b)
    ensures forall r :: r in a + b ==> r in a + [row] + b
  {
    var all := a + [row] + b;
    forall i, j | 0 <= i < j < |all| ensures all[i] != all[j] {
      var x, y := if i < |a| then i else i - 1, if j < |a| then j else j - 1;
      if i != |a| {
        assert all[i] == (a + b)[x];
      }
      if j != |a| {
        assert all[j] == (a + b)[y];
      }
    }
  }

  lemma ApplyKeeps(plan: Plan, d: Drain, a: Action)
    requires DrainSound(plan, d) && a.Apply? && DrainStep(plan, d, a).Some?
    ensures DrainSound(plan, DrainStep(plan, d, a).value)
  {
    var e, row := DrainStep(plan, d, a).value, d.rows[d.next];
    var writes := plan(row).value;
    assert writes[..d.written + 1] == writes[..d.written] + [writes[d.written]];
    assert row !in d.marked;
    hide Of, NoRepeats;
    forall r ensures Of(e.log, r) == Pending(plan, e, r) {
      assert Of(d.log, r) == Pending(plan, d, r);
      OneWrite(d.log, row, writes[d.written], r);
    }
  }

  lemma DeliverKeeps(plan: Plan, d: Drain, a: Action)
    requires DrainSound(plan, d) && a.Deliver? && DrainStep(plan, d, a).Some?
    ensures DrainSound(plan, DrainStep(plan, d, a).value)
  {
    var e, row := DrainStep(plan, d, a).value, d.rows[d.next];
    assert d.rows[..d.next + 1] == d.rows[..d.next] + [row];
    assert plan(row).value[..d.written] == plan(row).value;
    hide Of, NoRepeats;
    forall r ensures Of(e.log, r) == Pending(plan, e, r) {
      assert Of(d.log, r) == Pending(plan, d, r);
    }
  }

  lemma OtherKeeps(plan: Plan, d: Drain, a: Action)
    requires DrainSound(plan, d) && (a.Skip? || a.Enter? || a.Throw?) && DrainStep(plan, d, a).Some?
    ensures DrainSound(plan, DrainStep(plan, d, a).value)
  {
    var e, row := DrainStep(plan, d, a).value, d.rows[d.next];
    assert d.rows[..d.next + 1] == d.rows[..d.next] + [row];
    hide Of, NoRepeats;
    forall r ensures Of(e.log, r) == Pending(plan, e, r) {
      assert Of(d.log, r) == Pending(plan, d, r);
    }
  }

  lemma DrainStepKeeps(plan: Plan, d: Drain, a: Action)
    requires DrainSound(plan, d) && DrainStep(plan, d, a).Some?
    ensures DrainSound(plan, DrainStep(plan, d, a).value)
    ensures DrainStep(plan, d, a).value.rows == d.rows
  {
    hide DrainSound;
    if a.Apply? {
      ApplyKeeps(plan, d, a);
    } else if a.Deliver? {
      DeliverKeeps(plan, d, a);
    } else {
      OtherKeeps(plan, d, a);
    }
  }

  lemma OneWrite(log: seq<Entry>, row: Id, write: Write, r: Id)
    ensures Of(log + [Entry(row, write)], r) == Of(log, r) + if r == row then [write] else []
  {
    OfConcat(log, [Entry(row, write)], r);
  }

  lemma MoveKeeps(plan: Plan, s: State, d: nat, next: Drain)
    requires Sound(plan, s) && d in s.drains && DrainSound(plan, next) && next.rows == s.drains[d].rows
    ensures Sound(plan, s.(drains := s.drains[d := next]))
  {
    hide DrainSound, Of;
    var t := s.(drains := s.drains[d := next]);
    forall e | e in t.drains ensures t.drains[e].rows == s.drains[e].rows {}
  }

  lemma CrashKeeps(plan: Plan, s: State, d: nat)
    requires Sound(plan, s)
    ensures Sound(plan, s.(drains := s.drains - {d}))
  {
    hide DrainSound, Of;
  }

  lemma CommitInStep(plan: Plan, s: State, d: nat)
    requires Sound(plan, s) && Step(plan, s, Commit(d)).Some?
    ensures InStep(plan, Step(plan, s, Commit(d)).value)
  {
    var drain, t := s.drains[d], Step(plan, s, Commit(d)).value;
    assert DrainSound(plan, drain);
    assert drain.rows[..drain.next] == drain.rows;
    hide Of;
    forall r ensures Of(t.log, r) == if r in t.delivered && plan(r).Some? then plan(r).value else [] {
      OfConcat(s.log, drain.log, r);
      assert Of(drain.log, r) == Pending(plan, drain, r);
    }
  }

  lemma CommitKeeps(plan: Plan, s: State, d: nat)
    requires Sound(plan, s) && Step(plan, s, Commit(d)).Some?
    ensures Sound(plan, Step(plan, s, Commit(d)).value)
  {
    CommitInStep(plan, s, d);
    var drain, t := s.drains[d], Step(plan, s, Commit(d)).value;
    assert DrainSound(plan, drain);
    assert forall r :: r in drain.marked ==> r in drain.rows;
    hide Of, InStep, DrainSound;
  }

  lemma StepKeeps(plan: Plan, s: State, a: Action)
    requires Sound(plan, s) && Step(plan, s, a).Some?
    ensures Sound(plan, Step(plan, s, a).value)
  {
    hide Pick, DrainStep, DrainSound, InStep, RowsApart;
    match a
    case Insert(row, position) => InsertKeeps(plan, s, row, position);
    case Begin(d, batch) => BeginKeeps(plan, s, d, batch);
    case Commit(d) => CommitKeeps(plan, s, d);
    case Crash(d) => CrashKeeps(plan, s, d);
    case _ =>
      var d := s.drains[a.drain];
      DrainStepKeeps(plan, d, a);
      MoveKeeps(plan, s, a.drain, DrainStep(plan, d, a).value);
  }

  /**
   Under every interleaving of drains, handler failures and crashes, in every committed state a row's
   writes are all applied, once, if it is marked delivered, and not at all otherwise; and no two drains
   hold one row.
   */
  lemma {:induction false} EffectsMatchMarks(plan: Plan, s: State, actions: seq<Action>)
    requires Sound(plan, s) && Play(plan, s, actions).Some?
    ensures Sound(plan, Play(plan, s, actions).value)
    ensures InStep(plan, Play(plan, s, actions).value) && RowsApart(Play(plan, s, actions).value)
    decreases actions
  {
    if actions != [] {
      hide Step, InStep, RowsApart, DrainsSound;
      StepKeeps(plan, s, actions[0]);
      EffectsMatchMarks(plan, Step(plan, s, actions[0]).value, actions[1..]);
    }
  }

  // --- Progress -------------------------------------------------------------------------------

  function Undelivered(rows: seq<Id>, delivered: set<Id>): seq<Id> {
    if rows == [] then []
    else (if rows[0] in delivered then [] else [rows[0]]) + Undelivered(rows[1..], delivered)
  }

  function First(rows: seq<Id>, batch: nat): seq<Id> {
    if |rows| <= batch then rows else rows[..batch]
  }

  /** The rows a drain may claim, in order: neither delivered nor locked by another. */
  function Free(s: State, rows: seq<Id>): (free: seq<Id>)
    ensures forall r :: r in free <==> r in rows && r !in s.delivered && !Locked(s, r)
  {
    if rows == [] then []
    else
      assert rows == [rows[0]] + rows[1..];
      (if rows[0] !in s.delivered && !Locked(s, rows[0]) then [rows[0]] else []) + Free(s, rows[1..])
  }

  /** A drain claims the first rows that are free, as many as its batch holds. */
  lemma {:induction false} PickTakesFirst(s: State, rows: seq<Id>, batch: nat)
    ensures Pick(s, rows, batch) == First(Free(s, rows), batch)
  {
    hide Locked;
    if rows != [] && batch > 0 {
      if rows[0] !in s.delivered && !Locked(s, rows[0]) {
        PickTakesFirst(s, rows[1..], batch - 1);
        assert Free(s, rows) == [rows[0]] + Free(s, rows[1..]);
      } else {
        PickTakesFirst(s, rows[1..], batch);
        assert Free(s, rows) == Free(s, rows[1..]);
      }
    }
  }

  /** A new row may be written at any place of the order, and is then free; the others stay in order, and claimed by whom they were. */
  lemma {:induction false} InsertAdds(plan: Plan, s: State, row: Id, position: nat)
    requires Sound(plan, s) && row !in s.rows && row !in s.delivered && position <= |s.rows|
    ensures Step(plan, s, Insert(row, position)).Some?
    ensures var t := Step(plan, s, Insert(row, position)).value;
            && t.rows[position] == row && t.rows[..position] == s.rows[..position] && t.rows[position + 1..] == s.rows[position..]
            && t.drains == s.drains && t.log == s.log && t.delivered == s.delivered && row in Free(t, t.rows)
  {
    hide InStep, DrainsSound, NoRepeats;
    var t := Step(plan, s, Insert(row, position)).value;
    assert t.rows == s.rows[..position] + [row] + s.rows[position..];
    assert t.rows[position] == row;
    assert !Locked(t, row);
  }

  /** A drain may begin whenever it is not running, and claims the first free rows its batch holds. */
  lemma {:induction false} BeginClaims(plan: Plan, s: State, d: nat, batch: nat)
    ensures Step(plan, s, Begin(d, batch)).Some? <==> d !in s.drains
    ensures d !in s.drains ==>
              var t := Step(plan, s, Begin(d, batch)).value;
              && d in t.drains && t.drains[d].rows == First(Free(s, s.rows), batch)
              && t.drains[d].marked == {} && t.drains[d].log == []
              && t.rows == s.rows && t.log == s.log && t.delivered == s.delivered
  {
    PickTakesFirst(s, s.rows, batch);
    hide Pick, Free, First;
  }

  /** A crash leaves the committed state as it was and frees everything the drain had claimed. */
  lemma {:induction false} CrashFrees(plan: Plan, s: State, d: nat, r: Id)
    requires Sound(plan, s) && d in s.drains && r in s.drains[d].rows
    ensures Step(plan, s, Crash(d)).Some?
    ensures var t := Step(plan, s, Crash(d)).value;
            t.log == s.log && t.delivered == s.delivered && t.rows == s.rows && r in Free(t, t.rows)
  {
    hide DrainSound, InStep, NoRepeats;
  }

  /** A commit marks exactly the drain's rows that have a handler that did not throw, and frees the others. */
  lemma {:induction false} CommitFrees(plan: Plan, s: State, d: nat, r: Id)
    requires Sound(plan, s) && Step(plan, s, Commit(d)).Some? && r in s.drains[d].rows
    ensures var t := Step(plan, s, Commit(d)).value;
            && (r in s.drains[d].marked ==> r in t.delivered && plan(r).Some? && Of(t.log, r) == plan(r).value)
            && (r !in s.drains[d].marked ==> r in Free(t, t.rows) && Of(t.log, r) == [])
            && (forall q :: q in t.delivered ==> q in s.delivered || q in s.drains[d].marked)
  {
    CommitKeeps(plan, s, d);
    assert DrainSound(plan, s.drains[d]);
    hide DrainSound, NoRepeats, Of;
  }

  /** A drain alone picks the first pending rows. */
  lemma {:induction false} AloneTakesFirst(s: State, rows: seq<Id>, batch: nat)
    requires s.drains == map[]
    ensures Pick(s, rows, batch) == First(Undelivered(rows, s.delivered), batch)
  {
    if rows == [] || batch == 0 {
    } else if rows[0] in s.delivered {
      AloneTakesFirst(s, rows[1..], batch);
    } else {
      AloneTakesFirst(s, rows[1..], batch - 1);
      assert Undelivered(rows, s.delivered)[1..] == Undelivered(rows[1..], s.delivered);
    }
  }

  function Bads(rows: seq<Id>, bad: set<Id>): (kept: seq<Id>)
    ensures forall r :: r in kept <==> r in rows && r in bad
    ensures |kept| <= |rows|
  {
    if rows == [] then []
    else
      assert rows == [rows[0]] + rows[1..];
      (if rows[0] in bad then [rows[0]] else []) + Bads(rows[1..], bad)
  }

  /** What is pending after a drain that cannot deliver the rows of `bad`. */
  function Remaining(pending: seq<Id>, bad: set<Id>, batch: nat): (remaining: seq<Id>)
    ensures |remaining| <= |pending|
  {
    var taken := First(pending, batch);
    Bads(taken, bad) + pending[|taken|..]
  }

  function After(pending: seq<Id>, bad: set<Id>, batch: nat, drains: nat): seq<Id>
    decreases drains
  {
    if drains == 0 then pending else After(Remaining(pending, bad, batch), bad, batch, drains - 1)
  }

  /** How many rows of `bad` come before `row`. */
  function BadBefore(pending: seq<Id>, bad: set<Id>, row: Id): (n: nat)
    ensures n <= |pending|
  {
    if pending == [] || pending[0] == row then 0
    else (if pending[0] in bad then 1 else 0) + BadBefore(pending[1..], bad, row)
  }

  lemma {:induction false} BadBeforeSplit(a: seq<Id>, b: seq<Id>, bad: set<Id>, row: Id)
    requires row !in a
    ensures BadBefore(a + b, bad, row) == |Bads(a, bad)| + BadBefore(b, bad, row)
  {
    if a == [] {
      assert a + b == b;
    } else {
      assert (a + b)[1..] == a[1..] + b;
      BadBeforeSplit(a[1..], b, bad, row);
    }
  }

  lemma BadsCons(row: Id, rest: seq<Id>, bad: set<Id>)
    ensures Bads([row] + rest, bad) == (if row in bad then [row] else []) + Bads(rest, bad)
  {
    assert ([row] + rest)[1..] == rest;
  }

  lemma {:induction false} BadsOfBads(a: seq<Id>, bad: set<Id>)
    ensures Bads(Bads(a, bad), bad) == Bads(a, bad)
  {
    if a != [] {
      hide Bads;
      assert a == [a[0]] + a[1..];
      BadsCons(a[0], a[1..], bad);
      BadsOfBads(a[1..], bad);
      if a[0] in bad {
        BadsCons(a[0], Bads(a[1..], bad), bad);
      } else {
        assert [] + Bads(a[1..], bad) == Bads(a[1..], bad);
      }
    }
  }

  lemma NoRepeatsCons(row: Id, rest: seq<Id>)
    ensures NoRepeats([row] + rest) <==> NoRepeats(rest) && row !in rest
  {
    var all := [row] + rest;
    if NoRepeats(all) {
      forall i, j | 0 <= i < j < |rest| ensures rest[i] != rest[j] {
        assert all[i + 1] != all[j + 1];
      }
      forall j | 0 <= j < |rest| ensures rest[j] != row {
        assert all[0] != all[j + 1];
      }
    }
  }

  lemma NoRepeatsSplit(a: seq<Id>, b: seq<Id>)
    requires NoRepeats(a + b)
    ensures forall i, j :: 0 <= i < |a| && 0 <= j < |b| ==> a[i] != b[j]
  {
    forall i, j | 0 <= i < |a| && 0 <= j < |b| ensures a[i] != b[j] {
      assert (a + b)[i] == a[i] && (a + b)[|a| + j] == b[j];
    }
  }

  lemma {:induction false} BadsDistinct(a: seq<Id>, b: seq<Id>, bad: set<Id>)
    requires NoRepeats(a + b)
    ensures NoRepeats(Bads(a, bad) + b)
  {
    if a == [] {
      assert a + b == b && Bads(a, bad) + b == b;
    } else {
      var rest := Bads(a[1..], bad) + b;
      assert a + b == [a[0]] + (a[1..] + b);
      assert a == [a[0]] + a[1..];
      hide Bads, NoRepeats;
      NoRepeatsCons(a[0], a[1..] + b);
      BadsDistinct(a[1..], b, bad);
      BadsCons(a[0], a[1..], bad);
      if a[0] in bad {
        assert Bads(a, bad) + b == [a[0]] + rest;
        NoRepeatsCons(a[0], rest);
      } else {
        assert Bads(a, bad) + b == rest;
      }
    }
  }

  lemma RemainingDistinct(pending: seq<Id>, bad: set<Id>, batch: nat)
    requires NoRepeats(pending)
    ensures NoRepeats(Remaining(pending, bad, batch))
  {
    var taken := First(pending, batch);
    assert pending == taken + pending[|taken|..];
    BadsDistinct(taken, pending[|taken|..], bad);
  }

  /** A drain that does not reach a row takes none of the undeliverable rows before it away. */
  lemma RemainingKeepsBad(pending: seq<Id>, bad: set<Id>, batch: nat, row: Id)
    requires row in pending && row !in First(pending, batch)
    ensures row in Remaining(pending, bad, batch)
    ensures BadBefore(Remaining(pending, bad, batch), bad, row) == BadBefore(pending, bad, row)
    ensures |Remaining(pending, bad, batch)| - |pending| == |Bads(First(pending, batch), bad)| - batch
    ensures |Bads(First(pending, batch), bad)| <= BadBefore(pending, bad, row)
  {
    var taken := First(pending, batch);
    var rest := pending[|taken|..];
    assert pending == taken + rest;
    BadBeforeSplit(taken, rest, bad, row);
    BadBeforeSplit(Bads(taken, bad), rest, bad, row);
    BadsOfBads(taken, bad);
  }

  lemma {:induction false} ReachedAfter(pending: seq<Id>, bad: set<Id>, batch: nat, row: Id) returns (drains: nat)
    requires NoRepeats(pending) && row !in bad && BadBefore(pending, bad, row) < batch
    ensures row !in After(pending, bad, batch, drains)
    decreases |pending|
  {
    hide NoRepeats, Bads, BadBefore, First, Remaining;
    if row !in pending {
      drains := 0;
    } else if row in First(pending, batch) {
      drains := 1;
      PickedLeaves(pending, bad, batch, row);
      assert After(pending, bad, batch, 1) == After(Remaining(pending, bad, batch), bad, batch, 0);
    } else {
      RemainingKeepsBad(pending, bad, batch, row);
      RemainingDistinct(pending, bad, batch);
      var rest := ReachedAfter(Remaining(pending, bad, batch), bad, batch, row);
      drains := rest + 1;
    }
  }

  lemma PickedLeaves(pending: seq<Id>, bad: set<Id>, batch: nat, row: Id)
    requires NoRepeats(pending) && row !in bad && row in First(pending, batch)
    ensures row !in Remaining(pending, bad, batch)
  {
    var taken := First(pending, batch);
    var rest := pending[|taken|..];
    assert pending == taken + rest;
    NoRepeatsSplit(taken, rest);
  }

  lemma {:induction false} BadBeforeIndex(pending: seq<Id>, bad: set<Id>, row: Id, i: nat)
    requires i < |pending| && pending[i] == row
    ensures BadBefore(pending, bad, row) <= i
  {
    if pending[0] != row {
      BadBeforeIndex(pending[1..], bad, row, i - 1);
    }
  }

  lemma BeyondTheBatch(pending: seq<Id>, bad: set<Id>, batch: nat, row: Id)
    requires BadBefore(pending, bad, row) >= batch
    ensures row !in First(pending, batch)
  {
    var taken := First(pending, batch);
    hide BadBefore;
    forall i | 0 <= i < |taken| ensures taken[i] != row {
      if taken[i] == row {
        BadBeforeIndex(pending, bad, row, i);
      }
    }
  }

  lemma {:induction false} NeverReached(pending: seq<Id>, bad: set<Id>, batch: nat, row: Id, drains: nat)
    requires row in pending && BadBefore(pending, bad, row) >= batch
    ensures row in After(pending, bad, batch, drains)
    decreases drains
  {
    BeyondTheBatch(pending, bad, batch, row);
    if drains > 0 {
      hide Bads, BadBefore, Remaining, First;
      RemainingKeepsBad(pending, bad, batch, row);
      NeverReached(Remaining(pending, bad, batch), bad, batch, row, drains - 1);
    }
  }

  ghost predicate EventuallyGone(pending: seq<Id>, bad: set<Id>, batch: nat, row: Id) {
    exists drains :: row !in After(pending, bad, batch, drains)
  }

  /** In the recursion: a row goes exactly when fewer than `batch` undeliverable ones precede it. */
  lemma {:induction false} GoneExactly(pending: seq<Id>, bad: set<Id>, batch: nat, row: Id)
    requires NoRepeats(pending) && row in pending && row !in bad
    ensures EventuallyGone(pending, bad, batch, row) <==> BadBefore(pending, bad, row) < batch
  {
    if BadBefore(pending, bad, row) < batch {
      var drains := ReachedAfter(pending, bad, batch, row);
    } else {
      forall drains ensures row in After(pending, bad, batch, drains) {
        NeverReached(pending, bad, batch, row, drains);
      }
    }
  }

  // --- What a drain leaves pending ------------------------------------------------------------

  ghost function SetOf(rows: seq<Id>): set<Id> {
    set r | r in rows
  }

  /** The rows of `rows` no drain can deliver. */
  ghost function Undeliverable(rows: seq<Id>, env: Env): set<Id> {
    set r | r in rows && !Deliverable(r, env)
  }

  lemma {:induction false} UndeliveredTwice(rows: seq<Id>, d: set<Id>, e: set<Id>)
    ensures Undelivered(rows, d + e) == Undelivered(Undelivered(rows, d), e)
  {
    if rows != [] {
      UndeliveredTwice(rows[1..], d, e);
      if rows[0] in d {
        assert Undelivered(rows, d) == Undelivered(rows[1..], d);
      } else {
        assert Undelivered(rows, d)[1..] == Undelivered(rows[1..], d);
      }
    }
  }

  lemma {:induction false} UndeliveredConcat(a: seq<Id>, b: seq<Id>, d: set<Id>)
    ensures Undelivered(a + b, d) == Undelivered(a, d) + Undelivered(b, d)
  {
    if a == [] {
      assert a + b == b;
    } else {
      assert (a + b)[1..] == a[1..] + b;
      UndeliveredConcat(a[1..], b, d);
    }
  }

  lemma {:induction false} UndeliveredFilter(rows: seq<Id>, d: set<Id>, bad: set<Id>)
    requires forall i :: 0 <= i < |rows| ==> (rows[i] in bad <==> rows[i] !in d)
    ensures Undelivered(rows, d) == Bads(rows, bad)
  {
    if rows != [] {
      UndeliveredFilter(rows[1..], d, bad);
    }
  }

  lemma {:induction false} UndeliveredAll(rows: seq<Id>, d: set<Id>)
    requires forall i :: 0 <= i < |rows| ==> rows[i] !in d
    ensures Undelivered(rows, d) == rows
  {
    if rows != [] {
      UndeliveredAll(rows[1..], d);
    }
  }

  lemma {:induction false} UndeliveredMembers(rows: seq<Id>, d: set<Id>, row: Id)
    ensures row in Undelivered(rows, d) <==> row in rows && row !in d
  {
    if rows != [] {
      UndeliveredMembers(rows[1..], d, row);
      assert rows == [rows[0]] + rows[1..];
    }
  }

  lemma {:induction false} UndeliveredDistinct(rows: seq<Id>, d: set<Id>)
    requires NoRepeats(rows)
    ensures NoRepeats(Undelivered(rows, d))
  {
    if rows != [] {
      assert rows == [rows[0]] + rows[1..];
      NoRepeatsCons(rows[0], rows[1..]);
      UndeliveredDistinct(rows[1..], d);
      UndeliveredMembers(rows[1..], d, rows[0]);
      hide NoRepeats;
      NoRepeatsCons(rows[0], Undelivered(rows[1..], d));
    }
  }

  /** What a drain leaves pending, in order: what it did not mark. */
  lemma {:induction false} RemainingIsUnmarked(rows: seq<Id>, delivered: set<Id>, batch: nat, env: Env, bad: set<Id>)
    requires NoRepeats(rows)
    requires forall r :: r in rows ==> (r in bad <==> !Deliverable(r, env))
    ensures var pending := Undelivered(rows, delivered);
            var marked := SetOf(AfterRows(First(pending, batch), env).marked);
            Undelivered(rows, delivered + marked) == Remaining(pending, bad, batch)
  {
    var pending := Undelivered(rows, delivered);
    var taken := First(pending, batch);
    var rest := pending[|taken|..];
    var marked := SetOf(AfterRows(taken, env).marked);
    assert pending == taken + rest;
    UndeliveredDistinct(rows, delivered);
    NoRepeatsSplit(taken, rest);
    TakenDistinct(taken, rest);
    UndeliveredTwice(rows, delivered, marked);
    hide Undelivered, AfterRows, Bads, First, NoRepeats;
    UndeliveredConcat(taken, rest, marked);
    forall i | 0 <= i < |taken| ensures taken[i] in bad <==> taken[i] !in marked {
      WorkIsWholeRows(taken, env, taken[i]);
      assert taken[i] in pending;
      UndeliveredMembers(rows, delivered, taken[i]);
    }
    forall i | 0 <= i < |rest| ensures rest[i] !in marked {
      WorkIsWholeRows(taken, env, rest[i]);
    }
    UndeliveredFilter(taken, marked, bad);
    UndeliveredAll(rest, marked);
  }

  lemma TakenDistinct(a: seq<Id>, b: seq<Id>)
    requires NoRepeats(a + b)
    ensures NoRepeats(a)
  {
    forall i, j | 0 <= i < j < |a| ensures a[i] != a[j] {
      assert (a + b)[i] == a[i] && (a + b)[j] == a[j];
    }
  }

  // --- A drain alone --------------------------------------------------------------------------

  /** What one drain commits when no other runs beside it. */
  ghost function DrainAlone(env: Env, s: State, batch: nat): State {
    var work := AfterRows(First(Undelivered(s.rows, s.delivered), batch), env);
    s.(delivered := s.delivered + SetOf(work.marked), log := s.log + work.log)
  }

  lemma {:induction false} PlayConcat(plan: Plan, s: State, a: seq<Action>, b: seq<Action>)
    requires Play(plan, s, a).Some?
    ensures Play(plan, s, a + b) == Play(plan, Play(plan, s, a).value, b)
    decreases a
  {
    hide Step;
    if a == [] {
      assert a + b == b;
    } else {
      assert (a + b)[1..] == a[1..] + b;
      PlayConcat(plan, Step(plan, s, a[0]).value, a[1..], b);
    }
  }

  lemma PlayOne(plan: Plan, s: State, a: Action, t: State)
    requires Step(plan, s, a) == Some(t)
    ensures Play(plan, s, [a]) == Some(t)
  {
    hide Step;
    assert [a][1..] == [];
    assert Play(plan, t, []) == Some(t);
  }

  /** A step of the only drain. */
  lemma OneMoves(plan: Plan, s: State, d: Drain, a: Action, e: Drain)
    requires s.drains == map[0 := d] && DrainStep(plan, d, a) == Some(e)
    requires a.Skip? || a.Enter? || a.Apply? || a.Deliver? || a.Throw?
    requires a.drain == 0
    ensures Play(plan, s, [a]) == Some(s.(drains := map[0 := e]))
  {
    hide DrainStep;
    assert s.drains[0 := e] == map[0 := e];
    PlayOne(plan, s, a, s.(drains := map[0 := e]));
  }

  /** The drain is between two rows with this work behind it. */
  ghost predicate BetweenRows(d: Drain, rows: seq<Id>, next: nat, work: Work) {
    d.rows == rows && d.next == next && !d.inRow && d.log == work.log && d.marked == SetOf(work.marked)
  }

  /** A handler's first `k` writes. */
  lemma {:induction false} WritesPlayed(plan: Plan, s: State, d: Drain, writes: seq<Write>, k: nat) returns (actions: seq<Action>, e: Drain)
    requires s.drains == map[0 := d] && d.next < |d.rows| && plan(d.rows[d.next]) == Some(writes)
    requires d.inRow && d.written == 0 && d.saved == d.log && k <= |writes|
    ensures Play(plan, s, actions) == Some(s.(drains := map[0 := e]))
    ensures e == d.(written := k, log := d.log + Entries(d.rows[d.next], writes[..k]))
    decreases k
  {
    if k == 0 {
      actions, e := [], d;
      assert d.log + Entries(d.rows[d.next], writes[..0]) == d.log;
    } else {
      var before, middle := WritesPlayed(plan, s, d, writes, k - 1);
      e := middle.(written := k, log := middle.log + [Entry(d.rows[d.next], writes[k - 1])]);
      assert Entries(d.rows[d.next], writes[..k]) == Entries(d.rows[d.next], writes[..k - 1]) + [Entry(d.rows[d.next], writes[k - 1])];
      assert e.log == d.log + Entries(d.rows[d.next], writes[..k]);
      OneMoves(plan, s.(drains := map[0 := middle]), middle, Apply(0), e);
      hide Play;
      PlayConcat(plan, s, before, [Apply(0)]);
      actions := before + [Apply(0)];
    }
  }

  /** One row of the loop, as steps. */
  lemma RowPlayed(env: Env, s: State, d: Drain, work: Work) returns (actions: seq<Action>, e: Drain)
    requires s.drains == map[0 := d] && d.next < |d.rows| && BetweenRows(d, d.rows, d.next, work)
    ensures Play(env.plan, s, actions) == Some(s.(drains := map[0 := e]))
    ensures BetweenRows(e, d.rows, d.next + 1, AfterRow(work, d.rows[d.next], env))
  {
    var row := d.rows[d.next];
    if env.plan(row) == None {
      e := d.(next := d.next + 1);
      OneMoves(env.plan, s, d, Skip(0), e);
      actions := [Skip(0)];
    } else {
      var writes, throwsAt := env.plan(row).value, env.throws(row);
      var entered := d.(inRow := true, written := 0, saved := d.log);
      var k := if throwsAt.Some? && throwsAt.value < |writes| then throwsAt.value else |writes|;
      OneMoves(env.plan, s, d, Enter(0), entered);
      var applied, middle := WritesPlayed(env.plan, s.(drains := map[0 := entered]), entered, writes, k);
      var last := if throwsAt.Some? then Throw(0) else Deliver(0);
      e := if throwsAt.Some? then middle.(inRow := false, next := d.next + 1, log := d.log)
           else middle.(inRow := false, next := d.next + 1, marked := d.marked + {row});
      OneMoves(env.plan, s.(drains := map[0 := middle]), middle, last, e);
      assert writes[..|writes|] == writes;
      hide Play, DrainStep;
      PlayConcat(env.plan, s, [Enter(0)], applied);
      PlayConcat(env.plan, s, [Enter(0)] + applied, [last]);
      actions := [Enter(0)] + applied + [last];
    }
  }

  lemma {:induction false} RowsPlayed(env: Env, s: State, d: Drain, n: nat) returns (actions: seq<Action>, e: Drain)
    requires s.drains == map[0 := d] && BetweenRows(d, d.rows, 0, NOTHING) && n <= |d.rows|
    ensures Play(env.plan, s, actions) == Some(s.(drains := map[0 := e]))
    ensures BetweenRows(e, d.rows, n, AfterRows(d.rows[..n], env))
    decreases n
  {
    if n == 0 {
      actions, e := [], d;
      assert d.rows[..0] == [];
      assert s.(drains := map[0 := d]) == s;
    } else {
      var before, middle := RowsPlayed(env, s, d, n - 1);
      assert d.rows[..n][..n - 1] == d.rows[..n - 1];
      hide Play;
      var row;
      row, e := RowPlayed(env, s.(drains := map[0 := middle]), middle, AfterRows(d.rows[..n - 1], env));
      PlayConcat(env.plan, s, before, row);
      actions := before + row;
    }
  }

  /** The row loop and the drain's steps are one: alone, the steps commit exactly the loop's work. */
  lemma {:induction false} DrainAlonePlayed(env: Env, s: State, batch: nat) returns (actions: seq<Action>)
    requires s.drains == map[]
    ensures Play(env.plan, s, actions) == Some(DrainAlone(env, s, batch))
  {
    var taken := First(Undelivered(s.rows, s.delivered), batch);
    var d := Drain(taken, 0, false, 0, [], [], {});
    var begun := s.(drains := map[0 := d]);
    AloneTakesFirst(s, s.rows, batch);
    assert s.drains[0 := d] == map[0 := d];
    PlayOne(env.plan, s, Begin(0, batch), begun);
    var rows, e := RowsPlayed(env, begun, d, |taken|);
    assert taken[..|taken|] == taken;
    var done := s.(drains := map[0 := e]);
    assert done.drains - {0} == map[];
    PlayOne(env.plan, done, Commit(0), DrainAlone(env, s, batch));
    hide Play, Step, First;
    PlayConcat(env.plan, s, [Begin(0, batch)], rows);
    PlayConcat(env.plan, s, [Begin(0, batch)] + rows, [Commit(0)]);
    actions := [Begin(0, batch)] + rows + [Commit(0)];
  }

  /** The state after so many drains, one after another. */
  ghost function Repeated(env: Env, s: State, batch: nat, drains: nat): State
    decreases drains
  {
    if drains == 0 then s else Repeated(env, DrainAlone(env, s, batch), batch, drains - 1)
  }

  lemma DrainAlonePending(env: Env, s: State, batch: nat, bad: set<Id>)
    requires NoRepeats(s.rows) && forall r :: r in s.rows ==> (r in bad <==> !Deliverable(r, env))
    ensures var t := DrainAlone(env, s, batch);
            t.rows == s.rows && Undelivered(s.rows, t.delivered) == Remaining(Undelivered(s.rows, s.delivered), bad, batch)
  {
    hide Undelivered, Remaining, First, AfterRows, NoRepeats, Deliverable, SetOf;
    RemainingIsUnmarked(s.rows, s.delivered, batch, env, bad);
  }

  lemma {:induction false} RepeatedPending(env: Env, s: State, batch: nat, bad: set<Id>, drains: nat)
    requires NoRepeats(s.rows) && forall r :: r in s.rows ==> (r in bad <==> !Deliverable(r, env))
    ensures Repeated(env, s, batch, drains).rows == s.rows
    ensures Undelivered(s.rows, Repeated(env, s, batch, drains).delivered)
         == After(Undelivered(s.rows, s.delivered), bad, batch, drains)
    decreases drains
  {
    if drains > 0 {
      hide Undelivered, Remaining, NoRepeats, Deliverable, DrainAlone;
      DrainAlonePending(env, s, batch, bad);
      RepeatedPending(env, DrainAlone(env, s, batch), batch, bad, drains - 1);
    }
  }

  ghost predicate EventuallyDelivered(env: Env, s: State, batch: nat, row: Id) {
    exists drains :: row in Repeated(env, s, batch, drains).delivered
  }

  /**
   Repeated drains deliver a deliverable row exactly when fewer than a batch of undeliverable rows are
   pending before it. Otherwise the same rows fill every batch and it waits for ever.
   */
  lemma {:induction false} DeliveredExactly(env: Env, s: State, batchSize: Option<int>, row: Id)
    requires NoRepeats(s.rows) && row in s.rows && row !in s.delivered && Deliverable(row, env)
    ensures var room := match batchSize
                        case None => 100
                        case Some(n) => if n < 1 then 1 else if n > 1000 then 1000 else n;
            EventuallyDelivered(env, s, Batch(batchSize), row) <==>
            BadBefore(Undelivered(s.rows, s.delivered), Undeliverable(s.rows, env), row) < room
  {
    var pending, bad, batch := Undelivered(s.rows, s.delivered), Undeliverable(s.rows, env), Batch(batchSize);
    UndeliveredDistinct(s.rows, s.delivered);
    UndeliveredMembers(s.rows, s.delivered, row);
    forall drains
      ensures row in Repeated(env, s, batch, drains).delivered <==> row !in After(pending, bad, batch, drains)
    {
      GoneIsDelivered(env, s, batch, bad, row, drains);
    }
    hide Undelivered, Repeated, After, BadBefore, NoRepeats, Undeliverable, Deliverable;
    GoneExactly(pending, bad, batch, row);
    if EventuallyGone(pending, bad, batch, row) {
      var drains :| row !in After(pending, bad, batch, drains);
      assert row in Repeated(env, s, batch, drains).delivered;
    }
    if EventuallyDelivered(env, s, batch, row) {
      var drains :| row in Repeated(env, s, batch, drains).delivered;
      assert row !in After(pending, bad, batch, drains);
    }
  }

  lemma GoneIsDelivered(env: Env, s: State, batch: nat, bad: set<Id>, row: Id, drains: nat)
    requires NoRepeats(s.rows) && row in s.rows && forall r :: r in s.rows ==> (r in bad <==> !Deliverable(r, env))
    ensures row in Repeated(env, s, batch, drains).delivered <==>
            row !in After(Undelivered(s.rows, s.delivered), bad, batch, drains)
  {
    hide Repeated, After, Undelivered, NoRepeats;
    RepeatedPending(env, s, batch, bad, drains);
    UndeliveredMembers(s.rows, Repeated(env, s, batch, drains).delivered, row);
  }
}
