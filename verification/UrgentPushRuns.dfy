/**
 The urgent push over sequences of runs, completed or crashed (apps/notify/src/run.ts): who is told of
 one item twice, and when an owed item is settled.
 */
module UrgentPushRuns {
  import opened Outcomes
  import opened Texts
  import opened UrgentPush
  import opened UrgentPushSafety

  // --- Steps ----------------------------------------------------------------------------------

  /**
   One start of the program: a run to completion, a crash after the save for so many people, or a crash
   within the next person's turn, after so many of their items were sent.
   */
  datatype Step =
    | Completed(rows: seq<Row>, env: Env)
    | Crashed(rows: seq<Row>, env: Env, served: nat)
    | CrashedInTurn(rows: seq<Row>, env: Env, served: nat, sent: nat)

  /** How many people's turns the step saved. */
  function SavedBy(s: State, step: Step): (n: nat)
    ensures n <= |Order(s, step.rows)|
  {
    var all := |Order(s, step.rows)|;
    if step.Completed? || step.served > all then all else step.served
  }

  /** What the interrupted turn had sent: so many items to a destination, or all of them on the alert path. */
  function Interrupted(s: State, step: Step): seq<Row> {
    var order := Order(s, step.rows);
    if !step.CrashedInTurn? || step.served >= |order| then []
    else
      var key := order[step.served];
      var told := TurnOf(s, step.rows, step.env, key).told;
      if PathFor(step.env, Owed(s, step.rows, key)) == OwnDestination && step.sent < |told| then told[..step.sent]
      else if step.sent == 0 then []
      else told
  }

  /** The state file after a step: a crash leaves the last save, which has the old head. */
  function StateOf(s: State, step: Step): State {
    if step.Completed? then Next(s, step.rows, step.env)
    else Saved(s, step.rows, step.env, SavedBy(s, step))
  }

  /** What people were told in a step. */
  function LogOf(s: State, step: Step): seq<Row> {
    LogAfter(s, step.rows, step.env, SavedBy(s, step)) + Interrupted(s, step)
  }

  function StateAfter(start: State, steps: seq<Step>): State {
    if steps == [] then start
    else StateOf(StateAfter(start, steps[..|steps| - 1]), steps[|steps| - 1])
  }

  /** Everything told over a sequence of steps. */
  function LogOver(start: State, steps: seq<Step>): seq<Row> {
    if steps == [] then []
    else
      var init := steps[..|steps| - 1];
      LogOver(start, init) + LogOf(StateAfter(start, init), steps[|steps| - 1])
  }

  lemma CompletedLog(s: State, step: Step)
    requires step.Completed?
    ensures LogOf(s, step) == Log(s, step.rows, step.env)
  {}

  // --- What a step tells ----------------------------------------------------------------------

  lemma PrefixMember(told: seq<Row>, part: seq<Row>, r: Row)
    requires part <= told && r in part
    ensures r in told
  {
    var i :| 0 <= i < |part| && part[i] == r;
    assert told[i] == r;
  }

  /** What the interrupted turn sent is part of what the turn would have told its person. */
  lemma InterruptedTurn(s: State, step: Step)
    requires Interrupted(s, step) != []
    ensures step.CrashedInTurn? && step.served < |Order(s, step.rows)| && SavedBy(s, step) == step.served
    ensures Interrupted(s, step) <= TurnOf(s, step.rows, step.env, Order(s, step.rows)[step.served]).told
  {
    hide Order, Owed, Serve;
  }

  /** A told row was owed. */
  lemma ToldWasOwed(s: State, step: Step, r: Row)
    requires r in LogOf(s, step)
    ensures r in step.rows && After(r, Cursor(s, r.key))
  {
    hide Order, Owed, Serve, LogAfter, Interrupted, TurnOf, SavedBy;
    if r in LogAfter(s, step.rows, step.env, SavedBy(s, step)) {
      LogMember(s, step.rows, step.env, SavedBy(s, step), r);
      ToldToKey(s, step.rows, step.env, r.key);
    } else {
      InterruptedTurn(s, step);
      var key := Order(s, step.rows)[step.served];
      PrefixMember(TurnOf(s, step.rows, step.env, key).told, Interrupted(s, step), r);
      ToldToKey(s, step.rows, step.env, key);
    }
  }

  // --- The effective cursor -------------------------------------------------------------------

  /** A person's entry after so many saves: their turn's, or the old one while they are not yet served. */
  lemma {:induction false} LagAfter(s: State, rows: seq<Row>, env: Env, served: nat, key: Key)
    requires served <= |Order(s, rows)|
    ensures LagOf(Saved(s, rows, env, served), key) ==
            if key in Order(s, rows)[..served] then (OwedInOrderOf(s, rows, key, served); TurnOf(s, rows, env, key).kept)
            else LagOf(s, key)
  {
    hide Owed, Serve, Order, TurnOf;
    if served > 0 {
      var order := Order(s, rows);
      LagAfter(s, rows, env, served - 1, key);
      assert order[..served] == order[..served - 1] + [order[served - 1]];
    }
  }

  lemma OwedInOrderOf(s: State, rows: seq<Row>, key: Key, served: nat)
    requires served <= |Order(s, rows)| && key in Order(s, rows)[..served]
    ensures Owed(s, rows, key) != []
  {
    assert key in Order(s, rows);
  }

  lemma SavedKeepsNoEarlier(s: State, rows: seq<Row>, env: Env, served: nat, key: Key)
    requires served <= |Order(s, rows)| && key in Saved(s, rows, env, served).lagging
    ensures NoLater(Cursor(s, key), Cursor(Saved(s, rows, env, served), key))
  {
    LagAfter(s, rows, env, served, key);
    if key in Order(s, rows)[..served] {
      OwedInOrderOf(s, rows, key, served);
      SavedCursor(s, rows, env, served, key);
      ToldToKey(s, rows, env, key);
      hide Order, Owed, Serve, LaggingAfter, TurnOf;
    }
  }

  lemma SavedCursor(s: State, rows: seq<Row>, env: Env, served: nat, key: Key)
    requires served <= |Order(s, rows)| && Owed(s, rows, key) != []
    requires LagOf(Saved(s, rows, env, served), key) == TurnOf(s, rows, env, key).kept
    requires key in Saved(s, rows, env, served).lagging
    ensures Cursor(Saved(s, rows, env, served), key) == Reached(TurnOf(s, rows, env, key).told, Cursor(s, key))
  {
    TurnShape(env, LagOf(s, key), s.head, Owed(s, rows, key));
    hide Order, Owed, Serve, LaggingAfter;
  }

  lemma StepAdvances(s: State, step: Step, key: Key)
    requires InOrder(step.rows)
    ensures NoLater(s.head, StateOf(s, step).head)
    ensures key in StateOf(s, step).lagging ==> NoLater(Cursor(s, key), Cursor(StateOf(s, step), key))
  {
    hide Order, Owed, Serve, Next, Saved, SavedBy, LaggingAfter, NextHead, TurnOf;
    if step.Completed? {
      HeadOfNext(s, step.rows, step.env);
      NextHeadCovers(s, step.rows);
      if key in StateOf(s, step).lagging {
        KeptCursor(s, step.rows, step.env, key);
      }
    } else {
      HeadOfSaved(s, step.rows, step.env, SavedBy(s, step));
      if key in StateOf(s, step).lagging {
        SavedKeepsNoEarlier(s, step.rows, step.env, SavedBy(s, step), key);
      }
    }
  }

  lemma HeadOfSaved(s: State, rows: seq<Row>, env: Env, served: nat)
    requires served <= |Order(s, rows)|
    ensures Saved(s, rows, env, served).head == s.head
  {}

  /**
   Over any step, from any state: a person's effective cursor moves back exactly when the step keeps
   nothing for them and leaves the head before where they were.
   */
  lemma {:induction false} CursorMovesBackExactly(s: State, step: Step, key: Key)
    requires InOrder(step.rows)
    ensures var next := StateOf(s, step);
            !NoLater(Cursor(s, key), Cursor(next, key)) <==>
              key !in next.lagging && !NoLater(Cursor(s, key), next.head)
  {
    hide StateOf;
    StepAdvances(s, step, key);
  }

  // --- What can be told again -----------------------------------------------------------------

  predicate SameItem(a: Row, b: Row) {
    a.key == b.key && a.item == b.item
  }

  /** An item arises once: its instant is a fact about the item. */
  ghost predicate Dated(arose: Item -> Instant, rows: seq<Row>) {
    forall i :: 0 <= i < |rows| ==> rows[i].at == arose(rows[i].item)
  }

  /** What the query may return: rows it reaches, in order, one per item and person. */
  ghost predicate Fetched(arose: Item -> Instant, s: State, rows: seq<Row>) {
    InOrder(rows) && Dated(arose, rows) && forall i :: 0 <= i < |rows| ==> InReach(s, rows[i])
  }

  /** After the head or after a lagging cursor: what a query from the earliest of them may return. */
  predicate InReach(s: State, r: Row) {
    After(r, s.head) || exists k :: k in s.lagging && After(r, s.lagging[k].cursor)
  }

  /** Every step's rows are what its query may return. */
  ghost predicate Proper(arose: Item -> Instant, start: State, steps: seq<Step>) {
    steps == [] || (var init, last := steps[..|steps| - 1], steps[|steps| - 1];
                    Proper(arose, start, init) && Fetched(arose, StateAfter(start, init), last.rows))
  }

  /** An item is settled for good: neither after the head nor after its person's cursor. */
  predicate IsSettled(s: State, r: Row) {
    !After(r, s.head) && !After(r, Cursor(s, r.key))
  }

  lemma SettledStays(s: State, step: Step, r: Row)
    requires InOrder(step.rows) && IsSettled(s, r)
    ensures IsSettled(StateOf(s, step), r)
  {
    hide StateOf;
    StepAdvances(s, step, r.key);
  }

  ghost predicate Tells(log: seq<Row>, r: Row) {
    exists q :: q in log && SameItem(q, r)
  }

  lemma SettledUntold(arose: Item -> Instant, s: State, step: Step, r: Row)
    requires Dated(arose, step.rows) && r.at == arose(r.item) && IsSettled(s, r)
    ensures !Tells(LogOf(s, step), r)
  {
    hide LogOf;
    if Tells(LogOf(s, step), r) {
      var q :| q in LogOf(s, step) && SameItem(q, r);
      ToldWasOwed(s, step, q);
    }
  }

  lemma TellsConcat(a: seq<Row>, b: seq<Row>, r: Row)
    ensures Tells(a + b, r) <==> Tells(a, r) || Tells(b, r)
  {
    if Tells(a, r) {
      var q :| q in a && SameItem(q, r);
      assert q in a + b;
    }
    if Tells(b, r) {
      var q :| q in b && SameItem(q, r);
      assert q in a + b;
    }
  }

  /** A settled item is never told again, whatever runs, fails or crashes. */
  lemma {:induction false} SettledForever(arose: Item -> Instant, s: State, steps: seq<Step>, r: Row)
    requires Proper(arose, s, steps) && r.at == arose(r.item) && IsSettled(s, r)
    ensures IsSettled(StateAfter(s, steps), r) && !Tells(LogOver(s, steps), r)
  {
    hide IsSettled, StateOf, LogOf, Tells, InReach;
    if steps != [] {
      var init, last := steps[..|steps| - 1], steps[|steps| - 1];
      SettledForever(arose, s, init, r);
      SettledStays(StateAfter(s, init), last, r);
      SettledUntold(arose, StateAfter(s, init), last, r);
      TellsConcat(LogOver(s, init), LogOf(StateAfter(s, init), last), r);
    } else {
      NothingTold(r);
    }
  }

  lemma NothingTold(r: Row)
    ensures !Tells([], r)
  {}

  /** Some runs to come tell the item (again). */
  ghost predicate Repeatable(arose: Item -> Instant, s: State, r: Row) {
    exists steps :: Proper(arose, s, steps) && Tells(LogOver(s, steps), r)
  }

  /** A run in which the alert path reaches `person` and works. */
  function Alerting(person: Text): Env {
    Env(Some(person), None, false, (key: Key, i: nat) => true, (key: Key) => true)
  }

  lemma OneRowTurn(s: State, r: Row)
    requires After(r, Cursor(s, r.key))
    ensures Order(s, [r]) == [r.key]
    ensures Owed(s, [r], r.key) != [] && TurnOf(s, [r], Alerting(r.key.person), r.key) == Turn([r], false, None)
  {
    assert [r][..0] == [];
    assert Owed(s, [r], r.key) == [] + [r];
    assert Order(s, [r]) == [] + [r.key];
  }

  lemma OneRowSaved(s: State, r: Row)
    requires After(r, Cursor(s, r.key))
    ensures Order(s, [r]) == [r.key]
    ensures LogAfter(s, [r], Alerting(r.key.person), 1) == [r]
    ensures LaggingAfter(s, [r], Alerting(r.key.person), 1) == s.lagging - {r.key}
  {
    OneRowTurn(s, r);
    hide Owed, Order, TurnOf, After, Cursor, Alerting;
    var env := Alerting(r.key.person);
    assert LogAfter(s, [r], env, 0) == [] && LaggingAfter(s, [r], env, 0) == s.lagging;
    ServeStep(s, [r], env, 0);
    hide LogAfter, LaggingAfter;
  }

  lemma OneRowTold(s: State, r: Row)
    requires After(r, Cursor(s, r.key))
    ensures LogOf(s, Completed([r], Alerting(r.key.person))) == [r]
  {
    OneRowSaved(s, r);
    hide Owed, Order, TurnOf, LogAfter, LaggingAfter, After, Cursor, Alerting, Next;
  }

  lemma OneRowCrashed(s: State, r: Row, step: Step)
    requires After(r, Cursor(s, r.key)) && step == Crashed([r], Alerting(r.key.person), 1)
    ensures LogOf(s, step) == [r]
    ensures StateOf(s, step) == State(s.head, s.lagging - {r.key})
  {
    OneRowSaved(s, r);
    hide Owed, Order, TurnOf, LogAfter, LaggingAfter, After, Cursor, Alerting, Next;
    assert SavedBy(s, step) == 1;
    hide SavedBy;
  }

  /** A run that fetches nothing drops every lagging entry and keeps the head. */
  lemma EmptyRun(s: State, env: Env)
    ensures StateOf(s, Completed([], env)) == State(s.head, map[])
  {
    assert Order(s, []) == [];
  }

  lemma OneStep(s: State, step: Step)
    ensures StateAfter(s, [step]) == StateOf(s, step) && LogOver(s, [step]) == LogOf(s, step)
  {
    assert [step][..0] == [];
    assert LogOver(s, []) == [];
  }

  lemma TwoSteps(s: State, first: Step, second: Step)
    ensures LogOver(s, [first, second]) == LogOf(s, first) + LogOf(StateOf(s, first), second)
    ensures StateAfter(s, [first, second]) == StateOf(StateOf(s, first), second)
  {
    hide StateOf, LogOf;
    OneStep(s, first);
    assert [first, second][..1] == [first];
  }

  lemma OwedIsRepeatable(arose: Item -> Instant, s: State, r: Row)
    requires r.at == arose(r.item) && After(r, Cursor(s, r.key))
    ensures Repeatable(arose, s, r)
  {
    hide LogOf, StateOf;
    var step := Completed([r], Alerting(r.key.person));
    OneRowTold(s, r);
    OneStep(s, step);
    assert SameItem(LogOver(s, [step])[0], r);
    assert [step][..0] == [];
    assert Proper(arose, s, [step]);
  }

  lemma PastHeadIsRepeatable(arose: Item -> Instant, s: State, r: Row)
    requires r.at == arose(r.item) && After(r, s.head)
    ensures Repeatable(arose, s, r)
  {
    hide LogOf, StateOf;
    var env := Alerting(r.key.person);
    var steps := [Completed([], env), Completed([r], env)];
    EmptyRun(s, env);
    OneRowTold(State(s.head, map[]), r);
    TwoSteps(s, steps[0], steps[1]);
    OneStep(s, steps[0]);
    var log := LogOver(s, steps);
    assert log[|log| - 1] == r && SameItem(log[|log| - 1], r);
    assert steps[..1] == [steps[0]] && steps[..1][..0] == [];
    assert Proper(arose, s, steps[..1]);
    assert Proper(arose, s, steps);
  }

  /** An item can be told by some runs to come exactly when it is not settled. */
  lemma {:induction false} RepeatableExactly(arose: Item -> Instant, s: State, r: Row)
    requires r.at == arose(r.item)
    ensures Repeatable(arose, s, r) <==> !IsSettled(s, r)
  {
    hide Proper, LogOver, Tells, After;
    if After(r, Cursor(s, r.key)) {
      OwedIsRepeatable(arose, s, r);
    } else if After(r, s.head) {
      PastHeadIsRepeatable(arose, s, r);
    } else if Repeatable(arose, s, r) {
      var steps :| Proper(arose, s, steps) && Tells(LogOver(s, steps), r);
      SettledForever(arose, s, steps, r);
    }
  }

  /** The step leaves a told item settled: it completed, or had saved the person and the item was not past the head. */
  predicate Settles(s: State, step: Step, r: Row) {
    step.Completed? || (r in LogAfter(s, step.rows, step.env, SavedBy(s, step)) && !After(r, s.head))
  }

  /** A cursor kept for a person is at or after everything their turn told them. */
  lemma SavedCovers(s: State, rows: seq<Row>, env: Env, served: nat, r: Row)
    requires InOrder(rows) && served <= |Order(s, rows)|
    requires r.key in Order(s, rows)[..served] && r.key in Saved(s, rows, env, served).lagging
    requires Owed(s, rows, r.key) != [] && r in TurnOf(s, rows, env, r.key).told
    ensures !After(r, Cursor(Saved(s, rows, env, served), r.key))
  {
    LagAfter(s, rows, env, served, r.key);
    SavedCursor(s, rows, env, served, r.key);
    hide Order, Serve, LaggingAfter, TurnOf, Saved;
    ToldToKey(s, rows, env, r.key);
    hide Owed;
    OwedInOrder(s, rows, r.key);
    hide InOrder, After;
    ToldBounds(Owed(s, rows, r.key), TurnOf(s, rows, env, r.key).told, r);
  }

  lemma SavedLeavesSettled(s: State, rows: seq<Row>, env: Env, served: nat, r: Row)
    requires InOrder(rows) && served <= |Order(s, rows)| && r in LogAfter(s, rows, env, served)
    ensures IsSettled(Saved(s, rows, env, served), r) <==> !After(r, s.head)
  {
    hide Order, Owed, Serve, LaggingAfter, LogAfter, TurnOf, InOrder;
    LogMember(s, rows, env, served, r);
    HeadOfSaved(s, rows, env, served);
    hide Saved;
    if r.key in Saved(s, rows, env, served).lagging {
      SavedCovers(s, rows, env, served, r);
    }
  }

  /** What an interrupted turn sent is owed as it was before. */
  lemma InterruptedUnsettled(s: State, step: Step, r: Row)
    requires r in Interrupted(s, step)
    ensures !step.Completed? && r !in LogAfter(s, step.rows, step.env, SavedBy(s, step))
    ensures After(r, Cursor(StateOf(s, step), r.key))
  {
    InterruptedTurn(s, step);
    hide Interrupted, SavedBy;
    var order, key := Order(s, step.rows), Order(s, step.rows)[step.served];
    PrefixMember(TurnOf(s, step.rows, step.env, key).told, Interrupted(s, step), r);
    ToldToKey(s, step.rows, step.env, key);
    LogMember(s, step.rows, step.env, step.served, r);
    LagAfter(s, step.rows, step.env, step.served, key);
    hide Order, Owed, Serve, LaggingAfter, LogAfter, TurnOf;
  }

  lemma CompletedSettles(s: State, step: Step, r: Row)
    requires InOrder(step.rows) && step.Completed? && r in LogOf(s, step)
    ensures IsSettled(StateOf(s, step), r)
  {
    ToldWasOwed(s, step, r);
    CompletedLog(s, step);
    HeadOfNext(s, step.rows, step.env);
    NextHeadCovers(s, step.rows);
    hide LogOf, Order, Owed, Serve, Next, NextHead, Log;
    ToldIsBehind(s, step.rows, step.env, r);
  }

  lemma ToldThenSettled(s: State, step: Step, r: Row)
    requires InOrder(step.rows) && r in LogOf(s, step)
    ensures IsSettled(StateOf(s, step), r) <==> Settles(s, step, r)
  {
    hide Order, Owed, Serve, Next, Saved, LogAfter, SavedBy, InOrder, Interrupted;
    if step.Completed? {
      CompletedSettles(s, step, r);
    } else if r in LogAfter(s, step.rows, step.env, SavedBy(s, step)) {
      SavedLeavesSettled(s, step.rows, step.env, SavedBy(s, step), r);
    } else {
      InterruptedUnsettled(s, step, r);
    }
  }

  /**
   What was told in a step can be told again by runs to come exactly when the step crashed, and had not
   saved the person or the item was past the head the step began with.
   */
  lemma {:induction false} ToldAgainExactly(arose: Item -> Instant, s: State, step: Step, r: Row)
    requires Fetched(arose, s, step.rows) && r in LogOf(s, step)
    ensures Repeatable(arose, StateOf(s, step), r) <==> !Settles(s, step, r)
  {
    hide LogOf, StateOf, IsSettled, Settles, Repeatable, InReach;
    ToldWasOwed(s, step, r);
    ToldThenSettled(s, step, r);
    RepeatableExactly(arose, StateOf(s, step), r);
  }

  /** What the very next query owes again: all an interrupted turn sent, and what no cursor covers past the old head. */
  lemma {:induction false} OwedAgainExactly(s: State, step: Step, r: Row)
    requires InOrder(step.rows) && r in LogOf(s, step)
    ensures After(r, Cursor(StateOf(s, step), r.key)) <==>
            && !step.Completed?
            && (r in Interrupted(s, step) || (r.key !in StateOf(s, step).lagging && After(r, s.head)))
  {
    hide Order, Owed, Serve, Next, Saved, LogAfter, SavedBy, InOrder, Interrupted;
    if step.Completed? {
      CompletedSettles(s, step, r);
    } else if r in Interrupted(s, step) {
      InterruptedUnsettled(s, step, r);
    } else {
      SavedOwedAgain(s, step.rows, step.env, SavedBy(s, step), r);
    }
  }

  lemma SavedOwedAgain(s: State, rows: seq<Row>, env: Env, served: nat, r: Row)
    requires InOrder(rows) && served <= |Order(s, rows)| && r in LogAfter(s, rows, env, served)
    ensures After(r, Cursor(Saved(s, rows, env, served), r.key)) <==>
            r.key !in Saved(s, rows, env, served).lagging && After(r, s.head)
  {
    hide Order, Owed, Serve, LaggingAfter, LogAfter, TurnOf, InOrder;
    LogMember(s, rows, env, served, r);
    HeadOfSaved(s, rows, env, served);
    hide Saved;
    if r.key in Saved(s, rows, env, served).lagging {
      SavedCovers(s, rows, env, served, r);
    }
  }

  /** A delivered item owed again: its person was served in full, so the save before the crash kept no cursor. */
  lemma CrashRepeatsWitness(r: Row)
    requires r.item > 0
    ensures var s, env := State(Boundary(r.at, None), map[]), Alerting(r.key.person);
            && LogOf(s, Crashed([r], env, 1)) == [r] == LogOf(s, Completed([r], env))
            && After(r, Cursor(StateOf(s, Crashed([r], env, 1)), r.key))
            && !After(r, Cursor(StateOf(s, Completed([r], env)), r.key))
  {
    var s, env := State(Boundary(r.at, None), map[]), Alerting(r.key.person);
    OneRowTold(s, r);
    OneRowCrashed(s, r, Crashed([r], env, 1));
    CompletedSettles(s, Completed([r], env), r);
    hide StateOf, LogOf, Alerting;
  }

  // --- Nothing is passed over -----------------------------------------------------------------

  /** An item still to come: after the head and after its person's cursor. */
  predicate Ahead(s: State, r: Row) {
    After(r, s.head) && After(r, Cursor(s, r.key))
  }

  /** The item is after everything the run fetched. */
  ghost predicate Beyond(rows: seq<Row>, r: Row) {
    forall i :: 0 <= i < |rows| ==> After(r, BoundaryOf(rows[i]))
  }

  lemma KeptIsBefore(s: State, rows: seq<Row>, env: Env, key: Key, r: Row)
    requires Owed(s, rows, key) != [] && After(r, Cursor(s, key)) && Beyond(rows, r)
    ensures After(r, Reached(TurnOf(s, rows, env, key).told, Cursor(s, key)))
  {
    ToldToKey(s, rows, env, key);
    hide Owed, TurnOf, After;
    var told := TurnOf(s, rows, env, key).told;
    if told != [] {
      var last := told[|told| - 1];
      assert last in rows;
      var i :| 0 <= i < |rows| && rows[i] == last;
    }
  }

  /** A run or a crash leaves an item after everything it fetched still to come. */
  lemma {:induction false} StepLeavesAhead(s: State, step: Step, r: Row)
    requires InOrder(step.rows) && Beyond(step.rows, r) && Ahead(s, r)
    ensures Ahead(StateOf(s, step), r)
  {
    var rows, env, key, next := step.rows, step.env, r.key, StateOf(s, step);
    hide Order, Owed, Serve, Next, Saved, SavedBy, LaggingAfter, TurnOf;
    if step.Completed? {
      HeadIsLatest(s, rows, env);
      if key in next.lagging {
        KeptCursor(s, rows, env, key);
        KeptIsBefore(s, rows, env, key, r);
      }
    } else {
      HeadOfSaved(s, rows, env, SavedBy(s, step));
      if key in next.lagging {
        LagAfter(s, rows, env, SavedBy(s, step), key);
        if key in Order(s, rows)[..SavedBy(s, step)] {
          OwedInOrderOf(s, rows, key, SavedBy(s, step));
          SavedCursor(s, rows, env, SavedBy(s, step), key);
          KeptIsBefore(s, rows, env, key, r);
        }
      }
    }
  }

  /**
   Nothing is passed over: whatever runs and crashes, an item after everything they fetched is still to come,
   so a run that fetches it owes it to its person.
   */
  lemma {:induction false} NothingPassedOver(start: State, steps: seq<Step>, r: Row, rows: seq<Row>)
    requires forall i :: 0 <= i < |steps| ==> InOrder(steps[i].rows) && Beyond(steps[i].rows, r)
    requires Ahead(start, r)
    ensures Ahead(StateAfter(start, steps), r)
    ensures r in rows ==> r in Owed(StateAfter(start, steps), rows, r.key)
  {
    hide StateOf, InOrder, Beyond, Owed, After;
    if steps != [] {
      var init, last := steps[..|steps| - 1], steps[|steps| - 1];
      NothingPassedOver(start, init, r, rows);
      StepLeavesAhead(StateAfter(start, init), last, r);
    }
    OwedComplete(StateAfter(start, steps), rows, r);
  }

  // --- At most once ---------------------------------------------------------------------------

  /** Nobody is told of one item twice. */
  ghost predicate Once(log: seq<Row>) {
    forall i, j :: 0 <= i < j < |log| ==> !SameItem(log[i], log[j])
  }

  /** No item told in `a` is told to the same person in `b`. */
  ghost predicate Apart(a: seq<Row>, b: seq<Row>) {
    forall r, q :: r in a && q in b ==> !SameItem(r, q)
  }

  lemma OnceConcat(a: seq<Row>, b: seq<Row>)
    requires Once(a) && Once(b) && Apart(a, b)
    ensures Once(a + b)
  {
    var c := a + b;
    forall i, j | 0 <= i < j < |c| ensures !SameItem(c[i], c[j]) {
      if i < |a| && j >= |a| {
        assert c[i] in a && c[j] in b;
      }
    }
  }

  lemma PrefixInOrder(items: seq<Row>, told: seq<Row>)
    requires InOrder(items) && told <= items
    ensures Once(told)
  {
    assert forall i :: 0 <= i < |told| ==> told[i] == items[i];
  }

  lemma ServedBefore(s: State, rows: seq<Row>, env: Env, served: nat, r: Row)
    requires served < |Order(s, rows)| && r in LogAfter(s, rows, env, served)
    ensures r.key != Order(s, rows)[served]
  {
    LogMember(s, rows, env, served, r);
    hide Order, Owed, Serve, LogAfter;
    var order := Order(s, rows);
    var i :| 0 <= i < served && order[..served][i] == r.key;
    assert order[i] == r.key;
  }

  /** A part of one turn, after the turns before it: nobody is told twice. */
  lemma TurnOnce(s: State, rows: seq<Row>, env: Env, served: nat, part: seq<Row>)
    requires InOrder(rows) && served < |Order(s, rows)| && Once(LogAfter(s, rows, env, served))
    requires part <= TurnOf(s, rows, env, Order(s, rows)[served]).told
    ensures Once(LogAfter(s, rows, env, served) + part)
  {
    hide Order, Owed, Serve, LogAfter;
    var key := Order(s, rows)[served];
    OwedInOrder(s, rows, key);
    ToldToKey(s, rows, env, key);
    var told, items := TurnOf(s, rows, env, key).told, Owed(s, rows, key);
    hide TurnOf;
    assert part <= items by {
      assert forall i :: 0 <= i < |part| ==> part[i] == told[i] == items[i];
    }
    PrefixInOrder(items, part);
    forall r, q | r in LogAfter(s, rows, env, served) && q in part ensures !SameItem(r, q) {
      ServedBefore(s, rows, env, served, r);
      PrefixMember(told, part, q);
    }
    OnceConcat(LogAfter(s, rows, env, served), part);
  }

  lemma {:induction false} RunOnce(s: State, rows: seq<Row>, env: Env, served: nat)
    requires InOrder(rows) && served <= |Order(s, rows)|
    ensures Once(LogAfter(s, rows, env, served))
  {
    hide Order, Owed, Serve, TurnOf, InOrder;
    if served > 0 {
      RunOnce(s, rows, env, served - 1);
      TurnOnce(s, rows, env, served - 1, TurnOf(s, rows, env, Order(s, rows)[served - 1]).told);
      ServeStep(s, rows, env, served - 1);
    }
  }

  lemma StepOnce(s: State, step: Step)
    requires InOrder(step.rows)
    ensures Once(LogOf(s, step))
  {
    hide Order, Owed, Serve, LogAfter, SavedBy, Interrupted, InOrder;
    RunOnce(s, step.rows, step.env, SavedBy(s, step));
    if Interrupted(s, step) != [] {
      InterruptedTurn(s, step);
      TurnOnce(s, step.rows, step.env, step.served, Interrupted(s, step));
    } else {
      var log := LogAfter(s, step.rows, step.env, SavedBy(s, step));
      assert log + [] == log;
    }
  }

  lemma ProperPrefix(arose: Item -> Instant, start: State, steps: seq<Step>, n: nat)
    requires Proper(arose, start, steps) && n <= |steps|
    ensures Proper(arose, start, steps[..n])
    ensures n < |steps| ==> Fetched(arose, StateAfter(start, steps[..n]), steps[n].rows)
  {
    hide Fetched, StateOf;
    if n == |steps| {
      assert steps[..n] == steps;
    } else {
      var init := steps[..|steps| - 1];
      ProperPrefix(arose, start, init, n);
      assert init[..n] == steps[..n];
      assert n < |init| ==> init[n] == steps[n];
    }
  }

  /** Once told by a step that settles it, an item stays settled. */
  lemma {:induction false} SettledSince(arose: Item -> Instant, start: State, steps: seq<Step>, a: nat, r: Row)
    requires Proper(arose, start, steps) && a < |steps|
    requires r in LogOf(StateAfter(start, steps[..a]), steps[a])
    requires Settles(StateAfter(start, steps[..a]), steps[a], r)
    ensures IsSettled(StateAfter(start, steps), r)
  {
    hide LogOf, StateOf, IsSettled, Settles, InReach;
    var init, last := steps[..|steps| - 1], steps[|steps| - 1];
    var s := StateAfter(start, init);
    if a == |init| {
      ToldThenSettled(s, last, r);
    } else {
      assert init[..a] == steps[..a] && init[a] == steps[a];
      SettledSince(arose, start, init, a, r);
      SettledStays(s, last, r);
    }
  }

  /** Over any sequence of runs and crashes, an item is told twice only after a step that did not settle it. */
  lemma {:induction false} TwiceNeedsUnsettled(arose: Item -> Instant, start: State, steps: seq<Step>, a: nat, b: nat, r: Row)
    requires Proper(arose, start, steps) && a < b < |steps|
    requires r in LogOf(StateAfter(start, steps[..a]), steps[a])
    requires Tells(LogOf(StateAfter(start, steps[..b]), steps[b]), r)
    ensures !Settles(StateAfter(start, steps[..a]), steps[a], r)
  {
    hide LogOf, StateOf, IsSettled, Settles, InReach, Tells;
    if Settles(StateAfter(start, steps[..a]), steps[a], r) {
      var before := steps[..b];
      assert before[..a] == steps[..a] && before[a] == steps[a];
      ProperPrefix(arose, start, steps, b);
      ProperPrefix(arose, start, steps, a);
      SettledSince(arose, start, before, a, r);
      ToldWasOwed(StateAfter(start, steps[..a]), steps[a], r);
      SettledUntold(arose, StateAfter(start, before), steps[b], r);
    }
  }

  lemma {:induction false} LogMembers(start: State, steps: seq<Step>, r: Row) returns (a: nat)
    requires r in LogOver(start, steps)
    ensures a < |steps| && r in LogOf(StateAfter(start, steps[..a]), steps[a])
  {
    hide LogOf, StateOf;
    var init := steps[..|steps| - 1];
    if r in LogOver(start, init) {
      a := LogMembers(start, init, r);
      assert init[..a] == steps[..a] && init[a] == steps[a];
    } else {
      a := |init|;
    }
  }

  /**
   Over any sequence of completed runs, from any state a save part-way may have left, whatever is fetched,
   whatever fails and whatever destinations change, nobody is told of one item twice.
   */
  lemma {:induction false} AtMostOnce(arose: Item -> Instant, start: State, steps: seq<Step>)
    requires Proper(arose, start, steps)
    requires forall i :: 0 <= i < |steps| ==> steps[i].Completed?
    ensures Once(LogOver(start, steps))
  {
    hide LogOf, StateOf, InReach;
    if steps != [] {
      var init, last := steps[..|steps| - 1], steps[|steps| - 1];
      var s := StateAfter(start, init);
      AtMostOnce(arose, start, init);
      StepOnce(s, last);
      forall r, q | r in LogOver(start, init) && q in LogOf(s, last) ensures !SameItem(r, q) {
        if SameItem(r, q) {
          assert Tells(LogOf(s, last), r);
          var a := LogMembers(start, init, r);
          assert init[..a] == steps[..a] && init[a] == steps[a];
          TwiceNeedsUnsettled(arose, start, steps, a, |init|, r);
        }
      }
      OnceConcat(LogOver(start, init), LogOf(s, last));
    }
  }

  /** Why one row per item and person matters: a repeated row is pushed twice in one run. */
  lemma DuplicateRowToldTwice(env: Env, row: Row)
    requires env.pushPerson == Some(row.key.person) && env.opener.None? && env.alertSucceeds(row.key)
    requires row.item > 0
    ensures var s := State(Boundary(row.at, None), map[]);
            Log(s, [row, row], env) == [row, row]
  {
    var s := State(Boundary(row.at, None), map[]);
    var rows := [row, row];
    assert rows[..1] == [row] && rows[..1][..0] == [];
    assert Owed(s, rows[..1], row.key) == [] + [row];
    assert Owed(s, rows, row.key) == [row, row];
    assert Order(s, rows[..1]) == [row.key];
    assert Order(s, rows) == [row.key];
    assert LogAfter(s, rows, env, 0) == [];
    assert Log(s, rows, env) == [] + [row, row];
  }

  // --- A repeat two runs after the crash ------------------------------------------------------

  /** A run with a destination that takes two pushes and fails the third. */
  const FAILS_THIRD: Env :=
    Env(None, Some((sealed: Sealed, key: Key) => Some(sealed)), true, (key: Key, i: nat) => i < 2, (key: Key) => false)

  function RowAt(key: Key, n: nat): Row {
    Row(key, n, n, Some(0))
  }

  function NumberedOnce(n: Item): Instant {
    n
  }

  const NOTHING_SEEN: State := State(Boundary(0, None), map[])

  function ThreeRows(key: Key): seq<Row> {
    [RowAt(key, 1), RowAt(key, 2), RowAt(key, 3)]
  }

  lemma ThreeOwed(key: Key)
    ensures Owed(NOTHING_SEEN, ThreeRows(key), key) == ThreeRows(key)
  {
    var s, rows := NOTHING_SEEN, ThreeRows(key);
    assert rows[..2] == [RowAt(key, 1), RowAt(key, 2)] && rows[..2][..1] == [RowAt(key, 1)] && rows[..2][..1][..0] == [];
    assert Owed(s, rows[..2][..1], key) == [] + [RowAt(key, 1)];
    assert Owed(s, rows[..2], key) == [RowAt(key, 1), RowAt(key, 2)];
  }

  lemma ThreeOrder(key: Key)
    ensures Order(NOTHING_SEEN, ThreeRows(key)) == [key]
  {
    hide Owed;
    var s, rows := NOTHING_SEEN, ThreeRows(key);
    assert rows[..2] == [RowAt(key, 1), RowAt(key, 2)] && rows[..2][..1] == [RowAt(key, 1)] && rows[..2][..1][..0] == [];
    assert Order(s, rows[..2][..1]) == [key];
    assert Order(s, rows[..2]) == [key];
  }

  lemma TwoOfThree(key: Key)
    ensures var rows := ThreeRows(key);
            && Owed(NOTHING_SEEN, rows, key) != []
            && TurnOf(NOTHING_SEEN, rows, FAILS_THIRD, key) == Turn(rows[..2], true, Some(Lag(BoundaryOf(rows[1]), 1)))
  {
    var env := FAILS_THIRD;
    ThreeOwed(key);
    hide Owed, Order;
    assert SentFrom(env, key, 3, 0) == SentFrom(env, key, 3, 1) == SentFrom(env, key, 3, 2) == 2;
  }

  /** Two items told, the third failed, and a crash after the save: the cursor is kept, the head is old. */
  lemma CrashKeepsCursor(key: Key)
    ensures var rows := ThreeRows(key);
            && LogOf(NOTHING_SEEN, Crashed(rows, FAILS_THIRD, 1)) == [RowAt(key, 1), RowAt(key, 2)]
            && StateOf(NOTHING_SEEN, Crashed(rows, FAILS_THIRD, 1))
               == State(NOTHING_SEEN.head, map[key := Lag(BoundaryOf(RowAt(key, 2)), 1)])
  {
    var s, env, rows := NOTHING_SEEN, FAILS_THIRD, ThreeRows(key);
    ThreeOrder(key);
    TwoOfThree(key);
    hide Owed, Order, TurnOf;
    assert LogAfter(s, rows, env, 0) == [];
    assert LogAfter(s, rows, env, 1) == [] + rows[..2];
    assert rows[..2] == [RowAt(key, 1), RowAt(key, 2)];
    assert LaggingAfter(s, rows, env, 0) == map[];
  }

  /** A completed run that fetches only the first item: nothing is owed, and the entry is dropped. */
  lemma CursorDropped(key: Key, env: Env)
    ensures var s := State(NOTHING_SEEN.head, map[key := Lag(BoundaryOf(RowAt(key, 2)), 1)]);
            && LogOf(s, Completed([RowAt(key, 1)], env)) == []
            && StateOf(s, Completed([RowAt(key, 1)], env)) == State(BoundaryOf(RowAt(key, 1)), map[])
  {
    var s := State(NOTHING_SEEN.head, map[key := Lag(BoundaryOf(RowAt(key, 2)), 1)]);
    var rows := [RowAt(key, 1)];
    assert rows[..0] == [];
    assert Order(s, rows) == [];
  }

  lemma ThreeSteps(arose: Item -> Instant, s: State, a: Step, b: Step, c: Step)
    requires Fetched(arose, s, a.rows) && Fetched(arose, StateOf(s, a), b.rows)
    requires Fetched(arose, StateOf(StateOf(s, a), b), c.rows)
    ensures Proper(arose, s, [a, b, c])
    ensures LogOver(s, [a, b, c]) == LogOf(s, a) + LogOf(StateOf(s, a), b) + LogOf(StateOf(StateOf(s, a), b), c)
  {
    hide LogOf, StateOf, Fetched;
    var steps := [a, b, c];
    TwoSteps(s, a, b);
    OneStep(s, a);
    assert steps[..2] == [a, b] && [a, b][..1] == [a] && [a][..0] == [];
    assert Proper(arose, s, [a]);
    assert Proper(arose, s, [a, b]);
  }

  lemma SecondNotOwed(key: Key)
    ensures !After(RowAt(key, 2), Cursor(State(NOTHING_SEEN.head, map[key := Lag(BoundaryOf(RowAt(key, 2)), 1)]), key))
  {}

  lemma SecondFetched(key: Key)
    ensures Fetched(NumberedOnce, NOTHING_SEEN, ThreeRows(key))
    ensures Fetched(NumberedOnce, State(NOTHING_SEEN.head, map[key := Lag(BoundaryOf(RowAt(key, 2)), 1)]), [RowAt(key, 1)])
    ensures Fetched(NumberedOnce, State(BoundaryOf(RowAt(key, 1)), map[]), [RowAt(key, 2)])
  {}

  /**
   A repeat the query after the crash does not show: the crash kept the person's cursor at the second item,
   a completed run drops it with the head at the first, and the next completed run tells the second again.
   */
  lemma CrashRepeatsLater(key: Key)
    ensures var second, env := RowAt(key, 2), Alerting(key.person);
            var crash, third := Crashed(ThreeRows(key), FAILS_THIRD, 1), Completed([second], env);
            var steps := [crash, Completed([RowAt(key, 1)], env), third];
            && Proper(NumberedOnce, NOTHING_SEEN, steps)
            && second in LogOf(NOTHING_SEEN, crash) && !After(second, Cursor(StateOf(NOTHING_SEEN, crash), key))
            && LogOver(NOTHING_SEEN, steps) == [RowAt(key, 1), second, second]
  {
    var second, env := RowAt(key, 2), Alerting(key.person);
    var crash, next, third := Crashed(ThreeRows(key), FAILS_THIRD, 1), Completed([RowAt(key, 1)], env), Completed([second], env);
    CrashKeepsCursor(key);
    CursorDropped(key, env);
    OneRowTold(State(BoundaryOf(RowAt(key, 1)), map[]), second);
    SecondFetched(key);
    SecondNotOwed(key);
    hide *;
    ThreeSteps(NumberedOnce, NOTHING_SEEN, crash, next, third);
  }
}
