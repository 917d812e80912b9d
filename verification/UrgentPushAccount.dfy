/**
 What becomes of owed items (apps/notify/src/run.ts): nothing fetched is lost without a reason, starting
 the query where it starts hides nothing, and an item still returned is settled within twelve runs.
 */
module UrgentPushAccount {
  import opened Outcomes
  import opened UrgentPush
  import opened UrgentPushSafety
  import opened UrgentPushRuns

  // --- Nothing is lost without a reason -------------------------------------------------------

  datatype Account = Settled | Told | Retried | GivenUp | WithoutPush

  /** What became of a fetched row. */
  ghost function AccountOf(s: State, rows: seq<Row>, env: Env, r: Row): Account
    requires r in rows
  {
    OwedComplete(s, rows, r);
    if !After(r, Cursor(s, r.key)) then Settled
    else if r in TurnOf(s, rows, env, r.key).told then Told
    else if TurnOf(s, rows, env, r.key).kept.Some? then Retried
    else if TurnOf(s, rows, env, r.key).failed then GivenUp
    else WithoutPush
  }

  /**
   Every fetched row is accounted for: it was settled before, or is told now and never owed again, or
   stays after its person's kept cursor for the next query, or is given up on the twelfth failure in
   a row, or its person has no push path.
   */
  lemma {:induction false} EveryRowAccounted(s: State, rows: seq<Row>, env: Env, r: Row)
    requires InOrder(rows) && r in rows
    ensures var next, account := Next(s, rows, env), AccountOf(s, rows, env, r);
            && (account == Told <==> r in Log(s, rows, env))
            && (account == Told ==> !After(r, Cursor(next, r.key)))
            && (account == Retried ==>
                  && r.key in next.lagging && After(r, next.lagging[r.key].cursor)
                  && next.lagging[r.key].failures < MAX_DESTINATION_FAILURES)
            && (account == GivenUp ==>
                  && r.key !in next.lagging
                  && Failures(LagOf(s, r.key)) + 1 >= MAX_DESTINATION_FAILURES)
            && (account == WithoutPush ==> Owed(s, rows, r.key) != [] && PathFor(env, Owed(s, rows, r.key)) == NoPush)
  {
    OwedComplete(s, rows, r);
    LogExact(s, rows, env, r);
    if After(r, Cursor(s, r.key)) {
      NextLag(s, rows, env, r.key);
      var account := AccountOf(s, rows, env, r);
      if account == Told {
        ToldIsBehind(s, rows, env, r);
      } else if account == Retried {
        RetriedIsAhead(s, rows, env, r);
      }
    } else {
      SettledNotTold(s, rows, env, r);
    }
  }

  lemma SettledNotTold(s: State, rows: seq<Row>, env: Env, r: Row)
    requires !After(r, Cursor(s, r.key))
    ensures r !in Log(s, rows, env)
  {
    LogExact(s, rows, env, r);
    if Owed(s, rows, r.key) != [] {
      ToldToKey(s, rows, env, r.key);
    }
  }

  /** An owed row that was not told comes after the last one told. */
  lemma RetriedIsAhead(s: State, rows: seq<Row>, env: Env, r: Row)
    requires InOrder(rows) && r in Owed(s, rows, r.key)
    requires r !in TurnOf(s, rows, env, r.key).told
    requires TurnOf(s, rows, env, r.key).kept.Some?
    ensures r.key in Next(s, rows, env).lagging
    ensures After(r, Next(s, rows, env).lagging[r.key].cursor)
    ensures Next(s, rows, env).lagging[r.key].failures < MAX_DESTINATION_FAILURES
  {
    var key := r.key;
    NextLag(s, rows, env, key);
    KeptCursor(s, rows, env, key);
    OwedInOrder(s, rows, key);
    TurnShape(env, LagOf(s, key), s.head, Owed(s, rows, key));
    hide Next, Order, Owed, Serve;
    if TurnOf(s, rows, env, key).told != [] {
      ToldBounds(Owed(s, rows, key), TurnOf(s, rows, env, key).told, r);
    }
  }
  // --- Twelve failures in a row ---------------------------------------------------------------

  /** How many of the last steps that saved the person's turn, or dropped their entry, in a row failed and kept it. */
  function Streak(start: State, steps: seq<Step>, key: Key): nat {
    if steps == [] then 0
    else
      var init, last := steps[..|steps| - 1], steps[|steps| - 1];
      var s := StateAfter(start, init);
      if key in Order(s, last.rows)[..SavedBy(s, last)]
      then (OwedInOrderOf(s, last.rows, key, SavedBy(s, last));
            if TurnOf(s, last.rows, last.env, key).kept.Some? then 1 + Streak(start, init, key) else 0)
      else if last.Completed? then 0
      else Streak(start, init, key)
  }

  /** A person's entry after a step: their turn's when it was saved, none after a completed run without one. */
  lemma StepLag(s: State, step: Step, key: Key)
    ensures LagOf(StateOf(s, step), key) ==
            if key in Order(s, step.rows)[..SavedBy(s, step)]
            then (OwedInOrderOf(s, step.rows, key, SavedBy(s, step)); TurnOf(s, step.rows, step.env, key).kept)
            else if step.Completed? then None
            else LagOf(s, key)
  {
    var order := Order(s, step.rows);
    hide Owed, Serve, Next, Saved, TurnOf;
    if step.Completed? {
      NextLag(s, step.rows, step.env, key);
      assert order[..|order|] == order;
    } else {
      LagAfter(s, step.rows, step.env, SavedBy(s, step), key);
    }
  }

  /**
   Over runs and crashes a person's recorded failures are the saved turns in a row that failed for them, and
   never reach twelve.
   */
  lemma {:induction false} FailuresAreStreak(start: State, steps: seq<Step>, key: Key)
    requires start.lagging == map[]
    ensures var s := StateAfter(start, steps);
            && (key in s.lagging <==> Streak(start, steps, key) > 0)
            && (key in s.lagging ==> s.lagging[key].failures == Streak(start, steps, key))
            && Streak(start, steps, key) < MAX_DESTINATION_FAILURES
  {
    hide Order, Owed, Serve, StateOf, SavedBy;
    if steps != [] {
      var init, last := steps[..|steps| - 1], steps[|steps| - 1];
      var s := StateAfter(start, init);
      FailuresAreStreak(start, init, key);
      StepLag(s, last, key);
      if key in Order(s, last.rows)[..SavedBy(s, last)] {
        OwedInOrderOf(s, last.rows, key, SavedBy(s, last));
        TurnShape(last.env, LagOf(s, key), s.head, Owed(s, last.rows, key));
      }
    }
  }

  /** Items are given up only when eleven saved turns in a row have failed for their person, and this one too. */
  lemma {:induction false} GivenUpOnTwelfth(start: State, steps: seq<Step>, rows: seq<Row>, env: Env, r: Row)
    requires start.lagging == map[]
    requires InOrder(rows) && r in rows
    requires AccountOf(StateAfter(start, steps), rows, env, r) == GivenUp
    ensures Streak(start, steps, r.key) == MAX_DESTINATION_FAILURES - 1
  {
    FailuresAreStreak(start, steps, r.key);
    EveryRowAccounted(StateAfter(start, steps), rows, env, r);
  }

  // --- What the query's start hides -----------------------------------------------------------

  /** What the database returns from `since` on, of the rows it admits at that moment. */
  function Query(since: Boundary, admitted: seq<Row>): seq<Row> {
    if admitted == [] then []
    else
      var init, last := admitted[..|admitted| - 1], admitted[|admitted| - 1];
      if After(last, since) then Query(since, init) + [last] else Query(since, init)
  }

  /** A row comes after the query's start exactly when it is after the head or after a lagging cursor. */
  lemma SinceReaches(s: State, since: Boundary, r: Row)
    requires IsSince(s, since)
    ensures After(r, since) <==> InReach(s, r)
  {
    if InReach(s, r) && !After(r, s.head) {
      var k :| k in s.lagging && After(r, s.lagging[k].cursor);
      assert NoLater(since, Cursor(s, k));
    }
  }

  lemma {:induction false} QueryOwed(s: State, since: Boundary, admitted: seq<Row>, key: Key)
    requires NoLater(since, Cursor(s, key))
    ensures Owed(s, Query(since, admitted), key) == Owed(s, admitted, key)
  {
    if admitted != [] {
      var init, last := admitted[..|admitted| - 1], admitted[|admitted| - 1];
      QueryOwed(s, since, init, key);
      assert (Query(since, init) + [last])[..|Query(since, init)|] == Query(since, init);
    }
  }

  lemma {:induction false} QueryOrder(s: State, since: Boundary, admitted: seq<Row>)
    requires forall k :: NoLater(since, Cursor(s, k))
    ensures Order(s, Query(since, admitted)) == Order(s, admitted)
  {
    hide Owed;
    if admitted != [] {
      var init, last := admitted[..|admitted| - 1], admitted[|admitted| - 1];
      QueryOrder(s, since, init);
      assert NoLater(since, Cursor(s, last.key));
      assert (Query(since, init) + [last])[..|Query(since, init)|] == Query(since, init);
    }
  }

  ghost predicate OwedAlike(s: State, a: seq<Row>, b: seq<Row>) {
    Order(s, a) == Order(s, b) && forall k :: Owed(s, a, k) == Owed(s, b, k)
  }

  lemma TurnAlike(s: State, a: seq<Row>, b: seq<Row>, env: Env, key: Key)
    requires OwedAlike(s, a, b) && key in Order(s, a)
    ensures Owed(s, a, key) != [] && Owed(s, b, key) != [] && TurnOf(s, a, env, key) == TurnOf(s, b, env, key)
  {
    hide Owed, Order, Serve;
  }

  lemma OneMoreAlike(s: State, a: seq<Row>, b: seq<Row>, env: Env, i: nat)
    requires OwedAlike(s, a, b) && i < |Order(s, a)| && Order(s, a) == Order(s, b)
    requires LaggingAfter(s, a, env, i) == LaggingAfter(s, b, env, i) && LogAfter(s, a, env, i) == LogAfter(s, b, env, i)
    ensures LaggingAfter(s, a, env, i + 1) == LaggingAfter(s, b, env, i + 1)
    ensures LogAfter(s, a, env, i + 1) == LogAfter(s, b, env, i + 1)
  {
    hide *;
    TurnAlike(s, a, b, env, Order(s, a)[i]);
    ServeStep(s, a, env, i);
    ServeStep(s, b, env, i);
  }

  lemma NobodyServed(s: State, rows: seq<Row>, env: Env)
    ensures LaggingAfter(s, rows, env, 0) == s.lagging && LogAfter(s, rows, env, 0) == []
  {}

  lemma {:induction false} ServedAlike(s: State, a: seq<Row>, b: seq<Row>, env: Env, served: nat)
    requires OwedAlike(s, a, b) && served <= |Order(s, a)| && Order(s, a) == Order(s, b)
    ensures LaggingAfter(s, a, env, served) == LaggingAfter(s, b, env, served)
    ensures LogAfter(s, a, env, served) == LogAfter(s, b, env, served)
  {
    hide *;
    if served == 0 {
      NobodyServed(s, a, env);
      NobodyServed(s, b, env);
    } else {
      ServedAlike(s, a, b, env, served - 1);
      OneMoreAlike(s, a, b, env, served - 1);
    }
  }

  lemma {:induction false} QueryHead(s: State, since: Boundary, admitted: seq<Row>)
    requires InOrder(admitted) && NoLater(since, s.head)
    ensures NextHead(s, Query(since, admitted)) == NextHead(s, admitted)
  {
    if admitted != [] {
      var init, last := admitted[..|admitted| - 1], admitted[|admitted| - 1];
      if !After(last, since) {
        NothingAfter(since, init, last);
      }
    }
  }

  lemma {:induction false} NothingAfter(since: Boundary, rows: seq<Row>, last: Row)
    requires InOrder(rows + [last]) && !After(last, since)
    ensures Query(since, rows) == []
  {
    if rows != [] {
      var init, r := rows[..|rows| - 1], rows[|rows| - 1];
      var longer := rows + [last];
      assert longer[|rows| - 1] == r && longer[|rows|] == last;
      assert InOrder(init + [r]) by {
        assert init + [r] == rows;
        assert forall i :: 0 <= i < |rows| ==> rows[i] == longer[i];
      }
      NothingAfter(since, init, r);
    }
  }

  /**
   Starting the query at the earliest of the head and the lagging cursors changes nothing: the run tells and
   leaves what it would after reading everything the database admits.
   */
  lemma {:induction false} QueryHidesNothing(s: State, since: Boundary, admitted: seq<Row>, env: Env)
    requires IsSince(s, since) && InOrder(admitted)
    ensures Log(s, Query(since, admitted), env) == Log(s, admitted, env)
    ensures Next(s, Query(since, admitted), env) == Next(s, admitted, env)
  {
    var rows := Query(since, admitted);
    QueryHead(s, since, admitted);
    QueryOrder(s, since, admitted);
    forall k ensures Owed(s, rows, k) == Owed(s, admitted, k) {
      QueryOwed(s, since, admitted, k);
    }
    hide Owed, Order, Query, NextHead;
    ServedAlike(s, rows, admitted, env, |Order(s, admitted)|);
  }

  // --- Settled within twelve runs -------------------------------------------------------------

  /** A completed run. */
  datatype Run = Run(rows: seq<Row>, env: Env)

  /** How an item fares while every run fetches it: the first account that does not leave it to be retried. */
  ghost function Fate(s: State, runs: seq<Run>, r: Row): Account
    requires forall i :: 0 <= i < |runs| ==> r in runs[i].rows
    decreases |runs|
  {
    if runs == [] then Retried
    else
      var account := AccountOf(s, runs[0].rows, runs[0].env, r);
      if account == Retried then Fate(Next(s, runs[0].rows, runs[0].env), runs[1..], r) else account
  }

  /** A run that leaves an owed item to be retried leaves it owed, with one more failure recorded. */
  lemma RetriedCounts(s: State, rows: seq<Row>, env: Env, r: Row)
    requires InOrder(rows) && r in rows && AccountOf(s, rows, env, r) == Retried
    ensures After(r, Cursor(Next(s, rows, env), r.key))
    ensures Failures(LagOf(Next(s, rows, env), r.key)) == Failures(LagOf(s, r.key)) + 1 < MAX_DESTINATION_FAILURES
  {
    OwedComplete(s, rows, r);
    EveryRowAccounted(s, rows, env, r);
    NextLag(s, rows, env, r.key);
    TurnShape(env, LagOf(s, r.key), s.head, Owed(s, rows, r.key));
    hide Owed, Order, Serve, Next;
  }

  lemma OwedNotSettled(s: State, rows: seq<Row>, env: Env, r: Row)
    requires r in rows && After(r, Cursor(s, r.key))
    ensures AccountOf(s, rows, env, r) != Settled
  {}

  /**
   An owed item that run after run fetches is told, or given up, or found without a push path, within twelve
   runs less the failures already recorded; until then each run leaves it owed.
   */
  lemma {:induction false} SettledWithinTwelve(s: State, runs: seq<Run>, r: Row)
    requires After(r, Cursor(s, r.key))
    requires forall i :: 0 <= i < |runs| ==> r in runs[i].rows && InOrder(runs[i].rows)
    ensures Fate(s, runs, r) != Settled
    ensures Fate(s, runs, r) == Retried ==> runs == [] || Failures(LagOf(s, r.key)) + |runs| < MAX_DESTINATION_FAILURES
    decreases |runs|
  {
    hide AccountOf, After, Next, InOrder, LagOf;
    if runs != [] {
      var rows, env := runs[0].rows, runs[0].env;
      OwedNotSettled(s, rows, env, r);
      if AccountOf(s, rows, env, r) == Retried {
        RetriedCounts(s, rows, env, r);
        SettledWithinTwelve(Next(s, rows, env), runs[1..], r);
      }
    }
  }
}
