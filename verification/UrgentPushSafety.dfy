/**
 One run of the urgent push (apps/notify/src/run.ts): what a person's turn tells and keeps, and where a
 completed run leaves everybody.
 */
module UrgentPushSafety {
  import opened Outcomes
  import opened UrgentPush

  // --- One person's turn ----------------------------------------------------------------------

  lemma {:induction false} SentBounds(env: Env, key: Key, count: nat, from: nat)
    requires from <= count
    ensures forall i :: from <= i < SentFrom(env, key, count, from) ==> env.sendSucceeds(key, i)
    ensures SentFrom(env, key, count, from) < count ==> !env.sendSucceeds(key, SentFrom(env, key, count, from))
    decreases count - from
  {
    if from < count && env.sendSucceeds(key, from) {
      SentBounds(env, key, count, from + 1);
    }
  }

  /** The last item told, or where the person was. */
  function Reached(told: seq<Row>, start: Boundary): Boundary {
    if told == [] then start else BoundaryOf(told[|told| - 1])
  }

  function Start(before: Option<Lag>, head: Boundary): Boundary {
    if before.Some? then before.value.cursor else head
  }

  function Failures(before: Option<Lag>): int {
    if before.Some? then before.value.failures else 0
  }

  /** A turn tells a prefix of what is owed, and what it keeps is where the person got to. */
  lemma TurnShape(env: Env, before: Option<Lag>, head: Boundary, items: seq<Row>)
    requires items != []
    ensures var turn := Serve(env, before, head, items);
            && turn.told <= items
            && (turn.kept.Some? ==>
                  && turn.failed
                  && turn.kept.value.cursor == Reached(turn.told, Start(before, head))
                  && turn.kept.value.failures == Failures(before) + 1 < MAX_DESTINATION_FAILURES)
            && (turn.failed && turn.kept.None? ==> Failures(before) + 1 >= MAX_DESTINATION_FAILURES)
            && (!turn.failed ==> turn.told == items || PathFor(env, items) == NoPush)
  {}

  /** A person's own destination can be used: their last owed row carries one, it opens for them, and a sender is set. */
  predicate Reachable(env: Env, items: seq<Row>)
    requires items != []
  {
    match items[|items| - 1].destination
    case None => false
    case Some(sealed) => env.canSend && env.opener.Some? && env.opener.value(sealed, items[0].key).Some?
  }

  /** The push for a person's item `i` arrives, whichever way they are reached. */
  predicate Arrives(env: Env, items: seq<Row>, i: nat)
    requires i < |items|
  {
    var key := items[0].key;
    if Reachable(env, items) then forall j :: 0 <= j <= i ==> env.sendSucceeds(key, j)
    else env.pushPerson == Some(key.person) && env.alertSucceeds(key)
  }

  /** Some push was tried and failed. */
  predicate SomePushFails(env: Env, items: seq<Row>)
    requires items != []
  {
    var key := items[0].key;
    if Reachable(env, items) then exists j :: 0 <= j < |items| && !env.sendSucceeds(key, j)
    else env.pushPerson == Some(key.person) && !env.alertSucceeds(key)
  }

  /** What a turn tells, whether it fails and whether anything is kept of the person. */
  lemma {:induction false} TurnExact(env: Env, before: Option<Lag>, head: Boundary, items: seq<Row>)
    requires items != []
    ensures var turn := Serve(env, before, head, items);
            && turn.told <= items
            && (forall i :: 0 <= i < |items| ==> (i < |turn.told| <==> Arrives(env, items, i)))
            && (turn.failed <==> SomePushFails(env, items))
            && (turn.kept.Some? <==> turn.failed && Failures(before) + 1 < 12)
  {
    SentBounds(env, items[0].key, |items|, 0);
  }

  lemma {:induction false} OwedComplete(s: State, rows: seq<Row>, r: Row)
    ensures r in Owed(s, rows, r.key) <==> r in rows && After(r, Cursor(s, r.key))
  {
    if rows != [] {
      OwedComplete(s, rows[..|rows| - 1], r);
      assert rows == rows[..|rows| - 1] + [rows[|rows| - 1]];
    }
  }

  lemma {:induction false} OwedInOrder(s: State, rows: seq<Row>, key: Key)
    requires InOrder(rows)
    ensures InOrder(Owed(s, rows, key))
  {
    if rows != [] {
      var init, row := rows[..|rows| - 1], rows[|rows| - 1];
      OwedInOrder(s, init, key);
      var items := Owed(s, init, key);
      forall i | 0 <= i < |items|
        ensures NoLater(BoundaryOf(items[i]), BoundaryOf(row))
        ensures !(items[i].key == row.key && items[i].item == row.item)
      {
        assert items[i] in init;
      }
    }
  }

  /** Everything told is at or before the last item told; everything owed and not told is after it. */
  lemma ToldBounds(items: seq<Row>, told: seq<Row>, r: Row)
    requires InOrder(items) && told <= items && told != [] && r in items
    requires forall i :: 0 <= i < |items| ==> items[i].key == r.key
    ensures r in told ==> !After(r, BoundaryOf(told[|told| - 1]))
    ensures r !in told ==> After(r, BoundaryOf(told[|told| - 1]))
  {
    var last := |told| - 1;
    assert forall i :: 0 <= i < |told| ==> told[i] == items[i];
    var j :| 0 <= j < |items| && items[j] == r;
    if r in told {
      var i :| 0 <= i < |told| && told[i] == r;
      assert NoLater(BoundaryOf(items[i]), BoundaryOf(items[last])) || i == last;
    } else {
      assert last < j;
      assert NoLater(BoundaryOf(items[last]), BoundaryOf(items[j])) && items[last].item != items[j].item;
    }
  }

  /** `row`, at `i`, is the first of its person that is owed. */
  ghost predicate FirstOwed(s: State, rows: seq<Row>, i: nat) {
    && i < |rows|
    && After(rows[i], Cursor(s, rows[i].key))
    && forall j :: 0 <= j < i ==> !(rows[j].key == rows[i].key && After(rows[j], Cursor(s, rows[j].key)))
  }

  ghost predicate MetAt(s: State, rows: seq<Row>, key: Key, i: nat) {
    FirstOwed(s, rows, i) && rows[i].key == key
  }

  /** People are served in the order in which the first row owed to each was fetched. */
  lemma {:induction false} OrderFirstMet(s: State, rows: seq<Row>, a: nat, b: nat, i: nat, j: nat)
    requires a < |Order(s, rows)| && b < |Order(s, rows)|
    requires MetAt(s, rows, Order(s, rows)[a], i) && MetAt(s, rows, Order(s, rows)[b], j)
    ensures a < b <==> i < j
  {
    var n := |rows| - 1;
    var init, order := rows[..n], Order(s, rows[..n]);
    assert forall k :: 0 <= k < n ==> rows[k] == init[k];
    MetOfOrder(s, rows, a, i);
    MetOfOrder(s, rows, b, j);
    if a < |order| && b < |order| {
      assert MetAt(s, init, order[a], i) && MetAt(s, init, order[b], j);
      OrderFirstMet(s, init, a, b, i, j);
    }
  }

  /** Whoever is met before the last row is in the order of the rows before it. */
  lemma MetOfOrder(s: State, rows: seq<Row>, a: nat, i: nat)
    requires a < |Order(s, rows)| && MetAt(s, rows, Order(s, rows)[a], i)
    ensures var before := Order(s, rows[..|rows| - 1]);
            && before <= Order(s, rows)
            && (a < |before| <==> i < |rows| - 1)
            && |Order(s, rows)| <= |before| + 1
  {
    var n := |rows| - 1;
    var init, key := rows[..n], Order(s, rows)[a];
    if i < n {
      assert init[i] == rows[i];
      OwedComplete(s, init, rows[i]);
    }
    if key in Order(s, init) {
      var r := Owed(s, init, key)[0];
      var k :| 0 <= k < n && init[k] == r;
      assert rows[k] == r;
    }
  }

  // --- What a completed run leaves ------------------------------------------------------------

  lemma {:induction false} ServedLag(s: State, rows: seq<Row>, env: Env, served: nat, i: nat)
    requires i < served <= |Order(s, rows)|
    ensures var key := Order(s, rows)[i];
            LagOf(Saved(s, rows, env, served), key) == TurnOf(s, rows, env, key).kept
  {
    hide Order, Owed, Serve;
    if i < served - 1 {
      ServedLag(s, rows, env, served - 1, i);
    }
  }

  /** Who lags after a run: exactly those whose turn kept a cursor. */
  lemma NextLag(s: State, rows: seq<Row>, env: Env, key: Key)
    ensures LagOf(Next(s, rows, env), key) ==
            if Owed(s, rows, key) == [] then None else TurnOf(s, rows, env, key).kept
  {
    var order := Order(s, rows);
    hide Order, Owed, Serve;
    if key in order {
      var i :| 0 <= i < |order| && order[i] == key;
      ServedLag(s, rows, env, |order|, i);
    }
  }

  lemma {:induction false} LogMember(s: State, rows: seq<Row>, env: Env, served: nat, r: Row)
    requires served <= |Order(s, rows)|
    ensures r in LogAfter(s, rows, env, served) <==>
            r.key in Order(s, rows)[..served] && r in TurnOf(s, rows, env, r.key).told
  {
    hide Order, Owed, Serve;
    if served > 0 {
      var order, key := Order(s, rows), Order(s, rows)[served - 1];
      LogMember(s, rows, env, served - 1, r);
      assert order[..served] == order[..served - 1] + [key];
      ToldToKey(s, rows, env, key);
    }
  }

  lemma ToldToKey(s: State, rows: seq<Row>, env: Env, key: Key)
    requires Owed(s, rows, key) != []
    ensures TurnOf(s, rows, env, key).told <= Owed(s, rows, key)
    ensures forall r :: r in TurnOf(s, rows, env, key).told ==>
              r in Owed(s, rows, key) && r.key == key && r in rows && After(r, Cursor(s, key))
  {
    TurnShape(env, LagOf(s, key), s.head, Owed(s, rows, key));
    hide Serve;
    var told, items := TurnOf(s, rows, env, key).told, Owed(s, rows, key);
    assert forall i :: 0 <= i < |told| ==> told[i] == items[i];
  }

  /** Told in a run: owed, and in the told prefix of the person's turn. */
  lemma LogExact(s: State, rows: seq<Row>, env: Env, r: Row)
    ensures r in Log(s, rows, env) <==>
            Owed(s, rows, r.key) != [] && r in TurnOf(s, rows, env, r.key).told
  {
    var order := Order(s, rows);
    LogMember(s, rows, env, |order|, r);
    assert order[..|order|] == order;
  }

  // --- Where a run leaves a person ------------------------------------------------------------

  lemma NextHeadCovers(s: State, rows: seq<Row>)
    requires InOrder(rows)
    ensures NoLater(s.head, NextHead(s, rows))
    ensures forall i :: 0 <= i < |rows| ==> NoLater(BoundaryOf(rows[i]), NextHead(s, rows))
  {
    if rows != [] {
      var last := rows[|rows| - 1];
      forall i | 0 <= i < |rows| ensures NoLater(BoundaryOf(rows[i]), BoundaryOf(last)) {
      }
    }
  }

  /** The new head is the latest of the old one and what was fetched: none of them is after it, and it is one of them. */
  lemma {:induction false} HeadIsLatest(s: State, rows: seq<Row>, env: Env)
    requires InOrder(rows)
    ensures var head := Next(s, rows, env).head;
            && NoLater(s.head, head)
            && (forall i :: 0 <= i < |rows| ==> NoLater(BoundaryOf(rows[i]), head))
            && (head == s.head || exists i :: 0 <= i < |rows| && head == BoundaryOf(rows[i]))
  {
    NextHeadCovers(s, rows);
    HeadOfNext(s, rows, env);
  }

  /** A kept cursor is the last item told this run, or where the person was. */
  lemma KeptCursor(s: State, rows: seq<Row>, env: Env, key: Key)
    requires key in Next(s, rows, env).lagging
    ensures Owed(s, rows, key) != []
    ensures var told, cursor := TurnOf(s, rows, env, key).told, Next(s, rows, env).lagging[key].cursor;
            && told <= Owed(s, rows, key)
            && cursor == Reached(told, Cursor(s, key))
            && (told != [] ==> told[|told| - 1] in rows && After(told[|told| - 1], Cursor(s, key)))
  {
    NextLag(s, rows, env, key);
    hide Next, Order, Owed, Serve;
    TurnShape(env, LagOf(s, key), s.head, Owed(s, rows, key));
    ToldToKey(s, rows, env, key);
  }

  /** No lagging cursor is past the head. */
  ghost predicate Valid(s: State) {
    forall k :: k in s.lagging ==> NoLater(s.lagging[k].cursor, s.head)
  }

  /**
   After a run a lagging cursor is past the head exactly when it was left past it by a save part-way, and
   the run told that person nothing; so a run keeps every cursor at or before the head.
   */
  lemma {:induction false} CursorPastHead(s: State, rows: seq<Row>, env: Env, key: Key)
    requires InOrder(rows) && key in Next(s, rows, env).lagging
    ensures Owed(s, rows, key) != []
    ensures var next := Next(s, rows, env);
            && (!NoLater(next.lagging[key].cursor, next.head) <==>
                  TurnOf(s, rows, env, key).told == [] && !NoLater(Cursor(s, key), next.head))
            && (Valid(s) ==> NoLater(next.lagging[key].cursor, next.head))
  {
    KeptCursor(s, rows, env, key);
    NextHeadCovers(s, rows);
    HeadOfNext(s, rows, env);
    hide Next, Order, Owed, Serve, TurnOf, NextHead;
  }

  /** What was told in a run is at or before the person's cursor after it. */
  lemma {:induction false} ToldIsBehind(s: State, rows: seq<Row>, env: Env, r: Row)
    requires InOrder(rows) && r in Log(s, rows, env)
    ensures !After(r, Cursor(Next(s, rows, env), r.key))
  {
    var key := r.key;
    LogExact(s, rows, env, r);
    hide Next, Order, Owed, Serve, Log, TurnOf;
    ToldToKey(s, rows, env, key);
    if key in Next(s, rows, env).lagging {
      KeptCursor(s, rows, env, key);
      OwedInOrder(s, rows, key);
      hide InOrder, After;
      ToldBounds(Owed(s, rows, key), TurnOf(s, rows, env, key).told, r);
    } else {
      NextHeadCovers(s, rows);
      HeadOfNext(s, rows, env);
      var i :| 0 <= i < |rows| && rows[i] == r;
    }
  }

  /** The people among the first `served` whose turn failed. */
  ghost function FailedPeople(s: State, rows: seq<Row>, env: Env, served: nat): set<Key>
    requires served <= |Order(s, rows)|
  {
    set i | 0 <= i < served && TurnOf(s, rows, env, Order(s, rows)[i]).failed :: Order(s, rows)[i]
  }

  lemma OneMoreServed(s: State, rows: seq<Row>, env: Env, served: nat)
    requires served < |Order(s, rows)|
    ensures var key := Order(s, rows)[served];
            && key !in FailedPeople(s, rows, env, served)
            && FailedPeople(s, rows, env, served + 1)
               == FailedPeople(s, rows, env, served) + if TurnOf(s, rows, env, key).failed then {key} else {}
  {
    hide Owed, Serve;
    assert forall i, j :: 0 <= i < j < |Order(s, rows)| ==> Order(s, rows)[i] != Order(s, rows)[j];
    hide Order, TurnOf;
  }

  lemma NoneServed(s: State, rows: seq<Row>, env: Env)
    ensures FailedAfter(s, rows, env, 0) == 0 && FailedPeople(s, rows, env, 0) == {}
  {
    hide Order, TurnOf;
  }

  lemma CountedServed(s: State, rows: seq<Row>, env: Env, served: nat)
    requires served < |Order(s, rows)|
    ensures FailedAfter(s, rows, env, served + 1)
            == FailedAfter(s, rows, env, served) + if TurnOf(s, rows, env, Order(s, rows)[served]).failed then 1 else 0
  {
    hide Order, TurnOf;
  }

  /** The count a run reports is of the people whose turn failed. */
  lemma {:induction false} FailedCounts(s: State, rows: seq<Row>, env: Env, served: nat)
    requires served <= |Order(s, rows)|
    ensures FailedAfter(s, rows, env, served) == |FailedPeople(s, rows, env, served)|
  {
    hide *;
    if served == 0 {
      NoneServed(s, rows, env);
    } else {
      FailedCounts(s, rows, env, served - 1);
      OneMoreServed(s, rows, env, served - 1);
      CountedServed(s, rows, env, served - 1);
    }
  }

  lemma HeadOfNext(s: State, rows: seq<Row>, env: Env)
    ensures Next(s, rows, env).head == NextHead(s, rows)
  {}
}
