/**
 The urgent push run (apps/notify/src/run.ts): who is owed what, what one completed run tells, keeps
 and drops, and the state it leaves behind.

 Instants and item identifiers are numbers: those `UrgentNumbers` shows the texts compare as.
 */
module UrgentPush {
  import opened Outcomes
  import opened Texts

  type Instant = nat
  type Item = nat
  type Sealed = nat
  type Destination = nat

  /** A person in an organization: a destination is set per organization. */
  datatype Key = Key(organization: Text, person: Text)

  datatype Boundary = Boundary(at: Instant, item: Option<Item>)

  datatype Row = Row(key: Key, at: Instant, item: Item, destination: Option<Sealed>)

  datatype Lag = Lag(cursor: Boundary, failures: int)

  datatype State = State(head: Boundary, lagging: map<Key, Lag>)

  const MAX_DESTINATION_FAILURES: int := 12

  /** The item a boundary without one compares as: the nil identifier. */
  function ItemOf(b: Boundary): Item {
    match b.item
    case None => 0
    case Some(item) => item
  }

  /** `after`: the database's row comparison. */
  predicate After(row: Row, b: Boundary) {
    if row.at != b.at then row.at > b.at else row.item > ItemOf(b)
  }

  /** `a` is at or before `b`, as `After` sees them. */
  predicate NoLater(a: Boundary, b: Boundary) {
    a.at < b.at || (a.at == b.at && ItemOf(a) <= ItemOf(b))
  }

  /** The comparison of `earliest`: a boundary without an item sorts below any item. */
  predicate Earlier(a: Boundary, b: Boundary) {
    || a.at < b.at
    || (a.at == b.at && b.item.Some? && (a.item.None? || a.item.value < b.item.value))
  }

  function BoundaryOf(row: Row): Boundary {
    Boundary(row.at, Some(row.item))
  }

  /** How far a person has been told: their own lagging entry, else the head. */
  function Cursor(s: State, key: Key): Boundary {
    if key in s.lagging then s.lagging[key].cursor else s.head
  }

  // --- One run --------------------------------------------------------------------------------

  /** What a run meets: keys, destinations, and which sends succeed. Every outcome is arbitrary. */
  datatype Env = Env(
    pushPerson: Option<Text>,
    opener: Option<(Sealed, Key) -> Option<Destination>>,
    canSend: bool,
    sendSucceeds: (Key, nat) -> bool,
    alertSucceeds: Key -> bool)

  /** A person's items they have not been told of, in the order fetched. */
  function Owed(s: State, rows: seq<Row>, key: Key): (items: seq<Row>)
    ensures forall i :: 0 <= i < |items| ==> items[i] in rows && items[i].key == key && After(items[i], Cursor(s, key))
  {
    if rows == [] then []
    else
      var row, items := rows[|rows| - 1], Owed(s, rows[..|rows| - 1], key);
      if row.key == key && After(row, Cursor(s, key)) then items + [row] else items
  }

  /** The people owed something, in the order first met. */
  function Order(s: State, rows: seq<Row>): (order: seq<Key>)
    ensures forall k :: k in order <==> Owed(s, rows, k) != []
    ensures forall i, j :: 0 <= i < j < |order| ==> order[i] != order[j]
  {
    if rows == [] then []
    else
      var row, order := rows[|rows| - 1], Order(s, rows[..|rows| - 1]);
      if After(row, Cursor(s, row.key)) && row.key !in order then order + [row.key] else order
  }

  datatype Path = OwnDestination | AlertPath | NoPush

  /** How a person is reached: decided by the destination of their last owed row. */
  function PathFor(env: Env, items: seq<Row>): Path
    requires items != []
  {
    var sealed := items[|items| - 1].destination;
    var destination := if sealed.None? || env.opener.None? then None else env.opener.value(sealed.value, items[0].key);
    if destination.Some? && env.canSend then OwnDestination
    else if env.pushPerson == Some(items[0].key.person) then AlertPath
    else NoPush
  }

  /** How many of a person's items are sent before the first failure. */
  function SentFrom(env: Env, key: Key, count: nat, from: nat): (n: nat)
    requires from <= count
    ensures from <= n <= count
    decreases count - from
  {
    if from == count || !env.sendSucceeds(key, from) then from else SentFrom(env, key, count, from + 1)
  }

  /** The failure count a failed attempt records, or nothing once the limit is reached. */
  function AfterFailure(before: Option<Lag>, cursor: Boundary): Option<Lag> {
    var failures := (if before.Some? then before.value.failures else 0) + 1;
    if failures >= MAX_DESTINATION_FAILURES then None else Some(Lag(cursor, failures))
  }

  /** What one person's turn does: what they were told, whether it failed, what is kept of them. */
  datatype Turn = Turn(told: seq<Row>, failed: bool, kept: Option<Lag>)

  function Serve(env: Env, before: Option<Lag>, head: Boundary, items: seq<Row>): (turn: Turn)
    requires items != []
  {
    var start := if before.Some? then before.value.cursor else head;
    match PathFor(env, items)
    case OwnDestination =>
      var n := SentFrom(env, items[0].key, |items|, 0);
      if n == |items| then Turn(items, false, None)
      else Turn(items[..n], true, AfterFailure(before, if n > 0 then BoundaryOf(items[n - 1]) else start))
    case AlertPath =>
      if env.alertSucceeds(items[0].key) then Turn(items, false, None)
      else Turn([], true, AfterFailure(before, start))
    case NoPush => Turn([], false, None)
  }

  function LagOf(s: State, key: Key): Option<Lag> {
    if key in s.lagging then Some(s.lagging[key]) else None
  }

  function TurnOf(s: State, rows: seq<Row>, env: Env, key: Key): Turn
    requires Owed(s, rows, key) != []
  {
    Serve(env, LagOf(s, key), s.head, Owed(s, rows, key))
  }

  /** The lagging map as saved after the first `served` people. */
  function LaggingAfter(s: State, rows: seq<Row>, env: Env, served: nat): (lagging: map<Key, Lag>)
    requires served <= |Order(s, rows)|
  {
    if served == 0 then s.lagging
    else
      var lagging, key := LaggingAfter(s, rows, env, served - 1), Order(s, rows)[served - 1];
      match TurnOf(s, rows, env, key).kept
      case Some(lag) => lagging[key := lag]
      case None => lagging - {key}
  }

  /** What the first `served` people were told. */
  function LogAfter(s: State, rows: seq<Row>, env: Env, served: nat): seq<Row>
    requires served <= |Order(s, rows)|
  {
    if served == 0 then []
    else LogAfter(s, rows, env, served - 1) + TurnOf(s, rows, env, Order(s, rows)[served - 1]).told
  }

  function FailedAfter(s: State, rows: seq<Row>, env: Env, served: nat): nat
    requires served <= |Order(s, rows)|
  {
    if served == 0 then 0
    else FailedAfter(s, rows, env, served - 1) + if TurnOf(s, rows, env, Order(s, rows)[served - 1]).failed then 1 else 0
  }

  function NextHead(s: State, rows: seq<Row>): Boundary {
    if rows == [] || !After(rows[|rows| - 1], s.head) then s.head else BoundaryOf(rows[|rows| - 1])
  }

  lemma ServeStep(s: State, rows: seq<Row>, env: Env, i: nat)
    requires i < |Order(s, rows)|
    ensures var key := Order(s, rows)[i];
            var turn, lagging := TurnOf(s, rows, env, key), LaggingAfter(s, rows, env, i);
            && LaggingAfter(s, rows, env, i + 1) == (if turn.kept.Some? then lagging[key := turn.kept.value] else lagging - {key})
            && LogAfter(s, rows, env, i + 1) == LogAfter(s, rows, env, i) + turn.told
            && FailedAfter(s, rows, env, i + 1) == FailedAfter(s, rows, env, i) + if turn.failed then 1 else 0
  {}

  /** Serving others leaves a person's entry alone. */
  lemma {:induction false} NotYetServed(s: State, rows: seq<Row>, env: Env, served: nat, j: nat)
    requires served <= j < |Order(s, rows)|
    ensures var key, lagging := Order(s, rows)[j], LaggingAfter(s, rows, env, served);
            (key in lagging <==> key in s.lagging) && (key in lagging ==> lagging[key] == s.lagging[key])
  {
    hide Owed, Order, Serve;
    if served > 0 {
      NotYetServed(s, rows, env, served - 1, j);
    }
  }

  /** The state a completed run saves last. */
  function Next(s: State, rows: seq<Row>, env: Env): State {
    var order := Order(s, rows);
    var lagging := LaggingAfter(s, rows, env, |order|);
    State(NextHead(s, rows), map k | k in lagging && k in order :: lagging[k])
  }

  function Log(s: State, rows: seq<Row>, env: Env): seq<Row> {
    LogAfter(s, rows, env, |Order(s, rows)|)
  }

  /** The state saved after `served` people, which a crash then leaves behind: the head is the old one. */
  function Saved(s: State, rows: seq<Row>, env: Env, served: nat): State
    requires served <= |Order(s, rows)|
  {
    State(s.head, LaggingAfter(s, rows, env, served))
  }

  // --- What the query returns -----------------------------------------------------------------

  /** The contract of `core.urgent_pushes`: rows in order, one per item and person. */
  ghost predicate InOrder(rows: seq<Row>) {
    forall i, j :: 0 <= i < j < |rows| ==>
      && NoLater(BoundaryOf(rows[i]), BoundaryOf(rows[j]))
      && !(rows[i].key == rows[j].key && rows[i].item == rows[j].item)
  }

  /** Where the query may start: at or before every effective cursor and the head, and one of them. */
  ghost predicate IsSince(s: State, since: Boundary) {
    && NoLater(since, s.head)
    && (forall k :: NoLater(since, Cursor(s, k)))
    && (since == s.head || exists k :: k in s.lagging && since == s.lagging[k].cursor)
  }

  // --- The notifier ---------------------------------------------------------------------------

  /** The notifier with its state file. */
  class Notifier {
    var head: Boundary
    var lagging: map<Key, Lag>

    ghost function Contents(): State
      reads this
    {
      State(head, lagging)
    }

    /** The first run: start from now. */
    constructor (now: Instant)
      ensures Contents() == State(Boundary(now, None), map[])
    {
      head := Boundary(now, None);
      lagging := map[];
    }

    /** Where the query starts: the earliest of the head and every lagging cursor. */
    method Since() returns (since: Boundary)
      ensures IsSince(Contents(), since)
    {
      since := head;
      var rest := lagging.Keys;
      while rest != {}
        invariant rest <= lagging.Keys
        invariant NoLater(since, head)
        invariant forall k :: k in lagging.Keys - rest ==> NoLater(since, lagging[k].cursor)
        invariant since == head || exists k :: k in lagging && since == lagging[k].cursor
        decreases rest
      {
        var key :| key in rest;
        if Earlier(lagging[key].cursor, since) {
          since := lagging[key].cursor;
        }
        rest := rest - {key};
      }
    }

    /** `runUrgent` after its query, to completion. */
    method RunUrgent(rows: seq<Row>, env: Env) returns (told: seq<Row>, failed: nat)
      modifies this
      ensures Contents() == Next(old(Contents()), rows, env)
      ensures told == Log(old(Contents()), rows, env)
      ensures failed == FailedAfter(old(Contents()), rows, env, |Order(old(Contents()), rows)|)
    {
      hide Owed, Order, Serve, LaggingAfter, LogAfter, FailedAfter;
      ghost var s := Contents();
      var owed, order := CollectOwed(rows);
      told, failed := ServeAll(rows, env, owed, order);
      // Someone behind with nothing still owed is caught up.
      lagging := map k | k in lagging && k in owed :: lagging[k];
      if rows != [] && After(rows[|rows| - 1], head) {
        head := BoundaryOf(rows[|rows| - 1]);
      }
      assert lagging == Next(s, rows, env).lagging;
    }

    /** The loop over the people owed something; the state is saved after each. */
    method ServeAll(rows: seq<Row>, env: Env, owed: map<Key, seq<Row>>, order: seq<Key>) returns (told: seq<Row>, failed: nat)
      requires order == Order(Contents(), rows)
      requires forall k :: k in owed <==> k in order
      requires forall k :: k in owed ==> owed[k] == Owed(Contents(), rows, k)
      modifies this
      ensures Contents() == Saved(old(Contents()), rows, env, |order|)
      ensures told == LogAfter(old(Contents()), rows, env, |order|)
      ensures failed == FailedAfter(old(Contents()), rows, env, |order|)
    {
      hide Owed, Order, Serve;
      ghost var s := Contents();
      told, failed := [], 0;
      var lag := lagging;
      var i := 0;
      while i < |order|
        invariant i <= |order|
        invariant head == s.head && lagging == lag == LaggingAfter(s, rows, env, i)
        invariant told == LogAfter(s, rows, env, i)
        invariant failed == FailedAfter(s, rows, env, i)
      {
        var key := order[i];
        NotYetServed(s, rows, env, i, i);
        var before := if key in lag then Some(lag[key]) else None;
        var turn := ServePerson(env, before, head, owed[key]);
        ServeStep(s, rows, env, i);
        told := told + turn.told;
        if turn.failed {
          failed := failed + 1;
        }
        lag := if turn.kept.Some? then lag[key := turn.kept.value] else lag - {key};
        // Saved after each person.
        lagging := lag;
        i := i + 1;
      }
    }

    /** Each person's owed rows, and the people in the order first met. */
    method CollectOwed(rows: seq<Row>) returns (owed: map<Key, seq<Row>>, order: seq<Key>)
      ensures order == Order(Contents(), rows)
      ensures forall k :: k in owed <==> k in order
      ensures forall k :: k in owed ==> owed[k] == Owed(Contents(), rows, k)
    {
      owed, order := map[], [];
      var i := 0;
      while i < |rows|
        invariant i <= |rows|
        invariant order == Order(Contents(), rows[..i])
        invariant forall k :: k in owed <==> k in order
        invariant forall k :: k in owed ==> owed[k] == Owed(Contents(), rows[..i], k)
      {
        var row := rows[i];
        assert rows[..i + 1][..i] == rows[..i];
        if After(row, Cursor(State(head, lagging), row.key)) {
          if row.key !in owed {
            order := order + [row.key];
          }
          owed := owed[row.key := (if row.key in owed then owed[row.key] else []) + [row]];
        }
        i := i + 1;
      }
      assert rows[..|rows|] == rows;
    }
  }

  /** One person's turn: one push per item, stopping at the first failure. */
  method ServePerson(env: Env, before: Option<Lag>, head: Boundary, items: seq<Row>) returns (turn: Turn)
    requires items != []
    ensures turn == Serve(env, before, head, items)
  {
    var start := if before.Some? then before.value.cursor else head;
    var path := PathFor(env, items);
    if path == OwnDestination {
      var delivered := 0;
      while delivered < |items| && env.sendSucceeds(items[0].key, delivered)
        invariant delivered <= |items|
        invariant SentFrom(env, items[0].key, |items|, delivered) == SentFrom(env, items[0].key, |items|, 0)
      {
        delivered := delivered + 1;
      }
      if delivered == |items| {
        turn := Turn(items, false, None);
      } else {
        var cursor := if delivered > 0 then BoundaryOf(items[delivered - 1]) else start;
        turn := Turn(items[..delivered], true, AfterFailure(before, cursor));
      }
    } else if path == AlertPath {
      turn := if env.alertSucceeds(items[0].key) then Turn(items, false, None)
              else Turn([], true, AfterFailure(before, start));
    } else {
      turn := Turn([], false, None);
    }
  }
}
