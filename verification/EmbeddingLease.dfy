/**
 The embedding queue and its leases: `retrieval.claim_embeddings` and its companions
 (database/migrations/20261007500000_the_embedding_pump_retries_and_records.sql) under any
 number of the pump's consumers (apps/worker/src/embedding.ts), in milliseconds.
 */
module EmbeddingLease {
  import opened Outcomes

  type Record = nat

  /** A row of `retrieval.embed_pending`. */
  datatype Row = Row(
    claim: Option<nat>,
    claimedUntil: Option<nat>,
    requeued: bool,
    attempts: nat,
    failedAt: Option<nat>)

  const FRESH := Row(None, None, false, 0, None)

  // --- The queue's own functions --------------------------------------------------------------

  predicate Live(row: Row, now: nat) {
    row.claim.Some? && row.claimedUntil.Some? && row.claimedUntil.value >= now
  }

  /** `enqueue_embedding`: a live claim is kept and marked, anything else is cleared. */
  function Enqueued(row: Option<Row>, now: nat): Row {
    if row.Some? && Live(row.value, now) then Row(row.value.claim, row.value.claimedUntil, true, 0, None) else FRESH
  }

  predicate Claimable(row: Row, now: nat) {
    row.failedAt == None && (row.claimedUntil == None || row.claimedUntil.value < now)
  }

  /** `complete_embedding`, on a row the claim holds. */
  function Completed(row: Row): Option<Row> {
    if row.requeued then Some(row.(claim := None, claimedUntil := None, requeued := false)) else None
  }

  function Power(n: nat): nat {
    if n == 0 then 1 else 2 * Power(n - 1)
  }

  /** base · 2^(attempts−1) seconds, at most an hour. */
  function Backoff(base: nat, attempts: nat): nat
    requires attempts > 0
  {
    var seconds := base * Power(attempts - 1);
    1000 * if seconds < 3600 then seconds else 3600
  }

  /** `fail_embedding`, on a row the claim holds. */
  function Failed(row: Row, now: nat, base: nat, maxAttempts: nat): Row {
    if row.requeued then row.(claim := None, claimedUntil := None, requeued := false)
    else
      var attempts := row.attempts + 1;
      if attempts >= maxAttempts then row.(attempts := attempts, failedAt := Some(now), claim := None, claimedUntil := None)
      else row.(attempts := attempts, claim := None, claimedUntil := Some(now + Backoff(base, attempts)))
  }

  function Least(a: nat, b: nat): nat {
    if a < b then a else b
  }

  /** The wait after a first failure is the base, and doubles with each one after it, up to an hour, in milliseconds. */
  lemma {:induction false} BackoffDoubles(base: nat, attempts: nat)
    requires attempts > 0
    ensures Backoff(base, 1) == Least(1000 * base, 3600000)
    ensures Backoff(base, attempts + 1) == Least(2 * Backoff(base, attempts), 3600000)
  {
    assert base * Power(0) == base;
    assert base * Power(attempts) == 2 * (base * Power(attempts - 1)) by {
      assert base * (2 * Power(attempts - 1)) == 2 * (base * Power(attempts - 1));
    }
  }

  /**
   What a failure leaves: the record is given up, and never claimed again, when the attempt was the last
   allowed; otherwise it may be claimed exactly once the wait is over. A text that moved meanwhile is not
   counted as a failure and may be claimed at once.
   */
  lemma {:induction false} FailureLeaves(row: Row, now: nat, base: nat, maxAttempts: nat, later: nat)
    requires row.failedAt == None
    ensures var after := Failed(row, now, base, maxAttempts);
            && after.claim == None && !after.requeued
            && (row.requeued ==> after.attempts == row.attempts && Claimable(after, later))
            && (!row.requeued ==>
                  && after.attempts == row.attempts + 1
                  && (after.failedAt.Some? <==> row.attempts + 1 >= maxAttempts)
                  && (after.failedAt.Some? ==> after.failedAt == Some(now) && after.claimedUntil == None)
                  && (Claimable(after, later) <==>
                        row.attempts + 1 < maxAttempts && later > now + Backoff(base, row.attempts + 1)))
  {}

  /** A record enqueued again keeps a live claim, marked, and otherwise may be claimed at once; either way it starts over. */
  lemma EnqueuedAgain(row: Option<Row>, now: nat, later: nat)
    ensures var after := Enqueued(row, now);
            var live := row.Some? && row.value.claim.Some? && row.value.claimedUntil.Some? && row.value.claimedUntil.value >= now;
            && after.attempts == 0 && after.failedAt == None && (after.requeued <==> live)
            && (live ==> after.claim == row.value.claim && after.claimedUntil == row.value.claimedUntil)
            && (!live ==> after.claim == None && Claimable(after, later))
  {}

  /** A completed record leaves the queue, unless its text moved meanwhile: then it may be claimed at once. */
  lemma CompletionLeaves(row: Row, later: nat)
    requires row.failedAt == None
    ensures Completed(row) == None <==> !row.requeued
    ensures row.requeued ==>
              var after := Completed(row).value;
              Claimable(after, later) && after.claim == None && !after.requeued && after.attempts == row.attempts
  {}

  /** A row as it is claimed. */
  function ClaimedAgain(row: Row, claim: nat, until: nat): Row {
    row.(claim := Some(claim), claimedUntil := Some(until), requeued := false)
  }

  /** A record queued afresh and then claimed and failed at each of these times. */
  function FailedAt(times: seq<nat>, base: nat, maxAttempts: nat): Row {
    if times == [] then FRESH
    else
      var now := times[|times| - 1];
      Failed(ClaimedAgain(FailedAt(times[..|times| - 1], base, maxAttempts), |times|, now), now, base, maxAttempts)
  }

  /** A record is given up exactly at the last attempt allowed, however its failures are spaced. */
  lemma {:induction false} GivenUpExactly(times: seq<nat>, base: nat, maxAttempts: nat)
    requires 0 < |times| <= maxAttempts
    ensures var row := FailedAt(times, base, maxAttempts);
            row.attempts == |times| && (row.failedAt.Some? <==> |times| == maxAttempts)
  {
    var init, now := times[..|times| - 1], times[|times| - 1];
    if init != [] {
      GivenUpExactly(init, base, maxAttempts);
    }
    var before := FailedAt(init, base, maxAttempts);
    FailureLeaves(ClaimedAgain(before, |times|, now), now, base, maxAttempts, now);
  }

  // --- Consumers ------------------------------------------------------------------------------

  /** The claim a consumer took: of what, as which claim, when, and the text it was given. */
  datatype Held = Held(record: Record, claim: nat, since: nat, text: nat)

  datatype Consumer =
    | Idle
    | Holding(held: Held)
    | Sending(held: Held, sentAt: nat)
    | Answered(held: Held, ok: bool)

  /** A request whose client gave up or died: the engine was not told, and may go on. */
  datatype Stray = Stray(held: Held, since: nat)

  /**
   The lease, the engine timeout, the longest wait between a claim and its request, and for how long
   after its client gave up the engine may still store what it was sent; 0 when it never does.
   */
  datatype Policy = Policy(lease: nat, timeout: nat, delay: nat, linger: nat)

  /**
   `indexed`: the text as the drain last re-indexed it, which a claim reads. `owed`: records edited since
   then; their outbox rows are not drained yet. `strays`: by claim, requests without a client.
   */
  datatype State = State(
    now: nat,
    queue: map<Record, Row>,
    text: map<Record, nat>,
    indexed: map<Record, nat>,
    vector: map<Record, nat>,
    owed: set<Record>,
    consumers: map<nat, Consumer>,
    strays: map<nat, Stray>,
    claims: nat)

  const INITIAL := State(0, map[], map[], map[], map[], {}, map[], map[], 0)

  datatype Action =
    | Tick(elapsed: nat)
    | Edit(record: Record)
    | Queue(record: Record)
    | Claim(consumer: nat, record: Record)
    | Send(consumer: nat)
    | Answer(consumer: nat, ok: bool, stored: bool)
    | GiveUp(consumer: nat)
    | Late(claim: nat)
    | Complete(consumer: nat)
    | Fail(consumer: nat, base: nat, maxAttempts: nat)
    | Crash(consumer: nat)

  function ConsumerAt(s: State, i: nat): Consumer {
    if i in s.consumers then s.consumers[i] else Idle
  }

  /** The row is still held by this claim. */
  predicate Holds(s: State, held: Held) {
    held.record in s.queue && s.queue[held.record].claim == Some(held.claim)
  }

  /** A client request ends within the timeout. */
  predicate MayWait(p: Policy, s: State, elapsed: nat) {
    forall i :: i in s.consumers && s.consumers[i].Sending? ==> s.now + elapsed <= s.consumers[i].sentAt + p.timeout
  }

  /** An act changes a record's text, or makes the record; its outbox row commits with it. */
  function Edited(s: State, r: Record): State {
    s.(text := s.text[r := if r in s.text then s.text[r] + 1 else 0], owed := s.owed + {r})
  }

  /** The drain re-indexes and queues the record in the transaction that marks its outbox row delivered. */
  function Queued(s: State, r: Record): State
    requires r in s.text
  {
    var row := if r in s.queue then Some(s.queue[r]) else None;
    s.(queue := s.queue[r := Enqueued(row, s.now)], indexed := s.indexed[r := s.text[r]], owed := s.owed - {r})
  }

  function ClaimStep(p: Policy, s: State, i: nat, r: Record): Option<State> {
    if ConsumerAt(s, i).Idle? && r in s.queue && r in s.indexed && Claimable(s.queue[r], s.now)
    then Some(s.(queue := s.queue[r := s.queue[r].(claim := Some(s.claims), claimedUntil := Some(s.now + p.lease), requeued := false)],
                 consumers := s.consumers[i := Holding(Held(r, s.claims, s.now, s.indexed[r]))],
                 claims := s.claims + 1))
    else None
  }

  /** The engine's answer: a write it acknowledges is stored; one that failed may have been. */
  function AnswerStep(s: State, i: nat, ok: bool, stored: bool): Option<State> {
    var c := ConsumerAt(s, i);
    if c.Sending? && (ok ==> stored)
    then Some(s.(vector := if stored then s.vector[c.held.record := c.held.text] else s.vector,
                 consumers := s.consumers[i := Answered(c.held, ok)]))
    else None
  }

  /** A timeout or a broken socket: the client only closes its end. */
  function GiveUpStep(s: State, i: nat): Option<State> {
    var c := ConsumerAt(s, i);
    if c.Sending?
    then Some(s.(consumers := s.consumers[i := Answered(c.held, false)], strays := s.strays[c.held.claim := Stray(c.held, s.now)]))
    else None
  }

  /** The engine still works on a request whose client is gone. */
  predicate Lingers(p: Policy, s: State, claim: nat) {
    claim in s.strays && s.now < s.strays[claim].since + p.linger
  }

  /** The engine stores whichever vector arrives last. */
  function LateStep(p: Policy, s: State, claim: nat): Option<State> {
    if Lingers(p, s, claim)
    then Some(s.(vector := s.vector[s.strays[claim].held.record := s.strays[claim].held.text], strays := s.strays - {claim}))
    else None
  }

  function CompleteStep(s: State, i: nat): Option<State> {
    var c := ConsumerAt(s, i);
    if !(c.Answered? && c.ok) then None
    else
      var t := s.(consumers := s.consumers[i := Idle]);
      if !Holds(s, c.held) then Some(t)
      else match Completed(s.queue[c.held.record])
        case None => Some(t.(queue := s.queue - {c.held.record}))
        case Some(row) => Some(t.(queue := s.queue[c.held.record := row]))
  }

  /** A failed write, or a completion that failed. */
  function FailStep(s: State, i: nat, base: nat, maxAttempts: nat): Option<State> {
    var c := ConsumerAt(s, i);
    if !c.Answered? then None
    else
      var t := s.(consumers := s.consumers[i := Idle]);
      if !Holds(s, c.held) then Some(t)
      else Some(t.(queue := s.queue[c.held.record := Failed(s.queue[c.held.record], s.now, base, maxAttempts)]))
  }

  /** A worker dies: a request it was waiting for is without a client. */
  function CrashStep(s: State, i: nat): State {
    var c := ConsumerAt(s, i);
    s.(consumers := s.consumers[i := Idle],
       strays := if c.Sending? then s.strays[c.held.claim := Stray(c.held, s.now)] else s.strays)
  }

  function Step(p: Policy, s: State, a: Action): Option<State> {
    match a
    case Tick(elapsed) => if MayWait(p, s, elapsed) then Some(s.(now := s.now + elapsed)) else None
    case Edit(r) => Some(Edited(s, r))
    case Queue(r) => if r in s.text then Some(Queued(s, r)) else None
    case Claim(i, r) => ClaimStep(p, s, i, r)
    case Send(i) =>
      (var c := ConsumerAt(s, i);
       if c.Holding? && s.now <= c.held.since + p.delay
       then Some(s.(consumers := s.consumers[i := Sending(c.held, s.now)])) else None)
    case Answer(i, ok, stored) => AnswerStep(s, i, ok, stored)
    case Complete(i) => CompleteStep(s, i)
    case Fail(i, base, maxAttempts) => FailStep(s, i, base, maxAttempts)
    case GiveUp(i) => GiveUpStep(s, i)
    case Late(claim) => LateStep(p, s, claim)
    case Crash(i) => Some(CrashStep(s, i))
  }

  function Play(p: Policy, s: State, actions: seq<Action>): Option<State>
    decreases actions
  {
    if actions == [] then Some(s)
    else
      match Step(p, s, actions[0])
      case None => None
      case Some(next) => Play(p, next, actions[1..])
  }

  /** Who may claim what, and what a claim leaves: a lease from now, of the text as last re-indexed. */
  lemma {:induction false} ClaimTakes(p: Policy, s: State, i: nat, r: Record)
    ensures Step(p, s, Claim(i, r)).Some? <==>
              && (i !in s.consumers || s.consumers[i] == Idle)
              && r in s.queue && r in s.indexed && s.queue[r].failedAt == None
              && (s.queue[r].claimedUntil == None || s.queue[r].claimedUntil.value < s.now)
    ensures Step(p, s, Claim(i, r)).Some? ==>
              var t := Step(p, s, Claim(i, r)).value;
              && i in t.consumers && t.consumers[i] == Holding(Held(r, s.claims, s.now, s.indexed[r]))
              && r in t.queue && t.queue[r] == Row(Some(s.claims), Some(s.now + p.lease), false, s.queue[r].attempts, None)
              && (forall q :: q != r ==> (q in t.queue <==> q in s.queue) && (q in s.queue ==> t.queue[q] == s.queue[q]))
              && t.claims == s.claims + 1
  {}

  // --- The invariant --------------------------------------------------------------------------

  /** Two engine requests in flight for one record. */
  ghost predicate TwoInFlight(s: State) {
    exists i, j ::
      && i in s.consumers && j in s.consumers && i != j
      && s.consumers[i].Sending? && s.consumers[j].Sending?
      && s.consumers[i].held.record == s.consumers[j].held.record
  }

  ghost predicate RowsKnown(s: State) {
    forall r :: r in s.queue ==>
      r in s.text && r in s.indexed && (s.queue[r].claim.Some? ==> s.queue[r].claim.value < s.claims)
  }

  /** What was re-indexed since its last edit is as it is. */
  ghost predicate IndexCurrent(s: State) {
    forall r :: r in s.text && r !in s.owed ==> r in s.indexed && s.indexed[r] == s.text[r]
  }

  ghost predicate ClaimsApart(s: State) {
    && (forall i :: i in s.consumers && !s.consumers[i].Idle? ==> s.consumers[i].held.claim < s.claims)
    && (forall i, j :: i in s.consumers && j in s.consumers && i != j && !s.consumers[i].Idle? && !s.consumers[j].Idle?
          ==> s.consumers[i].held.claim != s.consumers[j].held.claim)
  }

  ghost predicate StraysPast(s: State) {
    forall c :: c in s.strays ==> s.strays[c].since <= s.now
  }

  /** A claim within its lease is still the row's; what it holds unmarked is the text as it is. */
  ghost predicate HeldSound(p: Policy, s: State, c: Consumer) {
    !c.Idle? ==>
      && (!c.Answered? && s.now <= c.held.since + p.lease ==> Holds(s, c.held))
      && (Holds(s, c.held) ==> s.queue[c.held.record].claimedUntil == Some(c.held.since + p.lease))
      && (Holds(s, c.held) && !s.queue[c.held.record].requeued && c.held.record !in s.owed ==>
            c.held.record in s.text && s.text[c.held.record] == c.held.text)
      && (c.Sending? ==> c.sentAt <= c.held.since + p.delay && s.now <= c.sentAt + p.timeout)
  }

  ghost predicate ConsumersSound(p: Policy, s: State) {
    forall i :: i in s.consumers ==> HeldSound(p, s, s.consumers[i])
  }

  /** What every step keeps, under any policy: claims, leases and texts agree. */
  ghost predicate Sound(p: Policy, s: State) {
    RowsKnown(s) && IndexCurrent(s) && ClaimsApart(s) && StraysPast(s) && ConsumersSound(p, s)
  }

  /** Whatever left the queue, with no edit still to be queued, has the vector of its present text. */
  ghost predicate VectorsCurrent(s: State) {
    forall r :: r in s.text && r !in s.queue && r !in s.owed ==> r in s.vector && s.vector[r] == s.text[r]
  }

  /** A stored answer that still holds its row is the last vector stored. */
  ghost predicate AnswersStored(s: State) {
    forall i :: i in s.consumers && s.consumers[i].Answered? && s.consumers[i].ok && Holds(s, s.consumers[i].held) ==>
      s.consumers[i].held.record in s.vector && s.vector[s.consumers[i].held.record] == s.consumers[i].held.text
  }

  ghost predicate Current(s: State) {
    VectorsCurrent(s) && AnswersStored(s)
  }

  predicate LeaseCovers(p: Policy) {
    p.delay + p.timeout <= p.lease
  }

  lemma InitiallySound(p: Policy)
    ensures Sound(p, INITIAL) && Current(INITIAL)
  {}

  /** While a request is in flight its claim holds the row. */
  lemma SendingHolds(p: Policy, s: State, i: nat)
    requires LeaseCovers(p) && Sound(p, s) && i in s.consumers && s.consumers[i].Sending?
    ensures Holds(s, s.consumers[i].held)
  {
    assert HeldSound(p, s, s.consumers[i]);
  }

  lemma NoTwoInFlight(p: Policy, s: State)
    requires LeaseCovers(p) && Sound(p, s)
    ensures !TwoInFlight(s)
  {
    forall i, j |
      && i in s.consumers && j in s.consumers && i != j
      && s.consumers[i].Sending? && s.consumers[j].Sending?
      ensures s.consumers[i].held.record != s.consumers[j].held.record
    {
      SendingHolds(p, s, i);
      SendingHolds(p, s, j);
    }
  }

  lemma TickKeeps(p: Policy, s: State, elapsed: nat)
    requires Sound(p, s) && Step(p, s, Tick(elapsed)).Some?
    ensures Sound(p, Step(p, s, Tick(elapsed)).value)
    ensures Current(s) ==> Current(Step(p, s, Tick(elapsed)).value)
  {
    var t := s.(now := s.now + elapsed);
    forall i | i in t.consumers ensures HeldSound(p, t, t.consumers[i]) {
      assert HeldSound(p, s, s.consumers[i]);
    }
  }

  lemma EditKeeps(p: Policy, s: State, r: Record)
    requires Sound(p, s)
    ensures Sound(p, Edited(s, r))
    ensures Current(s) ==> Current(Edited(s, r))
  {
    var t := Edited(s, r);
    forall i | i in t.consumers ensures HeldSound(p, t, t.consumers[i]) {
      assert HeldSound(p, s, s.consumers[i]);
    }
  }

  lemma QueueKeeps(p: Policy, s: State, r: Record)
    requires Sound(p, s) && r in s.text
    ensures Sound(p, Queued(s, r))
    ensures Current(s) ==> Current(Queued(s, r))
  {
    var t := Queued(s, r);
    forall i | i in t.consumers ensures HeldSound(p, t, t.consumers[i]) {
      assert HeldSound(p, s, s.consumers[i]);
    }
  }

  lemma ClaimKeeps(p: Policy, s: State, i: nat, r: Record)
    requires Sound(p, s) && ClaimStep(p, s, i, r).Some?
    ensures Sound(p, ClaimStep(p, s, i, r).value)
    ensures Current(s) ==> Current(ClaimStep(p, s, i, r).value)
  {
    var t := ClaimStep(p, s, i, r).value;
    forall j | j in t.consumers ensures HeldSound(p, t, t.consumers[j]) {
      if j != i {
        assert HeldSound(p, s, s.consumers[j]);
      }
    }
  }

  lemma SendKeeps(p: Policy, s: State, i: nat)
    requires Sound(p, s) && Step(p, s, Send(i)).Some?
    ensures Sound(p, Step(p, s, Send(i)).value)
    ensures Current(s) ==> Current(Step(p, s, Send(i)).value)
  {
    var t := Step(p, s, Send(i)).value;
    forall j | j in t.consumers ensures HeldSound(p, t, t.consumers[j]) {
      assert HeldSound(p, s, s.consumers[j]);
    }
  }

  /** A consumer's vector reaches the engine; while leases cover requests, it then holds the row. */
  lemma StoredKeeps(p: Policy, s: State, i: nat, ok: bool)
    requires Sound(p, s) && i in s.consumers && s.consumers[i].Sending?
    ensures var held := s.consumers[i].held;
            var t := s.(vector := s.vector[held.record := held.text], consumers := s.consumers[i := Answered(held, ok)]);
            Sound(p, t) && (LeaseCovers(p) && Current(s) ==> Current(t))
  {
    var held := s.consumers[i].held;
    var t := s.(vector := s.vector[held.record := held.text], consumers := s.consumers[i := Answered(held, ok)]);
    if LeaseCovers(p) {
      SendingHolds(p, s, i);
    }
    forall j | j in t.consumers ensures HeldSound(p, t, t.consumers[j]) {
      assert HeldSound(p, s, s.consumers[j]);
    }
  }

  /** A consumer leaves its request or its claim without a vector; its request may be left to the engine. */
  lemma UnstoredKeeps(p: Policy, s: State, i: nat, c: Consumer, strays: map<nat, Stray>)
    requires Sound(p, s)
    requires c == Idle || (i in s.consumers && s.consumers[i].Sending? && c == Answered(s.consumers[i].held, false))
    requires forall k :: k in strays ==> strays[k].since <= s.now
    ensures Sound(p, s.(consumers := s.consumers[i := c], strays := strays))
    ensures Current(s) ==> Current(s.(consumers := s.consumers[i := c], strays := strays))
  {
    var t := s.(consumers := s.consumers[i := c], strays := strays);
    UnstoredCurrent(s, t, i, c);
    hide VectorsCurrent, AnswersStored;
    forall j | j in t.consumers ensures HeldSound(p, t, t.consumers[j]) {
      if j in s.consumers {
        assert HeldSound(p, s, s.consumers[j]);
      }
    }
  }

  lemma UnstoredCurrent(s: State, t: State, i: nat, c: Consumer)
    requires c.Idle? || (c.Answered? && !c.ok)
    requires t.queue == s.queue && t.text == s.text && t.owed == s.owed && t.vector == s.vector
    requires t.consumers == s.consumers[i := c]
    ensures Current(s) ==> Current(t)
  {}

  lemma ReleasedKeeps(p: Policy, s: State, i: nat, row: Row)
    requires Sound(p, s) && i in s.consumers && s.consumers[i].Answered? && Holds(s, s.consumers[i].held)
    requires row.claim == None
    ensures var t := s.(consumers := s.consumers[i := Idle], queue := s.queue[s.consumers[i].held.record := row]);
            Sound(p, t) && (Current(s) ==> Current(t))
  {
    var t := s.(consumers := s.consumers[i := Idle], queue := s.queue[s.consumers[i].held.record := row]);
    forall j | j in t.consumers ensures HeldSound(p, t, t.consumers[j]) {
      assert HeldSound(p, s, s.consumers[j]);
    }
  }

  lemma RemovedKeeps(p: Policy, s: State, i: nat)
    requires Sound(p, s) && i in s.consumers && s.consumers[i].Answered? && s.consumers[i].ok && Holds(s, s.consumers[i].held)
    requires !s.queue[s.consumers[i].held.record].requeued
    ensures var t := s.(consumers := s.consumers[i := Idle], queue := s.queue - {s.consumers[i].held.record});
            Sound(p, t) && (Current(s) ==> Current(t))
  {
    var t := s.(consumers := s.consumers[i := Idle], queue := s.queue - {s.consumers[i].held.record});
    assert HeldSound(p, s, s.consumers[i]);
    forall j | j in t.consumers ensures HeldSound(p, t, t.consumers[j]) {
      assert HeldSound(p, s, s.consumers[j]);
    }
  }

  /** A late store changes nothing but a vector. */
  lemma LateKeeps(p: Policy, s: State, claim: nat)
    requires Sound(p, s) && LateStep(p, s, claim).Some?
    ensures Sound(p, LateStep(p, s, claim).value)
  {
    var t := LateStep(p, s, claim).value;
    forall i | i in t.consumers ensures HeldSound(p, t, t.consumers[i]) {
      assert HeldSound(p, s, s.consumers[i]);
    }
  }

  /** Every step keeps claims, leases and texts in agreement; and, but for late stores, the vectors current. */
  lemma StepKeeps(p: Policy, s: State, a: Action)
    requires Sound(p, s) && Step(p, s, a).Some?
    ensures Sound(p, Step(p, s, a).value)
    ensures LeaseCovers(p) && Current(s) && !a.Late? ==> Current(Step(p, s, a).value)
  {
    hide Sound, Current, LeaseCovers, Live, Claimable, Enqueued, Edited, Queued, ClaimStep, MayWait, Backoff, LateStep;
    match a
    case Tick(elapsed) => TickKeeps(p, s, elapsed);
    case Edit(r) => EditKeeps(p, s, r);
    case Queue(r) => QueueKeeps(p, s, r);
    case Claim(i, r) => ClaimKeeps(p, s, i, r);
    case Send(i) => SendKeeps(p, s, i);
    case Answer(i, ok, stored) =>
      if stored {
        StoredKeeps(p, s, i, ok);
      } else {
        StraysStay(p, s);
        UnstoredKeeps(p, s, i, Answered(ConsumerAt(s, i).held, false), s.strays);
      }
    case GiveUp(i) =>
      var held := ConsumerAt(s, i).held;
      StraysGrow(p, s, held);
      UnstoredKeeps(p, s, i, Answered(held, false), s.strays[held.claim := Stray(held, s.now)]);
    case Late(claim) => LateKeeps(p, s, claim);
    case Complete(i) =>
      var c := ConsumerAt(s, i);
      if !Holds(s, c.held) {
        StraysStay(p, s);
        UnstoredKeeps(p, s, i, Idle, s.strays);
      } else if s.queue[c.held.record].requeued {
        ReleasedKeeps(p, s, i, Completed(s.queue[c.held.record]).value);
      } else {
        RemovedKeeps(p, s, i);
      }
    case Fail(i, base, maxAttempts) =>
      var c := ConsumerAt(s, i);
      if !Holds(s, c.held) {
        StraysStay(p, s);
        UnstoredKeeps(p, s, i, Idle, s.strays);
      } else {
        ReleasedKeeps(p, s, i, Failed(s.queue[c.held.record], s.now, base, maxAttempts));
      }
    case Crash(i) =>
      var c := ConsumerAt(s, i);
      if c.Sending? {
        StraysGrow(p, s, c.held);
        UnstoredKeeps(p, s, i, Idle, s.strays[c.held.claim := Stray(c.held, s.now)]);
      } else {
        StraysStay(p, s);
        UnstoredKeeps(p, s, i, Idle, s.strays);
      }
  }

  lemma StraysGrow(p: Policy, s: State, held: Held)
    requires Sound(p, s)
    ensures var strays := s.strays[held.claim := Stray(held, s.now)];
            forall k :: k in strays ==> strays[k].since <= s.now
  {}

  lemma StraysStay(p: Policy, s: State)
    requires Sound(p, s)
    ensures forall k :: k in s.strays ==> s.strays[k].since <= s.now
  {}

  // --- Whole runs -----------------------------------------------------------------------------

  /** An engine that stops with its client stores nothing late. */
  lemma NoneLate(p: Policy, s: State, a: Action)
    requires Sound(p, s) && p.linger == 0 && Step(p, s, a).Some?
    ensures !a.Late?
  {
    hide ConsumersSound, RowsKnown, ClaimsApart;
  }

  lemma {:induction false} RunKeeps(p: Policy, s: State, actions: seq<Action>)
    requires Sound(p, s) && Play(p, s, actions).Some?
    ensures Sound(p, Play(p, s, actions).value)
    ensures LeaseCovers(p) && p.linger == 0 && Current(s) ==> Current(Play(p, s, actions).value)
    decreases actions
  {
    if actions != [] {
      hide Step, Sound, Current, LeaseCovers;
      StepKeeps(p, s, actions[0]);
      if p.linger == 0 {
        NoneLate(p, s, actions[0]);
      }
      RunKeeps(p, Step(p, s, actions[0]).value, actions[1..]);
    }
  }

  /** No interleaving ever has two requests in flight for one record. */
  ghost predicate NeverTwo(p: Policy) {
    forall actions :: Play(p, INITIAL, actions).Some? ==> !TwoInFlight(Play(p, INITIAL, actions).value)
  }

  /** A slow consumer's lease lapses while its request is in flight. */
  function Lapsing(p: Policy): seq<Action> {
    [Edit(0), Queue(0), Claim(0, 0), Tick(p.delay), Send(0), Tick(if p.lease < p.delay then 0 else p.lease + 1 - p.delay)]
  }

  /** Another consumer claims the record and sends it too. */
  const OVERTAKING: seq<Action> := [Claim(1, 0), Send(1)]

  /** The record is edited, embedded anew and done with; then the slow request is answered. */
  const LATE_ANSWER: seq<Action> := [
    Edit(0), Queue(0), Claim(1, 0), Send(1), Answer(1, true, true), Complete(1), Answer(0, true, true)]

  /** The state a lapsed lease leaves: its consumer still waits for the engine. */
  function Lapsed(p: Policy): State {
    var now := if p.lease < p.delay then p.delay else p.lease + 1;
    State(now, map[0 := FRESH.(claim := Some(0), claimedUntil := Some(p.lease))], map[0 := 0], map[0 := 0],
          map[], {}, map[0 := Sending(Held(0, 0, 0, 0), p.delay)], map[], 1)
  }

  lemma {:induction false} PlayConcat(p: Policy, s: State, a: seq<Action>, b: seq<Action>)
    requires Play(p, s, a).Some?
    ensures Play(p, s, a + b) == Play(p, Play(p, s, a).value, b)
    decreases a
  {
    hide Step;
    if a == [] {
      assert a + b == b;
    } else {
      assert (a + b)[1..] == a[1..] + b;
      PlayConcat(p, Step(p, s, a[0]).value, a[1..], b);
    }
  }

  /** A run is known by the states it passes through. */
  lemma {:induction false} PlayThrough(p: Policy, states: seq<State>, actions: seq<Action>)
    requires |states| == |actions| + 1
    requires forall i :: 0 <= i < |actions| ==> Step(p, states[i], actions[i]) == Some(states[i + 1])
    ensures Play(p, states[0], actions) == Some(states[|actions|])
  {
    hide Step;
    if actions != [] {
      assert Step(p, states[0], actions[0]) == Some(states[1]);
      PlayThrough(p, states[1..], actions[1..]);
    }
  }

  lemma LeaseLapses(p: Policy)
    requires !LeaseCovers(p)
    ensures Play(p, INITIAL, Lapsing(p)) == Some(Lapsed(p))
  {
    var first := Held(0, 0, 0, 0);
    var s0 := INITIAL.(text := map[0 := 0], owed := {0});
    var s1 := s0.(queue := map[0 := FRESH], indexed := map[0 := 0], owed := {});
    var s2 := s1.(queue := map[0 := FRESH.(claim := Some(0), claimedUntil := Some(p.lease))],
                  consumers := map[0 := Holding(first)], claims := 1);
    var s3 := s2.(now := p.delay);
    var s4 := s3.(consumers := map[0 := Sending(first, p.delay)]);
    var s5 := Lapsed(p);
    var a := Lapsing(p);
    FirstEdit(p, s0);
    FirstQueue(p, s0, s1);
    FirstClaim(p, s1, s2);
    assert Step(p, s2, a[3]) == Some(s3);
    FirstSend(p, s3, s4);
    assert Step(p, s4, a[5]) == Some(s5);
    hide Step, Play;
    PlayThrough(p, [INITIAL, s0, s1, s2, s3, s4, s5], a);
  }

  /** When the lease does not cover the request, a second consumer embeds the record beside the first. */
  lemma {:induction false} SlowConsumerOvertaken(p: Policy)
    requires !LeaseCovers(p)
    ensures Play(p, INITIAL, Lapsing(p) + OVERTAKING).Some?
    ensures TwoInFlight(Play(p, INITIAL, Lapsing(p) + OVERTAKING).value)
  {
    var s5, a := Lapsed(p), OVERTAKING;
    var second := Held(0, 1, s5.now, 0);
    var s6 := s5.(queue := map[0 := FRESH.(claim := Some(1), claimedUntil := Some(s5.now + p.lease))],
                  consumers := map[0 := s5.consumers[0], 1 := Holding(second)], claims := 2);
    var s7 := s6.(consumers := map[0 := s5.consumers[0], 1 := Sending(second, s5.now)]);
    LeaseLapses(p);
    SecondClaim(p, s5, s6);
    SecondSend(p, s6, s7);
    hide Step, Lapsing, Lapsed, Play;
    PlayThrough(p, [s5, s6, s7], a);
    PlayConcat(p, INITIAL, Lapsing(p), a);
    assert s7.consumers[0].Sending? && s7.consumers[1].Sending?;
  }

  /** The record has left the queue with nothing to be queued, and the engine holds another text's vector. */
  ghost predicate StaleVector(s: State) {
    exists r :: r in s.text && r !in s.queue && r !in s.owed && !(r in s.vector && s.vector[r] == s.text[r])
  }

  /** When the lease does not cover the request, the slow answer overwrites the vector of the newer text. */
  lemma {:induction false} SlowAnswerOverwrites(p: Policy)
    requires !LeaseCovers(p)
    ensures Play(p, INITIAL, Lapsing(p) + LATE_ANSWER).Some?
    ensures StaleVector(Play(p, INITIAL, Lapsing(p) + LATE_ANSWER).value)
  {
    var t0, a := Lapsed(p), LATE_ANSWER;
    var slow, second := t0.consumers[0], Held(0, 1, t0.now, 1);
    var t1 := t0.(text := map[0 := 1], owed := {0});
    var t2 := t1.(queue := map[0 := FRESH], indexed := map[0 := 1], owed := {});
    var t3 := t2.(queue := map[0 := FRESH.(claim := Some(1), claimedUntil := Some(t0.now + p.lease))],
                  consumers := map[0 := slow, 1 := Holding(second)], claims := 2);
    var t4 := t3.(consumers := map[0 := slow, 1 := Sending(second, t0.now)]);
    var t5 := t4.(vector := map[0 := 1], consumers := map[0 := slow, 1 := Answered(second, true)]);
    var t6 := t5.(queue := map[], consumers := map[0 := slow, 1 := Idle]);
    var t7 := t6.(vector := map[0 := 0], consumers := map[0 := Answered(slow.held, true), 1 := Idle]);
    LeaseLapses(p);
    Requeued(p, t0, t1, t2);
    ClaimedAnew(p, t2, t3, t4);
    AnsweredAndDone(p, t4, t5, t6);
    AnsweredLate(p, t6, t7);
    hide Step, Lapsing, Lapsed, Play;
    PlayThrough(p, [t0, t1, t2, t3, t4, t5, t6, t7], a);
    PlayConcat(p, INITIAL, Lapsing(p), a);
  }

  // --- The engine goes on ---------------------------------------------------------------------

  /** An edit during a request; then its client gives up, and another consumer sends the new text. */
  const ABANDONED: seq<Action> := [
    Edit(0), Queue(0), Claim(0, 0), Send(0), Edit(0), Queue(0), GiveUp(0), Fail(0, 15, 8), Claim(1, 0), Send(1)]

  /** The new text's vector is stored and the record done with; then the engine stores the old one's. */
  const LATE_STORE: seq<Action> := [Answer(1, true, true), Complete(1), Late(0)]

  /** The first request is without a client, the second in flight. */
  function Abandoned(p: Policy): State {
    State(0, map[0 := FRESH.(claim := Some(1), claimedUntil := Some(p.lease))], map[0 := 1], map[0 := 1],
          map[], {}, map[0 := Idle, 1 := Sending(Held(0, 1, 0, 1), 0)], map[0 := Stray(Held(0, 0, 0, 0), 0)], 2)
  }

  lemma ClientAbandons(p: Policy)
    ensures Play(p, INITIAL, ABANDONED) == Some(Abandoned(p))
  {
    var first, second := Held(0, 0, 0, 0), Held(0, 1, 0, 1);
    var s0 := INITIAL.(text := map[0 := 0], owed := {0});
    var s1 := s0.(queue := map[0 := FRESH], indexed := map[0 := 0], owed := {});
    var s2 := s1.(queue := map[0 := FRESH.(claim := Some(0), claimedUntil := Some(p.lease))],
                  consumers := map[0 := Holding(first)], claims := 1);
    var s3 := s2.(consumers := map[0 := Sending(first, 0)]);
    var s4 := s3.(text := map[0 := 1], owed := {0});
    var s5 := s4.(queue := map[0 := Row(Some(0), Some(p.lease), true, 0, None)], indexed := map[0 := 1], owed := {});
    var s6 := s5.(consumers := map[0 := Answered(first, false)], strays := map[0 := Stray(first, 0)]);
    var s7 := s6.(queue := map[0 := FRESH], consumers := map[0 := Idle]);
    var s8 := s7.(queue := map[0 := FRESH.(claim := Some(1), claimedUntil := Some(p.lease))],
                  consumers := map[0 := Idle, 1 := Holding(second)], claims := 2);
    var s9 := Abandoned(p);
    FirstEdit(p, s0);
    FirstQueue(p, s0, s1);
    FirstClaim(p, s1, s2);
    FirstSend(p, s2, s3);
    EditedMeanwhile(p, s3, s4, s5);
    GivenUp(p, s5, s6, s7);
    ClaimedAnew(p, s7, s8, s9);
    hide Step, Play, Abandoned;
    PlayThrough(p, [INITIAL, s0, s1, s2, s3, s4, s5, s6, s7, s8, s9], ABANDONED);
  }

  /** The edit is queued while the claim is live: the row is only marked. */
  lemma EditedMeanwhile(p: Policy, s: State, t: State, u: State)
    requires s.now == 0 && s.text == map[0 := 0] && s.indexed == map[0 := 0] && s.owed == {}
    requires s.queue == map[0 := FRESH.(claim := Some(0), claimedUntil := Some(p.lease))]
    requires t == s.(text := map[0 := 1], owed := {0})
    requires u == t.(queue := map[0 := Row(Some(0), Some(p.lease), true, 0, None)], indexed := map[0 := 1], owed := {})
    ensures Step(p, s, Edit(0)) == Some(t) && Step(p, t, Queue(0)) == Some(u)
  {
    assert s.text[0 := 1] == t.text && s.owed + {0} == t.owed;
    assert t.queue[0 := u.queue[0]] == u.queue && t.indexed[0 := 1] == u.indexed && t.owed - {0} == u.owed;
  }

  lemma GivenUp(p: Policy, s: State, t: State, u: State)
    requires s.now == 0 && s.queue == map[0 := Row(Some(0), Some(p.lease), true, 0, None)]
    requires s.consumers == map[0 := Sending(Held(0, 0, 0, 0), 0)] && s.strays == map[]
    requires t == s.(consumers := map[0 := Answered(Held(0, 0, 0, 0), false)], strays := map[0 := Stray(Held(0, 0, 0, 0), 0)])
    requires u == t.(queue := map[0 := FRESH], consumers := map[0 := Idle])
    ensures Step(p, s, GiveUp(0)) == Some(t) && Step(p, t, Fail(0, 15, 8)) == Some(u)
  {
    assert s.consumers[0 := t.consumers[0]] == t.consumers && s.strays[0 := t.strays[0]] == t.strays;
    assert t.consumers[0 := Idle] == u.consumers && t.queue[0 := FRESH] == u.queue;
  }

  lemma StoredLate(p: Policy, s: State, t: State)
    requires s.now == 0 < p.linger && s.vector == map[0 := 1] && s.strays == map[0 := Stray(Held(0, 0, 0, 0), 0)]
    requires t == s.(vector := map[0 := 0], strays := map[])
    ensures Step(p, s, Late(0)) == Some(t)
  {
    assert s.vector[0 := 0] == t.vector && s.strays - {0} == t.strays;
  }

  /** Whatever the lease, an engine that goes on after its client overwrites the vector of the newer text. */
  lemma {:induction false} LateStoreOverwrites(p: Policy)
    requires p.linger > 0
    ensures Play(p, INITIAL, ABANDONED + LATE_STORE).Some?
    ensures StaleVector(Play(p, INITIAL, ABANDONED + LATE_STORE).value)
  {
    var s0 := Abandoned(p);
    var second := s0.consumers[1].held;
    var s1 := s0.(vector := map[0 := 1], consumers := map[0 := Idle, 1 := Answered(second, true)]);
    var s2 := s1.(queue := map[], consumers := map[0 := Idle, 1 := Idle]);
    var s3 := s2.(vector := map[0 := 0], strays := map[]);
    AnsweredAndDone(p, s0, s1, s2);
    StoredLate(p, s2, s3);
    hide Step, Abandoned, Play;
    ClientAbandons(p);
    PlayThrough(p, [s0, s1, s2, s3], LATE_STORE);
    PlayConcat(p, INITIAL, ABANDONED, LATE_STORE);
  }

  /** The engine works on the request of this claim: a client waits for it, or it goes on without one. */
  ghost predicate AtEngine(p: Policy, s: State, claim: nat, r: Record) {
    || (exists i :: i in s.consumers && s.consumers[i].Sending?
                    && s.consumers[i].held.claim == claim && s.consumers[i].held.record == r)
    || (Lingers(p, s, claim) && s.strays[claim].held.record == r)
  }

  /** The engine works on two requests for one record. */
  ghost predicate TwoAtEngine(p: Policy, s: State) {
    exists c, d, r :: c != d && AtEngine(p, s, c, r) && AtEngine(p, s, d, r)
  }

  /** No interleaving ever has the engine at two requests for one record. */
  ghost predicate EngineNeverTwo(p: Policy) {
    forall actions :: Play(p, INITIAL, actions).Some? ==> !TwoAtEngine(p, Play(p, INITIAL, actions).value)
  }

  lemma AbandonedIsTwo(p: Policy)
    requires p.linger > 0
    ensures TwoAtEngine(p, Abandoned(p))
  {
    var s := Abandoned(p);
    assert s.consumers[1].Sending?;
    assert AtEngine(p, s, 0, 0) && AtEngine(p, s, 1, 0);
  }

  lemma WaitingIsAtEngine(p: Policy, s: State)
    requires Sound(p, s) && TwoInFlight(s)
    ensures TwoAtEngine(p, s)
  {
    var i, j :|
      && i in s.consumers && j in s.consumers && i != j
      && s.consumers[i].Sending? && s.consumers[j].Sending?
      && s.consumers[i].held.record == s.consumers[j].held.record;
    assert AtEngine(p, s, s.consumers[i].held.claim, s.consumers[i].held.record);
    assert AtEngine(p, s, s.consumers[j].held.claim, s.consumers[j].held.record);
  }

  lemma AtEngineIsWaiting(p: Policy, s: State)
    requires Sound(p, s) && p.linger == 0 && TwoAtEngine(p, s)
    ensures TwoInFlight(s)
  {
    hide RowsKnown, IndexCurrent, ClaimsApart, ConsumersSound;
  }

  lemma Requeued(p: Policy, t0: State, t1: State, t2: State)
    requires t0 == Lapsed(p)
    requires t1 == t0.(text := map[0 := 1], owed := {0}) && t2 == t1.(queue := map[0 := FRESH], indexed := map[0 := 1], owed := {})
    ensures Step(p, t0, Edit(0)) == Some(t1) && Step(p, t1, Queue(0)) == Some(t2)
  {
    assert t0.text[0 := 1] == t1.text && t0.owed + {0} == t1.owed;
    assert t1.queue[0 := FRESH] == t2.queue && t1.indexed[0 := 1] == t2.indexed && t1.owed - {0} == t2.owed;
  }

  lemma ClaimedAnew(p: Policy, t2: State, t3: State, t4: State)
    requires t2.queue == map[0 := FRESH] && t2.indexed == map[0 := 1] && t2.claims == 1 && t2.consumers.Keys == {0}
    requires var second := Held(0, 1, t2.now, 1);
             && t3 == t2.(queue := map[0 := FRESH.(claim := Some(1), claimedUntil := Some(t2.now + p.lease))],
                          consumers := map[0 := t2.consumers[0], 1 := Holding(second)], claims := 2)
             && t4 == t3.(consumers := map[0 := t2.consumers[0], 1 := Sending(second, t2.now)])
    ensures Step(p, t2, Claim(1, 0)) == Some(t3) && Step(p, t3, Send(1)) == Some(t4)
  {
    assert t2.queue[0 := t3.queue[0]] == t3.queue;
    assert t2.consumers[1 := t3.consumers[1]] == t3.consumers;
    assert t3.consumers[1 := t4.consumers[1]] == t4.consumers;
  }

  lemma AnsweredAndDone(p: Policy, t4: State, t5: State, t6: State)
    requires t4.consumers.Keys == {0, 1} && t4.vector == map[] && t4.queue.Keys == {0}
    requires t4.consumers[1].Sending? && t4.consumers[1].held.record == 0 && t4.consumers[1].held.text == 1
    requires t4.queue[0].claim == Some(t4.consumers[1].held.claim) && !t4.queue[0].requeued
    requires t5 == t4.(vector := map[0 := 1], consumers := map[0 := t4.consumers[0], 1 := Answered(t4.consumers[1].held, true)])
    requires t6 == t5.(queue := map[], consumers := map[0 := t4.consumers[0], 1 := Idle])
    ensures Step(p, t4, Answer(1, true, true)) == Some(t5) && Step(p, t5, Complete(1)) == Some(t6)
  {
    assert t4.vector[0 := 1] == t5.vector;
    assert t4.consumers[1 := t5.consumers[1]] == t5.consumers;
    assert t5.consumers[1 := Idle] == t6.consumers;
    assert t5.queue - {0} == t6.queue;
  }

  lemma AnsweredLate(p: Policy, t6: State, t7: State)
    requires t6.consumers.Keys == {0, 1} && t6.vector == map[0 := 1]
    requires t6.consumers[0].Sending? && t6.consumers[0].held.record == 0 && t6.consumers[0].held.text == 0
    requires t7 == t6.(vector := map[0 := 0], consumers := map[0 := Answered(t6.consumers[0].held, true), 1 := t6.consumers[1]])
    ensures Step(p, t6, Answer(0, true, true)) == Some(t7)
  {
    assert t6.vector[0 := 0] == t7.vector;
    assert t6.consumers[0 := t7.consumers[0]] == t7.consumers;
  }

  lemma FirstEdit(p: Policy, t: State)
    requires t == INITIAL.(text := map[0 := 0], owed := {0})
    ensures Step(p, INITIAL, Edit(0)) == Some(t)
  {
    assert INITIAL.text[0 := 0] == t.text;
    assert INITIAL.owed + {0} == t.owed;
  }

  lemma FirstQueue(p: Policy, s: State, t: State)
    requires s == INITIAL.(text := map[0 := 0], owed := {0})
    requires t == s.(queue := map[0 := FRESH], indexed := map[0 := 0], owed := {})
    ensures Step(p, s, Queue(0)) == Some(t)
  {
    assert s.owed - {0} == {};
    assert s.queue[0 := FRESH] == t.queue && s.indexed[0 := 0] == t.indexed;
  }

  lemma FirstClaim(p: Policy, s: State, t: State)
    requires s == INITIAL.(queue := map[0 := FRESH], text := map[0 := 0], indexed := map[0 := 0])
    requires t == s.(queue := map[0 := FRESH.(claim := Some(0), claimedUntil := Some(p.lease))],
                     consumers := map[0 := Holding(Held(0, 0, 0, 0))], claims := 1)
    ensures Step(p, s, Claim(0, 0)) == Some(t)
  {
    assert s.queue[0 := t.queue[0]] == t.queue;
    assert s.consumers[0 := t.consumers[0]] == t.consumers;
  }

  lemma FirstSend(p: Policy, s: State, t: State)
    requires s.consumers == map[0 := Holding(Held(0, 0, 0, 0))] && s.now <= p.delay
    requires t == s.(consumers := map[0 := Sending(Held(0, 0, 0, 0), s.now)])
    ensures Step(p, s, Send(0)) == Some(t)
  {
    assert s.consumers[0 := t.consumers[0]] == t.consumers;
  }

  lemma SecondClaim(p: Policy, s: State, t: State)
    requires s.queue == map[0 := FRESH.(claim := Some(0), claimedUntil := Some(p.lease))] && s.indexed == map[0 := 0]
    requires s.consumers.Keys == {0} && s.claims == 1 && p.lease < s.now
    requires t == s.(queue := map[0 := FRESH.(claim := Some(1), claimedUntil := Some(s.now + p.lease))],
                     consumers := map[0 := s.consumers[0], 1 := Holding(Held(0, 1, s.now, 0))], claims := 2)
    ensures Step(p, s, Claim(1, 0)) == Some(t)
  {
    assert s.queue[0 := t.queue[0]] == t.queue;
    assert s.consumers[1 := t.consumers[1]] == t.consumers;
  }

  lemma SecondSend(p: Policy, s: State, t: State)
    requires s.consumers.Keys == {0, 1} && s.consumers[1] == Holding(Held(0, 1, s.now, 0))
    requires t == s.(consumers := map[0 := s.consumers[0], 1 := Sending(Held(0, 1, s.now, 0), s.now)])
    ensures Step(p, s, Send(1)) == Some(t)
  {
    assert s.consumers[1 := t.consumers[1]] == t.consumers;
  }

  /**
   No record ever has two engine requests in flight exactly when the lease covers the longest wait
   before a request and the request itself.
   */
  lemma {:induction false} LeaseExact(p: Policy)
    ensures NeverTwo(p) <==> LeaseCovers(p)
  {
    hide Play, LeaseCovers, TwoInFlight;
    if LeaseCovers(p) {
      forall actions | Play(p, INITIAL, actions).Some?
        ensures !TwoInFlight(Play(p, INITIAL, actions).value)
      {
        InitiallySound(p);
        RunKeeps(p, INITIAL, actions);
        NoTwoInFlight(p, Play(p, INITIAL, actions).value);
      }
    } else {
      SlowConsumerOvertaken(p);
    }
  }

  /** The engine is never at two requests for one record exactly when, besides, it stops with its client. */
  lemma {:induction false} EngineExact(p: Policy)
    ensures EngineNeverTwo(p) <==> LeaseCovers(p) && p.linger == 0
  {
    hide Play, LeaseCovers, TwoInFlight, TwoAtEngine, Sound;
    InitiallySound(p);
    if p.linger > 0 {
      ClientAbandons(p);
      AbandonedIsTwo(p);
    } else if LeaseCovers(p) {
      forall actions | Play(p, INITIAL, actions).Some? ensures !TwoAtEngine(p, Play(p, INITIAL, actions).value) {
        RunKeeps(p, INITIAL, actions);
        NoTwoInFlight(p, Play(p, INITIAL, actions).value);
        if TwoAtEngine(p, Play(p, INITIAL, actions).value) {
          AtEngineIsWaiting(p, Play(p, INITIAL, actions).value);
        }
      }
    } else {
      SlowConsumerOvertaken(p);
      RunKeeps(p, INITIAL, Lapsing(p) + OVERTAKING);
      WaitingIsAtEngine(p, Play(p, INITIAL, Lapsing(p) + OVERTAKING).value);
    }
  }

  /** No run ever leaves a record outside the queue with the vector of another text. */
  ghost predicate NeverStale(p: Policy) {
    forall actions :: Play(p, INITIAL, actions).Some? ==> !StaleVector(Play(p, INITIAL, actions).value)
  }

  /**
   Whatever edits, lapses and crashes come between, a record that left the queue with no edit still to
   be queued has the vector of its present text, exactly when the lease covers the longest wait before a
   request and the request itself, and the engine stores nothing after its client gave up.
   */
  lemma {:induction false} VectorExact(p: Policy)
    ensures NeverStale(p) <==> LeaseCovers(p) && p.linger == 0
  {
    hide Play, LeaseCovers, Sound, AnswersStored;
    if p.linger > 0 {
      LateStoreOverwrites(p);
    } else if LeaseCovers(p) {
      forall actions | Play(p, INITIAL, actions).Some?
        ensures !StaleVector(Play(p, INITIAL, actions).value)
      {
        InitiallySound(p);
        RunKeeps(p, INITIAL, actions);
      }
    } else {
      SlowAnswerOverwrites(p);
    }
  }

  /** What `drainEmbeddings` refuses to start without. */
  predicate AcceptsLease(leaseSeconds: nat, engineTimeoutMs: nat) {
    engineTimeoutMs > 0 && leaseSeconds * 1000 >= 2 * engineTimeoutMs
  }

  /**
   While each request starts within one engine timeout of its claim, an accepted lease is enough for one
   waiting client per record; for one request at the engine, and for current vectors, exactly when the
   engine stops with its client.
   */
  lemma {:induction false} AcceptedLeaseIsSafe(leaseSeconds: nat, engineTimeoutMs: nat, delay: nat, linger: nat)
    requires AcceptsLease(leaseSeconds, engineTimeoutMs) && delay <= engineTimeoutMs
    ensures var p := Policy(1000 * leaseSeconds, engineTimeoutMs, delay, linger);
            NeverTwo(p) && (EngineNeverTwo(p) <==> linger == 0) && (NeverStale(p) <==> linger == 0)
  {
    var p := Policy(1000 * leaseSeconds, engineTimeoutMs, delay, linger);
    LeaseExact(p);
    EngineExact(p);
    VectorExact(p);
  }

  /**
   What is accepted is neither more nor less than is needed: the leases under which no record has two waiting
   clients, whatever the wait of at most one engine timeout between a claim and its request.
   */
  lemma {:induction false} AcceptedExactly(leaseSeconds: nat, engineTimeoutMs: nat)
    ensures AcceptsLease(leaseSeconds, engineTimeoutMs) <==>
            && engineTimeoutMs > 0
            && forall delay: nat :: delay <= engineTimeoutMs ==>
                 NeverTwo(Policy(1000 * leaseSeconds, engineTimeoutMs, delay, 0))
  {
    hide NeverTwo;
    forall delay: nat | delay <= engineTimeoutMs
      ensures NeverTwo(Policy(1000 * leaseSeconds, engineTimeoutMs, delay, 0)) <==>
              delay + engineTimeoutMs <= 1000 * leaseSeconds
    {
      LeaseExact(Policy(1000 * leaseSeconds, engineTimeoutMs, delay, 0));
    }
    if !AcceptsLease(leaseSeconds, engineTimeoutMs) && engineTimeoutMs > 0 {
      assert !NeverTwo(Policy(1000 * leaseSeconds, engineTimeoutMs, engineTimeoutMs, 0));
    }
  }
}
